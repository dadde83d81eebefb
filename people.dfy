/**
 * The record classes `Person` and `Student` (Assignment07.py:28-88).
 *
 * Both names go through a setter that stores the value only when it passes
 * `isalpha`, and otherwise raises `ValueError`; the course name has a setter
 * that stores any string. `Student` extends `Person`; here a student is
 * composed of the person whose names it carries. `__str__` renders the
 * record as a sentence, and the lemmas show that sentence can be read back:
 * distinct valid students print differently.
 */
module People {
  import opened Wrappers
  import opened Names

  /** The words `Student.__str__` puts between the person's sentence and the course, after a space. */
  const Tag: string := "is enrolled in "

  /** `Person.__str__`: the first name, a space, the last name. */
  function PersonText(first: string, last: string): string
  {
    first + " " + last
  }

  /** `Student.__str__`: the person's sentence followed by the course. */
  function StudentText(first: string, last: string, course: string): string
  {
    PersonText(first, last) + " " + Tag + course
  }

  /** The position of the first space in `s`, or `|s|` when there is none. */
  function SpaceIndex(s: string): (i: nat)
    ensures i <= |s|
    ensures i < |s| ==> s[i] == ' '
    ensures ' ' !in s[..i]
  {
    if s == [] || s[0] == ' ' then 0
    else
      var j := SpaceIndex(s[1..]);
      assert s[..1 + j] == [s[0]] + s[1..][..j];
      1 + j
  }

  /** Splits `s` into the word before its first space and the text after that space. */
  function SplitWord(s: string): (r: Option<(string, string)>)
    ensures r.Some? <==> ' ' in s
    ensures r.Some? ==> ' ' !in r.value.0 && s == r.value.0 + " " + r.value.1
  {
    var i := SpaceIndex(s);
    if i < |s| then
      assert s == s[..i] + " " + s[i + 1..];
      Some((s[..i], s[i + 1..]))
    else
      None
  }

  /** Splitting a word, a space and any text gives back the word and the text. */
  lemma SplitWordAfter(w: string, rest: string)
    requires ' ' !in w
    ensures SplitWord(w + " " + rest) == Some((w, rest))
  {
    var s := w + " " + rest;
    assert s[|w|] == ' ';
    assert s[..|w|] == w;
    var i := SpaceIndex(s);
    assert s[..i] == w;
    assert s[i + 1..] == rest;
  }

  /** Reads a `Student.__str__` sentence back into its first name, last name and course. */
  function ParseStudentText(t: string): Option<(string, string, string)>
  {
    var a := SplitWord(t);
    if a.None? then None
    else
      var b := SplitWord(a.value.1);
      if b.None? then None
      else
        var tail := b.value.1;
        if Tag <= tail then Some((a.value.0, b.value.0, tail[|Tag|..])) else None
  }

  /** A person's sentence splits back into exactly the two stored names. */
  lemma {:induction false} PersonTextRoundTrip(first: string, last: string)
    ensures IsAlpha(first) ==> SplitWord(PersonText(first, last)) == Some((first, last))
  {
    if IsAlpha(first) {
      SplitWordAfter(first, last);
    }
  }

  /** A valid student's sentence parses back into exactly its three fields. */
  lemma StudentTextRoundTrip(first: string, last: string, course: string)
    ensures IsAlpha(first) && IsAlpha(last) ==>
              ParseStudentText(StudentText(first, last, course)) == Some((first, last, course))
  {
    if !(IsAlpha(first) && IsAlpha(last)) {
      return;
    }
    var tail := Tag + course;
    var rest := last + " " + tail;
    assert StudentText(first, last, course) == first + " " + rest;
    SplitWordAfter(first, rest);
    SplitWordAfter(last, tail);
    assert tail[..|Tag|] == Tag;
    assert tail[|Tag|..] == course;
  }

  /** Regrouping the pieces of a sentence: two words, each followed by a space, then the rest. */
  lemma Regroup(first: string, last: string, tag: string, course: string)
    ensures first + " " + (last + " " + (tag + course)) == first + " " + last + " " + tag + course
  {
  }

  /** Whatever parses as a student sentence is exactly the sentence of the parsed fields. */
  lemma ParseStudentTextExact(t: string, first: string, last: string, course: string)
    requires ParseStudentText(t) == Some((first, last, course))
    ensures t == StudentText(first, last, course)
  {
    var rest := SplitWord(t).value.1;
    var tail := SplitWord(rest).value.1;
    assert t == first + " " + rest;
    assert rest == last + " " + tail;
    assert tail == Tag + course;
    Regroup(first, last, Tag, course);
  }

  /** Two valid students with the same sentence have the same three fields. */
  lemma StudentTextInjective(f1: string, l1: string, c1: string, f2: string, l2: string, c2: string)
    requires IsAlpha(f1) && IsAlpha(l1) && IsAlpha(f2) && IsAlpha(l2)
    requires StudentText(f1, l1, c1) == StudentText(f2, l2, c2)
    ensures f1 == f2 && l1 == l2 && c1 == c2
  {
    StudentTextRoundTrip(f1, l1, c1);
    StudentTextRoundTrip(f2, l2, c2);
  }

  /** `Person`: two names, each stored only when it passes `isalpha`. */
  class Person {
    var firstName: string
    var lastName: string

    /** Both stored names are valid: what a constructed `Person` always satisfies. */
    ghost predicate Valid()
      reads this
    {
      IsAlpha(firstName) && IsAlpha(lastName)
    }

    /** The fresh object before `__init__` has run either setter. */
    constructor Allocate()
      ensures firstName == "" && lastName == ""
    {
      firstName := "";
      lastName := "";
    }

    /** The `first_name` setter: stores `value` when it is alphabetic, else fails and keeps the old name. */
    method SetFirstName(value: string) returns (ok: bool)
      modifies this`firstName
      ensures ok == IsAlpha(value)
      ensures firstName == if ok then value else old(firstName)
      ensures old(Valid()) ==> Valid()
    {
      ok := IsAlpha(value);
      if ok {
        firstName := value;
      }
    }

    /** The `last_name` setter: stores `value` when it is alphabetic, else fails and keeps the old name. */
    method SetLastName(value: string) returns (ok: bool)
      modifies this`lastName
      ensures ok == IsAlpha(value)
      ensures lastName == if ok then value else old(lastName)
      ensures old(Valid()) ==> Valid()
    {
      ok := IsAlpha(value);
      if ok {
        lastName := value;
      }
    }

    /**
     * `Person(first, last)`: runs the two setters in order; a failing setter
     * raises, so no object results (null here).
     */
    static method Create(first: string, last: string) returns (p: Person?)
      ensures p != null <==> IsAlpha(first) && IsAlpha(last)
      ensures p != null ==> fresh(p) && p.Valid() && p.firstName == first && p.lastName == last
    {
      var q := new Person.Allocate();
      var ok := q.SetFirstName(first);
      if !ok {
        return null;
      }
      ok := q.SetLastName(last);
      if !ok {
        return null;
      }
      p := q;
    }

    /** `__str__`: for a valid person, the sentence splits back into the two names. */
    function ToString(): (s: string)
      reads this
      ensures s == firstName + " " + lastName
      ensures IsAlpha(firstName) ==> SplitWord(s) == Some((firstName, lastName))
    {
      PersonTextRoundTrip(firstName, lastName);
      PersonText(firstName, lastName)
    }
  }

  /** `Student`: a person plus a course name that is stored without any check. */
  class Student {
    const person: Person
    var courseName: string

    ghost predicate Valid()
      reads this, person
    {
      person.Valid()
    }

    /** The fresh object before `__init__` has run any setter. */
    constructor Allocate()
      ensures fresh(person) && person.firstName == "" && person.lastName == "" && courseName == ""
    {
      person := new Person.Allocate();
      courseName := "";
    }

    /** The inherited `first_name` setter. */
    method SetFirstName(value: string) returns (ok: bool)
      modifies person`firstName
      ensures ok == IsAlpha(value)
      ensures person.firstName == if ok then value else old(person.firstName)
      ensures old(Valid()) ==> Valid()
    {
      ok := person.SetFirstName(value);
    }

    /** The inherited `last_name` setter. */
    method SetLastName(value: string) returns (ok: bool)
      modifies person`lastName
      ensures ok == IsAlpha(value)
      ensures person.lastName == if ok then value else old(person.lastName)
      ensures old(Valid()) ==> Valid()
    {
      ok := person.SetLastName(value);
    }

    /** The `course_name` setter: any string, the empty one included, is stored unchanged. */
    method SetCourseName(value: string)
      modifies this`courseName
      ensures courseName == value
      ensures old(Valid()) ==> Valid()
    {
      courseName := value;
    }

    /**
     * `Student(first, last, course)`: the person's setters first, then the
     * course setter; it fails exactly when a name is not alphabetic, whatever
     * the course name.
     */
    static method Create(first: string, last: string, course: string) returns (s: Student?)
      ensures s != null <==> IsAlpha(first) && IsAlpha(last)
      ensures s != null ==> fresh(s) && fresh(s.person) && s.Valid()
      ensures s != null ==> s.person.firstName == first && s.person.lastName == last && s.courseName == course
    {
      var t := new Student.Allocate();
      var ok := t.SetFirstName(first);
      if !ok {
        return null;
      }
      ok := t.SetLastName(last);
      if !ok {
        return null;
      }
      t.SetCourseName(course);
      s := t;
    }

    /** `__str__`: the person's sentence and the course; for a valid student it parses back to the three fields. */
    function ToString(): (s: string)
      reads this, person
      ensures s == person.firstName + " " + person.lastName + " is enrolled in " + courseName
      ensures IsAlpha(person.firstName) && IsAlpha(person.lastName) ==>
                ParseStudentText(s) == Some((person.firstName, person.lastName, courseName))
    {
      var personText := person.ToString();
      assert " " + Tag == " is enrolled in ";
      assert personText + " " + Tag + courseName == personText + (" " + Tag) + courseName;
      StudentTextRoundTrip(person.firstName, person.lastName, courseName);
      personText + " " + Tag + courseName
    }
  }
}
