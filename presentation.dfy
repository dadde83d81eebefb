/**
 * The input side of class `IO` (Assignment07.py:147-256): reading a menu
 * choice and registering a student. The console is the sequence of lines
 * still to be typed; `input()` takes the next one, and on an exhausted
 * console it raises `EOFError`, which both readers catch.
 */
module Presentation {
  import opened Wrappers
  import opened Names
  import opened Enrollment

  /** The console: the lines not yet read. */
  class Console {
    var pending: seq<string>

    constructor (lines: seq<string>)
      ensures pending == lines
    {
      pending := lines;
    }

    /** `input()`: the next line, or `None` (the `EOFError`) once every line is read. */
    method ReadLine() returns (line: Option<string>)
      modifies this
      ensures old(pending) == [] ==> line == None && pending == []
      ensures old(pending) != [] ==> line == Some(old(pending)[0]) && pending == old(pending)[1..]
    {
      if pending == [] {
        line := None;
      } else {
        line := Some(pending[0]);
        pending := pending[1..];
      }
    }
  }

  /** The program's state between two menu turns: the roster and the unread console lines. */
  datatype Session = Session(rows: seq<Row>, pending: seq<string>)

  /** `pending` ends with `rest`, which is shorter by at least one line. */
  predicate ConsumesSome(pending: seq<string>, rest: seq<string>)
  {
    |rest| < |pending| && rest == pending[|pending| - |rest|..]
  }

  /**
   * `IO.input_menu_choice` as a function of the unread lines: the choice and
   * the lines left. The line read is returned as typed, whether or not it is
   * one of "1" to "4" (an invalid one only causes a message); when reading
   * fails the initial "0" is returned.
   */
  function MenuChoice(pending: seq<string>): (r: (string, seq<string>))
    ensures pending == [] ==> r == ("0", [])
    ensures pending != [] ==> [r.0] + r.1 == pending
  {
    if pending == [] then ("0", []) else (pending[0], pending[1..])
  }

  /**
   * `IO.input_student_data` as a function of the session: reads the first
   * name, and only if it is alphabetic the last name, and only if that is
   * alphabetic the course; the row is appended only when all three reads
   * succeed. Any failure leaves the roster as it was.
   */
  function Register(s: Session): (r: Session)
    // the roster grows by one row exactly when three lines are there and both names pass `isalpha`
    ensures |r.rows| == |s.rows| + 1 <==> |s.pending| >= 3 && IsAlpha(s.pending[0]) && IsAlpha(s.pending[1])
    // the row added carries the three lines verbatim, after every earlier row; otherwise the roster is unchanged
    ensures r.rows == s.rows || (|s.pending| >= 3 && r.rows == s.rows + [Row(s.pending[0], s.pending[1], s.pending[2])])
    // a rejected first name: nothing changes, and only that one line is read
    ensures s.pending != [] && !IsAlpha(s.pending[0]) ==> r == Session(s.rows, s.pending[1..])
    // a rejected last name: nothing changes, and the course line is not read
    ensures |s.pending| >= 2 && IsAlpha(s.pending[0]) && !IsAlpha(s.pending[1]) ==>
              r == Session(s.rows, s.pending[2..])
    // an accepted registration reads exactly the three lines it stores
    ensures |s.pending| >= 3 && IsAlpha(s.pending[0]) && IsAlpha(s.pending[1]) ==> r.pending == s.pending[3..]
    ensures s.pending == [] ==> r == s
    ensures s.pending != [] ==> ConsumesSome(s.pending, r.pending)
  {
    if s.pending == [] || !IsAlpha(s.pending[0]) || |s.pending| == 1 then
      Session(s.rows, if s.pending == [] then [] else s.pending[1..])
    else if !IsAlpha(s.pending[1]) || |s.pending| == 2 then
      Session(s.rows, s.pending[2..])
    else
      Session(s.rows + [Row(s.pending[0], s.pending[1], s.pending[2])], s.pending[3..])
  }

  /** `IO.input_menu_choice`. */
  method InputMenuChoice(console: Console) returns (choice: string)
    modifies console
    ensures (choice, console.pending) == MenuChoice(old(console.pending))
  {
    choice := "0";
    var line := console.ReadLine();
    if line.Some? {
      choice := line.value;
    }
  }

  /** `IO.input_student_data`: appends to `table` in place, or leaves it untouched. */
  method InputStudentData(console: Console, table: StudentTable)
    modifies console, table
    ensures Session(table.rows, console.pending) == Register(Session(old(table.rows), old(console.pending)))
  {
    var first := console.ReadLine();
    if first.None? || !IsAlpha(first.value) {
      return;
    }
    var last := console.ReadLine();
    if last.None? || !IsAlpha(last.value) {
      return;
    }
    var course := console.ReadLine();
    if course.None? {
      return;
    }
    table.Append(Row(first.value, last.value, course.value));
  }
}
