/**
 * The main body of Assignment07.py (lines 262-292): load the roster, then
 * repeat menu turns. "1" registers a student, "2" shows the roster, "3"
 * saves it, "4" leaves the loop, and any other choice only shows a message.
 *
 * The source loop is `while True`. Once the console is exhausted every turn
 * reads the fallback choice "0" and changes nothing (`StepOnExhaustedInput`),
 * so the source spins there forever; the model's loop stops at that point
 * and reports that it did not exit.
 */
module Program {
  import opened Names
  import opened Enrollment
  import opened FileProcessor
  import opened Presentation

  /** The state after a turn (or a run) and whether choice "4" ended the loop. */
  datatype Turn = Turn(session: Session, exited: bool)

  /** One pass of the loop body: read a choice and dispatch on it. */
  function Step(s: Session): (r: Turn)
    // only "4" ends the loop
    ensures r.exited <==> s.pending != [] && s.pending[0] == "4"
    // only "1" can change the roster, and it does so by registering from the lines after the choice
    ensures s.pending != [] && s.pending[0] == "1" ==> r == Turn(Register(Session(s.rows, s.pending[1..])), false)
    ensures s.pending != [] && s.pending[0] != "1" ==> r.session == Session(s.rows, s.pending[1..])
    // the roster only grows, by rows whose names are valid
    ensures s.rows <= r.session.rows
    ensures forall i :: |s.rows| <= i < |r.session.rows| ==> ValidRow(r.session.rows[i])
    ensures s.pending != [] ==> ConsumesSome(s.pending, r.session.pending)
    // a row added costs four lines: the choice and the three inputs
    ensures |r.session.rows| <= |s.rows| + 1
    ensures |r.session.rows| == |s.rows| + 1 ==> |r.session.pending| + 4 == |s.pending|
  {
    var (choice, rest) := MenuChoice(s.pending);
    if choice == "1" then
      Turn(Register(Session(s.rows, rest)), false)
    else
      Turn(Session(s.rows, rest), choice == "4")
  }

  /** On an exhausted console a turn reads the fallback "0" and changes nothing. */
  lemma StepOnExhaustedInput(rows: seq<Row>)
    ensures Step(Session(rows, [])) == Turn(Session(rows, []), false)
  {
  }

  /**
   * Turns repeated until choice "4" or until the console is exhausted. Each
   * row a run adds costs four typed lines (the choice and three inputs), so
   * the roster grows by at most a quarter of the lines read.
   */
  function Run(s: Session): (r: Turn)
    ensures |s.rows| <= |r.session.rows| && |r.session.pending| <= |s.pending|
    ensures 4 * (|r.session.rows| - |s.rows|) <= |s.pending| - |r.session.pending|
    decreases |s.pending|
  {
    if s.pending == [] then
      Turn(s, false)
    else
      var t := Step(s);
      if t.exited then t else Run(t.session)
  }

  /**
   * A run keeps every row it started with, in place, and every row it adds
   * has two alphabetic names.
   */
  lemma {:induction false} RunAppendsValidRows(s: Session)
    ensures s.rows <= Run(s).session.rows
    ensures forall i :: |s.rows| <= i < |Run(s).session.rows| ==> ValidRow(Run(s).session.rows[i])
    decreases |s.pending|
  {
    if s.pending != [] {
      var t := Step(s);
      if !t.exited {
        RunAppendsValidRows(t.session);
      }
    }
  }

  /** Starting from a roster of valid rows, a run ends with a roster of valid rows. */
  lemma RunKeepsRosterValid(s: Session)
    requires forall i :: 0 <= i < |s.rows| ==> ValidRow(s.rows[i])
    ensures forall i :: 0 <= i < |Run(s).session.rows| ==> ValidRow(Run(s).session.rows[i])
  {
    RunAppendsValidRows(s);
    var rows := Run(s).session.rows;
    forall i | 0 <= i < |rows|
      ensures ValidRow(rows[i])
    {
      if i < |s.rows| {
        assert rows[i] == s.rows[i];
      }
    }
  }

  /** `b` is the last `|b|` elements of `a`. */
  predicate IsSuffix(b: seq<string>, a: seq<string>)
  {
    |b| <= |a| && b == a[|a| - |b|..]
  }

  /** A suffix of a suffix is a suffix, and the line before it is the same line in both. */
  lemma SuffixOfSuffix(a: seq<string>, b: seq<string>, c: seq<string>)
    requires IsSuffix(b, a) && IsSuffix(c, b)
    ensures IsSuffix(c, a)
    ensures |c| < |b| ==> b[|b| - |c| - 1] == a[|a| - |c| - 1]
  {
    assert a[|a| - |b|..][|b| - |c|..] == a[|a| - |c|..];
  }

  /** A run reads a prefix of the lines and leaves the rest unread, in order. */
  lemma {:induction false} RunLeavesSuffix(s: Session)
    ensures IsSuffix(Run(s).session.pending, s.pending)
    decreases |s.pending|
  {
    if s.pending != [] {
      var t := Step(s);
      if !t.exited {
        RunLeavesSuffix(t.session);
        SuffixOfSuffix(s.pending, t.session.pending, Run(t.session).session.pending);
      }
    }
  }

  /**
   * A run stops in one of two ways: it exited, and the last line it read is
   * a "4" (the lines after it are left unread); or it did not exit, and it
   * read every line.
   */
  lemma {:induction false} RunStops(s: Session)
    ensures Run(s).exited ==>
              |Run(s).session.pending| < |s.pending| &&
              s.pending[|s.pending| - |Run(s).session.pending| - 1] == "4"
    ensures !Run(s).exited ==> Run(s).session.pending == []
    decreases |s.pending|
  {
    if s.pending != [] {
      var t := Step(s);
      if t.exited {
        assert Run(s) == t;
        assert t.session.pending == s.pending[1..];
      } else {
        assert Run(s) == Run(t.session);
        RunStops(t.session);
        RunLeavesSuffix(t.session);
        SuffixOfSuffix(s.pending, t.session.pending, Run(t.session).session.pending);
      }
    }
  }

  /** When no line typed is "1", the roster ends as it started. */
  lemma {:induction false} RunWithoutRegistering(s: Session)
    requires "1" !in s.pending
    ensures Run(s).session.rows == s.rows
    decreases |s.pending|
  {
    if s.pending != [] {
      var t := Step(s);
      if !t.exited {
        assert forall x :: x in t.session.pending ==> x in s.pending;
        RunWithoutRegistering(t.session);
      }
    }
  }

  /** Choice "1" followed by two valid names and a course appends exactly that row and consumes those four lines. */
  lemma RunRegisters(rows: seq<Row>, first: string, last: string, course: string, rest: seq<string>)
    requires IsAlpha(first) && IsAlpha(last)
    ensures Run(Session(rows, ["1", first, last, course] + rest)) == Run(Session(rows + [Row(first, last, course)], rest))
  {
    var lines := ["1", first, last, course] + rest;
    assert lines[1..] == [first, last, course] + rest;
    assert lines[4..] == rest;
    assert Step(Session(rows, lines)) == Turn(Session(rows + [Row(first, last, course)], rest), false);
  }

  /** Choice "4" ends the run at once, with the roster as it is and the later lines unread. */
  lemma RunExits(rows: seq<Row>, rest: seq<string>)
    ensures Run(Session(rows, ["4"] + rest)) == Turn(Session(rows, rest), true)
  {
    assert (["4"] + rest)[1..] == rest;
  }

  /**
   * Two registrations followed by "4": both rows, in the order typed, and
   * the loop exits.
   */
  lemma ScenarioTwoRegistrations(f1: string, l1: string, c1: string, f2: string, l2: string, c2: string)
    requires IsAlpha(f1) && IsAlpha(l1) && IsAlpha(f2) && IsAlpha(l2)
    ensures Run(Session([], ["1", f1, l1, c1] + (["1", f2, l2, c2] + ["4"])))
         == Turn(Session([Row(f1, l1, c1), Row(f2, l2, c2)], []), true)
  {
    RunRegisters([], f1, l1, c1, ["1", f2, l2, c2] + ["4"]);
    assert [] + [Row(f1, l1, c1)] == [Row(f1, l1, c1)];
    ScenarioLastRegistration([Row(f1, l1, c1)], f2, l2, c2);
  }

  /** The tail of the scenario above: one registration, then "4". */
  lemma ScenarioLastRegistration(rows: seq<Row>, f: string, l: string, c: string)
    requires IsAlpha(f) && IsAlpha(l)
    ensures Run(Session(rows, ["1", f, l, c] + ["4"])) == Turn(Session(rows + [Row(f, l, c)], []), true)
  {
    RunRegisters(rows, f, l, c, ["4"]);
    RunExits(rows + [Row(f, l, c)], []);
  }

  /** Choice "1" with a rejected first name consumes two lines and continues with the roster unchanged. */
  lemma RunRejectsFirstName(rows: seq<Row>, first: string, rest: seq<string>)
    requires !IsAlpha(first)
    ensures Run(Session(rows, ["1", first] + rest)) == Run(Session(rows, rest))
  {
    var lines := ["1", first] + rest;
    assert lines[1..] == [first] + rest;
    assert lines[1..][1..] == rest;
    assert Step(Session(rows, lines)) == Turn(Session(rows, rest), false);
  }

  /** A choice other than "1" and "4" consumes its line and continues with the roster unchanged. */
  lemma RunSkipsChoice(rows: seq<Row>, choice: string, rest: seq<string>)
    requires choice != "1" && choice != "4"
    ensures Run(Session(rows, [choice] + rest)) == Run(Session(rows, rest))
  {
    assert ([choice] + rest)[1..] == rest;
  }

  /**
   * A first name with a digit is rejected before the last name is read: the
   * two lines meant as last name and course are then read as menu choices,
   * which are invalid, and the roster stays empty.
   */
  lemma ScenarioRejectedFirstName()
    ensures Run(Session([], ["1", "Ada1"] + (["Lovelace"] + (["Algorithms"] + ["4"])))) == Turn(Session([], []), true)
  {
    RejectedNames("Ada1", 3);
    RunRejectsFirstName([], "Ada1", ["Lovelace"] + (["Algorithms"] + ["4"]));
    RunSkipsChoice([], "Lovelace", ["Algorithms"] + ["4"]);
    RunSkipsChoice([], "Algorithms", ["4"]);
    RunExits([], []);
  }

  /** An invalid choice changes nothing, and the menu is read again. */
  lemma ScenarioInvalidChoice(rows: seq<Row>)
    ensures Run(Session(rows, ["9", "4"])) == Turn(Session(rows, []), true)
  {
    assert ["9", "4"] == ["9"] + ["4"];
    RunSkipsChoice(rows, "9", ["4"]);
    RunExits(rows, []);
  }

  /** The `while True` loop, over the program's roster and console. */
  method MainLoop(console: Console, table: StudentTable) returns (exited: bool)
    modifies console, table
    ensures Turn(Session(table.rows, console.pending), exited) == Run(Session(old(table.rows), old(console.pending)))
  {
    exited := false;
    while console.pending != []
      invariant Run(Session(table.rows, console.pending)) == Run(Session(old(table.rows), old(console.pending)))
      decreases |console.pending|
    {
      ghost var before := Session(table.rows, console.pending);
      var choice := InputMenuChoice(console);
      if choice == "1" {
        InputStudentData(console, table);
      } else if choice == "2" {
        // shows the roster: output only
      } else if choice == "3" {
        // saves the roster to the file: the roster itself is not changed
      } else if choice == "4" {
        assert Step(before) == Turn(Session(table.rows, console.pending), true);
        exited := true;
        return;
      }
      assert Step(before) == Turn(Session(table.rows, console.pending), false);
    }
  }

  /**
   * The whole program: load the roster from the file's outcome into the
   * initially empty list, then run the loop over the typed lines. Returns the
   * final roster, the lines left unread and whether "4" was chosen.
   */
  method RunProgram(load: ReadOutcome, lines: seq<string>) returns (rows: seq<Row>, unread: seq<string>, exited: bool)
    ensures Turn(Session(rows, unread), exited) == Run(Session(ReadDataFromFile(load, []), lines))
    ensures !load.Loaded? ==> forall i :: 0 <= i < |rows| ==> ValidRow(rows[i])
    ensures load.Loaded? ==> load.data <= rows
    ensures load.Loaded? ==> forall i :: |load.data| <= i < |rows| ==> ValidRow(rows[i])
  {
    var students := ReadDataFromFile(load, []);
    var table := new StudentTable(students);
    var console := new Console(lines);
    exited := MainLoop(console, table);
    rows, unread := table.rows, console.pending;
    if !load.Loaded? {
      RunKeepsRosterValid(Session(students, lines));
    }
    RunAppendsValidRows(Session(students, lines));
  }
}
