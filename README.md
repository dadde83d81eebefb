# Course registration console: a verified model

Assignment07.py is a menu-driven console program that registers students
for courses. It keeps a roster (a list of `{"FirstName", "LastName",
"CourseName"}` rows) in memory, loads it from `Enrollments.json` at start-up,
and then loops over menu choices: "1" registers a student, "2" shows the
roster, "3" saves it, "4" exits. Both names must pass Python's
`str.isalpha()`. The course name is not checked. The file also defines
the record classes `Person` and `Student`, whose name setters apply the same
check.

This project models that program in Dafny:

- `Names` (names.dfy): `isalpha` as `IsAlpha`, over a per-character
  predicate `IsAlphaChar`.
- `People` (people.dfy): the `Person` and `Student` classes, with their
  setters and constructors as methods that change fields, and `__str__` as
  functions. The printed sentence is shown to parse back into the fields it
  came from.
- `Enrollment` (enrollment.dfy): the roster row and the roster list, a class
  whose `Append` extends it in place.
- `FileProcessor` (file_processor.dfy): the fallback logic of
  `read_data_from_file`, over an abstract outcome of the read.
- `Presentation` (presentation.dfy): the console as a class holding the
  lines still to be typed. `input_menu_choice` and `input_student_data` are
  methods, each proved equal to a specification function (`MenuChoice`,
  `Register`).
- `Program` (program.dfy): one loop turn (`Step`) and the whole loop (`Run`)
  as functions, with lemmas about them. The `while True` loop is the method
  `MainLoop`, proved equal to `Run`. The whole program is `RunProgram`.

The roster only grows, and only by rows whose two names are alphabetic. Only
choice "1" can change it. Only "4" ends the loop, and nothing after that
"4" is read.

Two points of the code shape the model:

- `read_data_from_file` returns the caller's list unchanged after any
  failure other than a missing file (Assignment07.py:118-121). At start-up
  the caller passes `[]` (Assignment07.py:262), so after any failed read
  the program starts with an empty roster (`FileProcessor.StartupRoster`).
- The course name may be any string, the empty one included
  (Assignment07.py:83-85).

## Model

| member | source | states |
|---|---|---|
| `Names.IsAlpha` | Assignment07.py:46 | `str.isalpha()`, the test at lines 46, 57, 240 and 243: an accepted name is non-empty and holds no space |
| `Names.EmptyNameRejected` | Assignment07.py:44-60 | the empty name is rejected |
| `Names.RejectedNames` | Assignment07.py:44-60 | a name holding a digit, a space or any other printable ASCII non-letter (punctuation, symbols) is rejected |
| `People.Person.SetFirstName` | Assignment07.py:44-49 | stores the value exactly when it is alphabetic; otherwise it fails and the old name stays; a valid person stays valid |
| `People.Person.SetLastName` | Assignment07.py:55-60 | the same for the last name |
| `People.Person.Create` | Assignment07.py:36-38 | construction succeeds iff both names are alphabetic (non-empty included), and then stores exactly the inputs in a fresh, valid person |
| `People.Person.ToString` | Assignment07.py:62-63 | the sentence is first name, space, last name, and for a valid first name it splits back into exactly the two names |
| `People.PersonTextRoundTrip` | Assignment07.py:62-63 | splitting a person's sentence at its first space gives back both names when the first name is alphabetic |
| `People.Student.SetFirstName` | Assignment07.py:44-49 | the inherited first-name setter, acting on the student's person |
| `People.Student.SetLastName` | Assignment07.py:55-60 | the inherited last-name setter, acting on the student's person |
| `People.Student.SetCourseName` | Assignment07.py:83-85 | any course name, the empty one included, is stored unchanged, and validity is kept |
| `People.Student.Create` | Assignment07.py:75-77 | construction succeeds iff both names are alphabetic, whatever the course, and stores all three inputs exactly |
| `People.Student.ToString` | Assignment07.py:87-88 | the sentence is `first + " " + last + " is enrolled in " + course`, and for valid names it parses back to the three fields |
| `People.StudentTextRoundTrip` | Assignment07.py:87-88 | parsing a valid student's sentence gives back first name, last name and course exactly |
| `People.ParseStudentTextExact` | Assignment07.py:87-88 | whatever parses as a student sentence is exactly the sentence of the parsed fields (parse is an inverse of printing) |
| `People.StudentTextInjective` | Assignment07.py:87-88 | two valid students with the same sentence have the same three fields |
| `Enrollment.StudentTable.constructor` | Assignment07.py:23 | the roster list holds the rows it is created with |
| `Enrollment.StudentTable.Append` | Assignment07.py:249 | `append` puts the row at the end and leaves every earlier row as it was |
| `FileProcessor.ReadDataFromFile` | Assignment07.py:112-121 | decoded rows on success, `[]` for a missing file, the caller's list unchanged after any other failure |
| `FileProcessor.StartupRoster` | Assignment07.py:262 | at start-up (caller's list `[]`) every outcome but a successful read gives an empty roster |
| `Presentation.Console.ReadLine` | Assignment07.py:200 | `input()` yields the next unread line and consumes it, or fails on exhausted input without consuming |
| `Presentation.MenuChoice` | Assignment07.py:198-206 | the choice is the typed line unchanged, valid or not, and only that line is consumed; on a failed read it is "0" |
| `Presentation.InputMenuChoice` | Assignment07.py:198-206 | the method returns the choice and leaves the console as `MenuChoice` says |
| `Presentation.Register` | Assignment07.py:238-256 | the roster grows by one iff both names are alphabetic and three lines are there; the new last row carries the three lines verbatim after the unchanged earlier rows; a rejected first name consumes only that line, a rejected last name does not read the course, an accepted registration consumes exactly its three lines |
| `Presentation.InputStudentData` | Assignment07.py:238-256 | the method's new roster and console are exactly those of `Register` |
| `Program.Step` | Assignment07.py:265-292 | only "4" exits; only "1" can change the roster, by registration; any other choice consumes one line and changes nothing; the roster only grows, by at most one valid row, and a row added costs exactly four lines |
| `Program.Run` | Assignment07.py:265-292 | the loop as a function: the roster never shrinks, input is only consumed, and the rows added are at most a quarter of the lines read |
| `Program.StepOnExhaustedInput` | Assignment07.py:198-206 | on exhausted input a turn reads "0", changes nothing and does not exit |
| `Program.RunAppendsValidRows` | Assignment07.py:265-292 | a run keeps the starting roster as a prefix, and every row it adds has alphabetic names |
| `Program.RunKeepsRosterValid` | Assignment07.py:265-292 | a roster of valid rows stays a roster of valid rows through any run |
| `Program.RunLeavesSuffix` | Assignment07.py:265-292 | a run reads the lines in order and leaves a suffix unread |
| `Program.RunStops` | Assignment07.py:288-289 | a run that exits has just read a "4", and nothing after it; a run that does not exit has read every line |
| `Program.RunWithoutRegistering` | Assignment07.py:273-275 | when no line is "1" the roster ends exactly as it started |
| `Program.RunRegisters` | Assignment07.py:273-275 | choice "1" with two alphabetic names and a course continues the run from the roster with exactly that row appended and those four lines consumed |
| `Program.RunRejectsFirstName` | Assignment07.py:238-241 | "1" followed by a non-alphabetic first name consumes those two lines and continues with the roster unchanged |
| `Program.RunSkipsChoice` | Assignment07.py:278-292 | a choice other than "1" and "4" consumes its line and continues with the roster unchanged |
| `Program.RunExits` | Assignment07.py:288-289 | choice "4" ends the run at once with the roster unchanged and the later lines unread |
| `Program.ScenarioTwoRegistrations` | Assignment07.py:265-292 | any two valid registrations then "4" give both rows, in the order typed, and exit |
| `Program.ScenarioRejectedFirstName` | Assignment07.py:238-244 | first name "Ada1" is rejected, the following lines are read as menu choices, and the roster stays empty |
| `Program.ScenarioInvalidChoice` | Assignment07.py:291-292 | choice "9" changes nothing and the menu is read again |
| `Program.MainLoop` | Assignment07.py:265-292 | the loop's final roster, unread input and exit flag are exactly those of `Run` |
| `Program.RunProgram` | Assignment07.py:262-292 | the whole program equals `Run` from the loaded roster; without a loaded file every final row is valid; with one, the loaded rows are kept as a prefix and every row after them is valid |

## Left out

- Console output is not modelled: `print`, the menu text, `IO.output_menu`, `IO.output_error_messages` and the messages printed on invalid input. Choice "2" (`IO.output_student_and_course_names`) is therefore only "the roster is not changed".
- `FileProcessor.write_data_to_file` (choice "3") is modelled only as leaving the roster unchanged. What it writes to the file is not modelled, and neither is a save/load round trip: `json.dump` and `json.load` are library code.
- `FileProcessor.ReadDataFromFile`: the decoded file is taken to be a list of rows. Real JSON can hold any value, including rows without the three keys. Such a roster would make the display raise an uncaught `KeyError`; that path is not modelled.
- `Names.IsAlphaChar`: Python's `isalpha` uses the Unicode database. This model counts only the ASCII letters as alphabetic, so names with accented or other non-ASCII letters are rejected here but accepted by Python. The properties proved use only the fact that digits, spaces and punctuation are not alphabetic.
- `Program.MainLoop`: the source loop is `while True`. Once input is exhausted, `input()` raises `EOFError` on every turn, the choice falls back to "0", and the source loops forever without changing anything. The model stops at that point and reports `exited == false`. `Program.StepOnExhaustedInput` shows that a further turn would change nothing.
- Exception types and messages are reduced to success or failure. `KeyboardInterrupt`, which no handler catches, is not modelled.
- Inheritance: `Student` holds its `Person` instead of extending it, and the inherited setters delegate to it.
