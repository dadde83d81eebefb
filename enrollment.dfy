/**
 * The roster: the list `students` of registration rows that the program
 * keeps for its whole run (Assignment07.py:23, 246-249). Each row is the
 * dictionary `{"FirstName", "LastName", "CourseName"}`.
 */
module Enrollment {
  import opened Names

  /** One registration row; the field names follow the dictionary keys. */
  datatype Row = Row(firstName: string, lastName: string, courseName: string)

  /** A row whose two names pass `isalpha`, as every row registered from the console does. */
  predicate ValidRow(row: Row)
  {
    IsAlpha(row.firstName) && IsAlpha(row.lastName)
  }

  /** The list of rows, updated in place by `append`. */
  class StudentTable {
    var rows: seq<Row>

    constructor (initial: seq<Row>)
      ensures rows == initial
    {
      rows := initial;
    }

    /** `student_data.append(student)`: the row goes at the end, every earlier row stays as it was. */
    method Append(row: Row)
      modifies this
      ensures rows == old(rows) + [row]
    {
      rows := rows + [row];
    }
  }
}
