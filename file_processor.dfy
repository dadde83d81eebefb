/**
 * `FileProcessor.read_data_from_file` (Assignment07.py:100-121). Opening the
 * file and decoding its JSON are not modelled: what they produce is given as
 * an abstract outcome, and the function states which list the caller gets.
 */
module FileProcessor {
  import opened Enrollment

  /** What opening and decoding the file produced. */
  datatype ReadOutcome =
    | Loaded(data: seq<Row>)   // the file was read and decoded
    | FileNotFound             // `open` raised `FileNotFoundError`
    | ReadFailed               // any other exception while reading or decoding

  /**
   * The list `read_data_from_file` returns: the decoded rows, the empty list
   * when the file is missing, and the caller's own list, untouched, after
   * any other failure.
   */
  function ReadDataFromFile(outcome: ReadOutcome, studentData: seq<Row>): (r: seq<Row>)
    ensures outcome.Loaded? ==> r == outcome.data
    ensures outcome.FileNotFound? ==> r == []
    ensures outcome.ReadFailed? ==> r == studentData
  {
    match outcome
    case Loaded(data) => data
    case FileNotFound => []
    case ReadFailed => studentData
  }

  /**
   * At start-up the caller passes the empty list, so there every outcome but
   * a successful read leaves the program with an empty roster, and the only
   * rows it starts with are rows that came from the file.
   */
  lemma StartupRoster(outcome: ReadOutcome)
    ensures ReadDataFromFile(outcome, []) == if outcome.Loaded? then outcome.data else []
  {
  }
}
