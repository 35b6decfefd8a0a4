/** The records the voting application stores and exchanges. */
module Types {
  /** One vote. `timeSubmitted` is an abstract timestamp: the ISO-8601 string of the
      application, read as the instant it denotes. */
  datatype Submission = Submission(
    id: string,
    name: string,
    email: string,
    language: string,
    reason: string,
    timeSubmitted: int)

  /** The fields a voter enters; the store adds `id` and `timeSubmitted`. */
  datatype SubmissionInput = SubmissionInput(
    name: string,
    email: string,
    language: string,
    reason: string)

  /** The body of a successful results request. */
  datatype ResultsPayload = ResultsPayload(
    totalVotes: int,
    languageCounts: map<string, int>,
    allSubmissions: seq<Submission>)

  /** The demonstration records every store starts with, stamped one day, twelve hours and
      six hours before `now` (milliseconds). */
  function SeedSubmissions(now: int): seq<Submission>
  {
    [ Submission("1", "John Doe", "john@example.com", "javascript",
        "JavaScript is versatile and has a huge ecosystem with excellent community support.",
        now - 86400000),
      Submission("2", "Jane Smith", "jane@example.com", "python",
        "Python has clean syntax and is great for data science and machine learning.",
        now - 43200000),
      Submission("3", "Bob Johnson", "bob@example.com", "typescript",
        "TypeScript adds type safety to JavaScript and helps catch errors early.",
        now - 21600000) ]
  }
}
