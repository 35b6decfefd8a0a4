/** The results endpoint: `GET` tallies the module's own list of votes; `POST` is refused. */
module ResultsApi {
  import opened Types
  import opened Tally

  class ResultsRoute {
    var submissions: seq<Submission>

    /** The module-level list, seeded with the demonstration records. */
    constructor (now: int)
      ensures submissions == SeedSubmissions(now)
    {
      submissions := SeedSubmissions(now);
    }

    /** `getLatestSubmissions`: the stored list itself. */
    method GetLatestSubmissions() returns (r: seq<Submission>)
      ensures r == submissions
    {
      r := submissions;
    }

    /** `GET`: the per-language counts, which add up to the total, the total, and the list
        in stored order. */
    method Get() returns (resp: ResultsPayload)
      ensures resp.allSubmissions == submissions
      ensures resp.totalVotes == |submissions|
      ensures resp.languageCounts.Keys == Languages(submissions)
      ensures forall l :: l in resp.languageCounts ==> resp.languageCounts[l] == CountOf(submissions, l)
      ensures MapSum(resp.languageCounts) == resp.totalVotes
    {
      var currentSubmissions := GetLatestSubmissions();
      var languageCounts := CountLanguages(currentSubmissions);
      var totalVotes := |currentSubmissions|;
      assert languageCounts == Counts(currentSubmissions);
      CountsSumToTotal(currentSubmissions);
      resp := ResultsPayload(totalVotes, languageCounts, currentSubmissions);
    }

    /** `POST` is not supported. */
    method Post() returns (status: int, error: string)
      ensures status == 405 && error == "Method not allowed"
    {
      status, error := 405, "Method not allowed";
    }

    /** `updateSubmissions`: replaces the list, so the next `GET` tallies exactly `xs`. */
    method UpdateSubmissions(xs: seq<Submission>)
      modifies this
      ensures submissions == xs
    {
      submissions := xs;
    }
  }
}
