/** The client's results reducer: the aggregation run on every fetched payload and the
    loading/error state machine around it. */
module Results {
  import opened Wrappers
  import opened Types
  import opened Tally
  import opened Grouping

  /** `Math.round(count / total * 100 * 100) / 100` in whole hundredths of a percent,
      with `Math.round(y)` = floor(y + 1/2) computed on exact rationals. */
  function Percent(count: int, total: int): int
    requires total > 0
  {
    (2 * count * 10000 + total) / (2 * total)
  }

  /** The percentage is the hundredth nearest to `count / total * 100`, halves rounded up. */
  lemma PercentIsNearest(count: int, total: int)
    requires total > 0
    ensures -total < 2 * (Percent(count, total) * total - 10000 * count) <= total
  {
    var n, d := 2 * count * 10000 + total, 2 * total;
    var q, r := n / d, n % d;
    assert n == d * q + r && 0 <= r < d;
    assert 2 * (q * total - 10000 * count) == total - r;
  }

  /** A share of the votes lies between 0 and 100 percent. */
  lemma PercentInRange(count: int, total: int)
    requires 0 <= count <= total && total > 0
    ensures 0 <= Percent(count, total) <= 10000
  {
    DivBelow(2 * count * 10000 + total, 2 * total, 10001);
  }

  lemma DivBelow(n: int, d: int, k: int)
    requires 0 <= n < d * k && d > 0
    ensures 0 <= n / d < k
  {
    var q, r := n / d, n % d;
    assert n == d * q + r && 0 <= r;
    assert d * (k - q) > 0;
  }

  /** The worked examples: 2 of 3 is 66.67, 1 of 3 is 33.33, 1 of 1 is 100. */
  lemma PercentExamples()
    ensures Percent(2, 3) == 6667 && Percent(1, 3) == 3333 && Percent(1, 1) == 10000
  {
  }

  /** Reference definition of `languagePercentages`: the keys of the counts, each mapped to its
      rounded share when there are votes and to 0 otherwise. */
  function Percentages(counts: map<string, int>, total: int): map<string, int> {
    map l | l in counts :: if total > 0 then Percent(counts[l], total) else 0
  }

  /** The first `forEach`: one entry per key of `counts`. */
  method ComputePercentages(counts: map<string, int>, total: int) returns (pct: map<string, int>)
    ensures pct.Keys == counts.Keys
    ensures forall l :: l in pct ==> pct[l] == if total > 0 then Percent(counts[l], total) else 0
  {
    pct := map[];
    var todo := counts.Keys;
    while todo != {}
      invariant todo <= counts.Keys
      invariant pct.Keys == counts.Keys - todo
      invariant forall l :: l in pct ==> pct[l] == if total > 0 then Percent(counts[l], total) else 0
      decreases |todo|
    {
      var language :| language in todo;
      pct := pct[language := if total > 0 then (2 * counts[language] * 10000 + total) / (2 * total) else 0];
      todo := todo - {language};
    }
  }

  /** The second `forEach`: pushes every submission onto its language's array, creating the
      array on first sight. */
  method GroupByLanguage(subs: seq<Submission>) returns (groups: map<string, seq<Submission>>)
    ensures groups.Keys == Languages(subs)
    ensures forall l :: l in groups ==> groups[l] == OfLanguage(subs, l)
  {
    groups := map[];
    var i := 0;
    while i < |subs|
      invariant 0 <= i <= |subs|
      invariant groups.Keys == Languages(subs[..i])
      invariant forall l :: l in groups ==> groups[l] == OfLanguage(subs[..i], l)
    {
      var submission := subs[i];
      var language := submission.language;
      assert subs[..i + 1] == subs[..i] + [submission];
      LanguagesAppend(subs[..i], submission);
      if language !in groups {
        PresentIffCounted(subs[..i], language);
        groups := groups[language := []];
      }
      groups := groups[language := groups[language] + [submission]];
      forall l | l in groups ensures groups[l] == OfLanguage(subs[..i + 1], l) {
        OfLanguageAppend(subs[..i], submission, l);
      }
      i := i + 1;
    }
    assert subs[..|subs|] == subs;
  }

  /** The third `forEach`: sorts every group by time in place. */
  method SortGroups(groups: map<string, seq<Submission>>) returns (sorted: map<string, seq<Submission>>)
    ensures sorted.Keys == groups.Keys
    ensures forall l :: l in sorted ==> sorted[l] == SortByTime(groups[l])
  {
    sorted := groups;
    var todo := groups.Keys;
    while todo != {}
      invariant todo <= groups.Keys
      invariant sorted.Keys == groups.Keys
      invariant forall l :: l in sorted ==>
        sorted[l] == if l in todo then groups[l] else SortByTime(groups[l])
      decreases |todo|
    {
      var language :| language in todo;
      sorted := sorted[language := SortByTime(sorted[language])];
      todo := todo - {language};
    }
  }

  /** The aggregation each successful fetch performs on its payload. */
  method Aggregate(p: ResultsPayload) returns (pct: map<string, int>, grouped: map<string, seq<Submission>>)
    ensures pct == Percentages(p.languageCounts, p.totalVotes)
    ensures grouped == Grouped(p.allSubmissions)
  {
    pct := ComputePercentages(p.languageCounts, p.totalVotes);
    var groups := GroupByLanguage(p.allSubmissions);
    grouped := SortGroups(groups);
  }

  /** For a payload tallied from `subs`, as the results endpoint builds it, every language
      present gets a share between 0 and 100 percent. */
  lemma TalliedSharesInRange(subs: seq<Submission>, l: string)
    requires l in Languages(subs)
    ensures var pct := Percentages(Counts(subs), |subs|);
            l in pct && 0 <= pct[l] <= 10000
  {
    PresentIffCounted(subs, l);
    CountAtMostTotal(subs, l);
    PercentInRange(CountOf(subs, l), |subs|);
  }

  lemma {:induction false} CountAtMostTotal(subs: seq<Submission>, l: string)
    ensures CountOf(subs, l) <= |subs|
  {
    if subs != [] {
      CountAtMostTotal(subs[..|subs| - 1], l);
    }
  }

  /** An empty payload yields no percentages and no groups. */
  lemma EmptyPayload()
    ensures Percentages(map[], 0) == map[]
    ensures Grouped([]) == map[]
  {
    GroupedKeys([]);
  }

  /** The fields a fetch writes. */
  datatype ResultsData = ResultsData(
    totalVotes: int,
    languageCounts: map<string, int>,
    languagePercentages: map<string, int>,
    allSubmissions: seq<Submission>,
    groupedSubmissions: map<string, seq<Submission>>)

  /** The `results` slice of the client store. */
  class ResultsSlice {
    var totalVotes: int
    var languageCounts: map<string, int>
    var languagePercentages: map<string, int>
    var allSubmissions: seq<Submission>
    var groupedSubmissions: map<string, seq<Submission>>
    var isLoading: bool
    var error: Option<string>

    function Data(): ResultsData
      reads this
    {
      ResultsData(totalVotes, languageCounts, languagePercentages, allSubmissions, groupedSubmissions)
    }

    /** The data a successful fetch of `p` leaves behind. */
    static function Loaded(p: ResultsPayload): ResultsData {
      ResultsData(p.totalVotes, p.languageCounts, Percentages(p.languageCounts, p.totalVotes),
                  p.allSubmissions, Grouped(p.allSubmissions))
    }

    /** `initialState`. */
    constructor ()
      ensures Data() == ResultsData(0, map[], map[], [], map[])
      ensures !isLoading && error == None
    {
      totalVotes, languageCounts, languagePercentages := 0, map[], map[];
      allSubmissions, groupedSubmissions := [], map[];
      isLoading, error := false, None;
    }

    /** Writes the payload and its aggregation. */
    method WritePayload(p: ResultsPayload)
      modifies this
      ensures Data() == Loaded(p)
      ensures isLoading == old(isLoading) && error == None
    {
      totalVotes := p.totalVotes;
      languageCounts := p.languageCounts;
      allSubmissions := p.allSubmissions;
      error := None;
      languagePercentages, groupedSubmissions := Aggregate(p);
    }

    /** `fetchResultsRequest`. */
    method FetchResultsRequest()
      modifies this
      ensures isLoading && error == None
      ensures Data() == old(Data())
    {
      isLoading := true;
      error := None;
    }

    /** `fetchResultsSuccess`. */
    method FetchResultsSuccess(p: ResultsPayload)
      modifies this
      ensures Data() == Loaded(p)
      ensures !isLoading && error == None
    {
      isLoading := false;
      WritePayload(p);
    }

    /** `fetchResultsFailure`. */
    method FetchResultsFailure(message: string)
      modifies this
      ensures !isLoading && error == Some(message)
      ensures Data() == old(Data())
    {
      isLoading := false;
      error := Some(message);
    }

    /** `clearResultsError`. */
    method ClearResultsError()
      modifies this
      ensures error == None
      ensures isLoading == old(isLoading) && Data() == old(Data())
    {
      error := None;
    }

    /** `fetchResults.pending`, the same as `fetchResultsRequest`. */
    method FetchResultsPending()
      modifies this
      ensures isLoading && error == None
      ensures Data() == old(Data())
    {
      FetchResultsRequest();
    }

    /** `fetchResults.fulfilled`, the same as `fetchResultsSuccess`. */
    method FetchResultsFulfilled(p: ResultsPayload)
      modifies this
      ensures Data() == Loaded(p)
      ensures !isLoading && error == None
    {
      FetchResultsSuccess(p);
    }

    /** `fetchResults.rejected`, the same as `fetchResultsFailure` with the rejection value. */
    method FetchResultsRejected(message: string)
      modifies this
      ensures !isLoading && error == Some(message)
      ensures Data() == old(Data())
    {
      FetchResultsFailure(message);
    }

    /** `fetchResultsAfterSubmission.pending`: a background refresh shows no loading state. */
    method RefreshPending()
      modifies this
      ensures error == None
      ensures isLoading == old(isLoading) && Data() == old(Data())
    {
      error := None;
    }

    /** `fetchResultsAfterSubmission.fulfilled`: the aggregation of a foreground success,
        with `isLoading` left alone. */
    method RefreshFulfilled(p: ResultsPayload)
      modifies this
      ensures Data() == Loaded(p)
      ensures isLoading == old(isLoading) && error == None
    {
      WritePayload(p);
    }

    /** `fetchResultsAfterSubmission.rejected`: the failure is only logged. */
    method RefreshRejected(message: string)
      ensures isLoading == old(isLoading) && error == old(error) && Data() == old(Data())
    {
    }
  }

  /** The fetch of three votes, two for javascript at 10:00 and 09:00 and one for python at
      11:00: 66.67 and 33.33 percent, and the javascript group starts with the 09:00 vote. */
  lemma ThreeVoteExample(at9: Submission, at10: Submission, at11: Submission)
    requires at9.language == "javascript" && at10.language == "javascript"
    requires at11.language == "python"
    requires at9.timeSubmitted == 32400000 && at10.timeSubmitted == 36000000
    requires at11.timeSubmitted == 39600000
    ensures var subs := [at10, at11, at9];
            && Percentages(Counts(subs), |subs|) == map["javascript" := 6667, "python" := 3333]
            && Grouped(subs) == map["javascript" := [at9, at10], "python" := [at11]]
  {
    ExamplePercentages(at9, at10, at11);
    ExampleGroups(at9, at10, at11);
  }

  lemma ExamplePercentages(at9: Submission, at10: Submission, at11: Submission)
    requires at9.language == "javascript" && at10.language == "javascript"
    requires at11.language == "python"
    ensures var subs := [at10, at11, at9];
            Percentages(Counts(subs), |subs|) == map["javascript" := 6667, "python" := 3333]
  {
    var subs := [at10, at11, at9];
    ExampleTally(at9, at10, at11);
    PercentExamples();
    var counts := Counts(subs);
    assert counts.Keys == {"javascript", "python"};
    assert counts["javascript"] == 2 && counts["python"] == 1;
    var pct := Percentages(counts, 3);
    assert pct.Keys == {"javascript", "python"};
    assert pct["javascript"] == 6667 && pct["python"] == 3333;
  }

  lemma ExampleTally(at9: Submission, at10: Submission, at11: Submission)
    requires at9.language == "javascript" && at10.language == "javascript"
    requires at11.language == "python"
    ensures var subs := [at10, at11, at9];
            && Languages(subs) == {"javascript", "python"}
            && CountOf(subs, "javascript") == 2 && CountOf(subs, "python") == 1
            && OfLanguage(subs, "javascript") == [at10, at9]
            && OfLanguage(subs, "python") == [at11]
  {
    var subs := [at10, at11, at9];
    var first, firstTwo := [at10], [at10, at11];
    assert subs[..2] == firstTwo && firstTwo[..1] == first && first[..0] == [];
    assert "javascript"[0] != "python"[0];
    assert Languages(subs) == {"javascript", "python"} by {
      assert subs[0].language == "javascript" && subs[1].language == "python";
    }
    assert CountOf(first, "javascript") == 1 && CountOf(first, "python") == 0;
    assert CountOf(firstTwo, "javascript") == 1 && CountOf(firstTwo, "python") == 1;
    assert OfLanguage(first, "javascript") == [at10] && OfLanguage(first, "python") == [];
    assert OfLanguage(firstTwo, "javascript") == [at10];
    assert OfLanguage(firstTwo, "python") == [at11];
  }

  lemma ExampleGroups(at9: Submission, at10: Submission, at11: Submission)
    requires at9.language == "javascript" && at10.language == "javascript"
    requires at11.language == "python"
    requires at9.timeSubmitted < at10.timeSubmitted
    ensures Grouped([at10, at11, at9]) == map["javascript" := [at9, at10], "python" := [at11]]
  {
    var subs := [at10, at11, at9];
    ExampleTally(at9, at10, at11);
    SortOne(at11);
    SortTwo(at10, at9);
    var g := Grouped(subs);
    assert g.Keys == {"javascript", "python"};
    assert g["javascript"] == [at9, at10];
    assert g["python"] == [at11];
  }

  lemma SortOne(a: Submission)
    ensures SortByTime([a]) == [a]
  {
    assert [a][..0] == [];
  }

  lemma SortTwo(a: Submission, b: Submission)
    requires b.timeSubmitted < a.timeSubmitted
    ensures SortByTime([a, b]) == [b, a]
  {
    assert [a, b][..1] == [a];
    SortOne(a);
    assert InsertByTime([], b) == [b];
  }

}
