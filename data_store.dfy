/** The in-memory `DataStore`: a list of votes with a case-insensitive upsert on email. */
module Store {
  import opened Wrappers
  import opened Types
  import opened JsStrings
  import opened Tally

  /** Two emails are the same to the store when their lower-case forms are equal. */
  predicate SameEmail(a: string, b: string) {
    ToLower(a) == ToLower(b)
  }

  /** Spellings that differ only in the case of their letters are the same email. */
  lemma SameEmailIgnoresCase()
    ensures SameEmail("John@Example.com", "john@example.com")
    ensures !SameEmail("john@example.com", "jane@example.com")
  {
    assert ToLower("John@Example.com") == "john@example.com";
    assert ToLower("jane@example.com")[1] == 'a';
  }

  /** `findIndex` with the email comparison: the first matching index, or -1. */
  function FindIndex(subs: seq<Submission>, email: string): (r: int)
    ensures -1 <= r < |subs|
    ensures r == -1 <==> forall i :: 0 <= i < |subs| ==> !SameEmail(subs[i].email, email)
    ensures r >= 0 ==> SameEmail(subs[r].email, email)
    ensures r >= 0 ==> forall i :: 0 <= i < r ==> !SameEmail(subs[i].email, email)
  {
    if subs == [] then -1
    else if SameEmail(subs[0].email, email) then 0
    else
      var k := FindIndex(subs[1..], email);
      if k < 0 then -1 else k + 1
  }

  /** `find` with the same comparison. */
  function Find(subs: seq<Submission>, email: string): (r: Option<Submission>)
    ensures r.None? <==> forall i :: 0 <= i < |subs| ==> !SameEmail(subs[i].email, email)
    ensures r.Some? ==> r.value in subs && SameEmail(r.value.email, email)
  {
    var k := FindIndex(subs, email);
    if k < 0 then None else Some(subs[k])
  }

  /** The record `addSubmission` builds: the input fields, a fresh id and the current time. */
  function NewRecord(input: SubmissionInput, freshId: string, now: int): Submission {
    Submission(freshId, input.name, input.email, input.language, input.reason, now)
  }

  /** Reference definition of the upsert: overwrite the first record with the same email,
      or append. */
  function Upsert(subs: seq<Submission>, rec: Submission): (r: seq<Submission>)
    ensures |r| == if exists i :: 0 <= i < |subs| && SameEmail(subs[i].email, rec.email)
                   then |subs| else |subs| + 1
    ensures forall i :: 0 <= i < |r| ==> r[i] == rec || (i < |subs| && r[i] == subs[i])
  {
    var k := FindIndex(subs, rec.email);
    if k >= 0 then subs[k := rec] else subs + [rec]
  }

  /** No two records share an email, ignoring case. */
  predicate DistinctEmails(subs: seq<Submission>) {
    forall i, j :: 0 <= i < j < |subs| ==> !SameEmail(subs[i].email, subs[j].email)
  }

  /** A matching email replaces the first match in place: same length, every other index
      untouched. */
  lemma UpsertReplaces(subs: seq<Submission>, rec: Submission, k: int)
    requires 0 <= k < |subs| && SameEmail(subs[k].email, rec.email)
    requires forall i :: 0 <= i < k ==> !SameEmail(subs[i].email, rec.email)
    ensures var r := Upsert(subs, rec);
            && |r| == |subs| && r[k] == rec
            && forall i :: 0 <= i < |subs| && i != k ==> r[i] == subs[i]
  {
  }

  /** With no matching email the record goes at the end and nothing else moves. */
  lemma UpsertAppends(subs: seq<Submission>, rec: Submission)
    requires forall i :: 0 <= i < |subs| ==> !SameEmail(subs[i].email, rec.email)
    ensures var r := Upsert(subs, rec);
            && |r| == |subs| + 1 && r[|subs|] == rec && r[..|subs|] == subs
  {
  }

  /** The upsert keeps emails distinct. */
  lemma UpsertKeepsDistinct(subs: seq<Submission>, rec: Submission)
    requires DistinctEmails(subs)
    ensures DistinctEmails(Upsert(subs, rec))
  {
    var k := FindIndex(subs, rec.email);
    var r := Upsert(subs, rec);
    if k >= 0 {
      forall i, j | 0 <= i < j < |r| ensures !SameEmail(r[i].email, r[j].email) {
        if i == k {
          assert !SameEmail(subs[k].email, subs[j].email);
        } else if j == k {
          assert !SameEmail(subs[i].email, subs[k].email);
        }
      }
    }
  }

  /** Right after the upsert, a lookup by any spelling of the same email finds the new record;
      this holds even without distinct emails, since the replaced record is the first match. */
  lemma FindAfterUpsert(subs: seq<Submission>, rec: Submission, q: string)
    requires SameEmail(q, rec.email)
    ensures Find(Upsert(subs, rec), q) == Some(rec)
  {
    var k := FindIndex(subs, rec.email);
    var r := Upsert(subs, rec);
    var m := FindIndex(r, q);
    if m < 0 {
      assert SameEmail(r[if k >= 0 then k else |subs|].email, q);
    } else if k >= 0 && m > k {
      assert SameEmail(r[k].email, q);
    }
  }

  /** The demonstration records have distinct emails. */
  lemma SeedsDistinct(now: int)
    ensures DistinctEmails(SeedSubmissions(now))
  {
    var s := SeedSubmissions(now);
    assert ToLower(s[0].email)[1] == 'o' && ToLower(s[1].email)[1] == 'a';
    assert ToLower(s[2].email)[0] == 'b' && ToLower(s[1].email)[0] == 'j';
  }

  class DataStore {
    var submissions: seq<Submission>

    /** A new store holds the three demonstration records. */
    constructor (now: int)
      ensures submissions == SeedSubmissions(now)
      ensures DistinctEmails(submissions)
    {
      submissions := SeedSubmissions(now);
      SeedsDistinct(now);
    }

    /** `getAllSubmissions`: a copy of the list, the store unchanged. */
    method GetAllSubmissions() returns (r: seq<Submission>)
      ensures r == submissions
    {
      r := submissions;
    }

    /** `addSubmission`: the upsert with a record stamped with `freshId` and `now`, the values
        of `Date.now().toString()` and `new Date()`. The id is fresh on update too. */
    method AddSubmission(input: SubmissionInput, freshId: string, now: int) returns (r: Submission)
      modifies this
      ensures r == NewRecord(input, freshId, now)
      ensures submissions == Upsert(old(submissions), r)
      ensures old(DistinctEmails(submissions)) ==> DistinctEmails(submissions)
    {
      r := Submission(freshId, input.name, input.email, input.language, input.reason, now);
      var existingIndex := FindIndex(submissions, input.email);
      if existingIndex >= 0 {
        submissions := submissions[existingIndex := r];
      } else {
        submissions := submissions + [r];
      }
      if old(DistinctEmails(submissions)) {
        UpsertKeepsDistinct(old(submissions), r);
      }
    }

    /** `getLanguageCounts`: one entry per language present, holding its number of votes;
        the entries add up to the number of votes. */
    method GetLanguageCounts() returns (counts: map<string, int>)
      ensures counts.Keys == Languages(submissions)
      ensures forall l :: l in counts ==> counts[l] == CountOf(submissions, l)
      ensures MapSum(counts) == |submissions|
    {
      counts := CountLanguages(submissions);
      assert counts == Counts(submissions);
      CountsSumToTotal(submissions);
    }

    /** `getTotalVotes`. */
    method GetTotalVotes() returns (n: int)
      ensures n == |submissions|
    {
      n := |submissions|;
    }

    /** `findByEmail`: the first record whose email matches `email` ignoring case. */
    method FindByEmail(email: string) returns (r: Option<Submission>)
      ensures r == Find(submissions, email)
      ensures r.None? <==> forall i :: 0 <= i < |submissions| ==> !SameEmail(submissions[i].email, email)
      ensures r.Some? ==> exists k :: 0 <= k < |submissions| && r.value == submissions[k]
                            && SameEmail(submissions[k].email, email)
                            && forall i :: 0 <= i < k ==> !SameEmail(submissions[i].email, email)
    {
      var k := FindIndex(submissions, email);
      r := if k < 0 then None else Some(submissions[k]);
    }
  }
}
