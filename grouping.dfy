/** Grouping submissions by language and ordering each group by submission time, as the
    results reducer does after every fetch. */
module Grouping {
  import opened Types
  import opened Tally

  /** The submissions voting for `l`, in input order. */
  function OfLanguage(subs: seq<Submission>, l: string): (r: seq<Submission>)
    ensures |r| == CountOf(subs, l)
    ensures forall i :: 0 <= i < |r| ==> r[i].language == l
  {
    if subs == [] then []
    else
      var x := subs[|subs| - 1];
      OfLanguage(subs[..|subs| - 1], l) + (if x.language == l then [x] else [])
  }

  lemma OfLanguageAppend(subs: seq<Submission>, x: Submission, l: string)
    ensures OfLanguage(subs + [x], l) == OfLanguage(subs, l) + (if x.language == l then [x] else [])
  {
    assert (subs + [x])[..|subs|] == subs;
  }

  /** A language's group holds each of its submissions as often as the input does, and
      nothing else. */
  lemma {:induction false} OfLanguageOccurrences(subs: seq<Submission>, l: string, x: Submission)
    ensures multiset(OfLanguage(subs, l))[x] == if x.language == l then multiset(subs)[x] else 0
  {
    if subs != [] {
      var init, y := subs[..|subs| - 1], subs[|subs| - 1];
      assert subs == init + [y];
      OfLanguageOccurrences(init, l, x);
    }
  }

  /** Non-decreasing submission times. */
  predicate SortedByTime(s: seq<Submission>) {
    forall i, j :: 0 <= i < j < |s| ==> s[i].timeSubmitted <= s[j].timeSubmitted
  }

  /** The elements stamped `t`, in order. */
  function AtTime(s: seq<Submission>, t: int): seq<Submission> {
    if s == [] then []
    else
      var x := s[|s| - 1];
      AtTime(s[..|s| - 1], t) + (if x.timeSubmitted == t then [x] else [])
  }

  lemma AtTimeAppend(s: seq<Submission>, x: Submission, t: int)
    ensures AtTime(s + [x], t) == AtTime(s, t) + (if x.timeSubmitted == t then [x] else [])
  {
    assert (s + [x])[..|s|] == s;
  }

  /** Inserts `x` after every element not later than it. */
  function InsertByTime(s: seq<Submission>, x: Submission): seq<Submission> {
    if s == [] || s[|s| - 1].timeSubmitted <= x.timeSubmitted then s + [x]
    else InsertByTime(s[..|s| - 1], x) + [s[|s| - 1]]
  }

  /** The ascending order `Array.prototype.sort` produces with the comparator
      `a.timeSubmitted - b.timeSubmitted`; the built-in sort is stable. */
  function SortByTime(s: seq<Submission>): seq<Submission> {
    if s == [] then [] else InsertByTime(SortByTime(s[..|s| - 1]), s[|s| - 1])
  }

  lemma {:induction false} InsertKeepsSorted(s: seq<Submission>, x: Submission)
    requires SortedByTime(s)
    ensures SortedByTime(InsertByTime(s, x))
    ensures |InsertByTime(s, x)| == |s| + 1
    ensures forall i :: 0 <= i < |InsertByTime(s, x)| ==>
      InsertByTime(s, x)[i] == x || InsertByTime(s, x)[i] in s
  {
    if !(s == [] || s[|s| - 1].timeSubmitted <= x.timeSubmitted) {
      var init, y := s[..|s| - 1], s[|s| - 1];
      InsertKeepsSorted(init, x);
      var r := InsertByTime(init, x);
      forall i | 0 <= i < |r| ensures r[i].timeSubmitted <= y.timeSubmitted {
        if r[i] != x { var k :| 0 <= k < |init| && init[k] == r[i]; }
      }
    }
  }

  lemma {:induction false} InsertOccurrences(s: seq<Submission>, x: Submission)
    ensures multiset(InsertByTime(s, x)) == multiset(s) + multiset{x}
  {
    if !(s == [] || s[|s| - 1].timeSubmitted <= x.timeSubmitted) {
      var init, y := s[..|s| - 1], s[|s| - 1];
      assert s == init + [y];
      InsertOccurrences(init, x);
    }
  }

  /** Inserting never moves `x` past an element with the same time. */
  lemma {:induction false} InsertAtTime(s: seq<Submission>, x: Submission, t: int)
    ensures AtTime(InsertByTime(s, x), t) == AtTime(s, t) + (if x.timeSubmitted == t then [x] else [])
  {
    if s == [] || s[|s| - 1].timeSubmitted <= x.timeSubmitted {
      AtTimeAppend(s, x, t);
    } else {
      var init, y := s[..|s| - 1], s[|s| - 1];
      assert s == init + [y];
      InsertAtTime(init, x, t);
      AtTimeAppend(InsertByTime(init, x), y, t);
      AtTimeAppend(init, y, t);
    }
  }

  /** The sort orders by time, ... */
  lemma {:induction false} SortIsSorted(s: seq<Submission>)
    ensures SortedByTime(SortByTime(s)) && |SortByTime(s)| == |s|
  {
    if s != [] {
      SortIsSorted(s[..|s| - 1]);
      InsertKeepsSorted(SortByTime(s[..|s| - 1]), s[|s| - 1]);
    }
  }

  /** ... is a permutation ... */
  lemma {:induction false} SortIsPermutation(s: seq<Submission>)
    ensures multiset(SortByTime(s)) == multiset(s)
  {
    if s != [] {
      SortIsPermutation(s[..|s| - 1]);
      InsertOccurrences(SortByTime(s[..|s| - 1]), s[|s| - 1]);
      assert s == s[..|s| - 1] + [s[|s| - 1]];
    }
  }

  /** ... and is stable: the elements sharing a time keep their input order. */
  lemma {:induction false} SortIsStable(s: seq<Submission>, t: int)
    ensures AtTime(SortByTime(s), t) == AtTime(s, t)
  {
    if s != [] {
      var init, x := s[..|s| - 1], s[|s| - 1];
      SortIsStable(init, t);
      InsertAtTime(SortByTime(init), x, t);
      AtTimeAppend(init, x, t);
      assert s == init + [x];
    }
  }

  /** Reference definition of `groupedSubmissions`: one entry per language present, holding
      that language's submissions in time order. */
  function Grouped(subs: seq<Submission>): map<string, seq<Submission>> {
    map l | l in Languages(subs) :: SortByTime(OfLanguage(subs, l))
  }

  /** The keys are exactly the languages present; no submissions, no groups. */
  lemma GroupedKeys(subs: seq<Submission>)
    ensures Grouped(subs).Keys == Languages(subs)
    ensures subs == [] ==> Grouped(subs) == map[]
  {
  }

  /** Each group is sorted by time, stable, and a permutation of that language's submissions. */
  lemma GroupIsOrderedPermutation(subs: seq<Submission>, l: string)
    requires l in Grouped(subs)
    ensures var g := Grouped(subs)[l];
            && SortedByTime(g)
            && multiset(g) == multiset(OfLanguage(subs, l))
            && (forall i :: 0 <= i < |g| ==> g[i].language == l)
            && forall t :: AtTime(g, t) == AtTime(OfLanguage(subs, l), t)
  {
    var g := Grouped(subs)[l];
    SortIsSorted(OfLanguage(subs, l));
    SortIsPermutation(OfLanguage(subs, l));
    forall t ensures AtTime(g, t) == AtTime(OfLanguage(subs, l), t) {
      SortIsStable(OfLanguage(subs, l), t);
    }
    forall i | 0 <= i < |g| ensures g[i].language == l {
      assert g[i] in multiset(OfLanguage(subs, l));
    }
  }

  /** Every submission lands in the group of its own language, as often as it occurs, and in
      no other group. */
  lemma GroupOccurrences(subs: seq<Submission>, l: string, x: Submission)
    requires l in Grouped(subs)
    ensures multiset(Grouped(subs)[l])[x] == if x.language == l then multiset(subs)[x] else 0
  {
    SortIsPermutation(OfLanguage(subs, l));
    OfLanguageOccurrences(subs, l, x);
  }

  lemma EveryInItsGroup(subs: seq<Submission>, i: int)
    requires 0 <= i < |subs|
    ensures subs[i].language in Grouped(subs)
    ensures subs[i] in Grouped(subs)[subs[i].language]
  {
    var l := subs[i].language;
    assert l in Languages(subs);
    GroupOccurrences(subs, l, subs[i]);
    assert subs[i] in multiset(subs);
  }

  /** The sizes of the groups are the per-language counts, so they add up to the number of
      submissions. */
  lemma GroupSizesSumToTotal(subs: seq<Submission>)
    ensures var sizes := map l | l in Grouped(subs) :: |Grouped(subs)[l]|;
            sizes == Counts(subs) && MapSum(sizes) == |subs|
  {
    var sizes := map l | l in Grouped(subs) :: |Grouped(subs)[l]|;
    forall l | l in sizes ensures sizes[l] == Counts(subs)[l] {
      SortIsSorted(OfLanguage(subs, l));
    }
    CountsSumToTotal(subs);
  }
}
