/** The per-language vote tally `{ [language]: count }` that both the data store and the
    results endpoint build with the same `forEach` loop. */
module Tally {
  import opened Types

  /** Number of submissions voting for `l`. */
  function CountOf(subs: seq<Submission>, l: string): nat {
    if subs == [] then 0
    else CountOf(subs[..|subs| - 1], l) + (if subs[|subs| - 1].language == l then 1 else 0)
  }

  /** The languages that occur in `subs`. */
  function Languages(subs: seq<Submission>): set<string> {
    set i | 0 <= i < |subs| :: subs[i].language
  }

  /** Reference tally: every language present mapped to its number of votes, no other key. */
  function Counts(subs: seq<Submission>): map<string, int> {
    map l | l in Languages(subs) :: CountOf(subs, l)
  }

  /** The sum of the values of a map. */
  ghost function MapSum(m: map<string, int>): int
    decreases |m|
  {
    if m == map[] then 0
    else
      var k :| k in m;
      m[k] + MapSum(m - {k})
  }

  /** Any key may be taken out first. */
  lemma {:induction false} MapSumRemove(m: map<string, int>, k: string)
    requires k in m
    ensures MapSum(m) == m[k] + MapSum(m - {k})
    decreases |m|
  {
    var k0 :| k0 in m && MapSum(m) == m[k0] + MapSum(m - {k0});
    if k0 != k {
      MapSumRemove(m - {k0}, k);
      MapSumRemove(m - {k}, k0);
      assert m - {k0} - {k} == m - {k} - {k0};
    }
  }

  /** Setting key `k` to `v` replaces its old contribution, if any, by `v`. */
  lemma MapSumUpdate(m: map<string, int>, k: string, v: int)
    ensures MapSum(m[k := v]) == v + MapSum(m) - (if k in m then m[k] else 0)
  {
    MapSumRemove(m[k := v], k);
    assert m[k := v] - {k} == m - {k};
    if k in m { MapSumRemove(m, k); } else { assert m - {k} == m; }
  }

  lemma CountOfAppend(subs: seq<Submission>, x: Submission, l: string)
    ensures CountOf(subs + [x], l) == CountOf(subs, l) + (if x.language == l then 1 else 0)
  {
    assert (subs + [x])[..|subs|] == subs;
  }

  lemma LanguagesAppend(subs: seq<Submission>, x: Submission)
    ensures Languages(subs + [x]) == Languages(subs) + {x.language}
  {
    var s' := subs + [x];
    forall l | l in Languages(subs) ensures l in Languages(s') {
      var i :| 0 <= i < |subs| && subs[i].language == l;
      assert s'[i] == subs[i];
    }
    assert s'[|subs|] == x;
  }

  /** A language is present exactly when it has at least one vote. */
  lemma {:induction false} PresentIffCounted(subs: seq<Submission>, l: string)
    ensures l in Languages(subs) <==> CountOf(subs, l) > 0
  {
    if subs != [] {
      var init, x := subs[..|subs| - 1], subs[|subs| - 1];
      assert subs == init + [x];
      PresentIffCounted(init, l);
      LanguagesAppend(init, x);
      CountOfAppend(init, x, l);
    }
  }

  /** One more submission adds one to its language's entry, creating it at 1. */
  lemma CountsAppend(subs: seq<Submission>, x: Submission)
    ensures var c := Counts(subs);
            Counts(subs + [x]) == c[x.language := (if x.language in c then c[x.language] else 0) + 1]
  {
    LanguagesAppend(subs, x);
    var c := Counts(subs);
    forall l | l in Languages(subs + [x]) ensures CountOf(subs + [x], l) ==
      c[x.language := (if x.language in c then c[x.language] else 0) + 1][l] {
      CountOfAppend(subs, x, l);
      if l == x.language && l !in c { PresentIffCounted(subs, l); }
    }
  }

  /** The counts add up to the number of submissions. */
  lemma {:induction false} CountsSumToTotal(subs: seq<Submission>)
    ensures MapSum(Counts(subs)) == |subs|
  {
    if subs == [] {
      assert Counts(subs) == map[];
    } else {
      var init, x := subs[..|subs| - 1], subs[|subs| - 1];
      assert subs == init + [x];
      CountsSumToTotal(init);
      CountsAppend(init, x);
      var c := Counts(init);
      MapSumUpdate(c, x.language, (if x.language in c then c[x.language] else 0) + 1);
    }
  }

  /** The `forEach` loop: `counts[language] = (counts[language] || 0) + 1` for every submission. */
  method CountLanguages(subs: seq<Submission>) returns (counts: map<string, int>)
    ensures counts.Keys == Languages(subs)
    ensures forall l :: l in counts ==> counts[l] == CountOf(subs, l)
  {
    counts := map[];
    var i := 0;
    while i < |subs|
      invariant 0 <= i <= |subs|
      invariant counts == Counts(subs[..i])
    {
      var language := subs[i].language;
      assert subs[..i + 1] == subs[..i] + [subs[i]];
      CountsAppend(subs[..i], subs[i]);
      counts := counts[language := (if language in counts then counts[language] else 0) + 1];
      i := i + 1;
    }
    assert subs[..|subs|] == subs;
  }
}
