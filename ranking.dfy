/** The result ordering of `extract_nouns` / `extract_nouns2`: NaN probabilities last, the
    rest by descending `log10(count) * probability * unique`, sorted in place. */
module Ranking {
  import opened Likelihood

  /** A candidate's final score: probability, occurrence count, unique suffix count. */
  datatype Score = Score(probability: Prob, count: nat, unique: nat)

  datatype Ordering = Less | Equal | Greater

  /** The `sort_by` comparator: two NaNs are equal, a NaN is greater than a number, and
      numbers compare by their ranking keys in reverse. */
  function Compare(s1: Score, s2: Score, rankKey: (nat, real, nat) -> real): Ordering {
    if s1.probability.NaN? && s2.probability.NaN? then Equal
    else if s1.probability.NaN? then Greater
    else if s2.probability.NaN? then Less
    else
      var k1 := rankKey(s1.count, s1.probability.value, s1.unique);
      var k2 := rankKey(s2.count, s2.probability.value, s2.unique);
      if k2 < k1 then Less else if k2 == k1 then Equal else Greater
  }

  /** Entry x may stand before entry y in the sorted result. */
  predicate Before(x: (string, Score), y: (string, Score), rankKey: (nat, real, nat) -> real) {
    Compare(x.1, y.1, rankKey) != Greater
  }

  predicate Sorted(s: seq<(string, Score)>, rankKey: (nat, real, nat) -> real) {
    forall p, q :: 0 <= p < q < |s| ==> Before(s[p], s[q], rankKey)
  }

  /** The comparator is antisymmetric and a total preorder, as `sort_by` requires. */
  lemma CompareIsTotalPreorder(a: Score, b: Score, c: Score, rankKey: (nat, real, nat) -> real)
    ensures Compare(a, b, rankKey) == Less <==> Compare(b, a, rankKey) == Greater
    ensures Compare(a, b, rankKey) == Equal <==> Compare(b, a, rankKey) == Equal
    ensures Compare(a, a, rankKey) == Equal
    ensures Compare(a, b, rankKey) != Greater && Compare(b, c, rankKey) != Greater ==> Compare(a, c, rankKey) != Greater
  {
  }

  /** In a sorted result every NaN entry comes after every entry with a number, and a
      number entry precedes another only if its ranking key is at least as large. */
  lemma SortedPlacesNaNLast(s: seq<(string, Score)>, rankKey: (nat, real, nat) -> real, p: nat, q: nat)
    requires Sorted(s, rankKey) && p < q < |s|
    ensures s[p].1.probability.NaN? ==> s[q].1.probability.NaN?
    ensures s[p].1.probability.Num? && s[q].1.probability.Num? ==>
              rankKey(s[p].1.count, s[p].1.probability.value, s[p].1.unique)
                >= rankKey(s[q].1.count, s[q].1.probability.value, s[q].1.unique)
  {
  }

  method Swap(a: array<(string, Score)>, p: nat, q: nat)
    requires p < a.Length && q < a.Length
    modifies a
    ensures a[..] == old(a[..])[p := old(a[q])][q := old(a[p])]
    ensures multiset(a[..]) == multiset(old(a[..]))
  {
    a[p], a[q] := a[q], a[p];
  }

  /** Moves a[i] left past the entries that sort strictly after it, so that a[..i+1] is
      sorted when a[..i] was. */
  method InsertAt(a: array<(string, Score)>, i: nat, rankKey: (nat, real, nat) -> real)
    requires i < a.Length
    requires Sorted(a[..i], rankKey)
    modifies a
    ensures Sorted(a[..i + 1], rankKey)
    ensures a[i + 1..] == old(a[i + 1..])
    ensures multiset(a[..]) == multiset(old(a[..]))
  {
    var j := i;
    while j > 0 && !Before(a[j - 1], a[j], rankKey)
      invariant 0 <= j <= i
      invariant forall m, n :: 0 <= m < n <= i && n != j ==> Before(a[m], a[n], rankKey)
      invariant a[i + 1..] == old(a[i + 1..])
      invariant multiset(a[..]) == multiset(old(a[..]))
      decreases j
    {
      Swap(a, j - 1, j);
      j := j - 1;
    }
    forall m, n | 0 <= m < n <= i
      ensures Before(a[m], a[n], rankKey)
    {
      if n == j && m < j - 1 {
        CompareIsTotalPreorder(a[m].1, a[j - 1].1, a[j].1, rankKey);
      }
    }
  }

  /** `res.sort_by(…)`: the array ends sorted and holds the same entries. */
  method SortByScore(a: array<(string, Score)>, rankKey: (nat, real, nat) -> real)
    modifies a
    ensures Sorted(a[..], rankKey)
    ensures multiset(a[..]) == multiset(old(a[..]))
  {
    var i := 0;
    while i < a.Length
      invariant 0 <= i <= a.Length
      invariant Sorted(a[..i], rankKey)
      invariant multiset(a[..]) == multiset(old(a[..]))
      decreases a.Length - i
    {
      InsertAt(a, i, rankKey);
      i := i + 1;
    }
    assert a[..i] == a[..];
  }

  /** `res` holds one scored pair for each candidate in `done`, and nothing else. */
  ghost predicate Collected<E>(res: seq<(string, Score)>, m: map<string, E>, finish: E -> Score, done: set<string>) {
    && done <= m.Keys
    && |res| == |done|
    && (forall p :: 0 <= p < |res| ==> res[p].0 in done && res[p].1 == finish(m[res[p].0]))
    && (forall w :: w in done ==> (w, finish(m[w])) in res)
  }

  /** Appending the pair of a candidate not yet collected keeps one pair per candidate. */
  lemma CollectStep<E>(res: seq<(string, Score)>, m: map<string, E>, finish: E -> Score, done: set<string>, w: string)
    requires Collected(res, m, finish, done)
    requires w in m && w !in done
    ensures Collected(res + [(w, finish(m[w]))], m, finish, done + {w})
  {
    var res' := res + [(w, finish(m[w]))];
    assert |done + {w}| == |done| + 1;
    forall p | 0 <= p < |res'|
      ensures res'[p].0 in done + {w} && res'[p].1 == finish(m[res'[p].0])
    {
      if p < |res| {
        assert res'[p] == res[p];
      }
    }
    forall x | x in done + {w}
      ensures (x, finish(m[x])) in res'
    {
      if x != w {
        var p :| 0 <= p < |res| && res[p] == (x, finish(m[x]));
        assert res'[p] == res[p];
      } else {
        assert res'[|res|] == (w, finish(m[w]));
      }
    }
  }

  /** `into_iter().map(…).collect()` on the candidate map: one (candidate, score) pair per entry, in
      whatever order the map yields them. */
  method CollectScores<E>(m: map<string, E>, finish: E -> Score) returns (res: seq<(string, Score)>)
    ensures |res| == |m|
    ensures forall p :: 0 <= p < |res| ==> res[p].0 in m && res[p].1 == finish(m[res[p].0])
    ensures forall w :: w in m ==> (w, finish(m[w])) in res
  {
    res := [];
    var remaining := m.Keys;
    ghost var done: set<string> := {};
    while remaining != {}
      invariant done + remaining == m.Keys && done !! remaining
      invariant Collected(res, m, finish, done)
      decreases |remaining|
    {
      var w :| w in remaining;
      CollectStep(res, m, finish, done, w);
      res := res + [(w, finish(m[w]))];
      done := done + {w};
      remaining := remaining - {w};
    }
    assert done == m.Keys;
  }

  /** `res.sort_by(…)` on the collected vector. */
  method SortScores(entries: seq<(string, Score)>, rankKey: (nat, real, nat) -> real) returns (res: seq<(string, Score)>)
    ensures Sorted(res, rankKey)
    ensures multiset(res) == multiset(entries)
  {
    var a := new (string, Score)[|entries|](p requires 0 <= p < |entries| => entries[p]);
    assert a[..] == entries;
    SortByScore(a, rankKey);
    res := a[..];
  }

  /** The vector of (candidate, score) pairs, sorted: one pair per candidate, scored by
      `finish`, NaN probabilities last. */
  method RankScores<E>(m: map<string, E>, finish: E -> Score, rankKey: (nat, real, nat) -> real)
    returns (res: seq<(string, Score)>)
    ensures Sorted(res, rankKey)
    ensures |res| == |m|
    ensures forall p :: 0 <= p < |res| ==> res[p].0 in m && res[p].1 == finish(m[res[p].0])
    ensures forall w :: w in m ==> (w, finish(m[w])) in res
  {
    var scored := CollectScores(m, finish);
    res := SortScores(scored, rankKey);
    forall p | 0 <= p < |res|
      ensures res[p] in scored
    {
      assert res[p] in multiset(res);
    }
    forall w | w in m
      ensures (w, finish(m[w])) in res
    {
      assert (w, finish(m[w])) in multiset(scored);
    }
    assert |res| == |multiset(res)| == |multiset(scored)| == |scored|;
  }
}
