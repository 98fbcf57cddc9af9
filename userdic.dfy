/** The user-dictionary service's `State` (rest-userdic.rs): the noun extractor, the
    `noun_scores` table (every candidate's score, merged over all requests), the `nouns`
    table (the candidates promoted to nouns) and the three promotion thresholds. The two
    RocksDB tables are a map and a set; a table key and its serialized form name the same
    candidate, so both are keyed by the candidate itself. */
module UserDictionary {
  import opened Wrappers
  import opened Counting
  import opened Likelihood
  import opened Ranking
  import Store
  import RatioScores
  import NounModel

  const DefaultUniqueThreshold: Prob := Num(5.0)
  const DefaultCountThreshold: nat := 30
  const DefaultProbabilityThreshold: Prob := Num(0.9)

  /** `Score::merge` and `unique_suffixes_hll.len()`, which this model keeps abstract. */
  datatype ScoreOps = ScoreOps(merge: (Score, Score) -> Score, uniqueEstimate: Score -> Prob)

  datatype Thresholds = Thresholds(unique: Prob, count: nat, probability: Prob)

  /** Floating-point `>=`: false as soon as either side is NaN. */
  predicate AtLeast(a: Prob, b: Prob) {
    a.Num? && b.Num? && a.value >= b.value
  }

  /** The three tests a merged score must pass for its candidate to become a noun. */
  predicate Passes(s: Score, t: Thresholds, ops: ScoreOps) {
    AtLeast(s.probability, t.probability) && AtLeast(ops.uniqueEstimate(s), t.unique) && s.count >= t.count
  }

  /** A new score for `candidate`, merged with the stored one when there is one. */
  function Merged(stored: map<string, Score>, candidate: string, score: Score, ops: ScoreOps): Score {
    if candidate in stored then ops.merge(score, stored[candidate]) else score
  }

  /** The candidates whose score, merged with the stored one, passes the thresholds. */
  function Promotions(stored: map<string, Score>, candidates: map<string, Score>, t: Thresholds, ops: ScoreOps): set<string> {
    set w | w in candidates && Passes(Merged(stored, w, candidates[w], ops), t, ops)
  }

  // Batches of (candidate, score) pairs, as `extract_nouns` returns them

  function KeysOf(batch: seq<(string, Score)>): set<string> {
    set p | 0 <= p < |batch| :: batch[p].0
  }

  predicate DistinctKeys(batch: seq<(string, Score)>) {
    forall p, q :: 0 <= p < q < |batch| ==> batch[p].0 != batch[q].0
  }

  /** The first loop of `train`: every score merged, in place, with the stored one. */
  function MergeAll(stored: map<string, Score>, batch: seq<(string, Score)>, ops: ScoreOps): (r: seq<(string, Score)>)
    ensures |r| == |batch|
    ensures forall p :: 0 <= p < |batch| ==> r[p].0 == batch[p].0
    ensures forall p :: 0 <= p < |batch| && batch[p].0 !in stored ==> r[p] == batch[p]
  {
    seq(|batch|, p requires 0 <= p < |batch| => (batch[p].0, Merged(stored, batch[p].0, batch[p].1, ops)))
  }

  lemma MergeAllAt(stored: map<string, Score>, batch: seq<(string, Score)>, ops: ScoreOps, p: nat)
    requires p < |batch|
    ensures MergeAll(stored, batch, ops)[p] == (batch[p].0, Merged(stored, batch[p].0, batch[p].1, ops))
  {
  }

  /** `noun_scores` after `put`ting the pairs in order. */
  function StoreAll(stored: map<string, Score>, batch: seq<(string, Score)>): map<string, Score> {
    if batch == [] then stored
    else
      var last := batch[|batch| - 1];
      StoreAll(stored, batch[..|batch| - 1])[last.0 := last.1]
  }

  /** `nouns` after the promote-or-delete step for each pair in order. */
  function PromoteAll(nouns: set<string>, batch: seq<(string, Score)>, t: Thresholds, ops: ScoreOps): set<string> {
    if batch == [] then nouns
    else
      var last := batch[|batch| - 1];
      var before := PromoteAll(nouns, batch[..|batch| - 1], t, ops);
      if Passes(last.1, t, ops) then before + {last.0} else before - {last.0}
  }

  /** The `count` `train` returns: the pairs that passed. */
  function PassCount(batch: seq<(string, Score)>, t: Thresholds, ops: ScoreOps): nat {
    if batch == [] then 0
    else PassCount(batch[..|batch| - 1], t, ops) + (if Passes(batch[|batch| - 1].1, t, ops) then 1 else 0)
  }

  function PassingKeys(batch: seq<(string, Score)>, t: Thresholds, ops: ScoreOps): set<string> {
    set p | 0 <= p < |batch| && Passes(batch[p].1, t, ops) :: batch[p].0
  }

  lemma DistinctPrefix(batch: seq<(string, Score)>, n: nat)
    requires DistinctKeys(batch) && n <= |batch|
    ensures DistinctKeys(batch[..n])
  {
  }

  /** With distinct candidates, the stored score of each one is its own. */
  lemma {:induction false} StoreAllAt(stored: map<string, Score>, batch: seq<(string, Score)>, p: nat)
    requires DistinctKeys(batch) && p < |batch|
    ensures batch[p].0 in StoreAll(stored, batch) && StoreAll(stored, batch)[batch[p].0] == batch[p].1
  {
    if p < |batch| - 1 {
      DistinctPrefix(batch, |batch| - 1);
      StoreAllAt(stored, batch[..|batch| - 1], p);
    }
  }

  /** A candidate outside the batch keeps its entry, or its absence. */
  lemma {:induction false} StoreAllElsewhere(stored: map<string, Score>, batch: seq<(string, Score)>, w: string)
    requires w !in KeysOf(batch)
    ensures w in StoreAll(stored, batch) <==> w in stored
    ensures w in stored ==> StoreAll(stored, batch)[w] == stored[w]
  {
    if batch != [] {
      assert KeysOf(batch[..|batch| - 1]) <= KeysOf(batch);
      StoreAllElsewhere(stored, batch[..|batch| - 1], w);
    }
  }

  /** Storing the same distinct pairs a second time changes nothing: the third loop of
      `train` repeats the second loop's `put`s. */
  lemma StoreAllTwice(stored: map<string, Score>, batch: seq<(string, Score)>)
    requires DistinctKeys(batch)
    ensures StoreAll(StoreAll(stored, batch), batch) == StoreAll(stored, batch)
  {
    var once := StoreAll(stored, batch);
    var twice := StoreAll(once, batch);
    forall w | w in KeysOf(batch)
      ensures w in twice && w in once && twice[w] == once[w]
    {
      var p :| 0 <= p < |batch| && batch[p].0 == w;
      StoreAllAt(stored, batch, p);
      StoreAllAt(once, batch, p);
    }
    forall w | w !in KeysOf(batch)
      ensures (w in twice <==> w in once) && (w in once ==> twice[w] == once[w])
    {
      StoreAllElsewhere(once, batch, w);
    }
    assert twice.Keys == once.Keys;
  }

  /** With distinct candidates, a candidate of the batch is a noun exactly when its own
      score passes. */
  lemma {:induction false} PromoteAllAt(nouns: set<string>, batch: seq<(string, Score)>, t: Thresholds, ops: ScoreOps, p: nat)
    requires DistinctKeys(batch) && p < |batch|
    ensures batch[p].0 in PromoteAll(nouns, batch, t, ops) <==> Passes(batch[p].1, t, ops)
  {
    if p < |batch| - 1 {
      DistinctPrefix(batch, |batch| - 1);
      PromoteAllAt(nouns, batch[..|batch| - 1], t, ops, p);
    }
  }

  /** A candidate outside the batch keeps its membership. */
  lemma {:induction false} PromoteAllElsewhere(nouns: set<string>, batch: seq<(string, Score)>, t: Thresholds, ops: ScoreOps, w: string)
    requires w !in KeysOf(batch)
    ensures w in PromoteAll(nouns, batch, t, ops) <==> w in nouns
  {
    if batch != [] {
      assert KeysOf(batch[..|batch| - 1]) <= KeysOf(batch);
      PromoteAllElsewhere(nouns, batch[..|batch| - 1], t, ops, w);
    }
  }

  /** With distinct candidates, the count is the number of candidates that passed. */
  lemma {:induction false} PassCountKeys(batch: seq<(string, Score)>, t: Thresholds, ops: ScoreOps)
    requires DistinctKeys(batch)
    ensures PassCount(batch, t, ops) == |PassingKeys(batch, t, ops)|
  {
    if batch != [] {
      var n := |batch| - 1;
      var init := batch[..n];
      DistinctPrefix(batch, n);
      PassCountKeys(init, t, ops);
      assert batch[n].0 !in KeysOf(init);
      if Passes(batch[n].1, t, ops) {
        assert PassingKeys(batch, t, ops) == PassingKeys(init, t, ops) + {batch[n].0};
        assert batch[n].0 !in PassingKeys(init, t, ops);
      } else {
        assert PassingKeys(batch, t, ops) == PassingKeys(init, t, ops);
      }
    }
  }

  /** A batch has no more candidates than pairs, and as many only when they are distinct. */
  lemma {:induction false} KeysCardinality(batch: seq<(string, Score)>)
    ensures |KeysOf(batch)| <= |batch|
    ensures |KeysOf(batch)| == |batch| ==> DistinctKeys(batch)
  {
    if batch != [] {
      var n := |batch| - 1;
      var init := batch[..n];
      KeysCardinality(init);
      assert KeysOf(batch) == KeysOf(init) + {batch[n].0};
      if batch[n].0 !in KeysOf(init) {
        assert |KeysOf(batch)| == |KeysOf(init)| + 1;
      }
    }
  }

  /** `batch` lists the entries of `candidates`, as `extract_nouns` does. */
  predicate Lists(batch: seq<(string, Score)>, candidates: map<string, Score>) {
    && |batch| == |candidates|
    && (forall p :: 0 <= p < |batch| ==> batch[p].0 in candidates && batch[p].1 == candidates[batch[p].0])
    && (forall w :: w in candidates ==> (w, candidates[w]) in batch)
  }

  /** `extract_nouns` lists each candidate of its map once. */
  lemma ExtractionIsDistinct(batch: seq<(string, Score)>, candidates: map<string, Score>)
    requires |batch| == |candidates|
    requires forall p :: 0 <= p < |batch| ==> batch[p].0 in candidates
    requires forall w :: w in candidates ==> (w, candidates[w]) in batch
    ensures DistinctKeys(batch)
  {
    assert KeysOf(batch) == candidates.Keys;
    KeysCardinality(batch);
  }

  // The byte order in which RocksDB iterates the `nouns` table. For UTF-8 text it is the
  // lexicographic order of code points.

  predicate InByteOrder(a: string, b: string)
    decreases |a|
  {
    if a == [] then b != []
    else if b == [] then false
    else if a[0] != b[0] then a[0] < b[0]
    else InByteOrder(a[1..], b[1..])
  }

  lemma {:induction false} InByteOrderIrreflexive(a: string)
    ensures !InByteOrder(a, a)
  {
    if a != [] {
      InByteOrderIrreflexive(a[1..]);
    }
  }

  lemma {:induction false} InByteOrderTransitive(a: string, b: string, c: string)
    requires InByteOrder(a, b) && InByteOrder(b, c)
    ensures InByteOrder(a, c)
    decreases |a|
  {
    if a != [] && a[0] == b[0] && b[0] == c[0] {
      InByteOrderTransitive(a[1..], b[1..], c[1..]);
    }
  }

  lemma {:induction false} InByteOrderTotal(a: string, b: string)
    requires a != b
    ensures InByteOrder(a, b) || InByteOrder(b, a)
    decreases |a|
  {
    if a != [] && b != [] && a[0] == b[0] {
      assert a == [a[0]] + a[1..] && b == [b[0]] + b[1..];
      InByteOrderTotal(a[1..], b[1..]);
    }
  }

  /** A non-empty set of strings has a first one in byte order. */
  lemma {:induction false} FirstExists(s: set<string>)
    requires s != {}
    ensures exists w :: w in s && forall v :: v in s && v != w ==> InByteOrder(w, v)
    decreases |s|
  {
    var x :| x in s;
    if s != {x} {
      FirstExists(s - {x});
      var m :| m in s - {x} && forall v :: v in s - {x} && v != m ==> InByteOrder(m, v);
      InByteOrderTotal(x, m);
      if InByteOrder(x, m) {
        forall v | v in s && v != x
          ensures InByteOrder(x, v)
        {
          if v != m {
            InByteOrderTransitive(x, m, v);
          }
        }
      } else {
        assert forall v :: v in s && v != m ==> InByteOrder(m, v);
      }
    }
  }

  class State {
    const extractor: NounModel.State
    var nounScores: map<string, Score>
    var nouns: set<string>
    var uniqueSuffixesThreshold: Prob
    var countThreshold: nat
    var nounProbabilityThreshold: Prob

    /** `open` once the extractor and both tables are open: the default thresholds. */
    constructor (extractor: NounModel.State, nounScores: map<string, Score>, nouns: set<string>)
      ensures this.extractor == extractor && this.nounScores == nounScores && this.nouns == nouns
      ensures uniqueSuffixesThreshold == DefaultUniqueThreshold
      ensures countThreshold == DefaultCountThreshold
      ensures nounProbabilityThreshold == DefaultProbabilityThreshold
    {
      this.extractor := extractor;
      this.nounScores := nounScores;
      this.nouns := nouns;
      uniqueSuffixesThreshold := DefaultUniqueThreshold;
      countThreshold := DefaultCountThreshold;
      nounProbabilityThreshold := DefaultProbabilityThreshold;
    }

    /** `open`: the noun extractor's model under `modelPath` (which fails when one of its
        stores does not decode), the two tables as they are on disk, and the default
        thresholds. */
    static method Open(suffixDisk: Store.Disk<Suffix, Count>, tallyDisk: Store.Disk<string, nat>, modelPath: string,
                       nounScores: map<string, Score>, nouns: set<string>)
      returns (r: Result<State, Store.StoreError>)
      ensures r.Ok? <==> Store.Load(suffixDisk, modelPath + NounModel.SuffixFile).Ok?
                         && Store.Load(tallyDisk, modelPath + NounModel.TallyFile).Ok?
      ensures r.Ok? ==>
                fresh(r.value)
                && r.value.extractor.Contents() == Counts(Store.Load(suffixDisk, modelPath + NounModel.SuffixFile).value,
                                                          Store.Load(tallyDisk, modelPath + NounModel.TallyFile).value)
                && r.value.nounScores == nounScores && r.value.nouns == nouns
                && r.value.CurrentThresholds() == Thresholds(DefaultUniqueThreshold, DefaultCountThreshold, DefaultProbabilityThreshold)
    {
      var extractor := NounModel.State.Open(suffixDisk, tallyDisk, modelPath);
      if extractor.Err? {
        return Err(extractor.error);
      }
      var s := new State(extractor.value, nounScores, nouns);
      r := Ok(s);
    }

    function CurrentThresholds(): Thresholds
      reads this
    {
      Thresholds(uniqueSuffixesThreshold, countThreshold, nounProbabilityThreshold)
    }

    /** `set_threshold`: the three thresholds and nothing else. */
    method SetThreshold(uniqueSuffixesCount: Prob, count: nat, nounProbability: Prob)
      modifies this
      ensures CurrentThresholds() == Thresholds(uniqueSuffixesCount, count, nounProbability)
      ensures nounScores == old(nounScores) && nouns == old(nouns)
    {
      uniqueSuffixesThreshold := uniqueSuffixesCount;
      countThreshold := count;
      nounProbabilityThreshold := nounProbability;
    }

    /** The candidates `extract_nouns` finds in `text`, with their scores. */
    function Candidates(text: string, isAlphanumeric: char -> bool, num: Numerics): map<string, Score>
      reads extractor, extractor.suffixCounts, extractor.tallies
    {
      var extracted := RatioScores.Extracted(text, isAlphanumeric, extractor.Scorer(num));
      map w | w in extracted :: RatioScores.FinalScore(extracted[w], extractor.Posterior(num))
    }

    /** The first loop of `train`: each score merged, in place, with the stored one. */
    method MergeScores(batch: seq<(string, Score)>, ops: ScoreOps) returns (scores: seq<(string, Score)>)
      ensures scores == MergeAll(nounScores, batch, ops)
    {
      scores := batch;
      var i := 0;
      while i < |scores|
        invariant 0 <= i <= |scores| == |batch|
        invariant forall p :: 0 <= p < i ==> scores[p] == MergeAll(nounScores, batch, ops)[p]
        invariant forall p :: i <= p < |scores| ==> scores[p] == batch[p]
      {
        var candidate := scores[i].0;
        if candidate in nounScores {
          scores := scores[i := (candidate, ops.merge(scores[i].1, nounScores[candidate]))];
        }
        i := i + 1;
      }
    }

    /** The second loop of `train`: every pair `put` into `noun_scores`. */
    method PutScores(scores: seq<(string, Score)>)
      modifies this
      ensures nounScores == StoreAll(old(nounScores), scores)
      ensures nouns == old(nouns) && CurrentThresholds() == old(CurrentThresholds())
    {
      var i := 0;
      while i < |scores|
        invariant 0 <= i <= |scores|
        invariant nounScores == StoreAll(old(nounScores), scores[..i])
        invariant nouns == old(nouns) && CurrentThresholds() == old(CurrentThresholds())
      {
        nounScores := nounScores[scores[i].0 := scores[i].1];
        i := i + 1;
        assert scores[..i][..i - 1] == scores[..i - 1];
      }
      assert scores[..i] == scores;
    }

    /** The third loop of `train`: every pair `put` again, its candidate promoted when the
        score passes the thresholds and deleted from `nouns` otherwise. */
    method PromoteScores(scores: seq<(string, Score)>, ops: ScoreOps) returns (count: nat)
      modifies this
      ensures nounScores == StoreAll(old(nounScores), scores)
      ensures nouns == PromoteAll(old(nouns), scores, CurrentThresholds(), ops)
      ensures count == PassCount(scores, CurrentThresholds(), ops)
      ensures CurrentThresholds() == old(CurrentThresholds())
    {
      count := 0;
      var i := 0;
      while i < |scores|
        invariant 0 <= i <= |scores|
        invariant nounScores == StoreAll(old(nounScores), scores[..i])
        invariant nouns == PromoteAll(old(nouns), scores[..i], CurrentThresholds(), ops)
        invariant count == PassCount(scores[..i], CurrentThresholds(), ops)
        invariant CurrentThresholds() == old(CurrentThresholds())
      {
        var (candidate, score) := scores[i];
        nounScores := nounScores[candidate := score];
        if AtLeast(score.probability, nounProbabilityThreshold)
           && AtLeast(ops.uniqueEstimate(score), uniqueSuffixesThreshold)
           && score.count >= countThreshold
        {
          nouns := nouns + {candidate};
          count := count + 1;
        } else {
          nouns := nouns - {candidate};
        }
        i := i + 1;
        assert scores[..i][..i - 1] == scores[..i - 1];
      }
      assert scores[..i] == scores;
    }

    /** `train`: the candidates of the normalized text, each score merged with the stored
        one and stored, each candidate promoted to a noun when its merged score passes the
        three thresholds and removed otherwise; the result is the number promoted.
        `normalize` is the external `control_chars`, `whitespace_less`, `derepeat` chain. */
    method Train(s: string, normalize: string -> string, isAlphanumeric: char -> bool, num: Numerics, ops: ScoreOps)
      returns (count: nat, ghost candidates: map<string, Score>)
      modifies this
      ensures candidates == old(Candidates(normalize(s), isAlphanumeric, num))
      ensures forall w :: w in candidates ==>
                w in nounScores && nounScores[w] == Merged(old(nounScores), w, candidates[w], ops)
      ensures forall w :: w !in candidates ==>
                (w in nounScores <==> w in old(nounScores)) && (w in nounScores ==> nounScores[w] == old(nounScores)[w])
      ensures forall w :: w in candidates ==>
                (w in nouns <==> Passes(Merged(old(nounScores), w, candidates[w], ops), CurrentThresholds(), ops))
      ensures forall w :: w !in candidates ==> (w in nouns <==> w in old(nouns))
      ensures count == |Promotions(old(nounScores), candidates, CurrentThresholds(), ops)|
      ensures CurrentThresholds() == old(CurrentThresholds())
    {
      candidates := Candidates(normalize(s), isAlphanumeric, num);
      var batch := extractor.ExtractNouns(normalize(s), isAlphanumeric, num);
      ghost var extracted := RatioScores.Extracted(normalize(s), isAlphanumeric, extractor.Scorer(num));
      assert candidates.Keys == extracted.Keys;
      assert Lists(batch, candidates);
      var scores := MergeScores(batch, ops);
      PutScores(scores);
      count := PromoteScores(scores, ops);
      MergedBatch(old(nounScores), batch, candidates, ops);
      StoreAllTwice(old(nounScores), scores);
      assert nounScores == StoreAll(old(nounScores), MergeAll(old(nounScores), batch, ops));
      assert nouns == PromoteAll(old(nouns), MergeAll(old(nounScores), batch, ops), CurrentThresholds(), ops);
      assert count == PassCount(MergeAll(old(nounScores), batch, ops), CurrentThresholds(), ops);
      TrainScores(old(nounScores), batch, candidates, ops);
      TrainNouns(old(nounScores), old(nouns), batch, candidates, CurrentThresholds(), ops);
      TrainCount(old(nounScores), batch, candidates, CurrentThresholds(), ops);
    }

    /** `noun_score`: the stored score of `noun`, if any. */
    method NounScore(noun: string) returns (r: Option<Score>)
      ensures r.Some? <==> noun in nounScores
      ensures r.Some? ==> r.value == nounScores[noun]
    {
      if noun in nounScores {
        r := Some(nounScores[noun]);
      } else {
        r := None;
      }
    }

    /** `nouns`: every noun, once each, in the table's byte order. */
    method Nouns() returns (r: seq<string>)
      ensures forall w :: w in r <==> w in nouns
      ensures forall p, q :: 0 <= p < q < |r| ==> InByteOrder(r[p], r[q])
    {
      r := [];
      var remaining := nouns;
      while remaining != {}
        invariant remaining <= nouns
        invariant forall w :: w in r ==> w in nouns && w !in remaining
        invariant forall w :: w in nouns && w !in remaining ==> w in r
        invariant forall p, q :: 0 <= p < q < |r| ==> InByteOrder(r[p], r[q])
        invariant forall p, w :: 0 <= p < |r| && w in remaining ==> InByteOrder(r[p], w)
        decreases |remaining|
      {
        FirstExists(remaining);
        var w :| w in remaining && forall v :: v in remaining && v != w ==> InByteOrder(w, v);
        r := r + [w];
        remaining := remaining - {w};
      }
    }
  }

  /** The extraction's pairs, merged: each candidate once, with its merged score. */
  lemma MergedBatch(stored: map<string, Score>, batch: seq<(string, Score)>, candidates: map<string, Score>, ops: ScoreOps)
    requires Lists(batch, candidates)
    ensures DistinctKeys(MergeAll(stored, batch, ops))
    ensures KeysOf(MergeAll(stored, batch, ops)) == candidates.Keys
    ensures forall w :: w in candidates ==>
              exists p :: 0 <= p < |batch| && MergeAll(stored, batch, ops)[p] == (w, Merged(stored, w, candidates[w], ops))
  {
    ExtractionIsDistinct(batch, candidates);
    var merged := MergeAll(stored, batch, ops);
    assert KeysOf(batch) == candidates.Keys;
    assert KeysOf(merged) == KeysOf(batch);
    forall w | w in candidates
      ensures exists p :: 0 <= p < |batch| && merged[p] == (w, Merged(stored, w, candidates[w], ops))
    {
      var p :| 0 <= p < |batch| && batch[p] == (w, candidates[w]);
      assert merged[p] == (w, Merged(stored, w, candidates[w], ops));
    }
  }

  /** After `train`, `noun_scores` holds the merged score of every extracted candidate and
      is unchanged elsewhere. */
  lemma TrainScores(stored: map<string, Score>, batch: seq<(string, Score)>, candidates: map<string, Score>, ops: ScoreOps)
    requires Lists(batch, candidates)
    ensures forall w :: w in candidates ==>
              w in StoreAll(stored, MergeAll(stored, batch, ops))
              && StoreAll(stored, MergeAll(stored, batch, ops))[w] == Merged(stored, w, candidates[w], ops)
    ensures forall w :: w !in candidates ==>
              (w in StoreAll(stored, MergeAll(stored, batch, ops)) <==> w in stored)
              && (w in stored ==> StoreAll(stored, MergeAll(stored, batch, ops))[w] == stored[w])
  {
    MergedBatch(stored, batch, candidates, ops);
    var merged := MergeAll(stored, batch, ops);
    forall w | w in candidates
      ensures w in StoreAll(stored, merged) && StoreAll(stored, merged)[w] == Merged(stored, w, candidates[w], ops)
    {
      var p :| 0 <= p < |batch| && merged[p] == (w, Merged(stored, w, candidates[w], ops));
      StoreAllAt(stored, merged, p);
    }
    forall w | w !in candidates
      ensures (w in StoreAll(stored, merged) <==> w in stored) && (w in stored ==> StoreAll(stored, merged)[w] == stored[w])
    {
      StoreAllElsewhere(stored, merged, w);
    }
  }

  /** After `train`, an extracted candidate is a noun exactly when its merged score passes;
      every other string keeps its membership. */
  lemma TrainNouns(stored: map<string, Score>, nouns: set<string>, batch: seq<(string, Score)>,
                   candidates: map<string, Score>, t: Thresholds, ops: ScoreOps)
    requires Lists(batch, candidates)
    ensures forall w :: w in candidates ==>
              (w in PromoteAll(nouns, MergeAll(stored, batch, ops), t, ops) <==> Passes(Merged(stored, w, candidates[w], ops), t, ops))
    ensures forall w :: w !in candidates ==> (w in PromoteAll(nouns, MergeAll(stored, batch, ops), t, ops) <==> w in nouns)
  {
    MergedBatch(stored, batch, candidates, ops);
    var merged := MergeAll(stored, batch, ops);
    forall w | w in candidates
      ensures w in PromoteAll(nouns, merged, t, ops) <==> Passes(Merged(stored, w, candidates[w], ops), t, ops)
    {
      var p :| 0 <= p < |batch| && merged[p] == (w, Merged(stored, w, candidates[w], ops));
      PromoteAllAt(nouns, merged, t, ops, p);
    }
    forall w | w !in candidates
      ensures w in PromoteAll(nouns, merged, t, ops) <==> w in nouns
    {
      PromoteAllElsewhere(nouns, merged, t, ops, w);
    }
  }

  /** `train` returns the number of extracted candidates whose merged score passes. */
  lemma TrainCount(stored: map<string, Score>, batch: seq<(string, Score)>, candidates: map<string, Score>, t: Thresholds, ops: ScoreOps)
    requires Lists(batch, candidates)
    ensures PassCount(MergeAll(stored, batch, ops), t, ops) == |Promotions(stored, candidates, t, ops)|
  {
    MergedBatch(stored, batch, candidates, ops);
    var merged := MergeAll(stored, batch, ops);
    PassCountKeys(merged, t, ops);
    var passing := Promotions(stored, candidates, t, ops);
    forall w | w in passing
      ensures w in PassingKeys(merged, t, ops)
    {
      var p :| 0 <= p < |batch| && merged[p] == (w, Merged(stored, w, candidates[w], ops));
    }
    PassingWithin(stored, batch, candidates, t, ops);
    assert PassingKeys(merged, t, ops) == passing;
  }

  /** Every candidate counted as passing passed with its merged score. */
  lemma PassingWithin(stored: map<string, Score>, batch: seq<(string, Score)>, candidates: map<string, Score>, t: Thresholds, ops: ScoreOps)
    requires forall p :: 0 <= p < |batch| ==> batch[p].0 in candidates && batch[p].1 == candidates[batch[p].0]
    ensures forall w :: w in PassingKeys(MergeAll(stored, batch, ops), t, ops) ==>
              w in candidates && Passes(Merged(stored, w, candidates[w], ops), t, ops)
  {
    var merged := MergeAll(stored, batch, ops);
    forall w | w in PassingKeys(merged, t, ops)
      ensures w in candidates && Passes(Merged(stored, w, candidates[w], ops), t, ops)
    {
      var p :| 0 <= p < |merged| && Passes(merged[p].1, t, ops) && merged[p].0 == w;
      MergeAllAt(stored, batch, ops, p);
    }
  }
}
