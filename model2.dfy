/** model2.rs's `State`: the suffix store (file "suffix"), the tally store (file "noun")
    and the smoothing factor, with training, the likelihood gate and the extractor. It
    differs from model.rs in the file name, in `train` doing the boundary walk itself and
    skipping records with empty text, and in the exact informativeness test. */
module NounModel2 {
  import opened Wrappers
  import opened Counting
  import opened Likelihood
  import opened Ranking
  import Store
  import Training
  import Extraction
  import RatioScores
  import NounModel

  const DefaultSmoothFactor: real := 0.5

  /** The stores' file names under the model directory. */
  const SuffixFile: string := "/suffix"
  const TallyFile: string := "/noun"

  /** The pair one informative key contributes, with the smoothing factor and the two
      tallies (`get(..).unwrap_or(0)`) fixed. */
  function Estimate(num: Numerics, smoothFactor: real, tallies: map<string, nat>): Count -> Pair {
    c => num.smoothed(smoothFactor, TallyAt(tallies, NounCountKey), TallyAt(tallies, OtherCountKey), c)
  }

  /** What `extract_nouns` asks of the model: `suffix_likelihood` over the suffix store,
      `(nl / ol) as f32`, and the exact test of an informative suffix. */
  function ScorerOf(suffixes: map<Suffix, Count>, estimate: Count -> Pair, ratio: Pair -> real): RatioScores.Scorer {
    RatioScores.Scorer((c, s) => PostfixLikelihood(suffixes, c, s, estimate), ratio, p => InformativeExact(p))
  }

  /** On the same stores, model2.rs finds the same candidates with the same counts as
      model.rs, and never fewer unique suffixes: every pair that passes the epsilon test
      passes the exact one. */
  lemma ExactTestCountsMore(text: string, isAlphanumeric: char -> bool, suffixes: map<Suffix, Count>,
                            estimate: Count -> Pair, ratio: Pair -> real, w: string)
    ensures RatioScores.Extracted(text, isAlphanumeric, NounModel.ScorerOf(suffixes, estimate, ratio)).Keys
         == RatioScores.Extracted(text, isAlphanumeric, ScorerOf(suffixes, estimate, ratio)).Keys
    ensures w in RatioScores.Extracted(text, isAlphanumeric, ScorerOf(suffixes, estimate, ratio)) ==>
              RatioScores.Extracted(text, isAlphanumeric, NounModel.ScorerOf(suffixes, estimate, ratio))[w].count
                == RatioScores.Extracted(text, isAlphanumeric, ScorerOf(suffixes, estimate, ratio))[w].count
              && RatioScores.Extracted(text, isAlphanumeric, NounModel.ScorerOf(suffixes, estimate, ratio))[w].unique
                <= RatioScores.Extracted(text, isAlphanumeric, ScorerOf(suffixes, estimate, ratio))[w].unique
  {
    var within, exact := NounModel.ScorerOf(suffixes, estimate, ratio), ScorerOf(suffixes, estimate, ratio);
    var es := Extraction.TextEvents(text, isAlphanumeric);
    RatioScores.ExtractedEntries(text, isAlphanumeric, within, w);
    RatioScores.ExtractedEntries(text, isAlphanumeric, exact, w);
    forall u | u in RatioScores.Informed(es, within)
      ensures u in RatioScores.Informed(es, exact)
    {
      var e :| e in es && e.Lookup? && |e.suffix| == 1
               && within.informative(within.likelihood(e.lastChar, e.suffix)) && u == e.candidate + e.suffix;
      InformativeTests(within.likelihood(e.lastChar, e.suffix));
    }
    assert RatioScores.PrefixedBy(RatioScores.Informed(es, within), w) <= RatioScores.PrefixedBy(RatioScores.Informed(es, exact), w);
    SubsetCardinality(RatioScores.PrefixedBy(RatioScores.Informed(es, within), w), RatioScores.PrefixedBy(RatioScores.Informed(es, exact), w));
  }

  lemma SubsetCardinality<T>(a: set<T>, b: set<T>)
    requires a <= b
    ensures |a| <= |b|
  {
    assert b == a + (b - a);
  }

  class State {
    const suffixCounts: Store.StoreImpl<Suffix, Count>
    const tallies: Store.StoreImpl<string, nat>
    var smoothFactor: real

    constructor (suffixCounts: Store.StoreImpl<Suffix, Count>, tallies: Store.StoreImpl<string, nat>)
      ensures this.suffixCounts == suffixCounts && this.tallies == tallies
      ensures smoothFactor == DefaultSmoothFactor
    {
      this.suffixCounts := suffixCounts;
      this.tallies := tallies;
      smoothFactor := DefaultSmoothFactor;
    }

    /** What the two stores hold. */
    function Contents(): Counts
      reads suffixCounts, tallies
    {
      Training.Contents(suffixCounts, tallies)
    }

    /** `open`: both stores under `path`, the suffix store first; the first store that
        does not decode is the error. */
    static method Open(suffixDisk: Store.Disk<Suffix, Count>, tallyDisk: Store.Disk<string, nat>, path: string)
      returns (r: Result<State, Store.StoreError>)
      ensures r.Ok? <==> Store.Load(suffixDisk, path + SuffixFile).Ok? && Store.Load(tallyDisk, path + TallyFile).Ok?
      ensures r.Err? ==>
                r.error == if Store.Load(suffixDisk, path + SuffixFile).Err? then Store.DecodeError(path + SuffixFile)
                           else Store.DecodeError(path + TallyFile)
      ensures r.Ok? ==>
                fresh(r.value) && fresh(r.value.suffixCounts) && fresh(r.value.tallies)
                && r.value.Contents() == Counts(Store.Load(suffixDisk, path + SuffixFile).value, Store.Load(tallyDisk, path + TallyFile).value)
                && r.value.suffixCounts.path == path + SuffixFile && r.value.tallies.path == path + TallyFile
                && r.value.smoothFactor == DefaultSmoothFactor
    {
      var suffixStore := Store.StoreImpl.Open(suffixDisk, path + SuffixFile);
      if suffixStore.Err? {
        return Err(suffixStore.error);
      }
      var tallyStore := Store.StoreImpl.Open(tallyDisk, path + TallyFile);
      if tallyStore.Err? {
        return Err(tallyStore.error);
      }
      var state := new State(suffixStore.value, tallyStore.value);
      return Ok(state);
    }

    /** `set_smooth_factor`: only the factor changes. */
    method SetSmoothFactor(f: real)
      modifies this
      ensures smoothFactor == f
    {
      smoothFactor := f;
    }

    /** `save`: both snapshots written, each to its own path. */
    method Save(suffixDisk: Store.Disk<Suffix, Count>, tallyDisk: Store.Disk<string, nat>)
      returns (suffixDisk': Store.Disk<Suffix, Count>, tallyDisk': Store.Disk<string, nat>)
      ensures suffixDisk' == suffixDisk[suffixCounts.path := Store.Encoded(suffixCounts.inner)]
      ensures tallyDisk' == tallyDisk[tallies.path := Store.Encoded(tallies.inner)]
    {
      suffixDisk' := suffixCounts.Save(suffixDisk);
      tallyDisk' := tallies.Save(tallyDisk);
    }

    /** `observe_postnoun`: one "noun" observation of `suffix` after `lastChar`. */
    method ObservePostnoun(lastChar: char, suffix: string)
      modifies suffixCounts, tallies
      ensures Contents() == Observe(old(Contents()), Observation(true, lastChar, suffix))
    {
      Training.ObserveInto(suffixCounts, tallies, Observation(true, lastChar, suffix));
    }

    /** `observe_postother`: one "other" observation of `suffix` after `lastChar`. */
    method ObservePostother(lastChar: char, suffix: string)
      modifies suffixCounts, tallies
      ensures Contents() == Observe(old(Contents()), Observation(false, lastChar, suffix))
    {
      Training.ObserveInto(suffixCounts, tallies, Observation(false, lastChar, suffix));
    }

    /** The body of `train`'s loop for one decoded line: its text, unless empty, with its
        noun spans. */
    method TrainRecord(text: string, spans: seq<Span>)
      modifies suffixCounts, tallies
      ensures Contents() == ObserveAll(old(Contents()), Training.RecordObservations(Training.Record(text, spans)))
    {
      if text != [] {
        Training.TrainLineInto(suffixCounts, tallies, text, spans);
      } else {
        Training.EmptyRecordObservesNothing(spans);
      }
    }

    /** `train`: the lines in file order, blank lines and records with empty text
        skipped, the boundary walk on every other record; the first line that does not
        decode stops training with its error, after the lines before it have been applied. */
    method Train(dataset: seq<Training.DatasetLine>) returns (r: Result<(), Training.TrainError>)
      modifies suffixCounts, tallies
      ensures r == if Training.FirstMalformed(dataset) < |dataset| then Err(Training.MalformedLine(Training.FirstMalformed(dataset))) else Ok(())
      ensures Contents() == ObserveAll(old(Contents()), Training.DatasetObservations(dataset[..Training.FirstMalformed(dataset)]))
    {
      ghost var start := Contents();
      var k := 0;
      while k < |dataset|
        invariant k <= |dataset|
        invariant forall q :: 0 <= q < k ==> !dataset[q].Malformed?
        invariant Contents() == ObserveAll(start, Training.DatasetObservations(dataset[..k]))
        decreases |dataset| - k
      {
        Training.ObserveDatasetStep(start, dataset, k);
        match dataset[k] {
          case Blank =>
          case Malformed =>
            Training.FirstMalformedAt(dataset, k);
            return Err(Training.MalformedLine(k));
          case Record(text, spans) =>
            TrainRecord(text, spans);
        }
        k := k + 1;
      }
      assert dataset[..k] == dataset;
      Training.FirstMalformedAt(dataset, k);
      return Ok(());
    }

    /** The estimate of an informative key under the current factor and tallies. */
    function KeyEstimate(num: Numerics): Count -> Pair
      reads this, tallies
    {
      Estimate(num, smoothFactor, tallies.inner)
    }

    /** `suffix_likelihood`: neutral when neither key has the evidence. The source takes
        the noun and other tallies as arguments; every caller outside the unit tests passes
        the stored tallies, which this member reads directly. */
    function SuffixLikelihood(lastChar: char, suffix: string, num: Numerics): (r: Pair)
      reads this, suffixCounts, tallies
      ensures BelowGate(suffixCounts.inner, Suffix(lastChar, suffix)) && BelowGate(suffixCounts.inner, Suffix(Wildcard, suffix)) ==>
                r == Neutral
    {
      PostfixLikelihood(suffixCounts.inner, lastChar, suffix, KeyEstimate(num))
    }

    /** The scorer `extract_nouns` uses on the current stores. */
    function Scorer(num: Numerics): RatioScores.Scorer
      reads this, suffixCounts, tallies
    {
      ScorerOf(suffixCounts.inner, KeyEstimate(num), num.ratio)
    }

    /** The final probability from a product, with the current tallies. */
    function Posterior(num: Numerics): real -> Prob
      reads tallies
    {
      var nouns, others := TallyAt(tallies.inner, NounCountKey), TallyAt(tallies.inner, OtherCountKey);
      p => num.posterior(p, nouns, others)
    }

    /** `extract_nouns`: one entry per candidate of the text, scored as
        `RatioScores.Extracted` describes, sorted with NaN probabilities last. */
    method ExtractNouns(text: string, isAlphanumeric: char -> bool, num: Numerics) returns (res: seq<(string, Score)>)
      ensures Sorted(res, num.rankKey)
      ensures |res| == |RatioScores.Extracted(text, isAlphanumeric, Scorer(num))|
      ensures forall p :: 0 <= p < |res| ==>
                res[p].0 in RatioScores.Extracted(text, isAlphanumeric, Scorer(num))
                && res[p].1 == RatioScores.FinalScore(RatioScores.Extracted(text, isAlphanumeric, Scorer(num))[res[p].0], Posterior(num))
      ensures forall w :: w in RatioScores.Extracted(text, isAlphanumeric, Scorer(num)) ==>
                (w, RatioScores.FinalScore(RatioScores.Extracted(text, isAlphanumeric, Scorer(num))[w], Posterior(num))) in res
    {
      res := RatioScores.ExtractNounsWith(text, isAlphanumeric, Scorer(num), Posterior(num), num.rankKey);
    }
  }
}
