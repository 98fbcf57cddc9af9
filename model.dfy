/** model.rs's `State`: the suffix store (file "postfix"), the tally store (file "noun")
    and the smoothing factor, with training, the likelihood gate and both extractors. */
module NounModel {
  import opened Wrappers
  import opened Counting
  import opened Likelihood
  import opened Ranking
  import Store
  import Training
  import RatioScores
  import LogOddsScores

  const DefaultSmoothFactor: real := 0.5

  /** The stores' file names under the model directory. */
  const SuffixFile: string := "/postfix"
  const TallyFile: string := "/noun"

  /** The pair one informative key contributes, with the smoothing factor and the two
      tallies (`get(..).unwrap_or(0)`) fixed. */
  function Estimate(num: Numerics, smoothFactor: real, tallies: map<string, nat>): Count -> Pair {
    c => num.smoothed(smoothFactor, TallyAt(tallies, NounCountKey), TallyAt(tallies, OtherCountKey), c)
  }

  /** What `extract_nouns` asks of the model: `postfix_likelihood` over the suffix store,
      `(nl / ol) as f32`, and the epsilon test of an informative suffix. */
  function ScorerOf(suffixes: map<Suffix, Count>, estimate: Count -> Pair, ratio: Pair -> real): RatioScores.Scorer {
    RatioScores.Scorer((c, s) => PostfixLikelihood(suffixes, c, s, estimate), ratio, p => InformativeWithin(p))
  }

  /** A model trained on nothing scores every candidate of every text with product 1.0
      and no unique suffix, when the ratio of the neutral pair is 1.0. */
  lemma UntrainedScores(text: string, isAlphanumeric: char -> bool, estimate: Count -> Pair, ratio: Pair -> real, w: string)
    requires ratio(Neutral) == 1.0
    ensures w in RatioScores.Extracted(text, isAlphanumeric, ScorerOf(map[], estimate, ratio)) ==>
              RatioScores.Extracted(text, isAlphanumeric, ScorerOf(map[], estimate, ratio))[w].product == 1.0
              && RatioScores.Extracted(text, isAlphanumeric, ScorerOf(map[], estimate, ratio))[w].unique == 0
  {
    var sc := ScorerOf(map[], estimate, ratio);
    forall c, s
      ensures sc.likelihood(c, s) == Neutral
    {
      BelowGateIsNeutral(map[], c, s, estimate);
    }
    InformativeTests(Neutral);
    RatioScores.UntrainedExtraction(text, isAlphanumeric, sc, w);
  }

  class State {
    const suffixCounts: Store.StoreImpl<Suffix, Count>
    const tallies: Store.StoreImpl<string, nat>
    var smoothFactor: real

    constructor (suffixCounts: Store.StoreImpl<Suffix, Count>, tallies: Store.StoreImpl<string, nat>)
      ensures this.suffixCounts == suffixCounts && this.tallies == tallies
      ensures smoothFactor == DefaultSmoothFactor
    {
      this.suffixCounts := suffixCounts;
      this.tallies := tallies;
      smoothFactor := DefaultSmoothFactor;
    }

    /** What the two stores hold. */
    function Contents(): Counts
      reads suffixCounts, tallies
    {
      Training.Contents(suffixCounts, tallies)
    }

    /** `open`: both stores under `path`, the suffix store first; the first store that
        does not decode is the error. */
    static method Open(suffixDisk: Store.Disk<Suffix, Count>, tallyDisk: Store.Disk<string, nat>, path: string)
      returns (r: Result<State, Store.StoreError>)
      ensures r.Ok? <==> Store.Load(suffixDisk, path + SuffixFile).Ok? && Store.Load(tallyDisk, path + TallyFile).Ok?
      ensures r.Err? ==>
                r.error == if Store.Load(suffixDisk, path + SuffixFile).Err? then Store.DecodeError(path + SuffixFile)
                           else Store.DecodeError(path + TallyFile)
      ensures r.Ok? ==>
                fresh(r.value) && fresh(r.value.suffixCounts) && fresh(r.value.tallies)
                && r.value.Contents() == Counts(Store.Load(suffixDisk, path + SuffixFile).value, Store.Load(tallyDisk, path + TallyFile).value)
                && r.value.suffixCounts.path == path + SuffixFile && r.value.tallies.path == path + TallyFile
                && r.value.smoothFactor == DefaultSmoothFactor
    {
      var suffixStore := Store.StoreImpl.Open(suffixDisk, path + SuffixFile);
      if suffixStore.Err? {
        return Err(suffixStore.error);
      }
      var tallyStore := Store.StoreImpl.Open(tallyDisk, path + TallyFile);
      if tallyStore.Err? {
        return Err(tallyStore.error);
      }
      var state := new State(suffixStore.value, tallyStore.value);
      return Ok(state);
    }

    /** `set_smooth_factor`: only the factor changes. */
    method SetSmoothFactor(f: real)
      modifies this
      ensures smoothFactor == f
    {
      smoothFactor := f;
    }

    /** `save`: both snapshots written, each to its own path. */
    method Save(suffixDisk: Store.Disk<Suffix, Count>, tallyDisk: Store.Disk<string, nat>)
      returns (suffixDisk': Store.Disk<Suffix, Count>, tallyDisk': Store.Disk<string, nat>)
      ensures suffixDisk' == suffixDisk[suffixCounts.path := Store.Encoded(suffixCounts.inner)]
      ensures tallyDisk' == tallyDisk[tallies.path := Store.Encoded(tallies.inner)]
    {
      suffixDisk' := suffixCounts.Save(suffixDisk);
      tallyDisk' := tallies.Save(tallyDisk);
    }

    /** `observe_postnoun`: one "noun" observation of `postfix` after `lastChar`. */
    method ObservePostnoun(lastChar: char, postfix: string)
      modifies suffixCounts, tallies
      ensures Contents() == Observe(old(Contents()), Observation(true, lastChar, postfix))
    {
      Training.ObserveInto(suffixCounts, tallies, Observation(true, lastChar, postfix));
    }

    /** `observe_postother`: one "other" observation of `postfix` after `lastChar`. */
    method ObservePostother(lastChar: char, postfix: string)
      modifies suffixCounts, tallies
      ensures Contents() == Observe(old(Contents()), Observation(false, lastChar, postfix))
    {
      Training.ObserveInto(suffixCounts, tallies, Observation(false, lastChar, postfix));
    }

    /** `train_line`: the observations of every boundary of the line, in order. */
    method TrainLine(text: string, spans: seq<Span>)
      modifies suffixCounts, tallies
      ensures Contents() == ObserveAll(old(Contents()), LineObservations(text, spans))
      ensures text == [] ==> Contents() == old(Contents())
    {
      Training.TrainLineInto(suffixCounts, tallies, text, spans);
    }

    /** `train_line_bytes_pos`, whose body is the same as `train_line`'s. */
    method TrainLineBytesPos(text: string, spans: seq<Span>)
      modifies suffixCounts, tallies
      ensures Contents() == ObserveAll(old(Contents()), LineObservations(text, spans))
      ensures text == [] ==> Contents() == old(Contents())
    {
      Training.TrainLineInto(suffixCounts, tallies, text, spans);
    }

    /** `train`: the lines in file order, blank lines skipped, each record through
        `train_line`; the first line that does not decode stops training with its error,
        after the lines before it have been applied. */
    method Train(dataset: seq<Training.DatasetLine>) returns (r: Result<(), Training.TrainError>)
      modifies suffixCounts, tallies
      ensures r == if Training.FirstMalformed(dataset) < |dataset| then Err(Training.MalformedLine(Training.FirstMalformed(dataset))) else Ok(())
      ensures Contents() == ObserveAll(old(Contents()), Training.DatasetObservations(dataset[..Training.FirstMalformed(dataset)]))
    {
      ghost var start := Contents();
      var k := 0;
      while k < |dataset|
        invariant k <= |dataset|
        invariant forall q :: 0 <= q < k ==> !dataset[q].Malformed?
        invariant Contents() == ObserveAll(start, Training.DatasetObservations(dataset[..k]))
        decreases |dataset| - k
      {
        Training.ObserveDatasetStep(start, dataset, k);
        match dataset[k] {
          case Blank =>
          case Malformed =>
            Training.FirstMalformedAt(dataset, k);
            return Err(Training.MalformedLine(k));
          case Record(text, spans) =>
            TrainLine(text, spans);
        }
        k := k + 1;
      }
      assert dataset[..k] == dataset;
      Training.FirstMalformedAt(dataset, k);
      return Ok(());
    }

    /** The estimate of an informative key under the current factor and tallies. */
    function KeyEstimate(num: Numerics): Count -> Pair
      reads this, tallies
    {
      Estimate(num, smoothFactor, tallies.inner)
    }

    /** `postfix_likelihood`: neutral when neither key has the evidence. The source takes
        the noun and other tallies as arguments; every caller outside the unit tests passes
        the stored tallies, which this member reads directly. */
    function PostfixLikelihood(lastChar: char, postfix: string, num: Numerics): (r: Pair)
      reads this, suffixCounts, tallies
      ensures BelowGate(suffixCounts.inner, Suffix(lastChar, postfix)) && BelowGate(suffixCounts.inner, Suffix(Wildcard, postfix)) ==>
                r == Neutral
    {
      Likelihood.PostfixLikelihood(suffixCounts.inner, lastChar, postfix, KeyEstimate(num))
    }

    /** `postfix_noun_prob`: 0.0 when neither key has the evidence. */
    function PostfixNounProb(lastChar: char, postfix: string, num: Numerics): (r: real)
      reads this, suffixCounts
      ensures BelowGate(suffixCounts.inner, Suffix(lastChar, postfix)) && BelowGate(suffixCounts.inner, Suffix(Wildcard, postfix)) ==>
                r == 0.0
    {
      var f := smoothFactor;
      PostfixLogOdds(suffixCounts.inner, lastChar, postfix, c => num.logOdds(f, c))
    }

    /** The scorer `extract_nouns` uses on the current stores. */
    function Scorer(num: Numerics): RatioScores.Scorer
      reads this, suffixCounts, tallies
    {
      ScorerOf(suffixCounts.inner, KeyEstimate(num), num.ratio)
    }

    /** The final probability from a product, with the current tallies. */
    function Posterior(num: Numerics): real -> Prob
      reads tallies
    {
      var nouns, others := TallyAt(tallies.inner, NounCountKey), TallyAt(tallies.inner, OtherCountKey);
      p => num.posterior(p, nouns, others)
    }

    /** The gated log-odds `extract_nouns2` uses on the current stores. */
    function LogOdds(num: Numerics): (char, string) -> real
      reads this, suffixCounts
    {
      var m, f := suffixCounts.inner, smoothFactor;
      (c, s) => PostfixLogOdds(m, c, s, k => num.logOdds(f, k))
    }

    /** `extract_nouns`: one entry per candidate of the text, scored as
        `RatioScores.Extracted` describes, sorted with NaN probabilities last. */
    method ExtractNouns(text: string, isAlphanumeric: char -> bool, num: Numerics) returns (res: seq<(string, Score)>)
      ensures Sorted(res, num.rankKey)
      ensures |res| == |RatioScores.Extracted(text, isAlphanumeric, Scorer(num))|
      ensures forall p :: 0 <= p < |res| ==>
                res[p].0 in RatioScores.Extracted(text, isAlphanumeric, Scorer(num))
                && res[p].1 == RatioScores.FinalScore(RatioScores.Extracted(text, isAlphanumeric, Scorer(num))[res[p].0], Posterior(num))
      ensures forall w :: w in RatioScores.Extracted(text, isAlphanumeric, Scorer(num)) ==>
                (w, RatioScores.FinalScore(RatioScores.Extracted(text, isAlphanumeric, Scorer(num))[w], Posterior(num))) in res
    {
      res := RatioScores.ExtractNounsWith(text, isAlphanumeric, Scorer(num), Posterior(num), num.rankKey);
    }

    /** `extract_nouns2`: one entry per candidate followed by a suffix, scored as
        `LogOddsScores.Extracted2` describes, sorted with NaN probabilities last. */
    method ExtractNouns2(text: string, isAlphanumeric: char -> bool, num: Numerics) returns (res: seq<(string, Score)>)
      ensures Sorted(res, num.rankKey)
      ensures |res| == |LogOddsScores.Extracted2(text, isAlphanumeric, LogOdds(num))|
      ensures forall p :: 0 <= p < |res| ==>
                res[p].0 in LogOddsScores.Extracted2(text, isAlphanumeric, LogOdds(num))
                && res[p].1 == LogOddsScores.FinalScore2(LogOddsScores.Extracted2(text, isAlphanumeric, LogOdds(num))[res[p].0], num.logistic)
      ensures forall w :: w in LogOddsScores.Extracted2(text, isAlphanumeric, LogOdds(num)) ==>
                (w, LogOddsScores.FinalScore2(LogOddsScores.Extracted2(text, isAlphanumeric, LogOdds(num))[w], num.logistic)) in res
    {
      res := LogOddsScores.ExtractNouns2With(text, isAlphanumeric, LogOdds(num), num.logistic, num.rankKey);
    }
  }

  /** The scenario of the repository's likelihood unit test: two "noun" and one "other"
      observation on an empty model. Every key stays under the evidence gate, so both
      lookups give the neutral pair, not the (0.5, 1.0) and (0.5, 0.0) the test expects. */
  method LikelihoodTestScenario(num: Numerics) returns (first: Pair, second: Pair)
    ensures first == Neutral && second == Neutral
  {
    var suffixStore := new Store.StoreImpl<Suffix, Count>(map[], SuffixFile);
    var tallyStore := new Store.StoreImpl<string, nat>(map[], TallyFile);
    var s := new State(suffixStore, tallyStore);
    s.ObservePostnoun('가', "테스트1");
    s.ObservePostother('가', "테스트1");
    s.ObservePostnoun('가', "테스트2");
    first := s.PostfixLikelihood('가', "테스트1", num);
    second := s.PostfixLikelihood('가', "테스트2", num);
  }
}
