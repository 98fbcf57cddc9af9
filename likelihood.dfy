/** The evidence gate in front of every store lookup made during extraction, and the
    floating-point formulas, which the model keeps abstract. */
module Likelihood {
  import opened Wrappers
  import opened Counting

  /** A key with fewer observations than this is uninformative. */
  const MinEvidence: nat := 100
  /** `f64::EPSILON` = 2^-52, the tolerance of model.rs's informativeness test. */
  const Epsilon: real := 1.0 / 4503599627370496.0

  /** A likelihood pair (noun likelihood, other likelihood). */
  datatype Pair = Pair(noun: real, other: real)
  /** The neutral pair (1.0, 1.0) used for an uninformative key. */
  const Neutral: Pair := Pair(1.0, 1.0)

  /** A probability as an `f32`: a number or NaN. */
  datatype Prob = NaN | Num(value: real)

  /** The floating-point formulas, given as functions so the model can state what holds
      whatever they compute. */
  datatype Numerics = Numerics(
    /** `postfix_likelihood`'s smoothed pair for an informative key, from the smoothing
        factor, the noun tally, the other tally and the key's count. */
    smoothed: (real, nat, nat, Count) -> Pair,
    /** `postfix_noun_prob`'s log-odds term for an informative key. */
    logOdds: (real, Count) -> real,
    /** `(nl / ol) as f32`. */
    ratio: Pair -> real,
    /** v1's final probability from the accumulated ratio and the two tallies. */
    posterior: (real, nat, nat) -> Prob,
    /** v2's final probability `1 / (1 + exp(sum))`. */
    logistic: real -> Prob,
    /** The ranking key `log10(count) * probability * unique_count`. */
    rankKey: (nat, real, nat) -> real)

  function Observed(c: Count): nat {
    c.postnoun + c.postother
  }

  function Find(m: map<Suffix, Count>, k: Suffix): Option<Count> {
    if k in m then Some(m[k]) else None
  }

  /** The pair one key contributes: the smoothed estimate once the key has at least
      `MinEvidence` observations, the neutral pair otherwise (and when it is absent). */
  function KeyLikelihood(c: Option<Count>, estimate: Count -> Pair): Pair {
    if c.Some? && Observed(c.value) >= MinEvidence then estimate(c.value) else Neutral
  }

  /** `postfix_likelihood` / `suffix_likelihood`: the component-wise product of the pairs
      of the concrete key and of the wildcard key. */
  function PostfixLikelihood(m: map<Suffix, Count>, lastChar: char, suffix: string, estimate: Count -> Pair): Pair {
    var concrete := KeyLikelihood(Find(m, Suffix(lastChar, suffix)), estimate);
    var wild := KeyLikelihood(Find(m, Suffix(Wildcard, suffix)), estimate);
    Pair(concrete.noun * wild.noun, concrete.other * wild.other)
  }

  predicate BelowGate(m: map<Suffix, Count>, k: Suffix) {
    k !in m || Observed(m[k]) < MinEvidence
  }

  /** When both keys are absent or under the gate the result is exactly (1.0, 1.0),
      whatever the estimate. */
  lemma BelowGateIsNeutral(m: map<Suffix, Count>, lastChar: char, suffix: string, estimate: Count -> Pair)
    requires BelowGate(m, Suffix(lastChar, suffix)) && BelowGate(m, Suffix(Wildcard, suffix))
    ensures PostfixLikelihood(m, lastChar, suffix, estimate) == Neutral
  {
  }

  /** When only one of the two keys passes the gate, its estimate is the result. */
  lemma OneKeyDecides(m: map<Suffix, Count>, lastChar: char, suffix: string, estimate: Count -> Pair)
    requires lastChar != Wildcard
    ensures BelowGate(m, Suffix(lastChar, suffix)) && !BelowGate(m, Suffix(Wildcard, suffix)) ==>
              PostfixLikelihood(m, lastChar, suffix, estimate) == estimate(m[Suffix(Wildcard, suffix)])
    ensures !BelowGate(m, Suffix(lastChar, suffix)) && BelowGate(m, Suffix(Wildcard, suffix)) ==>
              PostfixLikelihood(m, lastChar, suffix, estimate) == estimate(m[Suffix(lastChar, suffix)])
  {
  }

  /** `postfix_noun_prob`'s gate: an uninformative key contributes 0.0. */
  function KeyLogOdds(c: Option<Count>, logOdds: Count -> real): real {
    if c.Some? && Observed(c.value) >= MinEvidence then logOdds(c.value) else 0.0
  }

  /** `postfix_noun_prob`: the sum of the concrete key's and the wildcard key's terms. */
  function PostfixLogOdds(m: map<Suffix, Count>, lastChar: char, suffix: string, logOdds: Count -> real): real {
    KeyLogOdds(Find(m, Suffix(lastChar, suffix)), logOdds) + KeyLogOdds(Find(m, Suffix(Wildcard, suffix)), logOdds)
  }

  lemma BelowGateNoLogOdds(m: map<Suffix, Count>, lastChar: char, suffix: string, logOdds: Count -> real)
    requires BelowGate(m, Suffix(lastChar, suffix)) && BelowGate(m, Suffix(Wildcard, suffix))
    ensures PostfixLogOdds(m, lastChar, suffix, logOdds) == 0.0
  {
  }

  function Abs(x: real): real {
    if x < 0.0 then -x else x
  }

  /** model.rs's test for an informative one-character suffix: both likelihoods differ
      from 1.0 by more than `f64::EPSILON`. */
  predicate InformativeWithin(p: Pair) {
    Abs(p.noun - 1.0) > Epsilon && Abs(p.other - 1.0) > Epsilon
  }

  /** model2.rs's test: both likelihoods differ from 1.0 exactly. */
  predicate InformativeExact(p: Pair) {
    p.noun != 1.0 && p.other != 1.0
  }

  /** Neither test counts the neutral pair; the epsilon test implies the exact one, and a
      pair within epsilon of 1.0 separates them: 1 - 2^-53 is the largest `f64` below 1.0,
      and passes only the exact test. */
  lemma InformativeTests(p: Pair)
    ensures !InformativeWithin(Neutral) && !InformativeExact(Neutral)
    ensures InformativeWithin(p) ==> InformativeExact(p)
    ensures InformativeExact(Pair(1.0 - Epsilon / 2.0, 2.0)) && !InformativeWithin(Pair(1.0 - Epsilon / 2.0, 2.0))
  {
  }
}
