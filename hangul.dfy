/** The orthographic feature "the syllable has a final consonant" (Korean batchim), which
    util.rs and tokenizer.rs both compute with the same arithmetic test on the code point. */
module Hangul {

  /** First and last code points of the precomposed Hangul syllable block. */
  const SyllableFirst: int := 0xAC00
  const SyllableLast: int := 0xD7A3
  /** Unicode's counts of initial consonants, medial vowels and final-consonant slots
      (slot 0 meaning "no final consonant"). */
  const InitialCount: nat := 19
  const MedialCount: nat := 21
  const FinalCount: nat := 28

  predicate InBlock(c: char) {
    SyllableFirst <= c as int <= SyllableLast
  }

  /** `has_support`: a syllable whose offset in the block is not a multiple of 28. */
  predicate HasSupport(c: char) {
    SyllableFirst <= c as int && c as int <= SyllableLast && (c as int - SyllableFirst) % FinalCount != 0
  }

  /** The Unicode composition of a syllable from its initial, medial and final indices:
      the independent definition that `HasSupport` is checked against. */
  function Compose(initial: nat, medial: nat, final: nat): (c: char)
    requires initial < InitialCount && medial < MedialCount && final < FinalCount
    ensures InBlock(c)
  {
    assert initial * MedialCount <= 18 * 21;
    assert (initial * MedialCount + medial) * FinalCount <= 398 * 28;
    (SyllableFirst + (initial * MedialCount + medial) * FinalCount + final) as char
  }

  lemma ModOfMultiplePlus(a: nat, t: nat)
    requires t < FinalCount
    ensures (a * FinalCount + t) % FinalCount == t
  {
  }

  /** A composed syllable has a final consonant exactly when its final index is not 0. */
  lemma {:induction false} HasSupportComposed(initial: nat, medial: nat, final: nat)
    requires initial < InitialCount && medial < MedialCount && final < FinalCount
    ensures HasSupport(Compose(initial, medial, final)) <==> final != 0
  {
    var c := Compose(initial, medial, final);
    assert c as int - SyllableFirst == (initial * MedialCount + medial) * FinalCount + final;
    ModOfMultiplePlus(initial * MedialCount + medial, final);
  }

  /** Every code point of the block is the composition of its three indices, so
      `HasSupport` holds on the block exactly for syllables with a final consonant. */
  lemma {:induction false} BlockDecomposes(c: char)
    requires InBlock(c)
    ensures var idx := c as int - SyllableFirst;
            var initial, medial, final := idx / (MedialCount * FinalCount), idx / FinalCount % MedialCount, idx % FinalCount;
            initial < InitialCount && medial < MedialCount && final < FinalCount
            && Compose(initial, medial, final) == c
            && (HasSupport(c) <==> final != 0)
  {
    var idx := c as int - SyllableFirst;
    var initial, medial, final := idx / (MedialCount * FinalCount), idx / FinalCount % MedialCount, idx % FinalCount;
    assert idx == (idx / FinalCount) * FinalCount + final;
    assert idx / FinalCount == initial * MedialCount + medial;
    assert initial < InitialCount;
    assert SyllableFirst + (initial * MedialCount + medial) * FinalCount + final == c as int;
  }

  /** Outside the syllable block nothing has a final consonant. */
  lemma NoSupportOutsideBlock(c: char)
    requires !InBlock(c)
    ensures !HasSupport(c)
  {
  }

  /** The test repeats with period 28 across the block. */
  lemma {:induction false} HasSupportPeriodic(c: char, d: char)
    requires InBlock(c) && InBlock(d) && d as int == c as int + FinalCount
    ensures HasSupport(c) == HasSupport(d)
  {
    assert d as int - SyllableFirst == (c as int - SyllableFirst) + 1 * FinalCount;
  }

  /** The values checked by the repository's unit test. */
  lemma KnownValues()
    ensures !HasSupport('가') && HasSupport('갘') && !HasSupport('히') && HasSupport('힣')
    ensures !HasSupport('1') && !HasSupport(' ') && !HasSupport('Z')
    ensures '갘' == Compose(0, 0, 24) && '히' == Compose(18, 20, 0) && '힣' == Compose(18, 20, 27)
  {
  }
}
