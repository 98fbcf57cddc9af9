/** `extract_nouns2` (model.rs): the scan records each (candidate + suffix, suffix length)
    with its multiplicity; then every key adds its multiplicity times its suffix's log-odds
    term, its multiplicity, and one unique suffix when the suffix has one character, to
    its candidate; the logistic of the sum is the probability. */
module LogOddsScores {
  import opened Wrappers
  import opened Text
  import opened Counting
  import opened Likelihood
  import opened Extraction
  import opened Ranking

  /** `(chars[word_start_index..i+1+j], j)`. */
  datatype WordKey = WordKey(word: string, suffixLen: nat)

  /** The key a lookup records: the candidate followed by the suffix, and the suffix length. */
  function KeyOf(e: Event): WordKey
    requires e.Lookup?
  {
    WordKey(e.candidate + e.suffix, |e.suffix|)
  }

  function Multiplicity(words: map<WordKey, nat>, k: WordKey): nat {
    if k in words then words[k] else 0
  }

  /** `*words.entry(word).or_insert(0) += 1` for every lookup; occurrences record nothing. */
  function Record(words: map<WordKey, nat>, e: Event): map<WordKey, nat> {
    if e.Lookup? then words[KeyOf(e) := Multiplicity(words, KeyOf(e)) + 1] else words
  }

  function RecordAll(words: map<WordKey, nat>, es: seq<Event>): map<WordKey, nat>
    decreases |es|
  {
    if |es| == 0 then words else RecordAll(Record(words, es[0]), es[1..])
  }

  lemma {:induction false} RecordAllAppend(words: map<WordKey, nat>, x: seq<Event>, y: seq<Event>)
    ensures RecordAll(words, x + y) == RecordAll(RecordAll(words, x), y)
    decreases |x|
  {
    if |x| == 0 {
      assert x + y == y;
    } else {
      assert (x + y)[0] == x[0];
      assert (x + y)[1..] == x[1..] + y;
      RecordAllAppend(Record(words, x[0]), x[1..], y);
    }
  }

  lemma RecordAllCons(words: map<WordKey, nat>, e: Event, rest: seq<Event>)
    ensures RecordAll(words, [e] + rest) == RecordAll(Record(words, e), rest)
  {
    assert ([e] + rest)[0] == e;
    assert ([e] + rest)[1..] == rest;
  }

  // Splitting a key back into candidate, trailing character and suffix

  /** A key whose suffix is non-empty and leaves a non-empty candidate. */
  predicate Splittable(k: WordKey) {
    1 <= k.suffixLen < |k.word|
  }

  /** `word[..word.len() - suffix_len]`. */
  function CandidateOf(k: WordKey): string
    requires Splittable(k)
  {
    k.word[..|k.word| - k.suffixLen]
  }

  /** `word[word.len() - suffix_len..]`. */
  function SuffixOf(k: WordKey): string
    requires Splittable(k)
  {
    k.word[|k.word| - k.suffixLen..]
  }

  /** `word[word.len() - suffix_len - 1]`. */
  function LastCharOf(k: WordKey): char
    requires Splittable(k)
  {
    k.word[|k.word| - k.suffixLen - 1]
  }

  /** The key of a lookup splits back into that lookup's candidate, suffix and trailing
      character, when the trailing character ends the candidate. */
  lemma KeyOfSplits(e: Event)
    requires e.Lookup? && |e.candidate| >= 1 && |e.suffix| >= 1 && e.lastChar == e.candidate[|e.candidate| - 1]
    ensures Splittable(KeyOf(e))
    ensures CandidateOf(KeyOf(e)) == e.candidate && SuffixOf(KeyOf(e)) == e.suffix && LastCharOf(KeyOf(e)) == e.lastChar
  {
    var w := e.candidate + e.suffix;
    assert w[..|w| - |e.suffix|] == e.candidate;
    assert w[|w| - |e.suffix|..] == e.suffix;
  }

  /** A candidate's running `Score`: log-odds sum, count, unique suffix count. */
  datatype Sums = Sums(logOdds: real, count: nat, unique: nat)

  /** `Score::new(0.0, 0, 0)`. */
  const Zero: Sums := Sums(0.0, 0, 0)

  function Plus(a: Sums, b: Sums): Sums {
    Sums(a.logOdds + b.logOdds, a.count + b.count, a.unique + b.unique)
  }

  function SumsAt(m: map<string, Sums>, w: string): Sums {
    if w in m then m[w] else Zero
  }

  function AddTo(m: map<string, Sums>, w: string, d: Sums): map<string, Sums> {
    m[w := Plus(SumsAt(m, w), d)]
  }

  /** What one key with multiplicity n adds to its candidate. */
  function Contribution(k: WordKey, n: nat, logOdds: (char, string) -> real): Sums
    requires Splittable(k)
  {
    Sums(n as real * logOdds(LastCharOf(k), SuffixOf(k)), n, if k.suffixLen == 1 then 1 else 0)
  }

  lemma AddToCommutes(m: map<string, Sums>, w1: string, d1: Sums, w2: string, d2: Sums)
    ensures AddTo(AddTo(m, w1, d1), w2, d2) == AddTo(AddTo(m, w2, d2), w1, d1)
  {
    var l := AddTo(AddTo(m, w1, d1), w2, d2);
    var r := AddTo(AddTo(m, w2, d2), w1, d1);
    assert l.Keys == r.Keys;
    forall w | w in l
      ensures l[w] == r[w]
    {
    }
  }

  ghost predicate AllSplittable(keys: set<WordKey>) {
    forall k :: k in keys ==> Splittable(k)
  }

  /** The candidates' sums after the key loop over `keys`, whatever order it visits them in
      (`SummarizeAnyOrder`). */
  ghost function Summarize(words: map<WordKey, nat>, keys: set<WordKey>, logOdds: (char, string) -> real): map<string, Sums>
    requires AllSplittable(keys)
    decreases keys
  {
    if keys == {} then map[]
    else
      var k :| k in keys;
      AddTo(Summarize(words, keys - {k}, logOdds), CandidateOf(k), Contribution(k, Multiplicity(words, k), logOdds))
  }

  /** Any key may be taken last: the sums do not depend on the order of the key loop. */
  lemma {:induction false} SummarizeAnyOrder(words: map<WordKey, nat>, keys: set<WordKey>, logOdds: (char, string) -> real, k: WordKey)
    requires AllSplittable(keys) && k in keys
    ensures Summarize(words, keys, logOdds)
         == AddTo(Summarize(words, keys - {k}, logOdds), CandidateOf(k), Contribution(k, Multiplicity(words, k), logOdds))
    decreases keys
  {
    var k0 :| k0 in keys && Summarize(words, keys, logOdds)
      == AddTo(Summarize(words, keys - {k0}, logOdds), CandidateOf(k0), Contribution(k0, Multiplicity(words, k0), logOdds));
    if k0 != k {
      var rest := keys - {k0} - {k};
      assert keys - {k0} - {k} == keys - {k} - {k0} == rest;
      SummarizeAnyOrder(words, keys - {k0}, logOdds, k);
      SummarizeAnyOrder(words, keys - {k}, logOdds, k0);
      AddToCommutes(Summarize(words, rest, logOdds),
                    CandidateOf(k), Contribution(k, Multiplicity(words, k), logOdds),
                    CandidateOf(k0), Contribution(k0, Multiplicity(words, k0), logOdds));
    }
  }

  /** The sums depend only on the multiplicities of the keys visited. */
  lemma {:induction false} SummarizeFrame(w1: map<WordKey, nat>, w2: map<WordKey, nat>, keys: set<WordKey>, logOdds: (char, string) -> real)
    requires AllSplittable(keys)
    requires forall k :: k in keys ==> Multiplicity(w1, k) == Multiplicity(w2, k)
    ensures Summarize(w1, keys, logOdds) == Summarize(w2, keys, logOdds)
    decreases keys
  {
    if keys != {} {
      var k :| k in keys;
      SummarizeAnyOrder(w1, keys, logOdds, k);
      SummarizeAnyOrder(w2, keys, logOdds, k);
      SummarizeFrame(w1, w2, keys - {k}, logOdds);
    }
  }

  lemma AddToTwice(m: map<string, Sums>, w: string, a: Sums, b: Sums)
    ensures AddTo(AddTo(m, w, a), w, b) == AddTo(m, w, Plus(a, b))
  {
    var l := AddTo(AddTo(m, w, a), w, b);
    var r := AddTo(m, w, Plus(a, b));
    assert l.Keys == r.Keys;
    assert l[w] == r[w];
  }

  /** The candidate sums name exactly the candidates of the keys visited. */
  lemma {:induction false} SummarizeKeys(words: map<WordKey, nat>, keys: set<WordKey>, logOdds: (char, string) -> real)
    requires AllSplittable(keys)
    ensures Summarize(words, keys, logOdds).Keys == set k | k in keys :: CandidateOf(k)
    decreases keys
  {
    if keys != {} {
      var k :| k in keys;
      SummarizeAnyOrder(words, keys, logOdds, k);
      SummarizeKeys(words, keys - {k}, logOdds);
      assert (set k' | k' in keys :: CandidateOf(k')) == (set k' | k' in keys - {k} :: CandidateOf(k')) + {CandidateOf(k)};
    }
  }

  /** The one-character keys of candidate w among `keys`. */
  function OneCharKeys(keys: set<WordKey>, w: string): set<WordKey> {
    set k | k in keys && Splittable(k) && CandidateOf(k) == w && k.suffixLen == 1
  }

  /** Taking key k out of `keys` takes it out of w's one-character keys when it is one. */
  lemma OneCharKeysRemove(keys: set<WordKey>, w: string, k: WordKey)
    requires k in keys && Splittable(k)
    ensures |OneCharKeys(keys, w)| == |OneCharKeys(keys - {k}, w)| + (if CandidateOf(k) == w && k.suffixLen == 1 then 1 else 0)
  {
    if CandidateOf(k) == w && k.suffixLen == 1 {
      assert OneCharKeys(keys, w) == OneCharKeys(keys - {k}, w) + {k};
    } else {
      assert OneCharKeys(keys, w) == OneCharKeys(keys - {k}, w);
    }
  }

  /** Adding d to candidate v adds d to what w holds when v is w, and nothing otherwise. */
  lemma SumsAtAddTo(m: map<string, Sums>, v: string, d: Sums, w: string)
    ensures SumsAt(AddTo(m, v, d), w) == if v == w then Plus(SumsAt(m, w), d) else SumsAt(m, w)
  {
  }

  /** A candidate's unique count is its number of distinct one-character keys, with no
      informativeness test. */
  lemma {:induction false} SummarizeUnique(words: map<WordKey, nat>, keys: set<WordKey>, logOdds: (char, string) -> real, w: string)
    requires AllSplittable(keys)
    ensures SumsAt(Summarize(words, keys, logOdds), w).unique == |OneCharKeys(keys, w)|
    decreases keys
  {
    if keys != {} {
      var k :| k in keys;
      SummarizeAnyOrder(words, keys, logOdds, k);
      SummarizeUnique(words, keys - {k}, logOdds, w);
      SumsAtAddTo(Summarize(words, keys - {k}, logOdds), CandidateOf(k), Contribution(k, Multiplicity(words, k), logOdds), w);
      OneCharKeysRemove(keys, w, k);
    }
  }

  lemma ContributionSucc(k: WordKey, n: nat, logOdds: (char, string) -> real)
    requires Splittable(k)
    ensures Contribution(k, n + 1, logOdds) == Plus(Contribution(k, n, logOdds), Sums(logOdds(LastCharOf(k), SuffixOf(k)), 1, 0))
  {
    var x := logOdds(LastCharOf(k), SuffixOf(k));
    assert (n + 1) as real * x == n as real * x + x;
  }

  /** Recording a lookup whose key exists adds one to its candidate's count and its term
      to the candidate's log-odds sum. */
  lemma RecordExisting(words: map<WordKey, nat>, k: WordKey, logOdds: (char, string) -> real)
    requires AllSplittable(words.Keys) && k in words
    ensures Summarize(words[k := words[k] + 1], words.Keys, logOdds)
         == AddTo(Summarize(words, words.Keys, logOdds), CandidateOf(k), Sums(logOdds(LastCharOf(k), SuffixOf(k)), 1, 0))
  {
    var words' := words[k := words[k] + 1];
    var rest := words.Keys - {k};
    SummarizeAnyOrder(words', words.Keys, logOdds, k);
    SummarizeAnyOrder(words, words.Keys, logOdds, k);
    SummarizeFrame(words', words, rest, logOdds);
    ContributionSucc(k, words[k], logOdds);
    AddToTwice(Summarize(words, rest, logOdds), CandidateOf(k), Contribution(k, words[k], logOdds),
               Sums(logOdds(LastCharOf(k), SuffixOf(k)), 1, 0));
  }

  /** Recording a lookup with a new key does the same, and adds a unique suffix when the
      key's suffix has one character. */
  lemma RecordNew(words: map<WordKey, nat>, k: WordKey, logOdds: (char, string) -> real)
    requires AllSplittable(words.Keys) && Splittable(k) && k !in words
    ensures AllSplittable(words[k := 1].Keys)
    ensures Summarize(words[k := 1], words[k := 1].Keys, logOdds)
         == AddTo(Summarize(words, words.Keys, logOdds), CandidateOf(k),
                  Sums(logOdds(LastCharOf(k), SuffixOf(k)), 1, if k.suffixLen == 1 then 1 else 0))
  {
    var words' := words[k := 1];
    assert words'.Keys - {k} == words.Keys;
    SummarizeAnyOrder(words', words'.Keys, logOdds, k);
    SummarizeFrame(words', words, words.Keys, logOdds);
    assert 1 as real * logOdds(LastCharOf(k), SuffixOf(k)) == logOdds(LastCharOf(k), SuffixOf(k));
  }

  /** The number of lookups of candidate w. */
  function LookupCount(es: seq<Event>, w: string): nat
    decreases |es|
  {
    if |es| == 0 then 0 else (if es[0].Lookup? && es[0].candidate == w then 1 else 0) + LookupCount(es[1..], w)
  }

  /** The sum of the log-odds terms of the lookups of candidate w. */
  function LookupLogOdds(es: seq<Event>, w: string, logOdds: (char, string) -> real): real
    decreases |es|
  {
    if |es| == 0 then 0.0
    else (if es[0].Lookup? && es[0].candidate == w then logOdds(es[0].lastChar, es[0].suffix) else 0.0)
         + LookupLogOdds(es[1..], w, logOdds)
  }

  /** A lookup as the scan makes it: its trailing character ends a non-empty candidate and
      its suffix is non-empty. */
  predicate WellFormed(e: Event) {
    e.Lookup? ==> |e.candidate| >= 1 && |e.suffix| >= 1 && e.lastChar == e.candidate[|e.candidate| - 1]
  }

  /** Recording one well-formed event adds, for candidate w, one to the count and the
      event's term to the log-odds sum when it is a lookup of w, and nothing otherwise. */
  lemma RecordSums(words: map<WordKey, nat>, e: Event, logOdds: (char, string) -> real, w: string)
    requires AllSplittable(words.Keys) && WellFormed(e)
    ensures AllSplittable(Record(words, e).Keys)
    ensures var after := SumsAt(Summarize(Record(words, e), Record(words, e).Keys, logOdds), w);
            var before := SumsAt(Summarize(words, words.Keys, logOdds), w);
            after.count == before.count + (if e.Lookup? && e.candidate == w then 1 else 0)
            && after.logOdds == before.logOdds + (if e.Lookup? && e.candidate == w then logOdds(e.lastChar, e.suffix) else 0.0)
  {
    if e.Lookup? {
      KeyOfSplits(e);
      if KeyOf(e) in words {
        assert Record(words, e) == words[KeyOf(e) := words[KeyOf(e)] + 1];
        assert Record(words, e).Keys == words.Keys;
        RecordExisting(words, KeyOf(e), logOdds);
      } else {
        assert Record(words, e) == words[KeyOf(e) := 1];
        RecordNew(words, KeyOf(e), logOdds);
      }
    }
  }

  /** Over well-formed lookups, recording then summing gives each candidate its number of
      lookups as count and the sum of their terms as log-odds. */
  lemma {:induction false} RecordAllSums(words: map<WordKey, nat>, es: seq<Event>, logOdds: (char, string) -> real, w: string)
    requires AllSplittable(words.Keys) && forall e :: e in es ==> WellFormed(e)
    ensures AllSplittable(RecordAll(words, es).Keys)
    ensures var after := SumsAt(Summarize(RecordAll(words, es), RecordAll(words, es).Keys, logOdds), w);
            var before := SumsAt(Summarize(words, words.Keys, logOdds), w);
            after.count == before.count + LookupCount(es, w)
            && after.logOdds == before.logOdds + LookupLogOdds(es, w, logOdds)
    decreases |es|
  {
    if |es| > 0 {
      assert es[0] in es;
      RecordSums(words, es[0], logOdds, w);
      assert forall e :: e in es[1..] ==> e in es;
      RecordAllSums(Record(words, es[0]), es[1..], logOdds, w);
    }
  }

  ghost predicate Positive(words: map<WordKey, nat>) {
    forall k :: k in words ==> words[k] >= 1
  }

  lemma {:induction false} RecordAllPositive(words: map<WordKey, nat>, es: seq<Event>)
    requires Positive(words)
    ensures Positive(RecordAll(words, es))
    decreases |es|
  {
    if |es| > 0 {
      RecordAllPositive(Record(words, es[0]), es[1..]);
    }
  }

  /** With positive multiplicities, every candidate named has a positive count. */
  lemma {:induction false} SummarizeCountsPositive(words: map<WordKey, nat>, keys: set<WordKey>, logOdds: (char, string) -> real, w: string)
    requires AllSplittable(keys) && keys <= words.Keys && Positive(words)
    ensures w in Summarize(words, keys, logOdds) ==> Summarize(words, keys, logOdds)[w].count >= 1
    decreases keys
  {
    if keys != {} {
      var k :| k in keys;
      SummarizeAnyOrder(words, keys, logOdds, k);
      SummarizeCountsPositive(words, keys - {k}, logOdds, w);
    }
  }

  lemma {:induction false} LookupLogOddsZero(es: seq<Event>, w: string, logOdds: (char, string) -> real)
    requires forall c, s :: logOdds(c, s) == 0.0
    ensures LookupLogOdds(es, w, logOdds) == 0.0
    decreases |es|
  {
    if |es| > 0 {
      LookupLogOddsZero(es[1..], w, logOdds);
    }
  }

  lemma {:induction false} SuffixLookupsWellFormed(chars: string, start: nat, i: nat, j: nat)
    requires start <= i < |chars| && 1 <= j
    ensures forall e :: e in SuffixLookups(chars, start, i, j) ==> WellFormed(e)
    decreases MaxSuffixSize - j
  {
    if j < Min(MaxSuffixSize, |chars| - i - 1) {
      SuffixLookupsWellFormed(chars, start, i, j + 1);
    }
  }

  lemma {:induction false} LineEventsWellFormed(chars: string, isAlphanumeric: char -> bool, i: nat, start: nat)
    requires start <= i <= |chars|
    ensures forall e :: e in LineEvents(chars, isAlphanumeric, i, start) ==> WellFormed(e)
    decreases |chars| - i
  {
    if i < |chars| {
      if IsSeparator(chars[i], isAlphanumeric) {
        LineEventsWellFormed(chars, isAlphanumeric, i + 1, i + 1);
      } else {
        LineEventsWellFormed(chars, isAlphanumeric, i + 1, start);
        SuffixLookupsWellFormed(chars, start, i, 1);
      }
    }
  }

  lemma {:induction false} TextEventsWellFormed(lines: seq<string>, isAlphanumeric: char -> bool)
    ensures forall e :: e in LinesEvents(lines, isAlphanumeric) ==> WellFormed(e)
    decreases |lines|
  {
    if |lines| > 0 {
      TextEventsWellFormed(lines[1..], isAlphanumeric);
      if lines[0] != [] {
        LineEventsWellFormed(lines[0] + [Sentinel], isAlphanumeric, 0, 0);
      }
    }
  }

  /** The `words` map `extract_nouns2` builds from `text`. */
  function Words(text: string, isAlphanumeric: char -> bool): map<WordKey, nat> {
    RecordAll(map[], TextEvents(text, isAlphanumeric))
  }

  lemma WordsAreSplittable(text: string, isAlphanumeric: char -> bool)
    ensures AllSplittable(Words(text, isAlphanumeric).Keys) && Positive(Words(text, isAlphanumeric))
  {
    TextEventsWellFormed(Lines(text), isAlphanumeric);
    RecordAllSums(map[], TextEvents(text, isAlphanumeric), (c, s) => 0.0, []);
    RecordAllPositive(map[], TextEvents(text, isAlphanumeric));
  }

  /** The `candidates` map `extract_nouns2` builds from `text`. */
  ghost function Extracted2(text: string, isAlphanumeric: char -> bool, logOdds: (char, string) -> real): map<string, Sums> {
    WordsAreSplittable(text, isAlphanumeric);
    Summarize(Words(text, isAlphanumeric), Words(text, isAlphanumeric).Keys, logOdds)
  }

  /** The candidates are those with at least one lookup; a candidate's count is its number
      of lookups (the sum of the multiplicities of its keys), its log-odds the sum of their
      terms, and its unique count its number of distinct one-character keys. */
  lemma Extracted2Entries(text: string, isAlphanumeric: char -> bool, logOdds: (char, string) -> real, w: string)
    ensures var es := TextEvents(text, isAlphanumeric);
            var m := Extracted2(text, isAlphanumeric, logOdds);
            && (w in m <==> LookupCount(es, w) >= 1)
            && SumsAt(m, w).count == LookupCount(es, w)
            && SumsAt(m, w).logOdds == LookupLogOdds(es, w, logOdds)
            && SumsAt(m, w).unique == |OneCharKeys(Words(text, isAlphanumeric).Keys, w)|
  {
    var es := TextEvents(text, isAlphanumeric);
    WordsAreSplittable(text, isAlphanumeric);
    TextEventsWellFormed(Lines(text), isAlphanumeric);
    RecordAllSums(map[], es, logOdds, w);
    var words := Words(text, isAlphanumeric);
    SummarizeCountsPositive(words, words.Keys, logOdds, w);
    SummarizeUnique(words, words.Keys, logOdds, w);
  }

  /** A model with no evidence anywhere gives every candidate a log-odds sum of 0.0. */
  lemma UntrainedExtraction2(text: string, isAlphanumeric: char -> bool, logOdds: (char, string) -> real, w: string)
    requires forall c, s :: logOdds(c, s) == 0.0
    ensures w in Extracted2(text, isAlphanumeric, logOdds) ==> Extracted2(text, isAlphanumeric, logOdds)[w].logOdds == 0.0
  {
    Extracted2Entries(text, isAlphanumeric, logOdds, w);
    LookupLogOddsZero(TextEvents(text, isAlphanumeric), w, logOdds);
  }

  // The loops of `extract_nouns2`

  /** The `for j` loop: one more occurrence of each (candidate + suffix, suffix length). */
  method CollectSuffixes(chars: string, start: nat, i: nat, words: map<WordKey, nat>) returns (words': map<WordKey, nat>)
    requires start <= i < |chars|
    ensures words' == RecordAll(words, SuffixLookups(chars, start, i, 1))
  {
    words' := words;
    var j := 1;
    while j < Min(MaxSuffixSize, |chars| - i - 1)
      invariant 1 <= j
      invariant RecordAll(words', SuffixLookups(chars, start, i, j)) == RecordAll(words, SuffixLookups(chars, start, i, 1))
      decreases MaxSuffixSize - j
    {
      var word := WordKey(chars[start..i + 1 + j], j);
      ghost var e := Lookup(chars[start..i + 1], chars[i], chars[i + 1..i + 1 + j]);
      assert chars[start..i + 1] + chars[i + 1..i + 1 + j] == chars[start..i + 1 + j];
      assert KeyOf(e) == word;
      RecordAllCons(words', e, SuffixLookups(chars, start, i, j + 1));
      words' := words'[word := Multiplicity(words', word) + 1];
      j := j + 1;
    }
  }

  /** A non-separator at position i: the candidate's suffix keys; its occurrence records
      nothing. */
  method CollectPosition(chars: string, start: nat, i: nat, words: map<WordKey, nat>) returns (words': map<WordKey, nat>)
    requires start <= i < |chars|
    ensures words' == RecordAll(words, SuffixLookups(chars, start, i, 1) + [Occurrence(chars[start..i + 1])])
  {
    var occurrence := Occurrence(chars[start..i + 1]);
    RecordAllAppend(words, SuffixLookups(chars, start, i, 1), [occurrence]);
    words' := CollectSuffixes(chars, start, i, words);
    RecordAllCons(words', occurrence, []);
    assert [occurrence] + [] == [occurrence];
  }

  /** The `for i` loop over one line with the sentinel appended. */
  method CollectLine(chars: string, isAlphanumeric: char -> bool, words: map<WordKey, nat>) returns (words': map<WordKey, nat>)
    ensures words' == RecordAll(words, LineEvents(chars, isAlphanumeric, 0, 0))
  {
    words' := words;
    ghost var target := RecordAll(words, LineEvents(chars, isAlphanumeric, 0, 0));
    var start := 0;
    var i := 0;
    while i < |chars|
      invariant start <= i <= |chars|
      invariant RecordAll(words', LineEvents(chars, isAlphanumeric, i, start)) == target
      decreases |chars| - i
    {
      if IsSeparator(chars[i], isAlphanumeric) {
        start := i + 1;
      } else {
        ghost var here := SuffixLookups(chars, start, i, 1) + [Occurrence(chars[start..i + 1])];
        RecordAllAppend(words', here, LineEvents(chars, isAlphanumeric, i + 1, start));
        words' := CollectPosition(chars, start, i, words');
      }
      i := i + 1;
    }
  }

  /** The `for line in text.lines()` loop: empty lines are skipped. */
  method CollectWords(text: string, isAlphanumeric: char -> bool) returns (words: map<WordKey, nat>)
    ensures words == Words(text, isAlphanumeric)
  {
    var lines := Lines(text);
    words := map[];
    var k := 0;
    while k < |lines|
      invariant k <= |lines|
      invariant RecordAll(words, LinesEvents(lines[k..], isAlphanumeric)) == Words(text, isAlphanumeric)
      decreases |lines| - k
    {
      assert lines[k..][1..] == lines[k + 1..];
      RecordAllAppend(words, EventsOfLine(lines[k], isAlphanumeric), LinesEvents(lines[k + 1..], isAlphanumeric));
      if lines[k] != [] {
        words := CollectLine(lines[k] + [Sentinel], isAlphanumeric, words);
      }
      k := k + 1;
    }
    assert lines[k..] == [];
  }

  /** One more key, not yet summed, adds its contribution to the summary. */
  lemma SummarizeStep(words: map<WordKey, nat>, done: set<WordKey>, key: WordKey, logOdds: (char, string) -> real)
    requires AllSplittable(done) && Splittable(key) && key !in done
    ensures AllSplittable(done + {key})
    ensures Summarize(words, done + {key}, logOdds)
         == AddTo(Summarize(words, done, logOdds), CandidateOf(key), Contribution(key, Multiplicity(words, key), logOdds))
  {
    SummarizeAnyOrder(words, done + {key}, logOdds, key);
    assert done + {key} - {key} == done;
  }

  /** The body of the loop over `words`: the word's count times the log-odds of its
      suffix, its count, and one unique suffix when the suffix is one character long,
      added to the running sums of its candidate. */
  method SumKey(words: map<WordKey, nat>, key: WordKey, logOdds: (char, string) -> real, candidates: map<string, Sums>)
    returns (candidates': map<string, Sums>)
    requires key in words && Splittable(key)
    ensures candidates' == AddTo(candidates, CandidateOf(key), Contribution(key, Multiplicity(words, key), logOdds))
  {
    var word, suffixLen, count := key.word, key.suffixLen, words[key];
    var candidate := word[..|word| - suffixLen];
    var suffix := word[|word| - suffixLen..];
    var prob := logOdds(word[|word| - suffixLen - 1], suffix);
    var s := SumsAt(candidates, candidate);
    s := s.(logOdds := s.logOdds + count as real * prob);
    if suffixLen == 1 {
      s := s.(unique := s.unique + 1);
    }
    s := s.(count := s.count + count);
    assert candidate == CandidateOf(key) && suffix == SuffixOf(key);
    assert s == Plus(SumsAt(candidates, candidate), Contribution(key, Multiplicity(words, key), logOdds));
    candidates' := candidates[candidate := s];
  }

  /** `for ((word, suffix_len), count) in words.into_iter()`, in whatever order the map
      yields its keys. */
  method SumWords(words: map<WordKey, nat>, logOdds: (char, string) -> real) returns (candidates: map<string, Sums>)
    requires AllSplittable(words.Keys)
    ensures candidates == Summarize(words, words.Keys, logOdds)
  {
    candidates := map[];
    var remaining := words.Keys;
    assert words.Keys - remaining == {};
    while remaining != {}
      invariant remaining <= words.Keys
      invariant candidates == Summarize(words, words.Keys - remaining, logOdds)
      decreases |remaining|
    {
      var key :| key in remaining;
      ghost var done := words.Keys - remaining;
      SummarizeStep(words, done, key, logOdds);
      candidates := SumKey(words, key, logOdds, candidates);
      assert words.Keys - (remaining - {key}) == done + {key};
      remaining := remaining - {key};
    }
    assert words.Keys - remaining == words.Keys;
  }

  /** `extract_nouns2`, given the gated log-odds of a suffix, the logistic and the ranking
      key: one entry per candidate with a lookup, scored as `Extracted2` describes, sorted
      with NaN probabilities last. */
  method ExtractNouns2With(text: string, isAlphanumeric: char -> bool, logOdds: (char, string) -> real,
                           logistic: real -> Prob, rankKey: (nat, real, nat) -> real)
    returns (res: seq<(string, Score)>)
    ensures Sorted(res, rankKey)
    ensures |res| == |Extracted2(text, isAlphanumeric, logOdds)|
    ensures forall p :: 0 <= p < |res| ==>
              res[p].0 in Extracted2(text, isAlphanumeric, logOdds)
              && res[p].1 == FinalScore2(Extracted2(text, isAlphanumeric, logOdds)[res[p].0], logistic)
    ensures forall w :: w in Extracted2(text, isAlphanumeric, logOdds) ==>
              (w, FinalScore2(Extracted2(text, isAlphanumeric, logOdds)[w], logistic)) in res
  {
    var words := CollectWords(text, isAlphanumeric);
    WordsAreSplittable(text, isAlphanumeric);
    var candidates := SumWords(words, logOdds);
    res := RankScores(candidates, s => FinalScore2(s, logistic), rankKey);
  }

  /** `1 / (1 + exp(sum))` through `logistic`, with the count and unique count. */
  function FinalScore2(s: Sums, logistic: real -> Prob): Score {
    Score(logistic(s.logOdds), s.count, s.unique)
  }
}
