/** The counting core shared by model.rs and model2.rs: the suffix key, the per-key
    counts, the two global tallies, what one observation does to them, and which
    observations training a line makes (the boundary walk). */
module Counting {

  /** `MAX_POSTFIX_SIZE`: suffixes are 1 or 2 characters long (`j < 3`). */
  const MaxSuffixSize: nat := 3
  /** `'\0'`, the trailing character of the back-off key that ignores the real one. */
  const Wildcard: char := '\0'
  /** The character `train_line` appends after the text. */
  const Sentinel: char := '\n'
  /** The tally keys, spelled as in the source (including its "ount"). */
  const NounCountKey: string := "__noun_ount__"
  const OtherCountKey: string := "__other_count__"

  /** `Postfix` in model.rs, `Suffix` in model2.rs. */
  datatype Suffix = Suffix(lastChar: char, suffix: string)
  datatype Count = Count(postnoun: nat, postother: nat)
  /** One call of `observe_postnoun` (isNoun) or `observe_postother`. */
  datatype Observation = Observation(isNoun: bool, lastChar: char, suffix: string)
  /** The contents of the two stores: suffix counts and the global tallies. */
  datatype Counts = Counts(suffixes: map<Suffix, Count>, tallies: map<string, nat>)
  /** A noun span `(offset, length)` in characters. */
  datatype Span = Span(offset: nat, length: nat)

  function Min(a: int, b: int): int {
    if a < b then a else b
  }

  function End(s: Span): nat {
    s.offset + s.length
  }

  /** `get(&key)?.unwrap_or_default()` on the suffix store. */
  function CountAt(m: map<Suffix, Count>, k: Suffix): Count {
    if k in m then m[k] else Count(0, 0)
  }

  /** `get(&key)?.unwrap_or_default()` on the tally store. */
  function TallyAt(t: map<string, nat>, key: string): nat {
    if key in t then t[key] else 0
  }

  function TallyKey(isNoun: bool): string {
    if isNoun then NounCountKey else OtherCountKey
  }

  function Bump(c: Count, isNoun: bool): Count {
    if isNoun then c.(postnoun := c.postnoun + 1) else c.(postother := c.postother + 1)
  }

  /** The three read-modify-write steps of one observation: the tally, the key with the
      real trailing character, then the wildcard key. */
  function Observe(m: Counts, o: Observation): Counts {
    var tallies := m.tallies[TallyKey(o.isNoun) := TallyAt(m.tallies, TallyKey(o.isNoun)) + 1];
    var concrete := Suffix(o.lastChar, o.suffix);
    var s1 := m.suffixes[concrete := Bump(CountAt(m.suffixes, concrete), o.isNoun)];
    var wild := Suffix(Wildcard, o.suffix);
    var s2 := s1[wild := Bump(CountAt(s1, wild), o.isNoun)];
    Counts(s2, tallies)
  }

  /** Observations applied in order. */
  function ObserveAll(m: Counts, obs: seq<Observation>): Counts
    decreases |obs|
  {
    if |obs| == 0 then m else ObserveAll(Observe(m, obs[0]), obs[1..])
  }

  function NounObservations(obs: seq<Observation>): (r: nat)
    ensures r <= |obs|
    decreases |obs|
  {
    if |obs| == 0 then 0 else (if obs[0].isNoun then 1 else 0) + NounObservations(obs[1..])
  }

  /** How many of the two keys an observation writes are `k` (2 when the trailing
      character is itself the wildcard). */
  function Hits(o: Observation, k: Suffix): nat {
    (if k == Suffix(o.lastChar, o.suffix) then 1 else 0) + (if k == Suffix(Wildcard, o.suffix) then 1 else 0)
  }

  /** One observation adds exactly `Hits` to the matching field of every key, leaves the
      other field alone, and creates no key but the two it writes. */
  lemma ObserveCountEffect(m: Counts, o: Observation, k: Suffix)
    ensures var before, after := CountAt(m.suffixes, k), CountAt(Observe(m, o).suffixes, k);
            if o.isNoun then after == Count(before.postnoun + Hits(o, k), before.postother)
            else after == Count(before.postnoun, before.postother + Hits(o, k))
    ensures k in Observe(m, o).suffixes <==> k in m.suffixes || Hits(o, k) > 0
  {
  }

  /** One observation adds exactly 1 to its own tally and changes no other tally key. */
  lemma ObserveTallyEffect(m: Counts, o: Observation, key: string)
    ensures TallyAt(Observe(m, o).tallies, key) == TallyAt(m.tallies, key) + (if key == TallyKey(o.isNoun) then 1 else 0)
    ensures key in Observe(m, o).tallies <==> key in m.tallies || key == TallyKey(o.isNoun)
  {
  }

  /** Two observations commute. */
  lemma {:induction false} ObserveCommutes(m: Counts, a: Observation, b: Observation)
    ensures Observe(Observe(m, a), b) == Observe(Observe(m, b), a)
  {
    var ab, ba := Observe(Observe(m, a), b), Observe(Observe(m, b), a);
    forall k
      ensures k in ab.suffixes <==> k in ba.suffixes
      ensures k in ab.suffixes ==> ab.suffixes[k] == ba.suffixes[k]
    {
      ObserveCountEffect(m, a, k);
      ObserveCountEffect(Observe(m, a), b, k);
      ObserveCountEffect(m, b, k);
      ObserveCountEffect(Observe(m, b), a, k);
    }
    forall key
      ensures key in ab.tallies <==> key in ba.tallies
      ensures key in ab.tallies ==> ab.tallies[key] == ba.tallies[key]
    {
      ObserveTallyEffect(m, a, key);
      ObserveTallyEffect(Observe(m, a), b, key);
      ObserveTallyEffect(m, b, key);
      ObserveTallyEffect(Observe(m, b), a, key);
    }
    assert ab.suffixes == ba.suffixes;
    assert ab.tallies == ba.tallies;
  }

  lemma {:induction false} ObserveAllAppend(m: Counts, a: seq<Observation>, b: seq<Observation>)
    ensures ObserveAll(m, a + b) == ObserveAll(ObserveAll(m, a), b)
    decreases |a|
  {
    if |a| > 0 {
      assert (a + b)[0] == a[0];
      assert (a + b)[1..] == a[1..] + b;
      ObserveAllAppend(Observe(m, a[0]), a[1..], b);
    } else {
      assert a + b == b;
    }
  }

  /** An observation made first or last gives the same stores. */
  lemma {:induction false} ObserveFirstOrLast(m: Counts, x: Observation, s: seq<Observation>)
    ensures ObserveAll(Observe(m, x), s) == Observe(ObserveAll(m, s), x)
    decreases |s|
  {
    if |s| > 0 {
      ObserveCommutes(m, x, s[0]);
      ObserveFirstOrLast(Observe(m, s[0]), x, s[1..]);
    }
  }

  /** Training the same multiset of observations in any order gives identical counts and
      tallies. */
  lemma {:induction false} ObserveAllOrderFree(m: Counts, a: seq<Observation>, b: seq<Observation>)
    requires multiset(a) == multiset(b)
    ensures ObserveAll(m, a) == ObserveAll(m, b)
    decreases |a|
  {
    if |a| == 0 {
      assert |multiset(b)| == 0;
    } else {
      var x := a[0];
      assert x in multiset(b);
      var k :| 0 <= k < |b| && b[k] == x;
      var rest := b[..k] + b[k + 1..];
      assert b == b[..k] + [x] + b[k + 1..];
      assert a == [x] + a[1..];
      assert multiset(b) == multiset(b[..k]) + multiset([x]) + multiset(b[k + 1..]);
      assert multiset(rest) == multiset(b[..k]) + multiset(b[k + 1..]);
      assert multiset(a) == multiset([x]) + multiset(a[1..]);
      assert multiset(a[1..]) == multiset(a) - multiset([x]);
      assert multiset(rest) == multiset(b) - multiset([x]);
      ObserveAllOrderFree(Observe(m, x), a[1..], rest);
      ObserveFirstOrLast(m, x, rest);
      ObserveAllAppend(m, b[..k] + [x], b[k + 1..]);
      ObserveAllAppend(m, b[..k], [x]);
      ObserveFirstOrLast(ObserveAll(m, b[..k]), x, b[k + 1..]);
      ObserveAllAppend(m, b[..k], b[k + 1..]);
    }
  }

  /** The noun tally grows by the noun observations, the other tally by the rest. */
  lemma {:induction false} ObserveAllTallies(m: Counts, obs: seq<Observation>)
    ensures TallyAt(ObserveAll(m, obs).tallies, NounCountKey) == TallyAt(m.tallies, NounCountKey) + NounObservations(obs)
    ensures TallyAt(ObserveAll(m, obs).tallies, OtherCountKey) == TallyAt(m.tallies, OtherCountKey) + (|obs| - NounObservations(obs))
    decreases |obs|
  {
    if |obs| > 0 {
      ObserveTallyEffect(m, obs[0], NounCountKey);
      ObserveTallyEffect(m, obs[0], OtherCountKey);
      ObserveAllTallies(Observe(m, obs[0]), obs[1..]);
    }
  }

  // ---------------------------------------------------------------------------------
  // The boundary walk of `train_line`

  /** The label ("noun" = true) of boundaries i, i+1, …, n-1 when the span cursor is at
      `cursor`: a boundary is a noun boundary when it is the end of the span under the
      cursor, and only then does the cursor move on. */
  function Classify(n: nat, spans: seq<Span>, i: nat, cursor: nat): (labels: seq<bool>)
    ensures |labels| == if i < n then n - i else 0
    decreases n - i
  {
    if i >= n then []
    else if cursor < |spans| && i == End(spans[cursor]) then [true] + Classify(n, spans, i + 1, cursor + 1)
    else [false] + Classify(n, spans, i + 1, cursor)
  }

  /** The observations made at boundary i for suffix lengths j, j+1, … below
      `min(MAX_POSTFIX_SIZE, chars.len() - i)`. */
  function WindowFrom(chars: seq<char>, i: nat, isNoun: bool, j: nat): seq<Observation>
    requires 1 <= i < |chars| && 1 <= j
    decreases MaxSuffixSize - j
  {
    if j >= Min(MaxSuffixSize, |chars| - i) then []
    else [Observation(isNoun, chars[i - 1], chars[i..i + j])] + WindowFrom(chars, i, isNoun, j + 1)
  }

  /** The observations at the boundaries from i on, given their labels. */
  function Walk(chars: seq<char>, labels: seq<bool>, i: nat): seq<Observation>
    requires 1 <= i <= |chars| && |labels| == |chars| - i
    decreases |labels|
  {
    if |labels| == 0 then [] else WindowFrom(chars, i, labels[0], 1) + Walk(chars, labels[1..], i + 1)
  }

  /** The labels of the boundaries 1..L of a non-empty line of L characters. */
  function Labels(text: string, spans: seq<Span>): (labels: seq<bool>)
    ensures |labels| == |text|
  {
    Classify(|text| + 1, spans, 1, 0)
  }

  /** Everything `train_line(text, spans)` observes, in order. */
  function LineObservations(text: string, spans: seq<Span>): seq<Observation> {
    if text == [] then [] else Walk(text + [Sentinel], Labels(text, spans), 1)
  }

  /** Observation o is the window of suffix length |o.suffix| at boundary i of `text`. */
  predicate WindowAt(text: string, i: nat, o: Observation) {
    1 <= i && i + |o.suffix| <= |text| && o.lastChar == text[i - 1] && o.suffix == text[i..i + |o.suffix|]
  }

  lemma {:induction false} WindowFromShape(text: string, i: nat, isNoun: bool, j: nat)
    requires 1 <= i < |text| + 1 && 1 <= j
    ensures forall o :: o in WindowFrom(text + [Sentinel], i, isNoun, j) ==>
              o.isNoun == isNoun && j <= |o.suffix| < MaxSuffixSize && WindowAt(text, i, o)
    decreases MaxSuffixSize - j
  {
    var chars := text + [Sentinel];
    if j < Min(MaxSuffixSize, |chars| - i) {
      WindowFromShape(text, i, isNoun, j + 1);
      assert chars[i..i + j] == text[i..i + j];
      assert chars[i - 1] == text[i - 1];
    }
  }

  lemma {:induction false} WalkShape(text: string, labels: seq<bool>, i: nat)
    requires 1 <= i <= |text| + 1 && |labels| == |text| + 1 - i
    ensures forall o :: o in Walk(text + [Sentinel], labels, i) ==>
              1 <= |o.suffix| < MaxSuffixSize && exists b :: WindowAt(text, b, o)
    decreases |labels|
  {
    if |labels| > 0 {
      WindowFromShape(text, i, labels[0], 1);
      WalkShape(text, labels[1..], i + 1);
      forall o | o in Walk(text + [Sentinel], labels, i)
        ensures 1 <= |o.suffix| < MaxSuffixSize && exists b :: WindowAt(text, b, o)
      {
        if o in WindowFrom(text + [Sentinel], i, labels[0], 1) {
          assert WindowAt(text, i, o);
        }
      }
    }
  }

  /** Every observation of a line has a suffix of 1 or 2 characters that lies inside the
      text (so the appended '\n' never appears), preceded by its trailing character. */
  lemma LineObservationsAreWindows(text: string, spans: seq<Span>)
    ensures forall o :: o in LineObservations(text, spans) ==>
              1 <= |o.suffix| < MaxSuffixSize && exists b :: WindowAt(text, b, o)
  {
    if text != [] {
      WalkShape(text, Labels(text, spans), 1);
    }
  }

  lemma {:induction false} WindowFromSize(chars: seq<char>, i: nat, isNoun: bool, j: nat)
    requires 1 <= i < |chars| && 1 <= j
    ensures |WindowFrom(chars, i, isNoun, j)| == if j < Min(MaxSuffixSize, |chars| - i) then Min(MaxSuffixSize, |chars| - i) - j else 0
    ensures NounObservations(WindowFrom(chars, i, isNoun, j)) == if isNoun then |WindowFrom(chars, i, isNoun, j)| else 0
    decreases MaxSuffixSize - j
  {
    if j < Min(MaxSuffixSize, |chars| - i) {
      WindowFromSize(chars, i, isNoun, j + 1);
      var w := WindowFrom(chars, i, isNoun, j);
      assert w[1..] == WindowFrom(chars, i, isNoun, j + 1);
    }
  }

  lemma {:induction false} NounObservationsAppend(a: seq<Observation>, b: seq<Observation>)
    ensures NounObservations(a + b) == NounObservations(a) + NounObservations(b)
    decreases |a|
  {
    if |a| > 0 {
      assert (a + b)[1..] == a[1..] + b;
      NounObservationsAppend(a[1..], b);
    } else {
      assert a + b == b;
    }
  }

  /** The number of observations at boundaries i..n-1: 2 for each boundary with at least
      three characters after it (the sentinel included), 1 for the one with two, 0 last. */
  lemma {:induction false} WalkSize(chars: seq<char>, labels: seq<bool>, i: nat)
    requires 1 <= i <= |chars| && |labels| == |chars| - i
    ensures |Walk(chars, labels, i)| == if |chars| - i >= 2 then 2 * (|chars| - i) - 3 else 0
    decreases |labels|
  {
    if |labels| > 0 {
      WindowFromSize(chars, i, labels[0], 1);
      WalkSize(chars, labels[1..], i + 1);
    }
  }

  /** Training a line of L characters makes 2L-3 observations (none for L = 1). */
  lemma LineObservationCount(text: string, spans: seq<Span>)
    ensures |LineObservations(text, spans)| == if |text| >= 2 then 2 * |text| - 3 else 0
  {
    if text != [] {
      WalkSize(text + [Sentinel], Labels(text, spans), 1);
    }
  }

  lemma {:induction false} WalkAllOther(chars: seq<char>, labels: seq<bool>, i: nat)
    requires 1 <= i <= |chars| && |labels| == |chars| - i
    requires forall k :: 0 <= k < |labels| ==> !labels[k]
    ensures NounObservations(Walk(chars, labels, i)) == 0
    decreases |labels|
  {
    if |labels| > 0 {
      WindowFromSize(chars, i, labels[0], 1);
      WalkAllOther(chars, labels[1..], i + 1);
      NounObservationsAppend(WindowFrom(chars, i, labels[0], 1), Walk(chars, labels[1..], i + 1));
    }
  }

  /** Once the cursor is past the last span, or stuck on a span whose end lies behind the
      current boundary, no later boundary is a noun boundary. */
  lemma {:induction false} StuckCursorLabelsOther(n: nat, spans: seq<Span>, i: nat, cursor: nat)
    requires cursor >= |spans| || End(spans[cursor]) < i || End(spans[cursor]) >= n
    ensures forall k :: 0 <= k < |Classify(n, spans, i, cursor)| ==> !Classify(n, spans, i, cursor)[k]
    decreases n - i
  {
    if i < n {
      StuckCursorLabelsOther(n, spans, i + 1, cursor);
    }
  }

  /** Spans in the order the walk meets them: their ends strictly increase, the first end
      is at or after boundary i and the last before n. */
  ghost predicate ReachableFrom(n: nat, spans: seq<Span>, i: nat, cursor: nat) {
    && cursor <= |spans|
    && (cursor < |spans| ==> i <= End(spans[cursor]))
    && (forall a, b :: cursor <= a < b < |spans| ==> End(spans[a]) < End(spans[b]))
    && (forall a :: cursor <= a < |spans| ==> End(spans[a]) < n)
  }

  /** Some span from index `from` on ends at boundary b. */
  ghost predicate IsSpanEnd(spans: seq<Span>, from: nat, b: nat) {
    exists a :: from <= a < |spans| && End(spans[a]) == b
  }

  lemma {:induction false} ReachableSpansAreNounBoundaries(n: nat, spans: seq<Span>, i: nat, cursor: nat)
    requires ReachableFrom(n, spans, i, cursor)
    ensures forall k :: 0 <= k < n - i ==> (Classify(n, spans, i, cursor)[k] <==> IsSpanEnd(spans, cursor, i + k))
    decreases n - i
  {
    if i < n {
      var hit := cursor < |spans| && i == End(spans[cursor]);
      var next := if hit then cursor + 1 else cursor;
      ReachableSpansAreNounBoundaries(n, spans, i + 1, next);
      var labels := Classify(n, spans, i, cursor);
      forall k | 0 <= k < n - i
        ensures labels[k] <==> IsSpanEnd(spans, cursor, i + k)
      {
        if k == 0 {
          if !hit && cursor < |spans| {
            forall a | cursor <= a < |spans| ensures End(spans[a]) > i {
              if a > cursor {
                assert End(spans[cursor]) < End(spans[a]);
              }
            }
          }
        } else {
          assert labels[k] == Classify(n, spans, i + 1, next)[k - 1];
          if hit {
            assert End(spans[cursor]) == i < i + k;
            if IsSpanEnd(spans, cursor, i + k) {
              var a :| cursor <= a < |spans| && End(spans[a]) == i + k;
              assert a != cursor;
            }
          }
        }
      }
    }
  }

  /** With spans sorted by end and inside the line, the noun boundaries of `train_line` are
      exactly the span ends: boundary k+1 is labelled noun iff some span ends there. */
  lemma NounBoundariesAreSpanEnds(text: string, spans: seq<Span>)
    requires text != []
    requires ReachableFrom(|text| + 1, spans, 1, 0)
    ensures forall k :: 0 <= k < |text| ==> (Labels(text, spans)[k] <==> IsSpanEnd(spans, 0, k + 1))
  {
    ReachableSpansAreNounBoundaries(|text| + 1, spans, 1, 0);
  }

  /** What `train_line` does to the tallies: together they grow by the number of
      observations (2L-3), and without spans only the other tally grows. */
  lemma LineTallies(m: Counts, text: string, spans: seq<Span>)
    ensures var after := ObserveAll(m, LineObservations(text, spans)).tallies;
            var added := if |text| >= 2 then 2 * |text| - 3 else 0;
            TallyAt(after, NounCountKey) + TallyAt(after, OtherCountKey)
              == TallyAt(m.tallies, NounCountKey) + TallyAt(m.tallies, OtherCountKey) + added
    ensures spans == [] ==>
              var after := ObserveAll(m, LineObservations(text, spans)).tallies;
              TallyAt(after, NounCountKey) == TallyAt(m.tallies, NounCountKey)
              && TallyAt(after, OtherCountKey) == TallyAt(m.tallies, OtherCountKey) + (if |text| >= 2 then 2 * |text| - 3 else 0)
  {
    var obs := LineObservations(text, spans);
    ObserveAllTallies(m, obs);
    LineObservationCount(text, spans);
    if spans == [] && text != [] {
      StuckCursorLabelsOther(|text| + 1, spans, 1, 0);
      WalkAllOther(text + [Sentinel], Labels(text, spans), 1);
    }
  }
}
