/** `extract_nouns` (model.rs and model2.rs): per candidate, the product of the likelihood
    ratios of its suffixes, its number of occurrences, and the number of distinct informative
    one-character suffixes after it; then the posterior, and the sort. */
module RatioScores {
  import opened Wrappers
  import opened Text
  import opened Counting
  import opened Likelihood
  import opened Extraction
  import opened Ranking

  /** What the scan asks of the model: the likelihood pair of a suffix after a trailing
      character, the ratio `(nl / ol) as f32`, and the informativeness test. */
  datatype Scorer = Scorer(likelihood: (char, string) -> Pair, ratio: Pair -> real, informative: Pair -> bool)

  /** The `Score` being accumulated: product of ratios, count, unique suffix count. */
  datatype Entry = Entry(product: real, count: nat, unique: nat)

  /** `Score::default()`. */
  const Default: Entry := Entry(1.0, 0, 0)

  /** The scan's two collections: `likelihoods` and `unique_postfixes`. */
  datatype Acc = Acc(entries: map<string, Entry>, informed: set<string>)

  /** `entry(w).or_insert(Score::default())`. */
  function EntryAt(m: map<string, Entry>, w: string): Entry {
    if w in m then m[w] else Default
  }

  /** One event: a lookup multiplies the candidate's product by the suffix's ratio and, for
      an informative one-character suffix, records candidate + suffix; an occurrence adds
      one to the candidate's count. */
  function Step(a: Acc, e: Event, sc: Scorer): Acc {
    match e
    case Lookup(w, c, s) =>
      var p := sc.likelihood(c, s);
      var entry := EntryAt(a.entries, w);
      Acc(a.entries[w := entry.(product := entry.product * sc.ratio(p))],
          if |s| == 1 && sc.informative(p) then a.informed + {w + s} else a.informed)
    case Occurrence(w) =>
      var entry := EntryAt(a.entries, w);
      Acc(a.entries[w := entry.(count := entry.count + 1)], a.informed)
  }

  function AccAll(a: Acc, es: seq<Event>, sc: Scorer): Acc
    decreases |es|
  {
    if |es| == 0 then a else AccAll(Step(a, es[0], sc), es[1..], sc)
  }

  lemma {:induction false} AccAllAppend(a: Acc, x: seq<Event>, y: seq<Event>, sc: Scorer)
    ensures AccAll(a, x + y, sc) == AccAll(AccAll(a, x, sc), y, sc)
    decreases |x|
  {
    if |x| == 0 {
      assert x + y == y;
    } else {
      assert (x + y)[0] == x[0];
      assert (x + y)[1..] == x[1..] + y;
      AccAllAppend(Step(a, x[0], sc), x[1..], y, sc);
    }
  }

  /** The candidates the events mention. */
  function Candidates(es: seq<Event>): set<string> {
    set e | e in es :: e.candidate
  }

  /** The strings `unique_postfixes` receives: candidate + suffix for each one-character
      lookup whose pair passes the informativeness test. */
  function Informed(es: seq<Event>, sc: Scorer): set<string> {
    set e | e in es && e.Lookup? && |e.suffix| == 1 && sc.informative(sc.likelihood(e.lastChar, e.suffix)) :: e.candidate + e.suffix
  }

  lemma CandidatesCons(es: seq<Event>)
    requires |es| > 0
    ensures Candidates(es) == {es[0].candidate} + Candidates(es[1..])
  {
    forall w | w in Candidates(es)
      ensures w in {es[0].candidate} + Candidates(es[1..])
    {
      var e :| e in es && e.candidate == w;
      if e != es[0] {
        assert e in es[1..];
      }
    }
  }

  function InformedBy(e: Event, sc: Scorer): set<string> {
    if e.Lookup? && |e.suffix| == 1 && sc.informative(sc.likelihood(e.lastChar, e.suffix)) then {e.candidate + e.suffix} else {}
  }

  lemma InformedCons(es: seq<Event>, sc: Scorer)
    requires |es| > 0
    ensures Informed(es, sc) == InformedBy(es[0], sc) + Informed(es[1..], sc)
  {
    forall u | u in Informed(es, sc)
      ensures u in InformedBy(es[0], sc) + Informed(es[1..], sc)
    {
      var e :| e in es && e.Lookup? && |e.suffix| == 1 && sc.informative(sc.likelihood(e.lastChar, e.suffix)) && u == e.candidate + e.suffix;
      if e != es[0] {
        assert e in es[1..];
      }
    }
  }

  /** A candidate's count grows by its number of occurrences. */
  lemma {:induction false} AccAllCount(a: Acc, es: seq<Event>, sc: Scorer, w: string)
    ensures EntryAt(AccAll(a, es, sc).entries, w).count == EntryAt(a.entries, w).count + multiset(Occurrences(es))[w]
    decreases |es|
  {
    if |es| > 0 {
      AccAllCount(Step(a, es[0], sc), es[1..], sc, w);
    }
  }

  /** The scan never touches the unique counts (the separate pass sets them). */
  lemma {:induction false} AccAllKeepsUnique(a: Acc, es: seq<Event>, sc: Scorer, w: string)
    ensures EntryAt(AccAll(a, es, sc).entries, w).unique == EntryAt(a.entries, w).unique
    decreases |es|
  {
    if |es| > 0 {
      AccAllKeepsUnique(Step(a, es[0], sc), es[1..], sc, w);
    }
  }

  lemma StepLookup(a: Acc, w: string, c: char, s: string, sc: Scorer)
    ensures Step(a, Lookup(w, c, s), sc)
         == Acc(a.entries[w := EntryAt(a.entries, w).(product := EntryAt(a.entries, w).product * sc.ratio(sc.likelihood(c, s)))],
                if |s| == 1 && sc.informative(sc.likelihood(c, s)) then a.informed + {w + s} else a.informed)
  {
    var l := Step(a, Lookup(w, c, s), sc).entries;
    var r := a.entries[w := EntryAt(a.entries, w).(product := EntryAt(a.entries, w).product * sc.ratio(sc.likelihood(c, s)))];
    assert l.Keys == r.Keys;
    assert l[w] == r[w];
  }

  lemma StepOccurrence(a: Acc, w: string, sc: Scorer)
    ensures Step(a, Occurrence(w), sc) == Acc(a.entries[w := EntryAt(a.entries, w).(count := EntryAt(a.entries, w).count + 1)], a.informed)
  {
    var l := Step(a, Occurrence(w), sc).entries;
    var r := a.entries[w := EntryAt(a.entries, w).(count := EntryAt(a.entries, w).count + 1)];
    assert l.Keys == r.Keys;
    assert l[w] == r[w];
  }

  lemma AccAllCons(a: Acc, e: Event, rest: seq<Event>, sc: Scorer)
    ensures AccAll(a, [e] + rest, sc) == AccAll(Step(a, e, sc), rest, sc)
  {
    assert ([e] + rest)[0] == e;
    assert ([e] + rest)[1..] == rest;
  }

  /** An entry exists afterwards exactly when it existed before or the events mention it. */
  lemma {:induction false} AccAllKeys(a: Acc, es: seq<Event>, sc: Scorer)
    ensures AccAll(a, es, sc).entries.Keys == a.entries.Keys + Candidates(es)
    decreases |es|
  {
    if |es| > 0 {
      AccAllKeys(Step(a, es[0], sc), es[1..], sc);
      CandidatesCons(es);
    }
  }

  /** The informed set gains exactly the informative one-character lookups. */
  lemma {:induction false} AccAllInformed(a: Acc, es: seq<Event>, sc: Scorer)
    ensures AccAll(a, es, sc).informed == a.informed + Informed(es, sc)
    decreases |es|
  {
    if |es| > 0 {
      AccAllInformed(Step(a, es[0], sc), es[1..], sc);
      InformedCons(es, sc);
    }
  }

  /** With a model that finds no evidence anywhere (every pair neutral, whose ratio is 1.0
      and which is not informative), products stay 1.0 and nothing is informed. */
  lemma {:induction false} AccAllNeutral(a: Acc, es: seq<Event>, sc: Scorer)
    requires forall c, s :: sc.likelihood(c, s) == Neutral
    requires sc.ratio(Neutral) == 1.0 && !sc.informative(Neutral)
    requires forall w :: w in a.entries ==> a.entries[w].product == 1.0
    ensures forall w :: w in AccAll(a, es, sc).entries ==> AccAll(a, es, sc).entries[w].product == 1.0
    ensures AccAll(a, es, sc).informed == a.informed
    decreases |es|
  {
    if |es| > 0 {
      AccAllNeutral(Step(a, es[0], sc), es[1..], sc);
    }
  }

  // The unique-suffix pass over `unique_postfixes`

  /** The informed strings that are `w` followed by one character. */
  function PrefixedBy(informed: set<string>, w: string): set<string> {
    set u | u in informed && |u| >= 1 && u[..|u| - 1] == w
  }

  /** The candidates the informed strings name (`chars[..chars.len()-1]`). */
  function Prefixes(informed: set<string>): set<string> {
    set u | u in informed && |u| >= 1 :: u[..|u| - 1]
  }

  /** The entries after the pass: every named candidate's unique count grows by the number
      of informed strings naming it. */
  function WithUnique(entries: map<string, Entry>, informed: set<string>): map<string, Entry> {
    map w | w in entries.Keys + Prefixes(informed) ::
      EntryAt(entries, w).(unique := EntryAt(entries, w).unique + |PrefixedBy(informed, w)|)
  }

  function AddUnique(m: map<string, Entry>, w: string): map<string, Entry> {
    m[w := EntryAt(m, w).(unique := EntryAt(m, w).unique + 1)]
  }

  lemma PrefixesInsert(done: set<string>, u: string)
    requires |u| >= 1
    ensures Prefixes(done + {u}) == Prefixes(done) + {u[..|u| - 1]}
  {
  }

  lemma PrefixedByInsert(done: set<string>, u: string, w: string)
    requires u !in done && |u| >= 1
    ensures w == u[..|u| - 1] ==> |PrefixedBy(done + {u}, w)| == |PrefixedBy(done, w)| + 1
    ensures w != u[..|u| - 1] ==> PrefixedBy(done + {u}, w) == PrefixedBy(done, w)
  {
    if w == u[..|u| - 1] {
      assert PrefixedBy(done + {u}, w) == PrefixedBy(done, w) + {u};
    }
  }

  lemma WithUniqueInsert(entries: map<string, Entry>, done: set<string>, u: string)
    requires u !in done && |u| >= 1
    ensures WithUnique(entries, done + {u}) == AddUnique(WithUnique(entries, done), u[..|u| - 1])
  {
    var l := WithUnique(entries, done + {u});
    var r := AddUnique(WithUnique(entries, done), u[..|u| - 1]);
    PrefixesInsert(done, u);
    forall w | w in l.Keys
      ensures w in r && l[w] == r[w]
    {
      PrefixedByInsert(done, u, w);
    }
    assert l.Keys == r.Keys;
  }

  lemma WithUniqueEmpty(entries: map<string, Entry>)
    ensures WithUnique(entries, {}) == entries
  {
    assert Prefixes({}) == {};
    forall w | w in entries
      ensures PrefixedBy({}, w) == {}
    {
    }
  }

  /** `unique_postfixes.into_iter().for_each(…)`, in whatever order the set yields. */
  method CountUnique(entries: map<string, Entry>, informed: set<string>) returns (r: map<string, Entry>)
    requires forall u :: u in informed ==> |u| >= 1
    ensures r == WithUnique(entries, informed)
  {
    r := entries;
    var remaining := informed;
    ghost var done: set<string> := {};
    WithUniqueEmpty(entries);
    while remaining != {}
      invariant done + remaining == informed && done !! remaining
      invariant r == WithUnique(entries, done)
      decreases |remaining|
    {
      var u :| u in remaining;
      var chars := u;
      var w := chars[..|chars| - 1];
      ghost var before := r;
      var e := EntryAt(r, w);
      r := r[w := e.(unique := e.unique + 1)];
      assert r == AddUnique(before, w);
      WithUniqueInsert(entries, done, u);
      done := done + {u};
      remaining := remaining - {u};
    }
  }

  // The whole text

  /** The run prefixes of every non-empty line, line after line. */
  function TextRunPrefixes(lines: seq<string>, isAlphanumeric: char -> bool): seq<string>
    decreases |lines|
  {
    if |lines| == 0 then []
    else (if lines[0] == [] then [] else RunPrefixes(lines[0] + [Sentinel], isAlphanumeric, 0))
         + TextRunPrefixes(lines[1..], isAlphanumeric)
  }

  lemma {:induction false} TextOccurrences(lines: seq<string>, isAlphanumeric: char -> bool)
    ensures Occurrences(LinesEvents(lines, isAlphanumeric)) == TextRunPrefixes(lines, isAlphanumeric)
    ensures forall w :: w in TextRunPrefixes(lines, isAlphanumeric) ==>
              w != [] && forall c :: c in w ==> !IsSeparator(c, isAlphanumeric)
    decreases |lines|
  {
    if |lines| > 0 {
      TextOccurrences(lines[1..], isAlphanumeric);
      OccurrencesAppend(EventsOfLine(lines[0], isAlphanumeric), LinesEvents(lines[1..], isAlphanumeric));
      if lines[0] != [] {
        LineOccurrencesAreRunPrefixes(lines[0] + [Sentinel], isAlphanumeric, 0, 0);
        RunPrefixesAreRuns(lines[0] + [Sentinel], isAlphanumeric, 0);
      }
    }
  }

  lemma {:induction false} SuffixLookupsCandidates(chars: string, start: nat, i: nat, j: nat)
    requires start <= i < |chars| && 1 <= j
    ensures Candidates(SuffixLookups(chars, start, i, j)) <= {chars[start..i + 1]}
    decreases MaxSuffixSize - j
  {
    if j < Min(MaxSuffixSize, |chars| - i - 1) {
      SuffixLookupsCandidates(chars, start, i, j + 1);
      CandidatesCons(SuffixLookups(chars, start, i, j));
    }
  }

  lemma CandidatesAppend(a: seq<Event>, b: seq<Event>)
    ensures Candidates(a + b) == Candidates(a) + Candidates(b)
  {
    forall w | w in Candidates(a + b)
      ensures w in Candidates(a) + Candidates(b)
    {
      var e :| e in a + b && e.candidate == w;
      if e in a {
        assert w in Candidates(a);
      } else {
        assert e in b;
      }
    }
    forall w | w in Candidates(a) + Candidates(b)
      ensures w in Candidates(a + b)
    {
      if w in Candidates(a) {
        var e :| e in a && e.candidate == w;
        assert e in a + b;
      } else {
        var e :| e in b && e.candidate == w;
        assert e in a + b;
      }
    }
  }

  /** Every candidate a line's scan mentions also occurs (so has count at least 1). */
  lemma {:induction false} LineCandidatesOccur(chars: string, isAlphanumeric: char -> bool, i: nat, start: nat)
    requires start <= i <= |chars|
    ensures forall w :: w in Candidates(LineEvents(chars, isAlphanumeric, i, start)) ==>
              w in Occurrences(LineEvents(chars, isAlphanumeric, i, start))
    decreases |chars| - i
  {
    if i < |chars| {
      if IsSeparator(chars[i], isAlphanumeric) {
        LineCandidatesOccur(chars, isAlphanumeric, i + 1, i + 1);
      } else {
        var look := SuffixLookups(chars, start, i, 1);
        var occ := [Occurrence(chars[start..i + 1])];
        var rest := LineEvents(chars, isAlphanumeric, i + 1, start);
        LineCandidatesOccur(chars, isAlphanumeric, i + 1, start);
        SuffixLookupsCandidates(chars, start, i, 1);
        SuffixLookupsHaveNoOccurrence(chars, start, i, 1);
        CandidatesAppend(look, occ);
        CandidatesAppend(look + occ, rest);
        CandidatesCons(occ);
        OccurrencesAppend(look, occ);
        OccurrencesAppend(look + occ, rest);
      }
    }
  }

  lemma {:induction false} TextCandidatesOccur(lines: seq<string>, isAlphanumeric: char -> bool)
    ensures forall w :: w in Candidates(LinesEvents(lines, isAlphanumeric)) ==>
              w in Occurrences(LinesEvents(lines, isAlphanumeric))
    decreases |lines|
  {
    if |lines| > 0 {
      TextCandidatesOccur(lines[1..], isAlphanumeric);
      CandidatesAppend(EventsOfLine(lines[0], isAlphanumeric), LinesEvents(lines[1..], isAlphanumeric));
      OccurrencesAppend(EventsOfLine(lines[0], isAlphanumeric), LinesEvents(lines[1..], isAlphanumeric));
      if lines[0] != [] {
        LineCandidatesOccur(lines[0] + [Sentinel], isAlphanumeric, 0, 0);
      }
    }
  }

  lemma InformedNamesCandidates(es: seq<Event>, sc: Scorer)
    ensures forall u :: u in Informed(es, sc) ==> |u| >= 1
    ensures Prefixes(Informed(es, sc)) <= Candidates(es)
  {
    forall w | w in Prefixes(Informed(es, sc))
      ensures w in Candidates(es)
    {
      var u :| u in Informed(es, sc) && |u| >= 1 && w == u[..|u| - 1];
      var e :| e in es && e.Lookup? && |e.suffix| == 1 && sc.informative(sc.likelihood(e.lastChar, e.suffix)) && u == e.candidate + e.suffix;
      assert w == e.candidate;
    }
  }

  /** The entries `extract_nouns` has before computing probabilities. */
  function Extracted(text: string, isAlphanumeric: char -> bool, sc: Scorer): map<string, Entry> {
    var acc := AccAll(Acc(map[], {}), TextEvents(text, isAlphanumeric), sc);
    WithUnique(acc.entries, acc.informed)
  }

  lemma WithUniqueAt(entries: map<string, Entry>, informed: set<string>, w: string)
    requires Prefixes(informed) <= entries.Keys
    ensures WithUnique(entries, informed).Keys == entries.Keys
    ensures w in entries ==>
              WithUnique(entries, informed)[w] == entries[w].(unique := entries[w].unique + |PrefixedBy(informed, w)|)
  {
  }

  /** The candidates are exactly the run prefixes of the text, each non-empty and free of
      separators; a candidate's count is the number of positions at which it ends; its
      unique count is the number of distinct informative one-character suffixes after it. */
  lemma ExtractedEntries(text: string, isAlphanumeric: char -> bool, sc: Scorer, w: string)
    ensures var m := Extracted(text, isAlphanumeric, sc);
            && m.Keys == Candidates(TextEvents(text, isAlphanumeric))
            && (w in m ==> w in TextRunPrefixes(Lines(text), isAlphanumeric))
            && (w in m ==> w != [] && forall c :: c in w ==> !IsSeparator(c, isAlphanumeric))
            && (w in m ==> 1 <= m[w].count == multiset(TextRunPrefixes(Lines(text), isAlphanumeric))[w])
            && (w in m ==> m[w].unique == |PrefixedBy(Informed(TextEvents(text, isAlphanumeric), sc), w)|)
  {
    var es := TextEvents(text, isAlphanumeric);
    var a0 := Acc(map[], {});
    var acc := AccAll(a0, es, sc);
    AccAllKeys(a0, es, sc);
    AccAllInformed(a0, es, sc);
    AccAllCount(a0, es, sc, w);
    AccAllKeepsUnique(a0, es, sc, w);
    InformedNamesCandidates(es, sc);
    assert acc.informed == Informed(es, sc);
    assert acc.entries.Keys == Candidates(es);
    WithUniqueAt(acc.entries, acc.informed, w);
    TextOccurrences(Lines(text), isAlphanumeric);
    TextCandidatesOccur(Lines(text), isAlphanumeric);
    if w in acc.entries {
      assert w in Occurrences(es);
      assert EntryAt(a0.entries, w).count == 0;
    }
  }

  /** With a model that has no evidence anywhere, every product is 1.0 and no candidate has
      a unique suffix. */
  lemma UntrainedExtraction(text: string, isAlphanumeric: char -> bool, sc: Scorer, w: string)
    requires forall c, s :: sc.likelihood(c, s) == Neutral
    requires sc.ratio(Neutral) == 1.0 && !sc.informative(Neutral)
    ensures w in Extracted(text, isAlphanumeric, sc) ==>
              Extracted(text, isAlphanumeric, sc)[w].product == 1.0 && Extracted(text, isAlphanumeric, sc)[w].unique == 0
  {
    var es := TextEvents(text, isAlphanumeric);
    var acc := AccAll(Acc(map[], {}), es, sc);
    AccAllNeutral(Acc(map[], {}), es, sc);
    AccAllKeepsUnique(Acc(map[], {}), es, sc, w);
    assert acc.informed == {};
    assert Prefixes(acc.informed) == {};
    assert PrefixedBy(acc.informed, w) == {};
    WithUniqueAt(acc.entries, acc.informed, w);
  }

  // The loops of `extract_nouns`

  /** The body of the `for j` loop: look up the suffix of length j after the candidate
      `chars[start..i+1]`, mark the candidate extended by one character as informative
      when j is 1 and the likelihood says so, and fold the ratio into the product. */
  method LookupAt(chars: string, start: nat, i: nat, j: nat, sc: Scorer, entries: map<string, Entry>, informed: set<string>)
    returns (entries': map<string, Entry>, informed': set<string>)
    requires start <= i && 1 <= j && i + 1 + j <= |chars|
    ensures Acc(entries', informed') == Step(Acc(entries, informed), Lookup(chars[start..i + 1], chars[i], chars[i + 1..i + 1 + j]), sc)
  {
    var candidate := chars[start..i + 1];
    var lastChar := chars[i];
    var suffix := chars[i + 1..i + 1 + j];
    informed' := informed;
    var p := sc.likelihood(lastChar, suffix);
    if j == 1 && sc.informative(p) {
      assert chars[start..Min(i + 2, |chars|)] == candidate + suffix;
      informed' := informed' + {chars[start..Min(i + 2, |chars|)]};
    }
    var e := EntryAt(entries, candidate);
    entries' := entries[candidate := e.(product := e.product * sc.ratio(p))];
    StepLookup(Acc(entries, informed), candidate, lastChar, suffix, sc);
    ghost var after := Step(Acc(entries, informed), Lookup(candidate, lastChar, suffix), sc);
    assert entries'.Keys == after.entries.Keys;
    assert entries'[candidate] == after.entries[candidate];
  }

  /** The `for j` loop for the candidate `chars[start..i+1]`. */
  method ScanSuffixes(chars: string, start: nat, i: nat, sc: Scorer, entries: map<string, Entry>, informed: set<string>)
    returns (entries': map<string, Entry>, informed': set<string>)
    requires start <= i < |chars|
    ensures Acc(entries', informed') == AccAll(Acc(entries, informed), SuffixLookups(chars, start, i, 1), sc)
  {
    entries', informed' := entries, informed;
    var j := 1;
    while j < Min(MaxSuffixSize, |chars| - i - 1)
      invariant 1 <= j
      invariant AccAll(Acc(entries', informed'), SuffixLookups(chars, start, i, j), sc)
                == AccAll(Acc(entries, informed), SuffixLookups(chars, start, i, 1), sc)
      decreases MaxSuffixSize - j
    {
      AccAllCons(Acc(entries', informed'), Lookup(chars[start..i + 1], chars[i], chars[i + 1..i + 1 + j]), SuffixLookups(chars, start, i, j + 1), sc);
      entries', informed' := LookupAt(chars, start, i, j, sc, entries', informed');
      j := j + 1;
    }
  }

  /** A non-separator at position i: the candidate's lookups, then its count. */
  method ScanPosition(chars: string, start: nat, i: nat, sc: Scorer, entries: map<string, Entry>, informed: set<string>)
    returns (entries': map<string, Entry>, informed': set<string>)
    requires start <= i < |chars|
    ensures Acc(entries', informed')
         == AccAll(Acc(entries, informed), SuffixLookups(chars, start, i, 1) + [Occurrence(chars[start..i + 1])], sc)
  {
    var candidate := chars[start..i + 1];
    AccAllAppend(Acc(entries, informed), SuffixLookups(chars, start, i, 1), [Occurrence(candidate)], sc);
    entries', informed' := ScanSuffixes(chars, start, i, sc, entries, informed);
    AccAllCons(Acc(entries', informed'), Occurrence(candidate), [], sc);
    StepOccurrence(Acc(entries', informed'), candidate, sc);
    assert [Occurrence(candidate)] + [] == [Occurrence(candidate)];
    var e := EntryAt(entries', candidate);
    entries' := entries'[candidate := e.(count := e.count + 1)];
  }

  /** The `for i` loop over one line with the sentinel appended. */
  method ScanLine(chars: string, isAlphanumeric: char -> bool, sc: Scorer, entries: map<string, Entry>, informed: set<string>)
    returns (entries': map<string, Entry>, informed': set<string>)
    ensures Acc(entries', informed') == AccAll(Acc(entries, informed), LineEvents(chars, isAlphanumeric, 0, 0), sc)
  {
    entries', informed' := entries, informed;
    ghost var target := AccAll(Acc(entries, informed), LineEvents(chars, isAlphanumeric, 0, 0), sc);
    var start := 0;
    var i := 0;
    while i < |chars|
      invariant start <= i <= |chars|
      invariant AccAll(Acc(entries', informed'), LineEvents(chars, isAlphanumeric, i, start), sc) == target
      decreases |chars| - i
    {
      if IsSeparator(chars[i], isAlphanumeric) {
        start := i + 1;
      } else {
        ghost var here := SuffixLookups(chars, start, i, 1) + [Occurrence(chars[start..i + 1])];
        AccAllAppend(Acc(entries', informed'), here, LineEvents(chars, isAlphanumeric, i + 1, start), sc);
        entries', informed' := ScanPosition(chars, start, i, sc, entries', informed');
      }
      i := i + 1;
    }
  }

  /** The `for line in text.lines()` loop: empty lines are skipped. */
  method Accumulate(text: string, isAlphanumeric: char -> bool, sc: Scorer) returns (acc: Acc)
    ensures acc == AccAll(Acc(map[], {}), TextEvents(text, isAlphanumeric), sc)
  {
    var lines := Lines(text);
    var entries: map<string, Entry> := map[];
    var informed: set<string> := {};
    var k := 0;
    while k < |lines|
      invariant k <= |lines|
      invariant AccAll(Acc(entries, informed), LinesEvents(lines[k..], isAlphanumeric), sc)
                == AccAll(Acc(map[], {}), TextEvents(text, isAlphanumeric), sc)
      decreases |lines| - k
    {
      assert lines[k..][1..] == lines[k + 1..];
      AccAllAppend(Acc(entries, informed), EventsOfLine(lines[k], isAlphanumeric), LinesEvents(lines[k + 1..], isAlphanumeric), sc);
      if lines[k] != [] {
        var chars := lines[k] + [Sentinel];
        entries, informed := ScanLine(chars, isAlphanumeric, sc, entries, informed);
      }
      k := k + 1;
    }
    assert lines[k..] == [];
    acc := Acc(entries, informed);
  }

  /** `extract_nouns`, given the model's likelihoods, the informativeness test, the final
      probability formula and the ranking key: one entry per candidate of the text, scored
      as `Extracted` describes, sorted with NaN probabilities last. */
  method ExtractNounsWith(text: string, isAlphanumeric: char -> bool, sc: Scorer, posterior: real -> Prob,
                          rankKey: (nat, real, nat) -> real)
    returns (res: seq<(string, Score)>)
    ensures Sorted(res, rankKey)
    ensures |res| == |Extracted(text, isAlphanumeric, sc)|
    ensures forall p :: 0 <= p < |res| ==>
              res[p].0 in Extracted(text, isAlphanumeric, sc) && res[p].1 == FinalScore(Extracted(text, isAlphanumeric, sc)[res[p].0], posterior)
    ensures forall w :: w in Extracted(text, isAlphanumeric, sc) ==>
              (w, FinalScore(Extracted(text, isAlphanumeric, sc)[w], posterior)) in res
  {
    var acc := Accumulate(text, isAlphanumeric, sc);
    AccAllInformed(Acc(map[], {}), TextEvents(text, isAlphanumeric), sc);
    InformedNamesCandidates(TextEvents(text, isAlphanumeric), sc);
    var entries := CountUnique(acc.entries, acc.informed);
    res := RankScores(entries, e => FinalScore(e, posterior), rankKey);
  }

  /** The probability from the product (`posterior` stands for the `f32` formula with the
      two tallies), and the count and unique count as accumulated. */
  function FinalScore(e: Entry, posterior: real -> Prob): Score {
    Score(posterior(e.product), e.count, e.unique)
  }
}
