/** The scan behind `extract_nouns` (model.rs and model2.rs) and `extract_nouns2`
    (model.rs): every line with a '\n' appended is cut into runs of non-separator
    characters; each run prefix is a candidate, and the one- and two-character windows after
    it are its suffixes. The scan is described as a sequence of events, which the
    accumulating loops fold into maps. */
module Extraction {
  import opened Wrappers
  import opened Text
  import opened Counting
  import opened Likelihood

  /** Whitespace, or a non-alphanumeric character outside 'ㄱ'..'힣', ends a run. */
  predicate IsSeparator(c: char, isAlphanumeric: char -> bool) {
    IsWhitespace(c) || (!isAlphanumeric(c) && (c < 'ㄱ' || c > '힣'))
  }

  /** A lookup of `suffix` after `candidate` (whose last character is `lastChar`), or the end
      of the lookups for one occurrence of `candidate`. */
  datatype Event =
    | Lookup(candidate: string, lastChar: char, suffix: string)
    | Occurrence(candidate: string)

  /** The lookups for the candidate `chars[start..i+1]`: suffixes `chars[i+1..i+1+j]` for
      j, j+1, … below `min(MAX_POSTFIX_SIZE, chars.len() - i - 1)`. */
  function SuffixLookups(chars: string, start: nat, i: nat, j: nat): seq<Event>
    requires start <= i < |chars| && 1 <= j
    decreases MaxSuffixSize - j
  {
    if j >= Min(MaxSuffixSize, |chars| - i - 1) then []
    else [Lookup(chars[start..i + 1], chars[i], chars[i + 1..i + 1 + j])] + SuffixLookups(chars, start, i, j + 1)
  }

  /** The events of positions i, i+1, … of a line when the current run began at `start`
      (`word_start_index`): a separator restarts the run after itself, any other character
      ends the candidate `chars[start..i+1]`. */
  function LineEvents(chars: string, isAlphanumeric: char -> bool, i: nat, start: nat): seq<Event>
    requires start <= i <= |chars|
    decreases |chars| - i
  {
    if i == |chars| then []
    else if IsSeparator(chars[i], isAlphanumeric) then LineEvents(chars, isAlphanumeric, i + 1, i + 1)
    else SuffixLookups(chars, start, i, 1) + [Occurrence(chars[start..i + 1])] + LineEvents(chars, isAlphanumeric, i + 1, start)
  }

  /** The events of one line of `text.lines()`; an empty line is skipped. */
  function EventsOfLine(line: string, isAlphanumeric: char -> bool): seq<Event> {
    if line == [] then [] else LineEvents(line + [Sentinel], isAlphanumeric, 0, 0)
  }

  function LinesEvents(lines: seq<string>, isAlphanumeric: char -> bool): seq<Event>
    decreases |lines|
  {
    if |lines| == 0 then [] else EventsOfLine(lines[0], isAlphanumeric) + LinesEvents(lines[1..], isAlphanumeric)
  }

  /** Every event of the scan of `text`, in order. */
  function TextEvents(text: string, isAlphanumeric: char -> bool): seq<Event> {
    LinesEvents(Lines(text), isAlphanumeric)
  }

  // An independent description of the candidates, looking backwards from each position

  /** Where the run holding position p begins: just after the last separator before p. */
  function RunStart(chars: string, isAlphanumeric: char -> bool, p: nat): (r: nat)
    requires p <= |chars|
    ensures r <= p
  {
    if p == 0 then 0
    else if IsSeparator(chars[p - 1], isAlphanumeric) then p
    else RunStart(chars, isAlphanumeric, p - 1)
  }

  /** The run prefixes ending at the non-separator positions i, i+1, …, in order. */
  function RunPrefixes(chars: string, isAlphanumeric: char -> bool, i: nat): seq<string>
    requires i <= |chars|
    decreases |chars| - i
  {
    if i == |chars| then []
    else if IsSeparator(chars[i], isAlphanumeric) then RunPrefixes(chars, isAlphanumeric, i + 1)
    else [chars[RunStart(chars, isAlphanumeric, i)..i + 1]] + RunPrefixes(chars, isAlphanumeric, i + 1)
  }

  /** The candidates of the `Occurrence` events, in order. */
  function Occurrences(es: seq<Event>): seq<string>
    decreases |es|
  {
    if |es| == 0 then []
    else (if es[0].Occurrence? then [es[0].candidate] else []) + Occurrences(es[1..])
  }

  lemma {:induction false} OccurrencesAppend(a: seq<Event>, b: seq<Event>)
    ensures Occurrences(a + b) == Occurrences(a) + Occurrences(b)
    decreases |a|
  {
    if |a| == 0 {
      assert a + b == b;
    } else {
      assert (a + b)[0] == a[0];
      assert (a + b)[1..] == a[1..] + b;
      OccurrencesAppend(a[1..], b);
    }
  }

  lemma {:induction false} SuffixLookupsHaveNoOccurrence(chars: string, start: nat, i: nat, j: nat)
    requires start <= i < |chars| && 1 <= j
    ensures Occurrences(SuffixLookups(chars, start, i, j)) == []
    decreases MaxSuffixSize - j
  {
    if j < Min(MaxSuffixSize, |chars| - i - 1) {
      var rest := SuffixLookups(chars, start, i, j + 1);
      SuffixLookupsHaveNoOccurrence(chars, start, i, j + 1);
      OccurrencesAppend([Lookup(chars[start..i + 1], chars[i], chars[i + 1..i + 1 + j])], rest);
    }
  }

  /** The scan's `word_start_index` is the backward run start, so its occurrences are the
      run prefixes ending at each non-separator position: a candidate's count is the number
      of positions at which it ends. */
  lemma {:induction false} LineOccurrencesAreRunPrefixes(chars: string, isAlphanumeric: char -> bool, i: nat, start: nat)
    requires start <= i <= |chars| && start == RunStart(chars, isAlphanumeric, i)
    ensures Occurrences(LineEvents(chars, isAlphanumeric, i, start)) == RunPrefixes(chars, isAlphanumeric, i)
    decreases |chars| - i
  {
    if i < |chars| {
      if IsSeparator(chars[i], isAlphanumeric) {
        LineOccurrencesAreRunPrefixes(chars, isAlphanumeric, i + 1, i + 1);
      } else {
        var rest := LineEvents(chars, isAlphanumeric, i + 1, start);
        LineOccurrencesAreRunPrefixes(chars, isAlphanumeric, i + 1, start);
        SuffixLookupsHaveNoOccurrence(chars, start, i, 1);
        OccurrencesAppend(SuffixLookups(chars, start, i, 1), [Occurrence(chars[start..i + 1])]);
        OccurrencesAppend(SuffixLookups(chars, start, i, 1) + [Occurrence(chars[start..i + 1])], rest);
      }
    }
  }

  /** The run start of p: nothing from it up to p is a separator, and it is either the start
      of the line or just after a separator. */
  lemma {:induction false} RunStartBoundsARun(chars: string, isAlphanumeric: char -> bool, p: nat)
    requires p <= |chars|
    ensures var s := RunStart(chars, isAlphanumeric, p);
            (s == 0 || IsSeparator(chars[s - 1], isAlphanumeric))
            && forall q :: s <= q < p ==> !IsSeparator(chars[q], isAlphanumeric)
  {
    if p > 0 && !IsSeparator(chars[p - 1], isAlphanumeric) {
      RunStartBoundsARun(chars, isAlphanumeric, p - 1);
    }
  }

  /** Every run prefix is non-empty, free of separators, and starts at the beginning of the
      line or right after a separator. */
  lemma {:induction false} RunPrefixesAreRuns(chars: string, isAlphanumeric: char -> bool, i: nat)
    requires i <= |chars|
    ensures forall w :: w in RunPrefixes(chars, isAlphanumeric, i) ==>
              w != [] && forall c :: c in w ==> !IsSeparator(c, isAlphanumeric)
    decreases |chars| - i
  {
    if i < |chars| {
      RunPrefixesAreRuns(chars, isAlphanumeric, i + 1);
      if !IsSeparator(chars[i], isAlphanumeric) {
        RunStartBoundsARun(chars, isAlphanumeric, i);
        var s := RunStart(chars, isAlphanumeric, i);
        var w := chars[s..i + 1];
        forall c | c in w
          ensures !IsSeparator(c, isAlphanumeric)
        {
          var q :| 0 <= q < |w| && w[q] == c;
          assert c == chars[s + q];
        }
      }
    }
  }

  /** Lookup e is the window of |e.suffix| characters after the run prefix ending at p; the
      suffix has 1 or 2 characters and stops before the line's last character. */
  predicate LookupAt(chars: string, isAlphanumeric: char -> bool, p: nat, e: Event)
    requires e.Lookup?
  {
    p < |chars| && 1 <= |e.suffix| < MaxSuffixSize && p + 1 + |e.suffix| < |chars|
    && e.candidate == chars[RunStart(chars, isAlphanumeric, p)..p + 1]
    && e.lastChar == chars[p] && e.suffix == chars[p + 1..p + 1 + |e.suffix|]
  }

  lemma {:induction false} SuffixLookupsShape(chars: string, isAlphanumeric: char -> bool, start: nat, i: nat, j: nat)
    requires start <= i < |chars| && 1 <= j && start == RunStart(chars, isAlphanumeric, i)
    ensures forall e :: e in SuffixLookups(chars, start, i, j) ==> e.Lookup? && LookupAt(chars, isAlphanumeric, i, e)
    decreases MaxSuffixSize - j
  {
    if j < Min(MaxSuffixSize, |chars| - i - 1) {
      SuffixLookupsShape(chars, isAlphanumeric, start, i, j + 1);
    }
  }

  /** Every lookup of a line's scan is a window after a run prefix (so the appended '\n'
      never occurs in a suffix). */
  lemma {:induction false} LineLookupsShape(chars: string, isAlphanumeric: char -> bool, i: nat, start: nat)
    requires start <= i <= |chars| && start == RunStart(chars, isAlphanumeric, i)
    ensures forall e :: e in LineEvents(chars, isAlphanumeric, i, start) && e.Lookup? ==>
              exists p :: i <= p < |chars| && LookupAt(chars, isAlphanumeric, p, e)
    decreases |chars| - i
  {
    if i < |chars| {
      if IsSeparator(chars[i], isAlphanumeric) {
        LineLookupsShape(chars, isAlphanumeric, i + 1, i + 1);
      } else {
        LineLookupsShape(chars, isAlphanumeric, i + 1, start);
        SuffixLookupsShape(chars, isAlphanumeric, start, i, 1);
        forall e | e in LineEvents(chars, isAlphanumeric, i, start) && e.Lookup?
          ensures exists p :: i <= p < |chars| && LookupAt(chars, isAlphanumeric, p, e)
        {
          if e in SuffixLookups(chars, start, i, 1) {
            assert LookupAt(chars, isAlphanumeric, i, e);
          } else {
            assert e in LineEvents(chars, isAlphanumeric, i + 1, start);
            var p :| i + 1 <= p < |chars| && LookupAt(chars, isAlphanumeric, p, e);
          }
        }
      }
    }
  }
}
