/** The benchmark's reading of an evaluation file (`eval_dataset`, benches/evaluate.rs):
    the non-empty texts joined into one document, and the set of nouns the spans mark.
    A run of spans that touch end to end marks one noun, so for every span the noun
    reaches back to the start of its run. */
module Evaluation {
  import opened Wrappers
  import opened Text
  import opened Counting
  import opened Training

  /** Span `j` starts exactly where span `j - 1` ends. */
  predicate Touches(spans: seq<Span>, j: nat) {
    0 < j < |spans| && End(spans[j - 1]) == spans[j].offset
  }

  /** The first span of the run of touching spans that ends with span `i`: the smallest
      `k` such that every span from `k` to `i` starts where the one before it ends. */
  function ChainStart(spans: seq<Span>, i: nat): (k: nat)
    requires i < |spans|
    ensures k <= i
    ensures forall j :: k < j <= i ==> Touches(spans, j)
    ensures !Touches(spans, k)
  {
    if Touches(spans, i) then ChainStart(spans, i - 1) else i
  }

  /** A run never starts after its last span: the slice of a noun is never reversed. */
  lemma {:induction false} ChainStartOffset(spans: seq<Span>, i: nat)
    requires i < |spans|
    ensures spans[ChainStart(spans, i)].offset <= spans[i].offset
  {
    if ChainStart(spans, i) < i {
      ChainStartOffset(spans, i - 1);
    }
  }

  /** How many leading spans the loop handles: it stops at the first span that ends past
      the `n` characters of the text. */
  function Processed(spans: seq<Span>, n: nat): (c: nat)
    ensures c <= |spans|
    ensures forall i :: 0 <= i < c ==> End(spans[i]) <= n
    ensures c < |spans| ==> End(spans[c]) > n
  {
    if spans == [] || End(spans[0]) > n then 0 else 1 + Processed(spans[1..], n)
  }

  /** The loop over the spans has handled them all once it reaches one that does not fit. */
  lemma ProcessedStops(spans: seq<Span>, n: nat, i: nat)
    requires i <= Processed(spans, n)
    requires i < |spans| && End(spans[i]) > n
    ensures i == Processed(spans, n)
  {
  }

  /** The noun span `i` marks: the text from the start of its run to its own end. */
  function SpanNoun(text: string, spans: seq<Span>, i: nat): string
    requires i < |spans| && End(spans[i]) <= |text|
  {
    ChainStartOffset(spans, i);
    text[spans[ChainStart(spans, i)].offset .. End(spans[i])]
  }

  /** The text of span `j`. */
  function SpanText(text: string, spans: seq<Span>, j: nat): string
    requires j < |spans| && End(spans[j]) <= |text|
  {
    text[spans[j].offset .. End(spans[j])]
  }

  /** The texts of spans `k` to `i`, one after the other. */
  function RunText(text: string, spans: seq<Span>, k: nat, i: nat): string
    requires k <= i < |spans|
    requires forall j :: k <= j <= i ==> End(spans[j]) <= |text|
    decreases i
  {
    if k == i then SpanText(text, spans, i) else RunText(text, spans, k, i - 1) + SpanText(text, spans, i)
  }

  /** The nouns of the first `i` spans. */
  function NounsBefore(text: string, spans: seq<Span>, i: nat): set<string>
    requires i <= Processed(spans, |text|)
  {
    set j | 0 <= j < i :: SpanNoun(text, spans, j)
  }

  /** The nouns of one line. */
  function LineNouns(text: string, spans: seq<Span>): set<string> {
    NounsBefore(text, spans, Processed(spans, |text|))
  }

  /** The texts kept, in input order: blank lines and empty texts are skipped. */
  function DatasetTexts(dataset: seq<DatasetLine>): seq<string> {
    if dataset == [] then []
    else
      var last := dataset[|dataset| - 1];
      DatasetTexts(dataset[..|dataset| - 1]) + (if last.Record? && last.text != [] then [last.text] else [])
  }

  /** The nouns of every kept line. */
  function DatasetNouns(dataset: seq<DatasetLine>): set<string> {
    if dataset == [] then {}
    else
      var last := dataset[|dataset| - 1];
      DatasetNouns(dataset[..|dataset| - 1]) + (if last.Record? && last.text != [] then LineNouns(last.text, last.spans) else {})
  }

  /** The noun of a span is the texts of its run, one after the other: it ends with the
      span's own text. */
  lemma SpanNounIsRun(text: string, spans: seq<Span>, i: nat)
    requires i < Processed(spans, |text|)
    ensures ChainStart(spans, i) <= i
    ensures SpanNoun(text, spans, i) == RunText(text, spans, ChainStart(spans, i), i)
  {
    RunTextIsSlice(text, spans, ChainStart(spans, i), i);
  }

  /** The texts of touching spans, one after the other, are the slice from the first
      span's start to the last span's end. */
  lemma {:induction false} RunTextIsSlice(text: string, spans: seq<Span>, k: nat, i: nat)
    requires k <= i < Processed(spans, |text|)
    requires forall j :: k < j <= i ==> Touches(spans, j)
    ensures spans[k].offset <= spans[i].offset
    ensures RunText(text, spans, k, i) == text[spans[k].offset .. End(spans[i])]
    decreases i
  {
    if k < i {
      RunTextIsSlice(text, spans, k, i - 1);
      var a, b, c := spans[k].offset, spans[i].offset, End(spans[i]);
      assert Touches(spans, i);
      assert text[a..c] == text[a..b] + text[b..c];
    }
  }

  /** A span whose predecessor does not touch it marks exactly its own text. */
  lemma SpanNounAlone(text: string, spans: seq<Span>, i: nat)
    requires i < Processed(spans, |text|)
    requires !Touches(spans, i)
    ensures SpanNoun(text, spans, i) == SpanText(text, spans, i)
  {
  }

  /** Every noun of a line is a piece of that line that ends where one of its spans ends. */
  lemma LineNounsAreSubstrings(text: string, spans: seq<Span>, noun: string)
    requires noun in LineNouns(text, spans)
    ensures exists a: nat, i: nat :: i < |spans| && a <= End(spans[i]) <= |text| && noun == text[a..End(spans[i])]
  {
    var i :| 0 <= i < Processed(spans, |text|) && noun == SpanNoun(text, spans, i);
    ChainStartOffset(spans, i);
    var a := spans[ChainStart(spans, i)].offset;
    assert noun == text[a..End(spans[i])];
  }

  /** Nouns come only from the spans before the first one that does not fit. */
  lemma LineNounsStopAtOverflow(text: string, spans: seq<Span>, c: nat)
    requires c < |spans| && End(spans[c]) > |text|
    ensures LineNouns(text, spans) == LineNouns(text, spans[..c])
  {
    var n := Processed(spans, |text|);
    ProcessedPrefix(spans, |text|, c);
    forall i | 0 <= i < n
      ensures SpanNoun(text, spans, i) == SpanNoun(text, spans[..c], i)
    {
      ChainStartPrefix(spans, c, i);
    }
    forall noun
      ensures noun in LineNouns(text, spans) <==> noun in LineNouns(text, spans[..c])
    {
      if noun in LineNouns(text, spans) {
        var i :| 0 <= i < n && noun == SpanNoun(text, spans, i);
        assert noun == SpanNoun(text, spans[..c], i);
      }
      if noun in LineNouns(text, spans[..c]) {
        var i :| 0 <= i < n && noun == SpanNoun(text, spans[..c], i);
        assert noun == SpanNoun(text, spans, i);
      }
    }
  }

  lemma {:induction false} ProcessedPrefix(spans: seq<Span>, n: nat, c: nat)
    requires c < |spans| && End(spans[c]) > n
    ensures Processed(spans, n) <= c
    ensures Processed(spans[..c], n) == Processed(spans, n)
  {
    if spans != [] && End(spans[0]) <= n {
      assert c > 0;
      ProcessedPrefix(spans[1..], n, c - 1);
      assert spans[1..][..c - 1] == spans[..c][1..];
    }
  }

  lemma {:induction false} ChainStartPrefix(spans: seq<Span>, c: nat, i: nat)
    requires i < c <= |spans|
    ensures ChainStart(spans, i) == ChainStart(spans[..c], i)
  {
    if Touches(spans, i) {
      ChainStartPrefix(spans, c, i - 1);
    }
  }

  lemma {:induction false} DatasetAppend(a: seq<DatasetLine>, b: seq<DatasetLine>)
    ensures DatasetTexts(a + b) == DatasetTexts(a) + DatasetTexts(b)
    ensures DatasetNouns(a + b) == DatasetNouns(a) + DatasetNouns(b)
    decreases |b|
  {
    if b == [] {
      assert a + b == a;
    } else {
      var n := |b| - 1;
      DatasetAppend(a, b[..n]);
      assert (a + b)[..|a + b| - 1] == a + b[..n];
    }
  }

  /** A blank line, or a line whose text is empty, adds neither text nor nouns: what is
      kept comes from the lines before it and the lines after it. */
  lemma {:induction false} SkippedLine(dataset: seq<DatasetLine>, q: nat)
    requires q < |dataset|
    requires dataset[q].Blank? || (dataset[q].Record? && dataset[q].text == [])
    ensures DatasetTexts(dataset) == DatasetTexts(dataset[..q]) + DatasetTexts(dataset[q + 1..])
    ensures DatasetNouns(dataset) == DatasetNouns(dataset[..q]) + DatasetNouns(dataset[q + 1..])
  {
    var front, back := dataset[..q + 1], dataset[q + 1..];
    assert dataset == front + back;
    DatasetAppend(front, back);
    assert front[..q] == dataset[..q];
  }

  /** Every kept text is non-empty. */
  lemma {:induction false} DatasetTextsNonEmpty(dataset: seq<DatasetLine>)
    ensures forall t :: t in DatasetTexts(dataset) ==> t != []
  {
    if dataset != [] {
      DatasetTextsNonEmpty(dataset[..|dataset| - 1]);
    }
  }

  /** Texts free of line breaks can be told apart again in the joined document. */
  lemma JoinedTextsSplitBack(dataset: seq<DatasetLine>)
    requires forall q :: 0 <= q < |dataset| && dataset[q].Record? ==> '\n' !in dataset[q].text
    requires DatasetTexts(dataset) != []
    ensures Split(Join(DatasetTexts(dataset), '\n'), '\n') == DatasetTexts(dataset)
  {
    var texts := DatasetTexts(dataset);
    TextsFromLines(dataset);
    forall k | 0 <= k < |texts|
      ensures '\n' !in texts[k]
    {
      assert texts[k] in texts;
      var q :| 0 <= q < |dataset| && dataset[q].Record? && dataset[q].text == texts[k];
    }
    SplitJoin(texts, '\n');
  }

  lemma {:induction false} TextsFromLines(dataset: seq<DatasetLine>)
    ensures forall t :: t in DatasetTexts(dataset) ==>
              exists q :: 0 <= q < |dataset| && dataset[q].Record? && dataset[q].text == t
  {
    if dataset != [] {
      TextsFromLines(dataset[..|dataset| - 1]);
    }
  }

  /** The inner loop of `eval_dataset`: the noun of each span, in order, until a span
      ends past the text. */
  lemma NounsBeforeStep(text: string, spans: seq<Span>, i: nat)
    requires i < Processed(spans, |text|)
    ensures NounsBefore(text, spans, i + 1) == NounsBefore(text, spans, i) + {SpanNoun(text, spans, i)}
  {
    var before, after := NounsBefore(text, spans, i), NounsBefore(text, spans, i + 1);
    forall noun | noun in after
      ensures noun in before + {SpanNoun(text, spans, i)}
    {
      var j :| 0 <= j < i + 1 && noun == SpanNoun(text, spans, j);
      if j < i {
        assert noun in before;
      }
    }
  }

  /** The `while` loop of `eval_dataset` that walks back over touching spans. */
  method WalkBack(spans: seq<Span>, i: nat) returns (k: nat)
    requires i < |spans|
    ensures k == ChainStart(spans, i)
  {
    k := i;
    while k >= 1 && End(spans[k - 1]) == spans[k].offset
      invariant k <= i
      invariant ChainStart(spans, k) == ChainStart(spans, i)
    {
      k := k - 1;
    }
  }

  method AddLineNouns(text: string, spans: seq<Span>, nouns: set<string>) returns (nouns': set<string>)
    ensures nouns' == nouns + LineNouns(text, spans)
  {
    nouns' := nouns;
    var i := 0;
    while i < |spans|
      invariant i <= Processed(spans, |text|)
      invariant nouns' == nouns + NounsBefore(text, spans, i)
    {
      var l, len := spans[i].offset, spans[i].length;
      if l + len > |text| {
        ProcessedStops(spans, |text|, i);
        break;
      }
      var k := WalkBack(spans, i);
      ChainStartOffset(spans, i);
      NounsBeforeStep(text, spans, i);
      assert text[spans[k].offset .. l + len] == SpanNoun(text, spans, i);
      nouns' := nouns' + {text[spans[k].offset .. l + len]};
      i := i + 1;
    }
  }


  /** `eval_dataset`: the kept texts joined with "\n" and the nouns of all their spans;
      a line that does not decode stops the benchmark (an `unwrap` on its decoding). */
  method EvalDataset(dataset: seq<DatasetLine>) returns (r: Result<(string, set<string>), TrainError>)
    ensures r == if FirstMalformed(dataset) < |dataset| then Err(MalformedLine(FirstMalformed(dataset)))
                 else Ok((Join(DatasetTexts(dataset), '\n'), DatasetNouns(dataset)))
  {
    var lines: seq<string> := [];
    var nouns: set<string> := {};
    var q := 0;
    while q < |dataset|
      invariant q <= |dataset|
      invariant forall p :: 0 <= p < q ==> !dataset[p].Malformed?
      invariant lines == DatasetTexts(dataset[..q]) && nouns == DatasetNouns(dataset[..q])
    {
      assert dataset[..q + 1][..q] == dataset[..q];
      match dataset[q] {
        case Blank =>
        case Malformed =>
          FirstMalformedAt(dataset, q);
          return Err(MalformedLine(q));
        case Record(text, spans) =>
          if text != [] {
            nouns := AddLineNouns(text, spans, nouns);
            lines := lines + [text];
          }
      }
      q := q + 1;
    }
    assert dataset[..q] == dataset;
    FirstMalformedAt(dataset, q);
    r := Ok((Join(lines, '\n'), nouns));
  }
}
