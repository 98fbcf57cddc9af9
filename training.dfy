/** The training side shared by model.rs and model2.rs, written against the two stores:
    one observation as three read-modify-writes, and the boundary walk over a line with the
    `noun_idx` cursor. Both `State` classes delegate to these methods. */
module Training {
  import opened Wrappers
  import opened Counting
  import Store

  /** What the suffix store and the tally store hold together. */
  function Contents(suffixCounts: Store.StoreImpl<Suffix, Count>, tallies: Store.StoreImpl<string, nat>): Counts
    reads suffixCounts, tallies
  {
    Counts(suffixCounts.inner, tallies.inner)
  }

  /** `observe_postnoun` (o.isNoun) / `observe_postother`: bump the global tally, then the
      count under the real trailing character, then the count under the wildcard. */
  method ObserveInto(suffixCounts: Store.StoreImpl<Suffix, Count>, tallies: Store.StoreImpl<string, nat>, o: Observation)
    modifies suffixCounts, tallies
    ensures Contents(suffixCounts, tallies) == Observe(old(Contents(suffixCounts, tallies)), o)
  {
    var key := TallyKey(o.isNoun);
    var tally := tallies.Get(key);
    tallies.Put(key, tally.GetOr(0) + 1);

    var concrete := Suffix(o.lastChar, o.suffix);
    var count := suffixCounts.Get(concrete);
    suffixCounts.Put(concrete, Bump(count.GetOr(Count(0, 0)), o.isNoun));

    var wild := Suffix(Wildcard, o.suffix);
    count := suffixCounts.Get(wild);
    suffixCounts.Put(wild, Bump(count.GetOr(Count(0, 0)), o.isNoun));
  }

  lemma ObserveAllCons(m: Counts, o: Observation, rest: seq<Observation>)
    ensures ObserveAll(m, [o] + rest) == ObserveAll(Observe(m, o), rest)
  {
    assert ([o] + rest)[0] == o;
    assert ([o] + rest)[1..] == rest;
  }

  /** The inner loop at boundary i: observe `chars[i..i+j]` for 1 <= j < min(3, len - i). */
  method ObserveWindow(suffixCounts: Store.StoreImpl<Suffix, Count>, tallies: Store.StoreImpl<string, nat>,
                       chars: seq<char>, i: nat, isNoun: bool)
    requires 1 <= i < |chars|
    modifies suffixCounts, tallies
    ensures Contents(suffixCounts, tallies) == ObserveAll(old(Contents(suffixCounts, tallies)), WindowFrom(chars, i, isNoun, 1))
  {
    ghost var target := ObserveAll(Contents(suffixCounts, tallies), WindowFrom(chars, i, isNoun, 1));
    var j := 1;
    while j < Min(MaxSuffixSize, |chars| - i)
      invariant 1 <= j <= Min(MaxSuffixSize, |chars| - i)
      invariant ObserveAll(Contents(suffixCounts, tallies), WindowFrom(chars, i, isNoun, j)) == target
      decreases MaxSuffixSize - j
    {
      var o := Observation(isNoun, chars[i - 1], chars[i..i + j]);
      ObserveAllCons(Contents(suffixCounts, tallies), o, WindowFrom(chars, i, isNoun, j + 1));
      ObserveInto(suffixCounts, tallies, o);
      j := j + 1;
    }
  }

  /** The observations the walk still makes from boundary i on with the cursor at
      `cursor`, one boundary at a time as the loop takes them. */
  function WalkFrom(chars: seq<char>, spans: seq<Span>, i: nat, cursor: nat): seq<Observation>
    requires 1 <= i <= |chars|
    decreases |chars| - i
  {
    if i == |chars| then []
    else
      var isNoun := cursor < |spans| && i == End(spans[cursor]);
      WindowFrom(chars, i, isNoun, 1) + WalkFrom(chars, spans, i + 1, if isNoun then cursor + 1 else cursor)
  }

  /** Taken one boundary at a time, the walk makes the observations of the labelled walk. */
  lemma {:induction false} WalkFromIsWalk(chars: seq<char>, spans: seq<Span>, i: nat, cursor: nat)
    requires 1 <= i <= |chars|
    ensures WalkFrom(chars, spans, i, cursor) == Walk(chars, Classify(|chars|, spans, i, cursor), i)
    decreases |chars| - i
  {
    if i < |chars| {
      var isNoun := cursor < |spans| && i == End(spans[cursor]);
      var next := if isNoun then cursor + 1 else cursor;
      WalkFromIsWalk(chars, spans, i + 1, next);
      var labels := Classify(|chars|, spans, i, cursor);
      assert labels == [isNoun] + Classify(|chars|, spans, i + 1, next);
      assert labels[0] == isNoun && labels[1..] == Classify(|chars|, spans, i + 1, next);
    }
  }

  /** The stores `m`, once the observations `rest` are applied, end as `target`. */
  ghost predicate Reaches(m: Counts, rest: seq<Observation>, target: Counts) {
    ObserveAll(m, rest) == target
  }

  /** The body of the boundary loop: boundary i's window, observed as a noun boundary
      exactly when i ends the span under the cursor. */
  method TrainBoundary(suffixCounts: Store.StoreImpl<Suffix, Count>, tallies: Store.StoreImpl<string, nat>,
                       chars: seq<char>, spans: seq<Span>, i: nat, ghost cursor: nat, isNoun: bool, ghost target: Counts)
    returns (ghost next: nat)
    requires 1 <= i < |chars|
    requires isNoun == (cursor < |spans| && i == End(spans[cursor]))
    requires Reaches(Contents(suffixCounts, tallies), WalkFrom(chars, spans, i, cursor), target)
    modifies suffixCounts, tallies
    ensures next == if isNoun then cursor + 1 else cursor
    ensures Reaches(Contents(suffixCounts, tallies), WalkFrom(chars, spans, i + 1, next), target)
  {
    next := if isNoun then cursor + 1 else cursor;
    ghost var rest := WalkFrom(chars, spans, i + 1, if isNoun then cursor + 1 else cursor);
    ObserveAllAppend(Contents(suffixCounts, tallies), WindowFrom(chars, i, isNoun, 1), rest);
    ObserveWindow(suffixCounts, tallies, chars, i, isNoun);
  }

  /** The boundary loop of `train_line` over `chars` (the text with the sentinel), with
      the `noun_idx` cursor: it applies the whole walk. */
  method WalkInto(suffixCounts: Store.StoreImpl<Suffix, Count>, tallies: Store.StoreImpl<string, nat>,
                  chars: seq<char>, spans: seq<Span>)
    requires 1 <= |chars|
    modifies suffixCounts, tallies
    ensures Contents(suffixCounts, tallies) == ObserveAll(old(Contents(suffixCounts, tallies)), WalkFrom(chars, spans, 1, 0))
  {
    ghost var target := ObserveAll(Contents(suffixCounts, tallies), WalkFrom(chars, spans, 1, 0));
    var nounIdx: int := -1 + (if spans != [] then 1 else 0);
    ghost var cursor: nat := 0;
    var i := 1;
    while i < |chars|
      invariant 1 <= i <= |chars|
      invariant cursor <= |spans|
      invariant nounIdx == if spans == [] then -1 else cursor
      invariant Reaches(Contents(suffixCounts, tallies), WalkFrom(chars, spans, i, cursor), target)
      decreases |chars| - i
    {
      var isNoun := 0 <= nounIdx < |spans| && i == spans[nounIdx].offset + spans[nounIdx].length;
      cursor := TrainBoundary(suffixCounts, tallies, chars, spans, i, cursor, isNoun, target);
      if isNoun {
        nounIdx := nounIdx + 1;
      }
      i := i + 1;
    }
  }

  /** `train_line`: nothing for empty text; otherwise, at each boundary i of the text with
      the sentinel appended, observe the 1- and 2-character suffixes as "noun" when i is the
      end of the span under the cursor (which then moves on) and as "other" otherwise. */
  method TrainLineInto(suffixCounts: Store.StoreImpl<Suffix, Count>, tallies: Store.StoreImpl<string, nat>,
                       text: string, spans: seq<Span>)
    modifies suffixCounts, tallies
    ensures Contents(suffixCounts, tallies) == ObserveAll(old(Contents(suffixCounts, tallies)), LineObservations(text, spans))
  {
    if text == [] {
      return;
    }
    var chars := text + [Sentinel];
    WalkFromIsWalk(chars, spans, 1, 0);
    WalkInto(suffixCounts, tallies, chars, spans);
  }

  // The training file, after reading and JSON decoding

  /** One line of the training file: empty, not decodable as `(String, Vec<(u32, u32)>)`,
      or a text with its noun spans `(offset, length)`. */
  datatype DatasetLine = Blank | Malformed | Record(text: string, spans: seq<Span>)

  /** `train` stops with the decoding error of the line at this index. */
  datatype TrainError = MalformedLine(index: nat)

  /** The index of the first line that does not decode, or the number of lines. */
  function FirstMalformed(dataset: seq<DatasetLine>): (r: nat)
    ensures r <= |dataset|
    ensures r < |dataset| ==> dataset[r].Malformed?
    ensures forall q :: 0 <= q < r ==> !dataset[q].Malformed?
    decreases |dataset|
  {
    if dataset == [] then 0
    else if dataset[0].Malformed? then 0
    else 1 + FirstMalformed(dataset[1..])
  }
  /** A scan that has met no undecodable line before `k` and stops at `k` has found the
      first one (or the end). */
  lemma FirstMalformedAt(dataset: seq<DatasetLine>, k: nat)
    requires k <= |dataset|
    requires forall q :: 0 <= q < k ==> !dataset[q].Malformed?
    requires k == |dataset| || dataset[k].Malformed?
    ensures FirstMalformed(dataset) == k
  {
  }

  /** The observations of one line of the file: a record's `train_line`, nothing for a
      blank line. */
  function RecordObservations(line: DatasetLine): seq<Observation> {
    if line.Record? then LineObservations(line.text, line.spans) else []
  }

  /** The observations of the lines in file order; blank lines contribute none. */
  function DatasetObservations(dataset: seq<DatasetLine>): seq<Observation>
    decreases |dataset|
  {
    if dataset == [] then []
    else DatasetObservations(dataset[..|dataset| - 1]) + RecordObservations(dataset[|dataset| - 1])
  }

  /** Training one more line of the file applies that line's observations to the stores
      left by the lines before it. */
  lemma ObserveDatasetStep(start: Counts, dataset: seq<DatasetLine>, k: nat)
    requires k < |dataset|
    ensures ObserveAll(start, DatasetObservations(dataset[..k + 1]))
         == ObserveAll(ObserveAll(start, DatasetObservations(dataset[..k])), RecordObservations(dataset[k]))
  {
    assert dataset[..k + 1][..k] == dataset[..k];
    ObserveAllAppend(start, DatasetObservations(dataset[..k]), RecordObservations(dataset[k]));
  }

  /** A line whose text is empty contributes nothing, so skipping it (model2.rs) or
      handing it to `train_line` (model.rs) is the same. */
  lemma EmptyRecordObservesNothing(spans: seq<Span>)
    ensures RecordObservations(Record([], spans)) == []
  {
  }

  /** Training on a prefix of the file, then on the rest, is training on the whole. */
  lemma {:induction false} DatasetObservationsAppend(a: seq<DatasetLine>, b: seq<DatasetLine>)
    ensures DatasetObservations(a + b) == DatasetObservations(a) + DatasetObservations(b)
    decreases |b|
  {
    if b == [] {
      assert a + b == a;
    } else {
      var b' := b[..|b| - 1];
      var r := RecordObservations(b[|b| - 1]);
      assert (a + b)[..|a + b| - 1] == a + b';
      assert DatasetObservations(a + b) == DatasetObservations(a + b') + r;
      DatasetObservationsAppend(a, b');
      assert DatasetObservations(b) == DatasetObservations(b') + r;
    }
  }
}
