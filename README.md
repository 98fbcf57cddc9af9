# Noun extractor and user dictionary, modelled in Dafny

This project models the statistical noun extractor of rest-lemmatizer, and the services
that build a MeCab user dictionary from its output.

**Training.** Training reads `(text, spans)` lines. At every character boundary of the
text, with a `'\n'` sentinel appended, it makes one "noun" or "other" observation for each
suffix of one or two characters that follows the boundary. Each observation bumps a global
tally and two suffix counts: one keyed by the real trailing character, one by the `'\0'`
wildcard.

**Extraction.** Extraction splits each line into runs of non-separator characters and
treats every run prefix as a candidate. It scores the candidate from the counts of the
suffixes that follow it:
- `extract_nouns` (model.rs and model2.rs) takes a product of likelihood ratios;
- `extract_nouns2` (model.rs) takes a sum of log-odds over (candidate + suffix, length)
  keys.

It then ranks the scored candidates, with NaN probabilities last.

**The service.** The user-dictionary service merges each batch of scores with the stored
ones. It promotes a candidate to a noun when the merged score passes three thresholds.
The tokenizer writes the dictionary lines and reads the tagger's output back. The
benchmark reader collects the gold nouns of an evaluation file.

**Modules, one per source concern:**
- `Store`: the hash-map store (store.rs). The disk is a map from paths to snapshots.
- `Counting`, `Training`: observations, the boundary walk of `train_line`, and training
  over a whole file. Both are shared by model.rs and model2.rs.
- `Likelihood`, `Extraction`, `RatioScores`, `LogOddsScores`, `Ranking`: the evidence
  gate, the candidate scan, the two extractors' accumulations, and the result order.
- `NounModel`, `NounModel2`: the `State` classes of model.rs and model2.rs.
- `Hangul`: `has_support`, with the Unicode composition of a syllable as its partner.
- `Tokenizer`: `mecab_csv_nnp_format`, `asterisk_as_none`, `parse_morphemes` and
  `Analytics::parse`, with a renderer as the partner of parsing.
- `UserDictionary`: the service `State` (`open`, `set_threshold`, `train`, `noun_score`,
  `nouns`).
- `Evaluation`: `eval_dataset`.
- `Text`, `Wrappers`: Rust's `str::split`, `join` and `str::lines`; `Option` and `Result`.

**Floating point is abstract.** The `Numerics` value collects the smoothed estimate, the
log-odds term, the ratio, the two final probability formulas and the ranking key, each as
a function. The contracts therefore state what holds whatever those formulas compute:
- the exact neutral pair `(1.0, 1.0)`, or `0.0` log-odds, below the 100-observation gate;
- counts and unique-suffix counts;
- membership of the candidate map;
- sortedness and the permutation property.

**Behaviour of the code worth noting:**
- The global tallies grow once per (boundary, suffix length) pair. A line of L >= 2
  characters therefore adds 2L-3 to the tallies (`Counting.LineObservationCount`,
  `Counting.LineTallies`).
- A training line that does not decode stops `train` with that error.
- `extract_nouns2` counts every one-character key of a candidate as a unique suffix,
  whether or not its log-odds is zero (`LogOddsScores.SummarizeUnique`).
- `set_threshold` accepts any values.

The likelihood unit tests of model.rs and model2.rs expect `(0.5, 1.0)` and `(0.5, 0.0)`
after three observations. Under the gate the code returns the neutral pair for both
lookups (`NounModel.LikelihoodTestScenario`), and the model follows the code.

## Model

| member | source | states |
|---|---|---|
| Store.Load | noun-extractor/src/store.rs:35-44 | An unreadable path gives the empty map. An undecodable snapshot gives a decode error. Otherwise the result is the saved map. |
| Store.StoreImpl.constructor | noun-extractor/src/store.rs:40-43 | The store holds the given map and path. |
| Store.StoreImpl.Open | noun-extractor/src/store.rs:35-44 | `open` succeeds exactly when the snapshot loads. A new store then holds the loaded map; on failure the decode error is returned. |
| Store.StoreImpl.Get | noun-extractor/src/store.rs:45-47 | `get` returns Some exactly for stored keys, with the stored value, and changes nothing. |
| Store.StoreImpl.Put | noun-extractor/src/store.rs:48-51 | After `put(k, v)`, `k` reads back `v`. Every other key keeps its presence and value. |
| Store.StoreImpl.Save | noun-extractor/src/store.rs:52-59 | The store's path now holds a snapshot of the whole map. Other paths are unchanged. |
| Store.SaveThenLoad | noun-extractor/src/store.rs:35-59 | `save` followed by `open` on the same path gives back the saved map. |
| Store.SaveLeavesOtherPaths | noun-extractor/src/store.rs:52-59 | Saving to one path leaves what every other path loads unchanged. |
| Store.PutSaveReopen | noun-extractor/src/store.rs:35-59 | Put, save and reopen returns the value that was put. |
| Hangul.HasSupport | noun-extractor/src/util.rs:1-3 | `has_support` (also written out at tokenizer.rs:7-9): a code point in U+AC00..U+D7A3 whose offset from U+AC00 is not a multiple of 28. `HasSupportComposed` and `BlockDecomposes` show this means "the syllable has a final consonant". |
| Hangul.Compose | noun-extractor/src/util.rs:1-3 | Composing valid initial, medial and final indices lands inside the syllable block U+AC00..U+D7A3. |
| Hangul.HasSupportComposed | noun-extractor/src/util.rs:1-3 | A composed syllable has support exactly when its final index is non-zero. |
| Hangul.BlockDecomposes | noun-extractor/src/util.rs:1-3 | Every syllable is the composition of its three indices, so `has_support` means "has a final consonant". |
| Hangul.NoSupportOutsideBlock | rest-mecab/src/tokenizer.rs:7-9 | No code point outside the block has support. |
| Hangul.HasSupportPeriodic | noun-extractor/src/util.rs:1-3 | Two syllables 28 apart agree on support. |
| Hangul.KnownValues | noun-extractor/src/model.rs:515-524 | The unit test's values: 가, 히, '1', ' ' and 'Z' have no support; 갘 and 힣 have it. |
| Text.Join | noun-extractor/benches/evaluate.rs:85 | `join` with a one-character separator. `JoinSplit` and `SplitJoin` show it is the inverse of `Split`. |
| Text.StripCr | noun-extractor/src/model.rs:403 | The "\r" that `str::lines` drops before each '\n'. |
| Text.IsWhitespace | noun-extractor/src/model.rs:414 | `char::is_whitespace`: the Unicode White_Space code points. |
| Text.Split | rest-mecab/src/tokenizer.rs:82-96 | `split` gives at least one piece, and no piece contains the separator. |
| Text.JoinSplit | rest-mecab/src/tokenizer.rs:82-96 | Joining the pieces of a split gives back the string. |
| Text.SplitJoin | noun-extractor/benches/evaluate.rs:85 | Splitting a join of separator-free pieces gives back the pieces. |
| Text.SplitPiecePrefix | rest-mecab/src/tokenizer.rs:87-90 | A separator-free leading field splits off as the first piece. |
| Text.SplitNoSep | rest-mecab/src/tokenizer.rs:62 | A string without the separator splits into itself alone. |
| Text.JoinFreeOf | noun-extractor/benches/evaluate.rs:85 | A character other than the separator that no piece has is not in the join. |
| Text.JoinHasFirst | noun-extractor/benches/evaluate.rs:85 | Every character of the first piece is in the join. |
| Text.Lines | noun-extractor/src/model.rs:403-407 | No line of `lines()` contains a line break. |
| Counting.Observe | noun-extractor/src/model.rs:168-219 | One `observe_postnoun` or `observe_postother`: the tally, then the key with the real trailing character, then the `'\0'` key, each read, bumped and written back. `ObserveCountEffect` and `ObserveTallyEffect` state the effect. |
| Counting.ObserveAll | noun-extractor/src/model.rs:143-167 | Observations applied in order. `ObserveAllAppend` and `ObserveAllOrderFree` state that the order does not matter. |
| Counting.WindowFrom | noun-extractor/src/model.rs:125-138 | The `for j` loop at boundary i: suffix lengths 1 up to, but excluding, `min(3, chars.len() - i)`. `WindowFromShape` and `WindowFromSize` state its observations and their number. |
| Counting.Walk | noun-extractor/src/model.rs:120-140 | The boundary loop over 1..L, one window per boundary with its noun or other label. Stated by `WalkShape` and `WalkSize`. |
| Counting.LineObservations | noun-extractor/src/model.rs:111-142 | Everything `train_line` observes: nothing for empty text; otherwise the walk over the text with the '\n' sentinel. `LineObservationCount` and `NounBoundariesAreSpanEnds` state it. |
| Counting.NounObservations | noun-extractor/src/model.rs:168-193 | At most as many noun observations as observations. |
| Counting.ObserveCountEffect | noun-extractor/src/model.rs:168-219 | One observation adds exactly its hits, 0, 1 or 2 (the key with the real trailing character and the wildcard key), to the matching field of each key. The other field is unchanged. A key is present afterwards exactly when it was before or was hit. |
| Counting.ObserveTallyEffect | noun-extractor/src/model.rs:168-201 | One observation adds 1 to its own tally and leaves every other tally key unchanged. |
| Counting.ObserveCommutes | noun-extractor/src/model.rs:168-219 | Two observations commute. |
| Counting.ObserveAllAppend | noun-extractor/src/model.rs:143-167 | Observing a + b is observing a, then b. |
| Counting.ObserveFirstOrLast | noun-extractor/src/model.rs:168-219 | An observation made first or made last gives the same stores. |
| Counting.ObserveAllOrderFree | noun-extractor/src/model.rs:143-219 | Any two orders of the same multiset of observations give identical stores. |
| Counting.ObserveAllTallies | noun-extractor/src/model.rs:168-219 | The noun tally grows by the number of noun observations. The other tally grows by the rest. |
| Counting.Classify | noun-extractor/src/model.rs:120-140 | One label per remaining boundary. |
| Counting.Labels | noun-extractor/src/model.rs:115-140 | A line of L characters has L labelled boundaries. |
| Counting.WindowFromShape | noun-extractor/src/model.rs:125-138 | Each observation at boundary i has a suffix of 1 or 2 characters. Its trailing character is `chars[i-1]`. Its suffix is the characters after the boundary; the sentinel is never part of it. |
| Counting.WalkShape | noun-extractor/src/model.rs:120-140 | Every observation of the walk is such a window at some boundary. |
| Counting.LineObservationsAreWindows | noun-extractor/src/model.rs:111-142 | Every observation of `train_line` is a window of 1 or 2 characters at a boundary of the line. |
| Counting.WindowFromSize | noun-extractor/src/model.rs:125-138 | Boundary i makes min(3, len-i) - 1 observations, all with the boundary's label. |
| Counting.NounObservationsAppend | noun-extractor/src/model.rs:120-140 | Noun observations add up over concatenation. |
| Counting.WalkSize | noun-extractor/src/model.rs:120-140 | The boundaries from i on make 2(n-i)-3 observations when n-i >= 2, and none otherwise. |
| Counting.LineObservationCount | noun-extractor/src/model.rs:111-142 | A line of L characters makes 2L-3 observations, or none for L <= 1. |
| Counting.WalkAllOther | noun-extractor/src/model.rs:132-138 | When every label is "other", no noun observation is made. |
| Counting.StuckCursorLabelsOther | noun-extractor/src/model.rs:121-124 | A cursor past the last span, or on a span that ends behind the walk or at or after the last boundary, labels every later boundary "other". |
| Counting.ReachableSpansAreNounBoundaries | noun-extractor/src/model.rs:120-140 | With span ends strictly increasing from the cursor, a boundary is labelled noun exactly when some span ends there (both directions). |
| Counting.NounBoundariesAreSpanEnds | noun-extractor/src/model.rs:111-142 | For sorted spans inside the line, the noun boundaries of `train_line` are exactly the span ends. |
| Counting.LineTallies | noun-extractor/src/model.rs:111-142 | The two tallies together grow by 2L-3. Without spans only the other tally grows. |
| Training.RecordObservations | noun-extractor/src/model.rs:151-156 | The observations of one line of the file: a record's `train_line` observations, none for a blank line. |
| Training.WalkFrom | noun-extractor/src/model.rs:120-140 | The boundary loop with the `noun_idx` cursor: a boundary is noun exactly when the span under the cursor ends there, and the cursor then moves on. `WalkFromIsWalk` relates it to the labelled walk. |
| Training.DatasetObservations | noun-extractor/src/model.rs:143-167 | The observations of the file's lines in order. `DatasetObservationsAppend` and `ObserveDatasetStep` state how it grows line by line, and `NounModel.State.Train` ties the stores to it. |
| Training.ObserveInto | noun-extractor/src/model.rs:168-219 | The read-modify-write of the tally and the two suffix keys leaves the stores as one observation does. |
| Training.ObserveAllCons | noun-extractor/src/model.rs:143-167 | Observing [o] + rest is observing o, then rest. |
| Training.ObserveWindow | noun-extractor/src/model.rs:125-138 | The `for j` loop applies boundary i's window to the stores. |
| Training.WalkFromIsWalk | noun-extractor/src/model.rs:120-140 | The cursor-driven walk makes the observations of the labelled walk. |
| Training.TrainBoundary | noun-extractor/src/model.rs:121-139 | The loop body observes boundary i's window. The cursor advances exactly at a noun boundary. |
| Training.WalkInto | noun-extractor/src/model.rs:115-140 | The boundary loop, using the source's `noun_idx = -1 + !spans.is_empty()` cursor, applies the whole walk to the stores. |
| Training.TrainLineInto | noun-extractor/src/model.rs:111-142 | `train_line` applies exactly the line's observations, in order. |
| Training.FirstMalformed | noun-extractor/src/model.rs:143-156 | The index of the first undecodable line, or the length when every line decodes. |
| Training.FirstMalformedAt | noun-extractor/src/model.rs:143-156 | A scan that stops at the first undecodable line has found `FirstMalformed`. |
| Training.ObserveDatasetStep | noun-extractor/src/model.rs:146-156 | Training one more line applies that line's observations to what the earlier lines left. |
| Training.EmptyRecordObservesNothing | noun-extractor/src/model2.rs:97-99 | A record with empty text observes nothing. So model2.rs skipping it and model.rs passing it to `train_line` agree. |
| Training.DatasetObservationsAppend | noun-extractor/src/model.rs:146-165 | Training on a prefix of the file, then on the rest, is training on the whole file. |
| Likelihood.KeyLikelihood | noun-extractor/src/model.rs:372-380 | One key's pair: the smoothed estimate once the key has 100 observations, (1.0, 1.0) otherwise or when the key is absent. |
| Likelihood.KeyLogOdds | noun-extractor/src/model.rs:237-258 | One key's log-odds term once the key has 100 observations, 0.0 otherwise or when the key is absent. `BelowGateNoLogOdds` states the gate. |
| Likelihood.PostfixLikelihood | noun-extractor/src/model.rs:353-395 | `postfix_likelihood`: the component-wise product of the concrete and wildcard keys' pairs. `BelowGateIsNeutral` and `OneKeyDecides` state its gate. |
| Likelihood.PostfixLogOdds | noun-extractor/src/model.rs:220-260 | `postfix_noun_prob`: the sum of the two keys' log-odds terms, each 0.0 below the gate. `BelowGateNoLogOdds` states the gate. |
| Likelihood.InformativeWithin | noun-extractor/src/model.rs:430 | model.rs's test: both likelihoods differ from 1.0 by more than `f64::EPSILON`. `InformativeTests` relates it to the exact test. |
| Likelihood.InformativeExact | noun-extractor/src/model2.rs:261 | model2.rs's test: both likelihoods differ from 1.0. |
| Likelihood.BelowGateIsNeutral | noun-extractor/src/model.rs:372-393 | When both keys are absent or have fewer than 100 observations, the pair is exactly (1.0, 1.0). |
| Likelihood.OneKeyDecides | noun-extractor/src/model.rs:372-393 | When only one key passes the gate, its estimate is the result. |
| Likelihood.BelowGateNoLogOdds | noun-extractor/src/model.rs:237-259 | The log-odds of a suffix with no informative key is 0.0. |
| Likelihood.InformativeTests | noun-extractor/src/model.rs:430 | Neither test counts the neutral pair. The epsilon test of model.rs implies model2.rs's exact test (model2.rs:261), and a pair exists that passes only the exact one. |
| Ranking.Compare | noun-extractor/src/model.rs:489-505 | The `sort_by` comparator: NaNs equal to each other and after numbers, numbers by ranking key in reverse. `CompareIsTotalPreorder` states it is a total preorder. |
| Ranking.Sorted | noun-extractor/src/model.rs:489-505 | Every pair of entries is in comparator order. `SortedPlacesNaNLast` states what this means for NaN entries and for numbers. |
| Ranking.CompareIsTotalPreorder | noun-extractor/src/model.rs:489-505 | The comparator is antisymmetric, reflexive and transitive, as `sort_by` requires. |
| Ranking.SortedPlacesNaNLast | noun-extractor/src/model.rs:489-505 | In a sorted result every NaN comes after every number, and numbers are in descending ranking key. |
| Ranking.Swap | noun-extractor/src/model.rs:489-505 | Exchanges two entries and keeps the multiset. |
| Ranking.InsertAt | noun-extractor/src/model.rs:489-505 | Inserting a[i] keeps the prefix sorted and the multiset unchanged. The suffix is untouched. |
| Ranking.SortByScore | noun-extractor/src/model.rs:489-505 | The array ends sorted and is a permutation of what it held. |
| Ranking.CollectStep | noun-extractor/src/model.rs:475-488 | Appending one new candidate's pair keeps one pair per collected candidate. |
| Ranking.CollectScores | noun-extractor/src/model.rs:475-488 | One (candidate, finished score) pair per map entry, and no other pair. |
| Ranking.SortScores | noun-extractor/src/model.rs:489-505 | Sorted, and a permutation of the input. |
| Ranking.RankScores | noun-extractor/src/model.rs:475-506 | Sorted, one pair per candidate, each with its finished score. |
| Extraction.IsSeparator | noun-extractor/src/model.rs:414-415 | A character that ends a run: whitespace, or non-alphanumeric outside 'ㄱ'..'힣'. |
| Extraction.SuffixLookups | noun-extractor/src/model.rs:420-429 | The `for j` loop's lookups after candidate `chars[start..i+1]`. `SuffixLookupsShape` states their shape. |
| Extraction.LineEvents | noun-extractor/src/model.rs:412-455 | The `for i` loop of one line, `word_start_index` restarting after each separator. `LineOccurrencesAreRunPrefixes` and `LineLookupsShape` state its events. |
| Extraction.EventsOfLine | noun-extractor/src/model.rs:403-411 | One line of `text.lines()`: nothing for an empty line, otherwise the line's events with the '\n' sentinel appended. |
| Extraction.LinesEvents | noun-extractor/src/model.rs:403-464 | The events of the lines, one line after another, in `lines()` order. |
| Extraction.TextEvents | noun-extractor/src/model.rs:403-411 | Every event of the scan of `text.lines()`, empty lines skipped, each line with the '\n' sentinel. |
| Extraction.RunStart | noun-extractor/src/model.rs:412-419 | The run start is never after the position. |
| Extraction.OccurrencesAppend | noun-extractor/src/model.rs:413-455 | Occurrences add up over concatenation. |
| Extraction.SuffixLookupsHaveNoOccurrence | noun-extractor/src/model.rs:422-450 | The `for j` loop records no occurrence. |
| Extraction.LineOccurrencesAreRunPrefixes | noun-extractor/src/model.rs:412-455 | `word_start_index` is the backward run start, so the occurrences of a line are exactly its run prefixes, in order. |
| Extraction.RunStartBoundsARun | noun-extractor/src/model.rs:413-419 | From the run start up to p nothing is a separator. The run start is 0 or follows a separator. |
| Extraction.RunPrefixesAreRuns | noun-extractor/src/model.rs:412-420 | Every candidate is non-empty, free of separators, and starts at a run start. |
| Extraction.SuffixLookupsShape | noun-extractor/src/model.rs:420-429 | Each lookup is the candidate, its last character and the j characters after it. |
| Extraction.LineLookupsShape | noun-extractor/src/model.rs:413-455 | Every lookup of a line is such a window after some run prefix. |
| RatioScores.Step | noun-extractor/src/model.rs:420-454 | One event of `extract_nouns`' scan. A lookup multiplies the candidate's product by the ratio, and an informative one-character suffix records candidate + suffix. An occurrence adds one to the count. Stated by `StepLookup` and `StepOccurrence`. |
| RatioScores.AccAll | noun-extractor/src/model.rs:403-464 | The scan's events folded in order. `AccAllCount`, `AccAllKeys` and `AccAllInformed` state the result. |
| RatioScores.Extracted | noun-extractor/src/model.rs:396-474 | The `likelihoods` map before probabilities are computed: the accumulated entries with the unique-suffix pass applied. `ExtractedEntries` states its keys, counts and unique counts. |
| RatioScores.WithUnique | noun-extractor/src/model.rs:465-474 | The entries after the pass over `unique_postfixes`: each candidate's unique count grows by the number of informed strings naming it. `CountUnique` proves the loop gives it in any order. |
| RatioScores.FinalScore | noun-extractor/src/model.rs:475-488 | The probability from the product through the abstract `f32` formula, with the count and unique count unchanged. |
| RatioScores.AccAllAppend | noun-extractor/src/model.rs:403-464 | Accumulating x + y is accumulating x, then y. |
| RatioScores.CandidatesCons | noun-extractor/src/model.rs:413-455 | The candidates of a non-empty event list are its head's candidate plus those of its tail. |
| RatioScores.InformedCons | noun-extractor/src/model.rs:430-436 | The same decomposition for the informed set. |
| RatioScores.AccAllCount | noun-extractor/src/model.rs:451-454 | A candidate's count grows by its number of occurrences. |
| RatioScores.AccAllKeepsUnique | noun-extractor/src/model.rs:413-455 | The scan never changes unique counts. |
| RatioScores.StepLookup | noun-extractor/src/model.rs:423-449 | A lookup multiplies the candidate's product by the ratio. With j = 1 and an informative pair it adds candidate + suffix to the informed set. |
| RatioScores.StepOccurrence | noun-extractor/src/model.rs:451-454 | An occurrence adds one to the count and nothing else. |
| RatioScores.AccAllCons | noun-extractor/src/model.rs:413-455 | Accumulating [e] + rest is one step, then the rest. |
| RatioScores.AccAllKeys | noun-extractor/src/model.rs:437-454 | An entry exists afterwards exactly when it existed before or the events mention it. |
| RatioScores.AccAllInformed | noun-extractor/src/model.rs:430-436 | The informed set gains exactly the informative one-character lookups. |
| RatioScores.AccAllNeutral | noun-extractor/src/model.rs:424-442 | With no evidence anywhere every product stays 1.0 and nothing is informed. |
| RatioScores.PrefixesInsert | noun-extractor/src/model.rs:465-474 | Inserting an informed string adds its candidate (all but its last character). |
| RatioScores.PrefixedByInsert | noun-extractor/src/model.rs:465-474 | A new informed string adds one to its own candidate's set and nothing to others. |
| RatioScores.WithUniqueInsert | noun-extractor/src/model.rs:465-474 | Handling one more informed string adds one to its candidate's unique count. |
| RatioScores.WithUniqueEmpty | noun-extractor/src/model.rs:465-474 | The pass over an empty set changes nothing. |
| RatioScores.CountUnique | noun-extractor/src/model.rs:465-474 | The pass over `unique_postfixes`, in whatever order the set yields, gives each candidate its number of informed one-character extensions. |
| RatioScores.TextOccurrences | noun-extractor/src/model.rs:403-455 | The occurrences of the whole text are the run prefixes of its non-empty lines, each non-empty. |
| RatioScores.SuffixLookupsCandidates | noun-extractor/src/model.rs:420-450 | The `for j` loop mentions only the current candidate. |
| RatioScores.CandidatesAppend | noun-extractor/src/model.rs:403-464 | Candidates add up over concatenation. |
| RatioScores.LineCandidatesOccur | noun-extractor/src/model.rs:413-455 | Every candidate a line's scan mentions also occurs in it. |
| RatioScores.TextCandidatesOccur | noun-extractor/src/model.rs:403-464 | The same for the whole text. |
| RatioScores.InformedNamesCandidates | noun-extractor/src/model.rs:430-474 | Every informed string is non-empty and names a candidate. So the unique pass adds no entry. |
| RatioScores.WithUniqueAt | noun-extractor/src/model.rs:465-474 | The pass keeps the key set. A candidate's unique count grows by its informed extensions. |
| RatioScores.ExtractedEntries | noun-extractor/src/model.rs:396-474 | The candidates are exactly the run prefixes of the text. A candidate's count is its number of occurrences. Its unique count is its number of informed extensions. |
| RatioScores.UntrainedExtraction | noun-extractor/src/model.rs:396-474 | With no evidence anywhere every product is 1.0 and every unique count 0. |
| RatioScores.LookupAt | noun-extractor/src/model.rs:423-449 | The `for j` body performs one lookup step, including the j = 1 unique-suffix insert of `chars[start..min(i+2, len)]`. |
| RatioScores.ScanSuffixes | noun-extractor/src/model.rs:422-450 | The `for j` loop applies the candidate's lookups. |
| RatioScores.ScanPosition | noun-extractor/src/model.rs:420-454 | At a non-separator the loop applies the lookups, then the count. |
| RatioScores.ScanLine | noun-extractor/src/model.rs:408-455 | The `for i` loop, resetting `word_start_index` at separators, applies the line's events. |
| RatioScores.Accumulate | noun-extractor/src/model.rs:403-464 | The loop over `lines()`, skipping empty lines, applies the text's events to empty collections. |
| RatioScores.ExtractNounsWith | noun-extractor/src/model.rs:396-507 | Sorted. One pair per candidate of the text, each scored from its entry with its count and unique count. |
| LogOddsScores.Record | noun-extractor/src/model.rs:286-290 | `*words.entry((word, j)).or_insert(0) += 1` for one lookup. An occurrence records nothing. |
| LogOddsScores.KeyOf | noun-extractor/src/model.rs:286-290 | The `words` key of a lookup: the candidate followed by the suffix, with the suffix length. `KeyOfSplits` shows it splits back. |
| LogOddsScores.RecordAll | noun-extractor/src/model.rs:267-301 | The `words` map built from the scan's events in order. `RecordAllSums` states what it holds. |
| LogOddsScores.Contribution | noun-extractor/src/model.rs:303-318 | What one key with multiplicity n adds to its candidate: n times its log-odds, n to the count, and one unique suffix for a one-character key. `SumKey` states it. |
| LogOddsScores.Summarize | noun-extractor/src/model.rs:302-319 | The `candidates` map after the loop over `words`. `SummarizeAnyOrder` states that any visiting order gives it. |
| LogOddsScores.Extracted2 | noun-extractor/src/model.rs:261-319 | The `candidates` map `extract_nouns2` builds from a text. `Extracted2Entries` states its keys, counts, sums and unique counts. |
| LogOddsScores.FinalScore2 | noun-extractor/src/model.rs:320-331 | `1 / (1 + exp(sum))` through the abstract `logistic`, with the count and unique count unchanged. |
| LogOddsScores.RecordAllAppend | noun-extractor/src/model.rs:267-301 | Recording x + y is recording x, then y. |
| LogOddsScores.RecordAllCons | noun-extractor/src/model.rs:284-291 | Recording [e] + rest is recording e, then the rest. |
| LogOddsScores.KeyOfSplits | noun-extractor/src/model.rs:303-311 | The key `(chars[start..i+1+j], j)` splits back into the lookup's candidate, suffix and trailing character. |
| LogOddsScores.AddToCommutes | noun-extractor/src/model.rs:313-318 | Two updates of the candidate map commute. |
| LogOddsScores.SummarizeAnyOrder | noun-extractor/src/model.rs:302-319 | Any key may be summed last, so the result does not depend on the `HashMap` iteration order. |
| LogOddsScores.SummarizeFrame | noun-extractor/src/model.rs:302-319 | The sums depend only on the multiplicities of the keys visited. |
| LogOddsScores.AddToTwice | noun-extractor/src/model.rs:313-318 | Two additions to one candidate are one addition of their sum. |
| LogOddsScores.SummarizeKeys | noun-extractor/src/model.rs:302-319 | The candidates are exactly the candidates of the visited keys. |
| LogOddsScores.OneCharKeysRemove | noun-extractor/src/model.rs:315-317 | Removing a key removes one from its candidate's one-character keys when its suffix has length 1. |
| LogOddsScores.SumsAtAddTo | noun-extractor/src/model.rs:313-318 | Adding to candidate v changes only v's sums. |
| LogOddsScores.SummarizeUnique | noun-extractor/src/model.rs:315-317 | A candidate's unique count is its number of distinct one-character keys, with no informativeness test. |
| LogOddsScores.ContributionSucc | noun-extractor/src/model.rs:314-318 | One more occurrence of a key adds its log-odds term and one to the count. |
| LogOddsScores.RecordExisting | noun-extractor/src/model.rs:290-318 | Recording a repeated key adds one count and one log-odds term to its candidate. The unique count is unchanged. |
| LogOddsScores.RecordNew | noun-extractor/src/model.rs:290-318 | Recording a new key adds the same, plus one unique suffix when the suffix has one character. |
| LogOddsScores.RecordSums | noun-extractor/src/model.rs:284-318 | Recording one well-formed lookup adds to its candidate one count and its log-odds term, and changes no other candidate. |
| LogOddsScores.RecordAllSums | noun-extractor/src/model.rs:284-318 | After recording and summing, each candidate's count is its number of lookups and its sum is the sum of their log-odds terms. |
| LogOddsScores.RecordAllPositive | noun-extractor/src/model.rs:290 | Multiplicities stay positive. |
| LogOddsScores.SummarizeCountsPositive | noun-extractor/src/model.rs:318 | Every candidate summed has a positive count. |
| LogOddsScores.LookupLogOddsZero | noun-extractor/src/model.rs:237-259 | With no informative key anywhere, every sum is 0.0. |
| LogOddsScores.SuffixLookupsWellFormed | noun-extractor/src/model.rs:284-291 | Every lookup's trailing character ends its non-empty candidate, and its suffix has 1 or 2 characters. |
| LogOddsScores.LineEventsWellFormed | noun-extractor/src/model.rs:277-292 | The same for a whole line. |
| LogOddsScores.TextEventsWellFormed | noun-extractor/src/model.rs:267-301 | The same for the whole text. |
| LogOddsScores.WordsAreSplittable | noun-extractor/src/model.rs:284-291 | Every key of `words` splits into a non-empty candidate and suffix, with a positive multiplicity. |
| LogOddsScores.Extracted2Entries | noun-extractor/src/model.rs:261-319 | The candidates are exactly those with a lookup. A candidate's count is its number of lookups, its sum is their log-odds, and its unique count is its number of one-character keys. |
| LogOddsScores.UntrainedExtraction2 | noun-extractor/src/model.rs:261-319 | With no evidence anywhere every candidate's sum is 0.0. |
| LogOddsScores.CollectSuffixes | noun-extractor/src/model.rs:284-291 | The `for j` loop records the candidate's keys. |
| LogOddsScores.CollectPosition | noun-extractor/src/model.rs:277-291 | A non-separator records its keys; its occurrence records nothing. |
| LogOddsScores.CollectLine | noun-extractor/src/model.rs:272-292 | The `for i` loop records the line's keys. |
| LogOddsScores.CollectWords | noun-extractor/src/model.rs:267-301 | The loop over `lines()` builds `words` for the text. |
| LogOddsScores.SummarizeStep | noun-extractor/src/model.rs:303-318 | Summing one more key adds its contribution. |
| LogOddsScores.SumKey | noun-extractor/src/model.rs:303-318 | The loop body adds count × log-odds, count and a unique suffix for length 1 to the key's candidate. |
| LogOddsScores.SumWords | noun-extractor/src/model.rs:302-319 | The loop over `words`, in whatever order, gives the summary of all keys. |
| LogOddsScores.ExtractNouns2With | noun-extractor/src/model.rs:261-351 | Sorted. One pair per candidate, each scored by the logistic of its sum, with its count and unique count. |
| NounModel.UntrainedScores | noun-extractor/src/model.rs:396-474 | A model trained on nothing scores every candidate with product 1.0 and no unique suffix. |
| NounModel.State.constructor | noun-extractor/src/model.rs:62-66 | The two stores and the default smoothing factor 0.5. |
| NounModel.State.Open | noun-extractor/src/model.rs:61-67 | Opens "postfix", then "noun", under the path. Fails exactly when one fails, with the first error. |
| NounModel.State.SetSmoothFactor | noun-extractor/src/model.rs:68-71 | Only the factor changes. |
| NounModel.State.Save | noun-extractor/src/model.rs:72-76 | Both snapshots are written, each to its own path. |
| NounModel.State.ObservePostnoun | noun-extractor/src/model.rs:168-193 | One noun observation of the suffix after the character. |
| NounModel.State.ObservePostother | noun-extractor/src/model.rs:194-219 | One other observation of the suffix after the character. |
| NounModel.State.TrainLine | noun-extractor/src/model.rs:111-142 | The line's observations, in order. Empty text changes nothing. |
| NounModel.State.TrainLineBytesPos | noun-extractor/src/model.rs:77-110 | The same as `train_line`. Empty text changes nothing. |
| NounModel.State.Train | noun-extractor/src/model.rs:143-167 | Returns the first undecodable line's error, or Ok. The stores hold exactly the observations of the lines before that line, in file order. |
| NounModel.State.PostfixLikelihood | noun-extractor/src/model.rs:353-395 | Neutral when neither key passes the gate. |
| NounModel.State.PostfixNounProb | noun-extractor/src/model.rs:220-260 | 0.0 when neither key passes the gate. |
| NounModel.State.Scorer | noun-extractor/src/model.rs:424-442 | The likelihood, ratio and informativeness test that `extract_nouns` applies to each lookup, taken from the current suffix and tally stores. `ExtractNouns` uses it. |
| NounModel.State.Posterior | noun-extractor/src/model.rs:397-398 | The final probability from a product, with the two tallies read from the tally store as at model.rs:397-398 and used at 481-482. |
| NounModel.State.LogOdds | noun-extractor/src/model.rs:306-311 | The gated log-odds term `extract_nouns2` asks `postfix_noun_prob` for, on the current suffix store. |
| NounModel.State.ExtractNouns | noun-extractor/src/model.rs:396-507 | Sorted. One pair per candidate of the text, scored from the current stores. |
| NounModel.State.ExtractNouns2 | noun-extractor/src/model.rs:261-351 | Sorted. One pair per candidate with a lookup, scored from the current stores. |
| NounModel.LikelihoodTestScenario | noun-extractor/src/model.rs:526-547 | After the unit test's three observations on an empty model both lookups are neutral. |
| NounModel2.ExactTestCountsMore | noun-extractor/src/model2.rs:261-263 | On the same stores model2.rs finds the same candidates with the same counts as model.rs, and never fewer unique suffixes. |
| NounModel2.State.constructor | noun-extractor/src/model2.rs:69-73 | The two stores and the default smoothing factor 0.5. |
| NounModel2.State.Open | noun-extractor/src/model2.rs:68-74 | Opens "suffix", then "noun". Fails exactly when one fails. |
| NounModel2.State.SetSmoothFactor | noun-extractor/src/model2.rs:75-78 | Only the factor changes. |
| NounModel2.State.Save | noun-extractor/src/model2.rs:79-83 | Both snapshots are written. |
| NounModel2.State.ObservePostnoun | noun-extractor/src/model2.rs:137-162 | One noun observation. |
| NounModel2.State.ObservePostother | noun-extractor/src/model2.rs:163-188 | One other observation. |
| NounModel2.State.TrainRecord | noun-extractor/src/model2.rs:95-125 | One decoded line: its observations, none for empty text. |
| NounModel2.State.Train | noun-extractor/src/model2.rs:84-136 | The first undecodable line's error, or Ok. The stores hold exactly the observations of the lines before that line. |
| NounModel2.State.SuffixLikelihood | noun-extractor/src/model2.rs:189-228 | Neutral when neither key passes the gate. |
| NounModel2.State.Scorer | noun-extractor/src/model2.rs:255-263 | The likelihood, ratio and exact informativeness test that model2.rs's `extract_nouns` applies to each lookup, on the current stores. |
| NounModel2.State.Posterior | noun-extractor/src/model2.rs:292-293 | The final probability from a product, with the two stored tallies. |
| NounModel2.State.ExtractNouns | noun-extractor/src/model2.rs:229-314 | Sorted. One pair per candidate, scored with the exact informativeness test. |
| Tokenizer.MecabCsvNnpFormat | rest-mecab/src/tokenizer.rs:10-24 | An error with "NNP length 0" exactly for the empty noun. Otherwise a line longer than the noun. |
| Tokenizer.SplitFour | rest-mecab/src/tokenizer.rs:14-23 | Four comma-free fields split off one by one. |
| Tokenizer.NnpFieldGroups | rest-mecab/src/tokenizer.rs:14-23 | The twelve fields in three groups of four. |
| Tokenizer.NnpFormatFields | rest-mecab/src/tokenizer.rs:10-24 | For a comma-free noun the line splits into exactly its twelve fields. The seventh is "T" exactly when the last syllable has support. |
| Tokenizer.NnpLineShape | rest-mecab/src/tokenizer.rs:14-23 | The line, field by field. |
| Tokenizer.AsteriskAsNone | rest-mecab/src/tokenizer.rs:31-37 | None exactly for "*". Otherwise the string itself. |
| Tokenizer.AsteriskRoundTrip | rest-mecab/src/tokenizer.rs:31-37 | Writing None back as "*" restores the field. |
| Tokenizer.FirstTag | rest-mecab/src/tokenizer.rs:68 | None exactly when no morpheme has the token. Otherwise the tag of the first one that has it. |
| Tokenizer.PieceTags | rest-mecab/src/tokenizer.rs:63-76 | The token is the text before the first '/'. An explicit tag is kept. A missing tag without a lookup is an error. A missing or "*" tag with a lookup is resolved by it. |
| Tokenizer.ParsePieces | rest-mecab/src/tokenizer.rs:62-78 | Every piece parsed in order, or the error of the first piece that fails. |
| Tokenizer.ParseMorphemes | rest-mecab/src/tokenizer.rs:58-80 | "*" is None. Otherwise the '+'-separated pieces, or the error of a piece. |
| Tokenizer.Parse | rest-mecab/src/tokenizer.rs:81-146 | `Analytics::parse`: a successful parse had a tab, and its token has no tab. Its tags are at least one and free of '+'. `ParseFields` states the whole mapping, including the ninth-field lookup. `ParseRender` and `ParseRenderDetailed` state round trips for 8- and 9-feature lines. |
| Tokenizer.ParseRejectsShortLines | rest-mecab/src/tokenizer.rs:82-127 | A line without a tab, or with fewer than eight features, is rejected with the line as the error. |
| Tokenizer.RenderPieces | rest-mecab/src/tokenizer.rs:62-78 | One piece per morpheme. |
| Tokenizer.PiecesRoundTrip | rest-mecab/src/tokenizer.rs:62-78 | Parsing rendered pieces gives the morphemes back. |
| Tokenizer.MorphemesRoundTrip | rest-mecab/src/tokenizer.rs:58-80 | Parsing the rendered morpheme field gives it back. |
| Tokenizer.OptionRoundTrip | rest-mecab/src/tokenizer.rs:31-37 | An optional field rendered with "*" reads back. |
| Tokenizer.RenderSplits | rest-mecab/src/tokenizer.rs:82-90 | A rendered line splits into token and features, and the features split back. |
| Tokenizer.ParseRender | rest-mecab/src/tokenizer.rs:81-146 | Parsing the line written for a representable analysis gives the analysis back. |
| Tokenizer.SupportField | rest-mecab/src/tokenizer.rs:17-21 | "T" exactly when the noun's last character has a final consonant, "F" otherwise. `NnpFormatFields` states it. |
| Tokenizer.SupportFlag | rest-mecab/src/tokenizer.rs:102-106 | The final-consonant field: "T" is Some(true), "F" is Some(false), anything else None, both directions. |
| Tokenizer.ParsePiece | rest-mecab/src/tokenizer.rs:63-76 | One '+' piece. With a lookup, a missing or "*" tag comes from the first morpheme with the token; otherwise an explicit tag is kept, and a missing one is an error. `PieceTags` states it. |
| Tokenizer.ResolveMorphemes | rest-mecab/src/tokenizer.rs:127-134 | With a ninth field, the detail is parsed without a lookup; its error is the result, or its morphemes are the lookup for the eighth field. With eight fields, the eighth is parsed without a lookup. |
| Tokenizer.ParseFields | rest-mecab/src/tokenizer.rs:81-146 | For a line with a tab and at least eight features: the tags are the first feature split at '+', "*" fields are absent, "T"/"F" is the flag. The line fails exactly when `ResolveMorphemes` fails, with its error. |
| Tokenizer.StarPieceResolves | rest-mecab/src/tokenizer.rs:66-70 | A "*"-tagged piece takes the tag of its token's morpheme in the detail. |
| Tokenizer.PiecesParseTo | rest-mecab/src/tokenizer.rs:62-78 | Pieces that each parse to a morpheme parse together to all of them, in order. |
| Tokenizer.DetailResolvesStars | rest-mecab/src/tokenizer.rs:127-131 | A detail field resolves the "*"-tagged simple field of the same morphemes back to those morphemes. |
| Tokenizer.ParseRenderDetailed | rest-mecab/src/tokenizer.rs:81-146 | A nine-feature line, with the simple field's tags "*" and the detail field after it, parses to the analysis, every tag resolved through the detail. |
| Tokenizer.RegisteredNounReadsBack | rest-mecab/src/tokenizer.rs:10-146 | A noun registered with `mecab_csv_nnp_format` and reported with those features parses as NNP, with its support flag and its own reading. |
| UserDictionary.Passes | rest-mecab/src/rest-userdic.rs:104-106 | The three threshold tests: probability, unique-suffix estimate and count, each at least its threshold. |
| UserDictionary.AtLeast | rest-mecab/src/rest-userdic.rs:104-105 | The f32 `>=` of the threshold tests: false whenever either side is NaN. |
| UserDictionary.Merged | rest-mecab/src/rest-userdic.rs:85-91 | A new score merged with the stored one when the candidate has one, otherwise unchanged. |
| UserDictionary.Promotions | rest-mecab/src/rest-userdic.rs:100-113 | The candidates whose merged score passes the thresholds. `TrainNouns` and `TrainCount` tie the nouns table and the count to it. |
| UserDictionary.StoreAll | rest-mecab/src/rest-userdic.rs:96-103 | `noun_scores` after the `put`s in order. `StoreAllAt` and `StoreAllElsewhere` state the result. |
| UserDictionary.PromoteAll | rest-mecab/src/rest-userdic.rs:101-113 | `nouns` after the promote-or-delete step for each pair in order. `PromoteAllAt` and `PromoteAllElsewhere` state the result. |
| UserDictionary.PassCount | rest-mecab/src/rest-userdic.rs:100-118 | The `count` `train` returns. `PassCountKeys` states it counts the passing candidates. |
| UserDictionary.MergeAll | rest-mecab/src/rest-userdic.rs:85-91 | Same length and candidates. A candidate without a stored score keeps its score. |
| UserDictionary.MergeAllAt | rest-mecab/src/rest-userdic.rs:85-91 | Each pair is merged with the stored score of its candidate. |
| UserDictionary.DistinctPrefix | rest-mecab/src/rest-userdic.rs:96-113 | A prefix of a batch with distinct candidates has distinct candidates. |
| UserDictionary.StoreAllAt | rest-mecab/src/rest-userdic.rs:96-99 | With distinct candidates each one's stored score is its own. |
| UserDictionary.StoreAllElsewhere | rest-mecab/src/rest-userdic.rs:96-99 | A candidate outside the batch keeps its entry, or its absence. |
| UserDictionary.StoreAllTwice | rest-mecab/src/rest-userdic.rs:96-103 | The third loop's second `put` of the same pairs changes nothing. |
| UserDictionary.PromoteAllAt | rest-mecab/src/rest-userdic.rs:101-113 | A batch candidate is a noun exactly when its score passes all three thresholds. |
| UserDictionary.PromoteAllElsewhere | rest-mecab/src/rest-userdic.rs:101-113 | A candidate outside the batch keeps its membership. |
| UserDictionary.PassCountKeys | rest-mecab/src/rest-userdic.rs:100-118 | With distinct candidates the count is the number of passing candidates. |
| UserDictionary.KeysCardinality | rest-mecab/src/rest-userdic.rs:96-113 | No more candidates than pairs, and as many only when distinct. |
| UserDictionary.ExtractionIsDistinct | rest-mecab/src/rest-userdic.rs:84 | A vector listing a map's entries once each has distinct candidates. |
| UserDictionary.InByteOrderIrreflexive | rest-mecab/src/rest-userdic.rs:128-133 | The table order is irreflexive. |
| UserDictionary.InByteOrderTransitive | rest-mecab/src/rest-userdic.rs:128-133 | The table order is transitive. |
| UserDictionary.InByteOrderTotal | rest-mecab/src/rest-userdic.rs:128-133 | Distinct keys are ordered one way or the other. |
| UserDictionary.InByteOrder | rest-mecab/src/rest-userdic.rs:128-133 | The order in which RocksDB iterates the `nouns` table: lexicographic by code point, which is byte order for UTF-8 keys. `State.Nouns` returns the nouns in it. |
| UserDictionary.FirstExists | rest-mecab/src/rest-userdic.rs:128-133 | A non-empty table has a first key. |
| UserDictionary.State.constructor | rest-mecab/src/rest-userdic.rs:57-67 | The default thresholds: 5.0 unique suffixes, count 30, probability 0.9. |
| UserDictionary.State.Open | rest-mecab/src/rest-userdic.rs:56-68 | Succeeds exactly when the extractor's model opens. Then the tables and the default thresholds. |
| UserDictionary.State.SetThreshold | rest-mecab/src/rest-userdic.rs:69-79 | The three thresholds change and nothing else does. |
| UserDictionary.State.MergeScores | rest-mecab/src/rest-userdic.rs:85-91 | The first loop merges each score with the stored one and changes no table. |
| UserDictionary.State.PutScores | rest-mecab/src/rest-userdic.rs:96-99 | The second loop stores every pair. Nouns and thresholds are unchanged. |
| UserDictionary.State.PromoteScores | rest-mecab/src/rest-userdic.rs:100-113 | The third loop stores every pair again and promotes or deletes each candidate. It returns the number promoted. |
| UserDictionary.State.Train | rest-mecab/src/rest-userdic.rs:80-119 | Scores the candidates of the normalized text. Each candidate's stored score becomes its merged score, and others are unchanged. A candidate is a noun exactly when its merged score passes; others keep their membership. The count is the number that passed. |
| UserDictionary.State.NounScore | rest-mecab/src/rest-userdic.rs:120-127 | The stored score, or None when absent. Changes nothing. |
| UserDictionary.State.Nouns | rest-mecab/src/rest-userdic.rs:128-133 | Every noun exactly once, in strictly increasing byte order. |
| UserDictionary.MergedBatch | rest-mecab/src/rest-userdic.rs:84-91 | The merged batch lists each candidate once, with its merged score. |
| UserDictionary.TrainScores | rest-mecab/src/rest-userdic.rs:84-103 | After `train`, `noun_scores` holds each candidate's merged score. Other keys are unchanged. |
| UserDictionary.TrainNouns | rest-mecab/src/rest-userdic.rs:84-113 | After `train`, a candidate is a noun exactly when its merged score passes. Other keys keep their membership. |
| UserDictionary.TrainCount | rest-mecab/src/rest-userdic.rs:84-118 | `train` returns the number of candidates whose merged score passes. |
| UserDictionary.PassingWithin | rest-mecab/src/rest-userdic.rs:100-113 | Every counted candidate passed with its merged score. |
| Evaluation.SpanNoun | noun-extractor/benches/evaluate.rs:76-80 | The noun span i marks: the text from the start of its run of touching spans to its own end. `SpanNounIsRun` and `LineNounsAreSubstrings` state it. |
| Evaluation.LineNouns | noun-extractor/benches/evaluate.rs:71-82 | The nouns of one line: those of the spans before the first overflowing span. `LineNounsStopAtOverflow` states the cut. |
| Evaluation.NounsBefore | noun-extractor/benches/evaluate.rs:72-82 | The nouns of the first i spans. `NounsBeforeStep` states one loop iteration. |
| Evaluation.DatasetTexts | noun-extractor/benches/evaluate.rs:60-84 | The texts kept, in input order, skipping blank lines and empty texts. `DatasetTextsNonEmpty` and `TextsFromLines` state it. |
| Evaluation.DatasetNouns | noun-extractor/benches/evaluate.rs:60-84 | The nouns of every kept line. `DatasetAppend` and `SkippedLine` state how it adds up. |
| Evaluation.ChainStart | noun-extractor/benches/evaluate.rs:76-79 | The smallest k such that spans k..i all touch their predecessors. Span k does not touch its own predecessor. |
| Evaluation.Touches | noun-extractor/benches/evaluate.rs:77 | Span j starts exactly where span j - 1 ends, the test of the `while` loop. |
| Evaluation.ChainStartOffset | noun-extractor/benches/evaluate.rs:76-80 | A run never starts after its last span. |
| Evaluation.Processed | noun-extractor/benches/evaluate.rs:72-75 | The leading spans that fit the text. The next span, if any, does not fit. |
| Evaluation.ProcessedStops | noun-extractor/benches/evaluate.rs:73-75 | The loop breaks exactly at `Processed`. |
| Evaluation.SpanNounIsRun | noun-extractor/benches/evaluate.rs:76-80 | A span's noun is the texts of its run, one after the other. |
| Evaluation.RunTextIsSlice | noun-extractor/benches/evaluate.rs:76-80 | The texts of touching spans together are one slice of the text. |
| Evaluation.SpanNounAlone | noun-extractor/benches/evaluate.rs:76-80 | A span that touches no predecessor marks exactly its own text. |
| Evaluation.LineNounsAreSubstrings | noun-extractor/benches/evaluate.rs:72-82 | Every noun is a slice of the line that ends at a span end. |
| Evaluation.LineNounsStopAtOverflow | noun-extractor/benches/evaluate.rs:72-75 | Spans after the first that does not fit contribute nothing. |
| Evaluation.ProcessedPrefix | noun-extractor/benches/evaluate.rs:72-75 | Cutting at an overflowing span keeps the processed count. |
| Evaluation.ChainStartPrefix | noun-extractor/benches/evaluate.rs:76-79 | The walk back does not look past span i. |
| Evaluation.DatasetAppend | noun-extractor/benches/evaluate.rs:60-84 | Texts and nouns add up over concatenation of files. |
| Evaluation.SkippedLine | noun-extractor/benches/evaluate.rs:64-70 | A blank line or empty text adds neither text nor nouns. |
| Evaluation.DatasetTextsNonEmpty | noun-extractor/benches/evaluate.rs:68-70 | Every kept text is non-empty. |
| Evaluation.JoinedTextsSplitBack | noun-extractor/benches/evaluate.rs:83-85 | Texts without line breaks are recovered by splitting the joined document at '\n'. |
| Evaluation.TextsFromLines | noun-extractor/benches/evaluate.rs:60-84 | Every kept text is the text of some record. |
| Evaluation.NounsBeforeStep | noun-extractor/benches/evaluate.rs:72-82 | One more iteration adds the noun of that span. |
| Evaluation.WalkBack | noun-extractor/benches/evaluate.rs:76-79 | The `while` loop ends at the run's first span. |
| Evaluation.AddLineNouns | noun-extractor/benches/evaluate.rs:71-82 | The `for` loop adds exactly the line's nouns. |
| Evaluation.EvalDataset | noun-extractor/benches/evaluate.rs:57-86 | The first undecodable line's error, or the kept texts joined with '\n' and the nouns of all their spans. |

## Left out

- File reading, UTF-8 decoding and the JSON decoding of dataset lines. A file is a sequence of already decoded `DatasetLine`s: blank, undecodable, or a record.
- bincode serialization of the stores and of `noun_scores`. A snapshot is the map itself, or undecodable.
- Store I/O failures other than decoding (`create_dir_all`, `write`) and RocksDB open errors. `open` and `save` fail only as modelled.
- UserDictionary.State.Train: the other `?` exits of `train` are not modelled: bincode encoding and decoding of a `Score`, the RocksDB `get`, `put` and `delete`, and `set_options`. Stated: the result when none of them fails.
- The commented-out FASTER, RocksDB and borsh store backends (store.rs:63-235). They are not compiled.
- Progress printing (`i % 100`) and `debug!` logging. They have no effect on state.
- Counters are unbounded naturals. u32 overflow of counts, of the span end `offset + length`, and of `noun_idx` as an i32 is not modelled.
- f32/f64 arithmetic: smoothing, ratios, `ln`, `exp`, `log10`, the `f32::MAX` clamps. These are the abstract functions of `Numerics`, and the model states nothing about the values they compute beyond the gate and neutral cases.
- LogOddsScores.SumWords, LogOddsScores.Extracted2Entries, LogOddsScores.Contribution, RatioScores.Step: the products (`*noun_probability *= (nl / ol) as f32`, model.rs:442) and sums (`s.noun_probability += count as f32 * prob as f32`, model.rs:314) are exact reals. f32 rounding, the loss of precision of `count as f32` above 2^24, and the dependence of a rounded f32 sum on the order of its terms are not modelled.
- `partial_cmp(..).unwrap()` in the comparator can panic on a NaN ranking key. The ranking key is a real function of count, probability and unique count.
- `char::is_alphanumeric` is a parameter of the scan. `char::is_whitespace` is Unicode White_Space, written out.
- The normalizers of the user-dictionary service (`control_chars`, `whitespace_less`, `derepeat`) are one parameter.
- UserDictionary.State.Train: `Score::merge` and `unique_suffixes_hll.len()` are abstract parameters. The service's score type is not part of this model. Stated: what is stored, promoted and counted.
- UserDictionary.State.Nouns: `from_utf8_lossy` on the keys is the identity, since keys are written as UTF-8 strings.
- The HTTP handlers, the `RwLock` and concurrency of rest-userdic.rs and rest-tokenizer.rs, and the MeCab tagger itself.
- `Tokenizer::{new, tokenize, gen_userdic, reload}`: they call the tagger and the file system.
- Evaluation.EvalDataset: the `unwrap` panics of the benchmark are the error result.
- NounModel.State.PostfixLikelihood: reads the two tallies from the tally store instead of taking `noun_count` and `other_count` as arguments (model.rs:353-359). Every caller outside the unit tests passes the stored tallies; the unit test's explicit `(2., 1.)` is not modelled.
- NounModel2.State.SuffixLikelihood: reads the tallies from the store in the same way, where `suffix_likelihood` takes them as arguments (model2.rs:189-195).
- Iteration order of `HashMap` and `HashSet`. The loops over them are proved for every order in exact arithmetic (`RatioScores.CountUnique`, `LogOddsScores.SumWords`). In the program, hashbrown's randomly seeded order combined with f32 rounding can change the v2 sums, and so the ranking near ties, from run to run. The order of equal-key entries after `sort_by` (a stable sort) is not stated.
