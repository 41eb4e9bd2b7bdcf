# Character error rate bookkeeping of the kospeech evaluator

This project models how kospeech evaluates a speech recognizer, and proves
properties of that model. It covers two pieces:

- **The label and string utilities of `e2e/modules/utils.py`.**
  - `label_to_string` decodes token ids into text. It handles one row or a batch of rows, and stops at the end-of-sequence id.
  - `char_distance` is the space-insensitive Levenshtein distance between a reference and a hypothesis, paired with the reference's length.
  - `get_distance` sums those pairs over the zipped rows of a batch.
  - `get_label` builds `[sos] + tokens + [eos]` from the script of a label file.
- **`Evaluator.predict` of `e2e/evaluator/evaluator.py`.** It consumes the batch queue up to the sentinel batch (the one with no input rows). For each batch it:
  - strips the start-of-sequence column from the targets;
  - scores the recognizer's hypotheses with `get_distance`;
  - accumulates `total_dist`, `total_length`, `total_sent_num` and `time_step`;
  - logs the batch's own ratio every `print_every` steps.

  At the end it returns `total_dist / total_length`.

Files:

- `wrappers.dfy`: `Option`, and `Result` with an `Error` for each exception the modelled code raises. These are `KeyError`, `AssertionError`, `ValueError` and `ZeroDivisionError`.
- `levenshtein.dfy`: the edit distance, as a recursive definition. It stands for the C library `Levenshtein.distance`.
- `text.dfy`: the string built-ins the label code uses:
  - `str.split` with one separator;
  - `int()` on a token, and `str()` as its inverse;
  - the file key `path.split('/')[-1].split('.')[0]`.
- `utils.dfy`: `char_distance`, `label_to_string`, `get_distance` and `get_label`.
- `evaluator.dfy`: the `predict` loop.

How the model is built:

- Each exception is a `Failure` result rather than a precondition. The error paths are part of every contract:
  - an id missing from `id2char`;
  - a missing `target_dict` or key;
  - a token that is not an integer;
  - `time_step % print_every` with `print_every == 0`;
  - a due progress log whose batch length is 0;
  - a final ratio over a zero total length.
- Each imperative loop of the source is a method proved equal to a recursive specification function:
  - `DecodeRow` and `DecodeRows` against `Decoded` and `DecodedRows`;
  - `GetDistance` against `BatchDistance`;
  - `ConvertTokens` and `GetLabel` against `ParseTokens`;
  - `Predict` against `Outcome`.
- The properties are lemmas about those functions.
- The recognizer (the model call followed by the arg-max over its logits) is a function parameter of the evaluation setup. So are `id2char`, the end-of-sequence id and `print_every`.
- `Predict` requires that the queue holds a sentinel. The loader pushes one after it has gone through the whole dataset; without it `predict` would block forever.

## Model

| member | source | states |
|---|---|---|
| Levenshtein.EditDistance | e2e/modules/utils.py:22 | The edit distance lies between the difference of the two lengths and the larger length. |
| Levenshtein.EditDistanceSymmetric | e2e/modules/utils.py:22 | The edit distance does not depend on the order of its arguments. |
| Levenshtein.EditDistanceZeroIff | e2e/modules/utils.py:22 | The edit distance is 0 exactly when the two strings are equal. |
| Utils.SpaceCount | e2e/modules/utils.py:19-23 | The number of spaces is at most the length of the string. |
| Utils.StripSpaces | e2e/modules/utils.py:19-20 | Removing spaces shortens the string by exactly its number of spaces. |
| Utils.StripSpacesRemovesAll | e2e/modules/utils.py:19-20 | No space is left after `replace(' ', '')`. |
| Utils.StripSpacesAppend | e2e/modules/utils.py:19-20 | Removing spaces distributes over concatenation. |
| Utils.StripSpacesNoop | e2e/modules/utils.py:19-20 | A string without spaces is left unchanged. |
| Utils.StripSpacesIdempotent | e2e/modules/utils.py:19-23 | Removing spaces twice is the same as once, so the second `replace` on line 23 changes nothing. |
| Utils.SpaceInsertionIgnored | e2e/modules/utils.py:19-20 | Inserting a space anywhere leaves the space-stripped form unchanged. |
| Utils.CharDistance | e2e/modules/utils.py:7-25 | The length is the number of non-space characters of the target. The distance is 0 exactly when both strings are equal once spaces are removed. The distance is at most the larger stripped length. |
| Utils.CharDistanceSymmetric | e2e/modules/utils.py:19-22 | Swapping reference and hypothesis leaves the distance unchanged. |
| Utils.CharDistanceIgnoresSpaces | e2e/modules/utils.py:19-23 | Both the distance and the length depend only on the space-stripped forms of the two strings. |
| Utils.CharDistanceSpaceInserted | e2e/modules/utils.py:19-23 | A space inserted into either argument changes neither the distance nor the length. |
| Utils.BeforeEos | e2e/modules/utils.py:100-102 | The ids decoded are the prefix of the row up to its first end-of-sequence id. That prefix contains no end-of-sequence id, and the row holds the end-of-sequence id right after it whenever it is shorter than the row. |
| Utils.DecodedMeaning | e2e/modules/utils.py:98-104 | Decoding one row succeeds exactly when every id before the first end-of-sequence id has a glyph. The text is then the concatenation of those glyphs, in order, and the end-of-sequence glyph is not included. |
| Utils.KnownPrefix | e2e/modules/utils.py:103 | Counts the leading ids that have a glyph; the id right after them has none. |
| Utils.DecodedFailure | e2e/modules/utils.py:103 | A failed decoding is the `KeyError` of the first id before the end-of-sequence id that is missing from `id2char`. No glyph is substituted for it. |
| Utils.DecodedIgnoresTail | e2e/modules/utils.py:100-102 | Ids after an end-of-sequence id have no effect on the decoding. |
| Utils.DecodeRow | e2e/modules/utils.py:98-104 | The loop with its `break` yields exactly the decoding of the row, including its failure. |
| Utils.DecodedRows | e2e/modules/utils.py:106-115 | A batch decodes exactly when every row does. It yields one text per row, in row order, each decoded by the one-row rule. A failure is the error of the first failing row. |
| Utils.DecodeRows | e2e/modules/utils.py:106-115 | The nested loops yield exactly the batch decoding. |
| Utils.LabelToString | e2e/modules/utils.py:86-115 | A rank-one tensor gives the row's sentence and a rank-two tensor gives the list of row sentences. Each error is passed through. |
| Utils.AddResultsAssociative | e2e/modules/utils.py:51-52 | Adding partial sums is associative, the first failure winning. |
| Utils.TotalAppend | e2e/modules/utils.py:42-54 | The sum over a concatenation is the sum of the two parts' sums. |
| Utils.TotalSucceeds | e2e/modules/utils.py:45-54 | A sum succeeds exactly when every pair does. A failure is one pair's error. |
| Utils.TotalStep | e2e/modules/utils.py:51-52 | Adding one more successful pair adds its distance and length to the running totals. |
| Utils.TotalFirstFailure | e2e/modules/utils.py:45-49 | The first failing pair, in order, is the failure of the whole sum. |
| Utils.TotalFailureSticks | e2e/modules/utils.py:45-49 | Once a pair fails, the whole sum is that failure. |
| Utils.PairDistances | e2e/modules/utils.py:45 | As `zip` does, exactly min(#targets, #hypotheses) pairs are scored. |
| Utils.PairDistancesAt | e2e/modules/utils.py:45-49 | The k-th result is the character distance of the k-th decoded reference against the k-th decoded hypothesis. |
| Utils.BatchDistanceAdditive | e2e/modules/utils.py:42-54 | The result for a batch is the sum of the results for its two parts. |
| Utils.BatchDistanceSucceeds | e2e/modules/utils.py:45-54 | A batch succeeds exactly when every zipped pair decodes. A failure is the error of a failing pair. |
| Utils.BatchDistanceFirstFailure | e2e/modules/utils.py:45-49 | When a pair fails to decode and every earlier pair decodes, the batch's result is that pair's failure. |
| Utils.GetPairDistance | e2e/modules/utils.py:46-49 | One iteration decodes the reference, then the hypothesis, and compares them. The result is that pair's entry. |
| Utils.GetDistance | e2e/modules/utils.py:28-54 | The loop's totals are the sum of the per-pair character distances over the zipped rows in order, or the first failure. |
| Text.Split | e2e/modules/utils.py:72-75 | `str.split` gives at least one piece. No piece contains the separator, and joining the pieces back gives the string. |
| Text.SplitOfJoin | e2e/modules/utils.py:75 | Splitting inverts joining pieces that contain no separator. |
| Text.BaseName | e2e/modules/utils.py:72 | The base name is the suffix after the last `/` and contains no `/`. |
| Text.Stem | e2e/modules/utils.py:72 | The stem is the prefix before the first `.` and contains no `.`. |
| Text.Show | e2e/modules/utils.py:80 | `int` applied to the decimal rendering of a number gives the number back, and the rendering has no space. |
| Text.ParseInt | e2e/modules/utils.py:80 | `int(token)` accepts an optional `+` or `-` followed by one or more ASCII digits. A token of digits alone gives their decimal value, `+` followed by digits gives the same value, `-` followed by digits gives its negation, and only a leading `-` gives a negative value. |
| Utils.FileKey | e2e/modules/utils.py:72 | The key is the part of the file's base name (after its last `/`) before the first `.`; it contains neither `/` nor `.`. |
| Utils.ParseTokens | e2e/modules/utils.py:79-80 | Converting tokens succeeds exactly when every token is an integer. It then gives their values, one per token, in order. A failure is the `ValueError` of the first bad token. |
| Utils.ConvertTokens | e2e/modules/utils.py:79-80 | The appending loop yields exactly the token conversion. |
| Utils.GetLabel | e2e/modules/utils.py:57-83 | No `target_dict` is an assertion failure, and an absent file key is a `KeyError`. Otherwise the result is `[sos] + tokens + [eos]` with the tokens parsed from the key's script split at single spaces, or the token conversion's failure. |
| Utils.ScriptRoundTrip | e2e/modules/utils.py:75-81 | Splitting a script written as space-separated integers and converting its tokens gives the integers back. |
| Utils.EmptyScriptRejected | e2e/modules/utils.py:75-80 | An empty script splits into one empty token, and `int` rejects it. |
| Evaluator.Start | e2e/evaluator/evaluator.py:66-69 | All four counters start at 0, and the log starts empty. |
| Evaluator.SentinelIndex | e2e/evaluator/evaluator.py:74-77 | The loop stops at the first batch with no input rows. |
| Evaluator.SentinelIndexIs | e2e/evaluator/evaluator.py:74-77 | Any sentinel with no sentinel before it is where the loop stops. |
| Evaluator.StripSos | e2e/evaluator/evaluator.py:81 | Each reference row is the target row without its first (start-of-sequence) position. The row count is unchanged. |
| Evaluator.RunStep | e2e/evaluator/evaluator.py:74-96 | Processing one more batch is one more iteration of the loop body. |
| Evaluator.RunFailureSticks | e2e/evaluator/evaluator.py:88-94 | An exception raised for one batch ends the evaluation, and later batches change nothing. |
| Evaluator.RunMeaning | e2e/evaluator/evaluator.py:88-96 | A run over some batches goes through exactly when every batch scores and no step divides by zero. `total_dist` and `total_length` are then the summed `get_distance` results of the batches processed so far. `total_sent_num` is their row count, and `time_step` is their number. |
| Evaluator.RunLast | e2e/evaluator/evaluator.py:93-96 | The last batch adds a progress entry with its own distance and non-zero length exactly when its step is due. |
| Evaluator.RunLogEntries | e2e/evaluator/evaluator.py:93-94 | Every logged entry belongs to a due step of the run, and carries that batch's own distance and non-zero length. |
| Evaluator.RunLogOrdered | e2e/evaluator/evaluator.py:93-96 | Logged steps strictly increase. |
| Evaluator.RunLogComplete | e2e/evaluator/evaluator.py:93-94 | Every due step of the run has a log entry. |
| Evaluator.Scores | e2e/evaluator/evaluator.py:74-88 | Exactly one score per processed batch. |
| Evaluator.ScoresAt | e2e/evaluator/evaluator.py:81-88 | Each batch's score is `get_distance` of its stripped references against the recognizer's hypotheses. |
| Evaluator.Finish | e2e/evaluator/evaluator.py:99 | The ratio is defined exactly when the run went through with a positive total length. It then carries the run's counters. |
| Evaluator.FinishRate | e2e/evaluator/evaluator.py:99 | The returned rate times `total_length` is `total_dist`. |
| Evaluator.OutcomeMeaning | e2e/evaluator/evaluator.py:66-99 | `predict` succeeds exactly when every batch before the sentinel goes through and their summed length is positive. The counters are then the sums over those batches, and the rate is `total_dist / total_length`. |
| Evaluator.OutcomeLog | e2e/evaluator/evaluator.py:93-94 | In step order, the progress log of a successful evaluation has exactly one entry for each due step. Each entry holds that batch's own `get_distance` result with a non-zero length. |
| Evaluator.AfterSentinelIgnored | e2e/evaluator/evaluator.py:74-77 | Batches after the sentinel are never looked at: any queue that agrees with another up to and including its first sentinel evaluates the same. |
| Evaluator.EmptyTestSetFails | e2e/evaluator/evaluator.py:99 | A queue that starts with the sentinel ends in a division by zero. |
| Evaluator.ScoreBatch | e2e/evaluator/evaluator.py:81-88 | Scoring the i-th batch in the loop gives its score in the run. |
| Evaluator.Advance | e2e/evaluator/evaluator.py:89-96 | One iteration's counter updates and due log entry are exactly one step of the run, including its two divisions by zero. |
| Evaluator.Predict | e2e/evaluator/evaluator.py:53-99 | The sentinel-terminated loop returns exactly the outcome: the counters summed over the batches before the sentinel and their rate, or the first exception. |

## Left out

- The loader thread and `queue.Queue` (blocking and concurrency) are left out. The queue is a sequence that holds a sentinel batch.
- Tensors, device moves, `model.eval()`, `torch.no_grad()`, the model call and the arg-max over float logits are left out. Together they are the `Recognizer` parameter, which yields integer hypothesis rows.
- The Levenshtein C library is replaced by the recursive edit distance it computes.
- Evaluator.Finish: the CER is the exact rational `total_dist / total_length` as a `real`, not the rounded float that Python's division returns.
- Log output is not modelled. Each due progress line is kept as a `Progress` entry with the batch's own distance and length, and the ratio it would print fails on a zero length as in Python. The `'{:.2f}'` formatting and the start and completion messages are left out.
- `save_pickle` (file I/O), `print_args` (logging only) and `Evaluator.evaluate` (data loading and thread plumbing) are not part of this model, and neither is `Evaluator.__init__`.
- Utils.LabelToString: tensors of rank other than one or two make `label_to_string` return `None`. The `Labels` type has only the two ranks that are modelled.
- Text.ParseInt: `int()` is modelled as an optional sign followed by ASCII decimal digits. Surrounding whitespace, `_` separators and non-ASCII digits, which `int()` also accepts, are not modelled.
- `int(sos_id)` and `int(eos_id)` in `get_label` are the identity on the integer ids the model takes.
- A loader that stops before it has gone through the whole dataset pushes no sentinel, and `predict` then waits forever at `queue.get()`. The model cannot represent that run, because its queue always holds a sentinel.
- Utils.CharDistanceSymmetric: only the distance is symmetric. The length is that of the first argument, the reference, so `char_distance(a, b)` and `char_distance(b, a)` differ in length whenever the two strings have different numbers of non-space characters.
- `time_step % print_every == 0` with a negative `print_every` holds in Python exactly when `print_every` divides `time_step`, as it does in Dafny. The modulo results differ otherwise, but only the test against 0 is used.
