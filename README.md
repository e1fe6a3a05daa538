# LoRaSim statistics and model export, in Dafny

LoRaSim simulates a LoRa link as a two-state Markov channel over a timeline of
intervals, each with its own channel model. The result is a list of
`(interval, samples)` pairs, where each sample is a `(timestamp, success)` pair.
This project models two parts of the GUI that work on that data:

- **`Plotter`** (`LoRaSim/gui/Plotter.py`) reduces a simulation result to the series it plots:
  - the running reception probability `succ / tot` and its 95% band
    `1.96 * sqrt(succ * (tot - succ)) / (tot * sqrt(tot))`;
  - the instantaneous throughput `16 / tx_time * 1000` and its online running mean;
  - the time axis;
  - the interval annotations `(start_time, title)`;
  - the height of the annotation lines.
- **`ExportToCSV.ExportMarkovToCSV`** (`LoRaSim/gui/ExportToCSV.py`) writes every Markov model file to one CSV row:
  - the files are taken in sorted name order;
  - each row holds seven fields, each `lines[k].split('=')[1].strip()`;
  - a second pass then rewrites a negative P00 or P01 as `"0.001"`.

Files:

- `results.dfy` holds `Option` and `Result`.
- `sim_data.dfy` (module `SimData`) holds the simulation result and its flattened sample stream.
- `plotter.dfy` (module `Plotter`) holds the statistics and the `Plotter` class.
- `text.dfy` (module `Text`) holds Python's `str.isspace`, `strip`, `split` and string order.
- `export_csv.dfy` (module `ExportToCsv`) holds the exporter.

The loops of the source are Dafny methods with loop invariants. Each method is
proved against specification functions and predicates: `Flatten`, `Successes`,
`RateBand`, `ThroughputOf`, `Mean`, `ExtractAll`, `ClampAll` and `Export`. The
statistical, textual and ordering properties are lemmas about those functions.

The model follows these details of the code:

- A field is the **second** `'='`-separated piece of its line, stripped. Text
  after a second `=` is dropped; it is not kept as part of the value.
- Only the first seven lines are read, and further lines are ignored. A file
  fails when one of those seven is missing or has no `=`.
- The export clamps only **P00 and P01**, not every negative probability.
- A result whose intervals hold no sample is not rejected up front. It fails
  where the plotter takes `max` of an empty list.

## Model

| member | source | states |
|---|---|---|
| SimData.FlattenAt | LoRaSim/gui/Plotter.py:25-44 | the sample stream is in interval order, then sample order: sample j of interval i sits at offset (samples of earlier intervals) + j, and belongs to interval i's channel model |
| SimData.SuccessesCount | LoRaSim/gui/Plotter.py:33-36 | the success counter equals the number of samples whose flag is true |
| SimData.SuccessesAppend | LoRaSim/gui/Plotter.py:23-36 | the count over two consecutive stretches is the sum of their counts: `succ` carries across interval boundaries and is never reset |
| Plotter.SuccessRate | LoRaSim/gui/Plotter.py:38 | the running probability succ / tot lies in [0, 1] |
| Plotter.HalfWidth | LoRaSim/gui/Plotter.py:40 | the half-width is non-negative; defined only for 0 <= succ <= tot and tot > 0 (tot is at least 1 when it is computed) |
| Plotter.HalfWidthSquare | LoRaSim/gui/Plotter.py:40 | ci² · tot³ = 1.96² · succ · (tot − succ), i.e. ci² = 1.96² · succ · (tot − succ) / tot³ |
| Plotter.HalfWidthByRate | LoRaSim/gui/Plotter.py:38-40 | with p = succ / tot, ci² · tot = 1.96² · p · (1 − p): the binomial normal-approximation band |
| Plotter.RateBandSnoc | LoRaSim/gui/Plotter.py:33-42 | each sample appends exactly one point to rate, ci_max and ci_min, and that point describes all samples seen so far |
| Plotter.RateBandBounds | LoRaSim/gui/Plotter.py:38-42 | every point has 0 <= p <= 1 and ci_min <= p <= ci_max |
| Plotter.BandPeak | LoRaSim/gui/Plotter.py:47 | max(p_succ_y) never exceeds max(ci_max), so the line height is max(ci_max) |
| Plotter.MaxOf | LoRaSim/gui/Plotter.py:47 | Python's max: an element of the list, at least every element |
| Plotter.AxisAppend | LoRaSim/gui/Plotter.py:44 | extending the axis by an interval's timestamps keeps it aligned with the sample stream |
| Plotter.Timestamps | LoRaSim/gui/Plotter.py:44 | `i[0] for i in data`: the timestamps of an interval's samples, one per sample, in order (also Plotter.py:88) |
| Plotter.MarksStep | LoRaSim/gui/Plotter.py:30-31 | visiting interval i appends (start_time, title) exactly when there is more than one interval |
| Plotter.AccumulateRate | LoRaSim/gui/Plotter.py:33-42 | the inner loop carries succ and tot on and extends the band: afterwards tot and succ count all samples so far and the band describes them |
| Plotter.CollectRate | LoRaSim/gui/Plotter.py:25-45 | the outer loop yields the axis, the band over the whole flattened stream and the annotations (none for a single interval, else one per interval in order) |
| Plotter.Plotter.constructor | LoRaSim/gui/Plotter.py:7-12 | keeps the intervals, which must be non-empty (intervals[0] is read) |
| Plotter.Plotter.PlotRcvProb | LoRaSim/gui/Plotter.py:17-49 | fails exactly when there is no sample (max of an empty list); otherwise the axis, the band, the annotations, 0 <= p <= 1, ci_min <= p <= ci_max, and a line height that is the largest of ci_max and p |
| Plotter.Instant | LoRaSim/gui/Plotter.py:83-86 | a success gives 16 / tx_time * 1000 and a failure 0; non-zero exactly for a success; non-negative when tx_time > 0 |
| Plotter.AccumulateThroughput | LoRaSim/gui/Plotter.py:82-86 | fails with ZeroDivisionError exactly when a successful sample falls in a model with tx_time 0; otherwise appends one instantaneous value per sample |
| Plotter.CollectThroughput | LoRaSim/gui/Plotter.py:74-89 | the outer loop yields the axis, the instantaneous series over the whole stream and the annotations, or ZeroDivisionError exactly when some sample divides by zero |
| Plotter.MeanSingle | LoRaSim/gui/Plotter.py:93-94 | m_0 = y_0 is the mean of the first value |
| Plotter.MeanRecurrence | LoRaSim/gui/Plotter.py:95-97 | the online update (m · i + y) / (i + 1) of the mean of i values is the mean of i + 1 values |
| Plotter.RunningMeans | LoRaSim/gui/Plotter.py:91-97 | one mean per value, and mean i is the exact arithmetic mean of y_0 .. y_i |
| Plotter.MeanWithinBounds | LoRaSim/gui/Plotter.py:91-97 | a mean lies within any bounds of the values it averages |
| Plotter.MeanBetweenExtremes | LoRaSim/gui/Plotter.py:91-97 | every running mean lies between the minimum and the maximum of the values averaged |
| Plotter.Plotter.PlotThroughput | LoRaSim/gui/Plotter.py:68-101 | fails with ZeroDivisionError when a success falls in a zero-length slot, else with the empty max when there is no sample; otherwise the axis, the throughput of every sample under its own interval's model, the running means, the annotations and a height equal to max(y) |
| Text.StripLeft | LoRaSim/gui/ExportToCSV.py:32-38 | a suffix of the text, all removed characters whitespace, the rest empty or starting with a non-space |
| Text.IsSpace | LoRaSim/gui/ExportToCSV.py:32-38 | the characters `str.strip()` removes (Python's `str.isspace`): space, tab and both line-break characters among them, `=` not |
| Text.StripRight | LoRaSim/gui/ExportToCSV.py:32-38 | a prefix of the text, all removed characters whitespace, the rest empty or ending with a non-space |
| Text.Strip | LoRaSim/gui/ExportToCSV.py:32-38 | the result neither starts nor ends with whitespace, is no longer than the input and holds only characters of the input |
| Text.StripPadded | LoRaSim/gui/ExportToCSV.py:32-38 | strip removes exactly the padding: whitespace + t + whitespace strips to t when t has non-space ends |
| Text.StripIdempotent | LoRaSim/gui/ExportToCSV.py:32-38 | stripping twice is stripping once |
| Text.FirstIndex | LoRaSim/gui/ExportToCSV.py:32-38 | the position of the first separator, or the length when there is none |
| Text.Split | LoRaSim/gui/ExportToCSV.py:32-38 | at least one piece; exactly one exactly when the separator is absent; no piece holds it |
| Text.JoinSplit | LoRaSim/gui/ExportToCSV.py:32-38 | joining the pieces with the separator gives the line back |
| Text.SplitJoin | LoRaSim/gui/ExportToCSV.py:32-38 | splitting a join of separator-free pieces gives the pieces back |
| Text.FirstPiece | LoRaSim/gui/ExportToCSV.py:32-38 | piece 0 is the text before the first separator |
| Text.SecondPiece | LoRaSim/gui/ExportToCSV.py:32-38 | piece 1 is the text between the first and the second separator (or the end) |
| Text.LessEqTotal | LoRaSim/gui/ExportToCSV.py:20 | any two names are comparable in Python's string order |
| Text.LessEqTransitive | LoRaSim/gui/ExportToCSV.py:20 | the string order is transitive |
| Text.LessEqAntisymmetric | LoRaSim/gui/ExportToCSV.py:20 | names that are each <= the other are equal |
| Text.LessEq | LoRaSim/gui/ExportToCSV.py:20 | Python's `<=` on file names, code point by code point; a prefix of a name sorts at or before it |
| ExportToCsv.FirstMissing | LoRaSim/gui/ExportToCSV.py:31-38 | the first of lines 0..6 without a field, all earlier ones having one |
| ExportToCsv.Field | LoRaSim/gui/ExportToCSV.py:32-38 | `line.split('=')[1].strip()`: a value with no `=` in it and no whitespace at either end |
| ExportToCsv.ExtractRow | LoRaSim/gui/ExportToCSV.py:31-38 | a row exactly when the file has at least seven lines and each of the first seven holds '='; then seven fields; otherwise the IndexError of the first failing line, a missing line being told apart from a line without '=' |
| ExportToCsv.RowFieldIs | LoRaSim/gui/ExportToCSV.py:32-38 | field j of a row is line j's split('=')[1].strip() |
| ExportToCsv.FieldText | LoRaSim/gui/ExportToCSV.py:32-38 | a field is the text between the first and the second '=' of its line, whitespace and line break trimmed; text after a second '=' is dropped |
| ExportToCsv.ShortFileFails | LoRaSim/gui/ExportToCSV.py:31-38 | a file of fewer than seven lines yields no row; when its lines all hold '=', the error is the missing line |
| ExportToCsv.Insert | LoRaSim/gui/ExportToCSV.py:20 | inserting a file keeps the same files plus that one |
| ExportToCsv.InsertSorted | LoRaSim/gui/ExportToCSV.py:20 | inserting into a name-sorted list keeps it sorted |
| ExportToCsv.SortByName | LoRaSim/gui/ExportToCSV.py:20 | sorted(listing): ascending names and a permutation of the listing |
| ExportToCsv.ExtractAll | LoRaSim/gui/ExportToCSV.py:28-40 | the first pass writes the rows of the leading files that have one, in order, and stops at the first that does not, naming it and its failing line |
| ExportToCsv.RowsWrittenUnique | LoRaSim/gui/ExportToCSV.py:28-40 | that description of the first pass determines its outcome |
| ExportToCsv.WriteModels | LoRaSim/gui/ExportToCSV.py:28-40 | the write loop produces exactly the first pass's rows and error |
| ExportToCsv.ClampRow | LoRaSim/gui/ExportToCSV.py:49-52 | succeeds exactly when P00 and P01 exist and read as numbers; otherwise the error Python raises first (missing P00, P00 not numeric, missing P01, P01 not numeric); the length is unchanged |
| ExportToCsv.ClampCellRule | LoRaSim/gui/ExportToCSV.py:49-52 | one step `ClampCell` of the clamp loop fails exactly when the cell is missing (IndexError) or is not a number (ValueError); otherwise it sets that cell to "0.001" exactly when it reads as negative, and keeps every other cell and the length |
| ExportToCsv.ClampRule | LoRaSim/gui/ExportToCSV.py:49-52 | P00 and P01 become "0.001" exactly when they read as negative; every other cell is unchanged |
| ExportToCsv.ClampKeepsOtherColumns | LoRaSim/gui/ExportToCSV.py:49-52 | title, description, tx time, P10 and P11 never change |
| ExportToCsv.ClampLeavesNoNegative | LoRaSim/gui/ExportToCSV.py:49-52 | with float("0.001") = 0.001, no clamped P00 or P01 reads as negative |
| ExportToCsv.ClampRowIdempotent | LoRaSim/gui/ExportToCSV.py:49-52 | clamping a clamped row changes nothing |
| ExportToCsv.ClampAll | LoRaSim/gui/ExportToCSV.py:44-53 | the second pass keeps the row count and order and clamps every row, or fails at the first row that cannot be clamped |
| ExportToCsv.ClampAllIdempotent | LoRaSim/gui/ExportToCSV.py:44-53 | running the second pass on its own output changes nothing |
| ExportToCsv.ClampPass | LoRaSim/gui/ExportToCSV.py:44-53 | the in-place loop over the rows computes ClampAll |
| ExportToCsv.Export | LoRaSim/gui/ExportToCSV.py:9-58 | the file always starts with the header and has at most one row per model file; exactly one per file when nothing failed |
| ExportToCsv.ExportLayout | LoRaSim/gui/ExportToCSV.py:20-58 | a complete export is the header followed by, for each file in sorted name order, its seven fields with P00 and P01 clamped |
| ExportToCsv.CleanRows | LoRaSim/gui/ExportToCSV.py:28-58 | when both passes succeed, row k of the file is file k's clamped extraction |
| ExportToCsv.ExportFailure | LoRaSim/gui/ExportToCSV.py:28-53 | a failed export leaves the header and unclamped rows. A first-pass failure leaves the rows of the files sorted before the failing one, and the error names that file and its failing line. A second-pass failure leaves all rows, and the error names the first row that cannot be clamped |
| ExportToCsv.ExportMarkovToCsv | LoRaSim/gui/ExportToCSV.py:9-58 | the method sorts, writes and clamps, and returns exactly Export's file contents and error |

## Left out

- Drawing is not modelled: matplotlib figures, `fill_between`, `scatter`, `vlines`, `text`, `show`, `show_plots` and `_plot_recv_rate`. The model keeps the data these calls receive: the series, the annotations and the line height.
- Each `print` call is left out; it only reports progress on the console.
- File I/O is not modelled: `os.path`, `os.listdir`, `open`, `readlines`, and the `csv` writer and reader. The Models directory is a given list of `(name, lines)` pairs, and each line keeps its line break. The CSV file is a list of rows. Writing rows with the `csv` module and reading them back is taken to give the same rows.
- `sorted` is modelled as an insertion sort under Python's code-point string order. No two files in a directory share a name, so this gives the same order as Python's sort.
- `float()` is the parameter `parse`; `None` means `ValueError`. The idempotence lemmas assume it reads `"0.001"` as 0.001.
- `math.sqrt` is the parameter `root`. It is assumed exact on non-negative reals.
- Floating-point arithmetic is modelled as exact real arithmetic, so rounding, NaN and infinities are not modelled. `tx_time` is a real, and a zero `tx_time` raises in Python whether it is an int or a float.
- The `isinstance` assertions in `Plotter.__init__` are enforced by Dafny's types.
- The `Interval` class (`LoRaSim/SimIntervals.py`) is not part of this model. Only the fields read here are kept: start time, title and tx time.
- The `plt.show()` at the end of each plot method is left out with the rest of the drawing.
- Plotter.Plotter.constructor: the IndexError that `intervals[0]` raises on an empty list is modelled as the precondition `|intervals| > 0`, so the model has no error value for that case.
