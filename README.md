# ImageResizer: a Dafny model of the batch resizer

ImageResizer is a small GTK program. It asks for a directory, counts the
JPEG files in it, and then writes, for every entry whose name ends in
`.jpg` or `.JPG`, a copy scaled to a fixed height chosen from a combo box
(Photograph 1200, Article 600, Thumbnail 200, Icon 50). The copy keeps the
aspect ratio and is saved next to the original under the name `s_<name>`.
While it works, the program logs each file in a text view and moves a
progress bar.

This project models the three functions that make up that behaviour in
`src/ImageResizer.cpp`, and proves properties about the model.

- `count_jpg_files` (module `Scanner`): the loop over a directory listing
  that counts names passing the JPEG filter. It returns -1, after a
  message on standard error, when the directory cannot be opened.
- `scale_img` (module `Scaler`, with `Paths` and `CInt`):
  - the two 1024-byte `snprintf` paths;
  - the load failure path;
  - the combo-index height table;
  - the width `(orgw * newh) / orgh`, computed in 32-bit `int` with C's
    division truncating toward zero.
- `on_resize_button_clicked` (module `Batch`): the callback loop. For each
  selected entry it appends a log line, scales the file and sets the
  progress bar to `(i + 1) / count`. The counter `i` advances on every
  entry, selected or not.

Supporting modules:

- `JpgFilter`: the suffix test (`g_str_has_suffix` with `.jpg` or `.JPG`).
  - `Selected` is the subsequence of names that pass it.
  - `Positions` gives their indices in the listing.
- `Events`: what the program makes observable, as one datatype. It covers
  console output (`g_print`, `g_printerr`), text appended to the log view,
  resample-and-save requests, and progress-bar settings. Each operation's
  effects are a sequence of these events.

The model builds on these inputs:

- A directory is a `Listing`: either `Unopenable`, or the entry names in
  the order `g_dir_read_name` yields them.
- The callback opens the directory twice: once for its own loop (line 80)
  and once inside `count_jpg_files` (line 86). The two listings are
  separate parameters of `Batch.ResizeBatch`. The lemmas about progress
  take them to be the same listing.
- The images that `gdk_pixbuf_new_from_file` can decode are a map from the
  full (possibly truncated) input path to the image dimensions. A path not
  in the map is a failed load. The map gives what each path decodes to at
  the moment the batch loads it, which may be a copy the same batch has
  just written (see "## Left out").
- The combo index is a parameter. The callback runs on the GTK main loop,
  so the selection cannot change during one batch.

Each imperative loop of the source is a Dafny `method` with a `while`
loop, proved against a specification function: `Scanner.CountJpgFiles`
against `Selected`, and `Batch.ScaleEntries` against `LoopEvents`. The
corrected loop of "## Findings", `Batch.ScaleEntriesCorrected`, is not in
the source; it is proved against `IntendedLoopEvents` in the same way. The
lemmas are stated about those functions.

## Model

| member | source | states |
|---|---|---|
| CInt.TruncDiv | src/ImageResizer.cpp:62 | C's `/` on `int`: dividend minus quotient times divisor is smaller in magnitude than the divisor and is zero or has the dividend's sign (truncation toward zero); the quotient is no larger in magnitude than the dividend |
| CInt.TruncDivUnique | src/ImageResizer.cpp:62 | those two conditions determine the quotient: any q meeting them equals `TruncDiv` |
| CInt.TruncDivInt32 | src/ImageResizer.cpp:62 | the quotient of an `int` by a nonzero `int` is again an `int`, except for `INT_MIN / -1` |
| CInt.TruncDivIsFloor | src/ImageResizer.cpp:62 | for a non-negative dividend and a positive divisor, C division is floor division: q·b ≤ a < (q+1)·b |
| CInt.TruncDivNegative | src/ImageResizer.cpp:62 | C division and Euclidean division differ on negative operands: -7 / 2 is -3 in C and -4 in Euclidean division |
| JpgFilter.HasSuffix | src/ImageResizer.cpp:28 | `g_str_has_suffix`, defined as: the suffix is no longer than the name and the name's last characters are the suffix; characterised by `HasSuffixIff` |
| JpgFilter.IsJpgName | src/ImageResizer.cpp:28 | a name passes the test exactly when it has at least four characters and its last four are `.jpg` or `.JPG` |
| JpgFilter.HasSuffixIff | src/ImageResizer.cpp:28 | the suffix test holds exactly when the name is some stem followed by the suffix |
| JpgFilter.JpgNameExamples | src/ImageResizer.cpp:28 | for any stem, `.jpg` and `.JPG` are accepted; `.Jpg`, `.jPG`, `.jpeg`, `.JPEG`, `.png` and `.txt` are rejected (the test is case-sensitive and exact) |
| JpgFilter.Selected | src/ImageResizer.cpp:26-31 | the subsequence of a listing's names that pass the test, in listing order, defined entry by entry as the loops read it; characterised by `SelectedMembers` and the `Positions` lemmas |
| JpgFilter.Positions | src/ImageResizer.cpp:90-103 | the listing indices `i` at which the loop finds a selected name, defined entry by entry; characterised by the lemmas below |
| JpgFilter.PositionsLength | src/ImageResizer.cpp:90-91 | there is one position per selected entry, and no more selected entries than entries |
| JpgFilter.PositionsAt | src/ImageResizer.cpp:90-91 | the k-th selected name is the entry at the k-th position of the listing |
| JpgFilter.PositionsIncrease | src/ImageResizer.cpp:90-91 | positions lie inside the listing and strictly increase, so the selected names keep listing order |
| JpgFilter.PositionsComplete | src/ImageResizer.cpp:90-91 | an index is a position exactly when its entry passes the suffix test |
| JpgFilter.PositionsAtLeastRank | src/ImageResizer.cpp:90-103 | the k-th selected entry sits at listing index k or later |
| JpgFilter.PositionsOfSelected | src/ImageResizer.cpp:90-91 | the four facts above together |
| JpgFilter.SelectedMembers | src/ImageResizer.cpp:26-31 | a name is selected exactly when it is an entry and passes the suffix test |
| JpgFilter.SelectedAppend | src/ImageResizer.cpp:26-31 | filtering distributes over concatenation of listings |
| JpgFilter.SelectedAll | src/ImageResizer.cpp:26-31 | the count equals the number of entries exactly when every entry passes the test |
| JpgFilter.LastSelected | src/ImageResizer.cpp:90-104 | the last selected entry, at position p, passes the test and no later entry does; p + 1 equals the count exactly when every entry up to p is selected |
| Events.FractionsAppend | src/ImageResizer.cpp:100 | the progress settings of two consecutive event runs are those of the first followed by those of the second |
| Scanner.JpgCount | src/ImageResizer.cpp:13-37 | the value `count_jpg_files` returns: -1 exactly for an unopenable directory (line 22), otherwise a count between 0 and the number of entries (line 36) |
| Scanner.CountJpgFiles | src/ImageResizer.cpp:13-37 | returns -1, with one "Cannot open directory" message on standard error, exactly when the directory cannot be opened; otherwise returns the number of selected entries (between 0 and the number of entries) and emits nothing |
| Paths.Snprintf | src/ImageResizer.cpp:41-42 | writing into a 1024-byte buffer leaves a prefix of the text shorter than 1024; a text that fits is kept whole; a longer one is cut to 1023 characters |
| Paths.InputPath | src/ImageResizer.cpp:41-42 | the load path is a prefix of directory, `/` and name, whole when it fits in 1023 characters and cut to 1023 otherwise |
| Paths.OutputPath | src/ImageResizer.cpp:68-69 | the save path is a prefix of directory, `/s_` and name, whole when it fits in 1023 characters and cut to 1023 otherwise |
| Paths.LongPathsAreCut | src/ImageResizer.cpp:41-42 | when directory, separator and name reach 1024 characters, both paths are exactly 1023 characters long and each is a prefix of its untruncated text |
| Paths.OutputPathIsPrefixedInput | src/ImageResizer.cpp:69 | the output path is the input path of the name with `s_` in front |
| Paths.PathsRoundTrip | src/ImageResizer.cpp:69 | when nothing is cut, the input path splits back into directory and name, and the output file name carries the `s_` prefix whose removal gives the original name |
| Paths.OutputDiffersFromInput | src/ImageResizer.cpp:69 | when nothing is cut, the copy never overwrites the original |
| Paths.OutputNameSelected | src/ImageResizer.cpp:69 | `s_<name>` passes the JPEG filter exactly when the name does, so copies are picked up by a later batch |
| Scaler.TargetHeight | src/ImageResizer.cpp:53-60 | the height is positive exactly for combo indices 0 to 3 and is 0 for every other index (including -1, no selection) |
| Scaler.TargetHeightCatalogue | src/ImageResizer.cpp:56-60 | each size category's combo index maps to its height (1200, 600, 200, 50); an index has a nonzero height exactly when it is some category's |
| Scaler.HeightsDecrease | src/ImageResizer.cpp:57-60 | heights strictly decrease along the combo entries |
| Scaler.NewWidth | src/ImageResizer.cpp:62 | the width is the 32-bit C quotient of orgw·newh by orgh (remainder smaller than orgh, sign of the product); for non-negative sizes it is the floor: neww·orgh ≤ orgw·newh < (neww+1)·orgh |
| Scaler.WidthExamples | src/ImageResizer.cpp:57-62 | a 1600×1200 image becomes 1600 wide as a Photograph and 66 wide as an Icon |
| Scaler.SameHeightKeepsWidth | src/ImageResizer.cpp:62 | scaling to the image's own height keeps its width |
| Scaler.WidthMonotone | src/ImageResizer.cpp:62 | a greater target height never gives a smaller width |
| Scaler.OverflowBound | src/ImageResizer.cpp:62 | `orgw * newh` stays within `int` for every table height when orgw ≤ 1789569, and overflows for the Photograph height at 1789570 |
| Scaler.ScaleImg | src/ImageResizer.cpp:40-75 | an image that does not load gives only the "Failed to load image" console message; a loaded one gives a single request to save at the `s_` path a copy at the table height and the computed width, which keeps the aspect ratio within one pixel |
| Batch.LoopEvents | src/ImageResizer.cpp:91-104 | the events of the loop as written, defined entry by entry: a selected entry at index i adds its log line, its `scale_img` effect and the fraction (i + 1) / count; it holds three events per selected entry |
| Batch.BatchEvents | src/ImageResizer.cpp:78-106 | the events of the whole callback, defined as: the open-failure message for an unopenable directory, otherwise the count's diagnostics followed by `LoopEvents` with the count as denominator |
| Batch.ResizeBatch | src/ImageResizer.cpp:78-106 | the callback's events are `BatchEvents`: only the "Failed to open directory" message when the directory cannot be opened; otherwise the count's diagnostics followed by the loop's events |
| Batch.ScaleEntries | src/ImageResizer.cpp:91-104 | the loop that advances `i` on every entry yields exactly `LoopEvents` |
| Batch.LoopIsSteps | src/ImageResizer.cpp:91-104 | the loop processes exactly the selected entries, in listing order, the k-th with the effect of `scale_img` on it and numerator one past its listing position |
| Batch.LoopInListingOrder | src/ImageResizer.cpp:91-104 | the loop emits three events per selected entry; for the k-th they are at 3k, 3k+1, 3k+2: its "Scaling:" log line, its scale effect, and the fraction (position + 1) / count |
| Batch.BatchInListingOrder | src/ImageResizer.cpp:78-106 | over one listing, the callback emits 3n events for n selected entries; the k-th entry's log line, its `scale_img` effect and its progress (position + 1) / n appear in that order at 3k to 3k+2 |
| Batch.NoJpgNoEvents | src/ImageResizer.cpp:91-104 | a listing without JPEG names produces no event at all: no log line, no save, no progress |
| Batch.BatchFractions | src/ImageResizer.cpp:100-103 | the progress settings are one per selected entry, the k-th being (position of the k-th selected entry + 1) / number of selected entries |
| Batch.ProgressIncreases | src/ImageResizer.cpp:100-103 | progress numerators strictly increase and the denominator is always the number of selected entries |
| Batch.LastProgress | src/ImageResizer.cpp:100-103 | the last setting is (p + 1) / n for the last selected entry's position p; it reaches 1 exactly when every entry up to p is a JPEG name |
| Batch.ProgressNeverBehind | src/ImageResizer.cpp:100-103 | as written, the k-th setting is never below (k + 1) / n, so the last is never below 1: the bar runs ahead rather than falling short |
| Batch.AsWrittenOvershoots | src/ImageResizer.cpp:100-103 | for the listing `notes.txt`, `beach.jpg` the loop as written sets the bar to 2/1, the corrected loop to 1/1 |
| Batch.IntendedLoopEvents | src/ImageResizer.cpp:91-104 | the corrected loop, not in the source, defined like `LoopEvents` but with the number of selected entries before this one, plus one, as numerator |
| Batch.IntendedBatchEvents | src/ImageResizer.cpp:78-106 | the callback around the corrected loop, not in the source, defined like `BatchEvents` |
| Batch.ResizeBatchCorrected | src/ImageResizer.cpp:78-106 | the callback with the corrected counter yields exactly `IntendedBatchEvents` |
| Batch.ScaleEntriesCorrected | src/ImageResizer.cpp:91-104 | the loop with a second counter, advanced only on the entries it scales, yields exactly `IntendedLoopEvents` |
| Batch.IntendedProgress | src/ImageResizer.cpp:100-103 | with the corrected counter the settings over n selected entries are exactly 1/n, 2/n, …, n/n, ending at 1 |
| Batch.AgreeWhenAllSelected | src/ImageResizer.cpp:91-104 | when every entry is a JPEG name, the loop as written and the corrected loop emit the same events |

## Left out

- The GTK user interface: windows, the folder dialog, the combo box and
  button widgets, and `main`. Only the three functions above are modelled.
  The combo index and the directory label's text are parameters.
- Directory I/O: `g_dir_open` and `g_dir_read_name` become a `Listing`
  value. Closing the directory and the enumeration order the file system
  picks are not modelled.
- gdk-pixbuf: loading is a lookup in a map of decodable images. Bilinear
  resampling and JPEG encoding at quality 100 become one `Resize` request
  event. Whether gdk accepts the request (e.g. a width of 0, or an error
  on save) is not modelled, and neither are the `NULL` pixbuf and the
  unreferencing that follow.
- Scaler.ScaleImg: the map of decodable images is one value for the whole
  batch, read as what each path decodes to when the batch loads it. The
  model does not derive it from the batch's own saves. A batch writes
  `s_<name>` (line 70) into the directory its loop is still reading
  (lines 91-104), and a later entry may be that copy. For example, the
  listing `a.jpg` (7×3), `s_a.jpg` (116×50) at index 0 first overwrites
  `s_a.jpg` as 2800×1200 and then loads that. The map must then hold
  2800×1200 for `s_a.jpg`, not the dimensions before the batch. A path
  loaded twice in one batch (possible only through truncation) is taken
  to decode the same way both times.
- Floating point: the progress fraction `(double)(i + 1) / count` is kept
  as a numerator and denominator pair. A `count` of 0 (the `double` result
  is infinite) or -1 is carried as a pair, not evaluated.
- Scaler.ScaleImg: the precondition `Scalable` excludes a loaded image with
  height 0 and a product `orgw * newh` outside 32-bit `int`. Both are
  undefined behaviour in C, and gdk-pixbuf never reports a height of 0.
  The model does not say what the program does then.
- Scanner.CountJpgFiles: its counter `jpg_count` is an unbounded integer.
  An `int` overflow needs more than 2^31 directory entries and is not
  modelled.
- Batch.ScaleEntries: the callback's counter `i` (line 90) and its
  `i + 1` are unbounded integers; their `int` overflow likewise needs more
  than 2^31 entries and is not modelled.
- Strings are sequences of characters. The byte-level limit of the
  1024-byte buffers is modelled as a limit on the number of characters,
  so a multibyte UTF-8 name is counted as its characters.
- Progress ending at 1.0: the code does not promise that the last setting
  is 1.0. As written, it is 1.0 only when every entry up to the last JPEG
  is itself a JPEG (`Batch.LastProgress`). It is never below 1.0: the bar
  runs ahead (`Batch.ProgressNeverBehind`). The bar ends at exactly 1
  without overshooting only with the corrected loop
  (`Batch.IntendedProgress`), as the threaded variant's `(i + 1) /
  file_count` over its list of JPEG names does
  (`src/ImageResizer (copy).cpp:96`).
- `src/ImageResizer (copy).cpp`, the threaded variant, is not part of this
  model. It uses a worker thread, `g_idle_add` and a list of names. Its
  progress counter serves only as evidence of the intended behaviour
  below.

## Findings

| source | as written | input that shows it | evidently intended | confidence | as-written member | corrected member |
|---|---|---|---|---|---|---|
| src/ImageResizer.cpp:100-103 | the progress numerator `i + 1` uses a counter that advances on every directory entry, JPEG or not, while the denominator counts only JPEG entries | a directory listing `notes.txt`, `beach.jpg`: the only progress setting is 2/1, so the bar is asked to show 200% | the numerator counts the files scaled so far, so the settings are 1/n, …, n/n (as the threaded variant does with its list of JPEG names) | not executed | Batch.AsWrittenOvershoots | Batch.IntendedProgress |
