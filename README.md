# Sample extraction for semantic-segmentation training (images_to_samples.py)

This project models the engine that turns one image/label raster pair into
training samples. The engine has these parts:

- **Windows.** It walks a grid of `size` x `size` windows with stride `d`,
  in row-major order. It slices each window out of both rasters, clamping the
  slice at the raster edge, and zero-pads short windows on the bottom and
  right (`pad_diff`).
- **Background share.** It computes the window's background percent.
- **Accept or reject.** It decides each window with the configured sampling
  methods (`minimum_annotated_percent`, `class_proportion`), whose rule set is
  validated by `check_sampling_dict`.
- **Routing.** It routes each accepted window to the train, validation or test
  sample file (`compute_classes`). The route depends on a random draw in
  1..99 and the validation percent.
- **Writing.** It appends the window to the chosen file's `sat_img`,
  `map_img` and `meta_idx` datasets (`append_to_dataset`).
- **Counting.** It adds the window's pixels to the run-wide class histogram,
  keeps the per-partition sample counters, and raises `num_classes` to the
  largest label seen.
- **Masking.** `mask_image`, which zeroes one raster wherever band 0 of
  another is 0, is modelled as well.

## Files

- **wrappers.dfy:** `Option` and `Result`.
- **grid.dfy:** rasters as rows of cells, plus:
  - the clamped slice (`Crop`);
  - `pad_diff` (`PadDiff`), and the padded window built from the two (`Tile`);
  - Python's `range` with a step (`Range`).
- **mask.dfy:** `mask_image`. It fills a fresh three-dimensional array band by band in loops.
- **store.dfy:** a sample file as a class with four growable datasets. `append_to_dataset` is `Dataset.Append`.
- **sampling.dfy:** the ordered `sampling` rule set and `check_sampling_dict`.
- **policy.dfy:**
  - the window histogram and percentages;
  - `minimum_annotated_percent` and `class_proportion`;
  - the dispatch on the method list.
- **accumulate.dfy:** the class histogram as a class updated in place, and `compute_classes`.
- **tiler.dfy:** `samples_preparation`. How it is modelled:
  - Its two nested loops are methods with loop invariants.
  - Each loop is proved against `Replay`, a function that folds a one-window step over the windows' outcomes.
  - Lemmas state what `Replay` means:
    - which windows each file holds;
    - each counter;
    - each class's pixel count and the histogram's sum;
    - the running maximum label.

## Model

| member | source | states |
|---|---|---|
| Store.Dataset.Append | images_to_samples.py:69-73 | returns the old length; the dataset becomes the old one followed by exactly the new sample, so earlier elements are untouched |
| Mask.MaskImage | images_to_samples.py:28-53 | the result has B's rows, columns and bands; cell `[r,c,i]` is `B[r][c][i]` where band 0 of A is non-zero and 0 elsewhere, that is, the cell of the reference `Masked(a, b)` |
| Mask.DocShownDiffers | images_to_samples.py:31-37 | on the docstring's example, the code clears cell `[1][0]` (band 0 of `x1` is 0 there), so its result differs from the printed one, which keeps `[11., 1.1]` |
| Mask.DocResult | images_to_samples.py:31-53 | on the docstring's example, the code's result is the printed one with cell `[1][0]` cleared |
| Grid.Crop | images_to_samples.py:205-206 | the slice `g[top:top+size, left:left+size]` is clamped to the grid: it is `min(top+size,h)-top` by `min(left+size,w)-left`, and cell `(i,j)` is grid cell `(top+i, left+j)` |
| Grid.PadDiff | images_to_samples.py:56-66 | for a `rows` x `cols` window with both at most `size`: the result is exactly `size` x `size`; the original cells keep their place at the top left; every cell below or right of them is the padding value |
| Grid.PadDiffFull | images_to_samples.py:209-215 | padding a window that is already `size` x `size` changes nothing, so skipping the padding for a full window is the same as padding it |
| Grid.Tile | images_to_samples.py:205-215 | the padded window at `(top, left)` is `size` x `size`; each cell is the raster cell when that cell lies inside the raster, and 0 otherwise |
| Grid.TileInside | images_to_samples.py:209-215 | a window that lies wholly inside the raster is its plain slice, with no padding |
| Grid.TileBands | images_to_samples.py:61-62 | padding never touches the band axis: every cell of a padded image window keeps the image's band count |
| Grid.Range | images_to_samples.py:199 | every element of `range(lo, hi, d)` lies in `[lo, hi)` |
| Grid.RangeSteps | images_to_samples.py:199-204 | `range(lo, hi, d)` is empty exactly when `lo >= hi`; it starts at `lo`; consecutive elements differ by `d`; one more step would reach `hi` |
| Grid.RangeLength | images_to_samples.py:199-204 | `range(lo, hi, d)` has `ceil((hi-lo)/d)` elements |
| Sampling.FirstBadMethod | images_to_samples.py:81-86 | it finds no bad method exactly when every element of the method list is one of the two known names; otherwise it returns the first element that is not |
| Sampling.CheckEntryOk | images_to_samples.py:79-99 | the checks made on entry `i` pass exactly when the entry meets its positional rule |
| Sampling.CheckFrom | images_to_samples.py:77-99 | checking from entry `i` on succeeds exactly when every later entry is well formed; a failure is the error of some entry all of whose predecessors passed, that is, the first failing entry |
| Sampling.CheckSamplingDict | images_to_samples.py:76-99 | returns normally exactly when the rule set is well formed: key 0 is `method` with only known methods; key 1 is `map` with a value of type exactly `int`; every later key parses as an integer. Otherwise the error is that of the first failing entry |
| Sampling.RejectsBadFirstKey | images_to_samples.py:87-88 | a rule set whose first key is not `method` is refused with that key |
| Sampling.MethodStringPassesOnlyWhenEmpty | images_to_samples.py:81-86 | a method value given as a string is iterated by character, so it passes only when it is empty |
| Sampling.RejectsBoolMap | images_to_samples.py:89-94 | a boolean `map` value is refused, because its type is `bool` and not `int` |
| Sampling.RejectsNonIntegerKey | images_to_samples.py:97-99 | a key at position 2 that `int()` cannot parse makes the check fail with that key, after `method` and `map` have passed |
| Sampling.ParsesAsInt | images_to_samples.py:98 | `int(key)` succeeds: after stripping ASCII 9-13 and 32 and the non-ASCII `str.isspace()` characters, an optional sign and decimal digits with single underscores between digits remain. Its meaning is carried by `AcceptsNoBreakSpaceKey`, `RejectsSeparatorPaddedKey`, `UnderscoreBetweenDigits` and `RejectsNonIntegerKey` |
| Sampling.AcceptsNoBreakSpaceKey | images_to_samples.py:98 | `int()` strips the non-ASCII `str.isspace()` characters, so a key padded with a no-break space and an ideographic space parses |
| Sampling.RejectsSeparatorPaddedKey | images_to_samples.py:98 | `int()` strips only ASCII 9-13 and 32 among the ASCII characters, so a key led by the separator U+001C does not parse |
| Sampling.UnderscoreBetweenDigits | images_to_samples.py:98 | an underscore is accepted by `int()` only between two digits: `"1_"` fails and `"1_0"` parses |
| Policy.Flatten | images_to_samples.py:114 | a value occurs in the flattened window exactly when it occurs in some row |
| Policy.FlattenLength | images_to_samples.py:216-217 | a `rows` x `cols` window flattens to `rows*cols` cells, the `np.sum(count)` of the background share |
| Policy.CountOf | images_to_samples.py:115 | the `bincount` entry of a value is at most the number of cells, and it is 0 exactly when the value is absent |
| Policy.MinOf | images_to_samples.py:216-217 | the first entry of `np.unique` is a value of the window and no value is smaller |
| Policy.MaxOf | images_to_samples.py:274 | `np.max(u)` is a value of the window and no value is larger |
| Policy.Round1 | images_to_samples.py:217 | one-decimal rounding moves a value by at most 0.05 |
| Policy.Round1Monotone | images_to_samples.py:217 | rounding keeps the order of two values |
| Policy.Round1Tenths | images_to_samples.py:217 | a multiple of 0.1 rounds to itself |
| Policy.BackgroundPercent | images_to_samples.py:216-217 | when 0 occurs, the rounded share of the smallest label value (`count[0]` of `np.unique`), 0 otherwise. Its meaning is carried by `BackgroundIsClassZero` |
| Policy.BackgroundIsClassZero | images_to_samples.py:216-217 | with no negative labels, the background percent is class 0's rounded share of the window, and 0 when class 0 is absent |
| Policy.MinimumAnnotatedPercent | images_to_samples.py:102-106 | accept when the background percent is at most `100 - map`. Its meaning on windows is carried by `MinimumAnnotatedExact` |
| Policy.MinimumAnnotatedExact | images_to_samples.py:102-106 | a window whose exact class-0 share is at most `100 - map` is accepted, the bound itself included; a share above `100 - map + 0.05` is rejected |
| Policy.Thresholds | images_to_samples.py:118-119 | the per-class entries are the rule-set entries at position 2 and later, in order; after the `method` and `map` entries they rebuild the whole rule set |
| Policy.MetCount | images_to_samples.py:117-122 | the number of met per-class entries is at most their number, and equals it exactly when every entry is met |
| Policy.ClassProportion | images_to_samples.py:109-125 | accept when the number of met per-class entries is `num_classes + 1`. Its meaning is carried by `MetCount`, `ClassProportionNeedsEveryClass`, `ClassProportionAllMet` and `AbsentClassFails` |
| Policy.ClassProportionNeedsEveryClass | images_to_samples.py:109-125 | a rule set listing fewer than `num_classes + 1` per-class entries rejects every window |
| Policy.ClassProportionAllMet | images_to_samples.py:109-125 | with `num_classes + 1` per-class entries, a window is accepted exactly when every listed class's rounded share reaches its threshold |
| Policy.AbsentClassFails | images_to_samples.py:112-115 | a class absent from the window counts as 0 percent, so it fails any positive threshold |
| Policy.Dispatch | images_to_samples.py:219-272 | both directions of each case. A window is accepted exactly when there is one method and it accepts, or there are two different methods and both accept. It is counted as excluded exactly when the single method rejects, or the first of two accepts and the second rejects. Every other case, including a rejection by the first of two methods or a list of any other length, neither writes nor counts it |
| Accumulate.PixelClasses.AddPixels | images_to_samples.py:142-144 | the loop over the labels present leaves the histogram equal to the reference `AddCounts`: the same classes, each grown by its number of cells in the window (0 when absent). Its sum grows by the window's pixel count |
| Accumulate.TotalAddCounts | images_to_samples.py:142-144 | adding a window grows the histogram's sum by the window's cells whose label is a class |
| Accumulate.TotalGrows | images_to_samples.py:142-144 | when every label of the window is a class, the sum grows by exactly the window's pixel count |
| Accumulate.ComputeClasses | images_to_samples.py:128-146 | it returns true exactly for a `trn` window whose draw is at most `val_percent`, so never for `tst`. The chosen file gains the window in `sat_img`, `map_img` and `meta_idx`; the other file is unchanged; the histogram grows per class, and its sum by the pixel count |
| Tiler.PositionsIn | images_to_samples.py:199-204 | every visited corner pairs a row offset with a column offset |
| Tiler.PositionsLength | images_to_samples.py:199-204 | the loops visit (number of row offsets) x (number of column offsets) corners |
| Tiler.PositionsRow | images_to_samples.py:203-204 | the corners of row `k` follow those of the earlier rows, and are `(rows[k], cols[j])` for every column `j` in order |
| Tiler.PositionsPrefix | images_to_samples.py:203-204 | the corners of the first `k` rows are a prefix of all corners |
| Tiler.PositionAt | images_to_samples.py:203-204 | column `j` of row `k` is visited as the window that follows all windows of the earlier rows |
| Tiler.CornerOf | images_to_samples.py:203-204 | the inner loop's window `(k, j)` is window number `n` of the job, with corner `(rows[k], cols[j])` |
| Tiler.CornersInside | images_to_samples.py:199-204 | every window's corner lies inside the raster |
| Tiler.WindowCountIsCeilProduct | images_to_samples.py:199-204 | the number of windows visited is `ceil(h/d) * ceil(w/d)` |
| Tiler.TargetPixels | images_to_samples.py:205-215 | every padded label window has `size*size` pixels, all non-negative |
| Tiler.OutcomesShape | images_to_samples.py:205-215 | for every window of the job, its label window has `size*size` pixels, all non-negative |
| Tiler.TileLabelsIn | images_to_samples.py:205-215 | every label of a padded window is a raster label or the padding 0, so it is a class of the histogram |
| Tiler.OutcomeLabels | images_to_samples.py:142-144 | when every raster label and 0 are classes, every label of every window is a class, so the histogram update never misses a key |
| Tiler.TestOutcomes | images_to_samples.py:130-137 | a `tst` row never routes a window to the validation file |
| Tiler.RoutedMembers | images_to_samples.py:130-137 | a window is written to a file exactly when it is accepted and its draw routes it there |
| Tiler.RoutedSplit | images_to_samples.py:224-227 | every accepted window goes to exactly one of the two files |
| Tiler.NoValidation | images_to_samples.py:282-283 | when no window is drawn for validation, every accepted window stays in the row's own file |
| Tiler.MaxSeenIsMax | images_to_samples.py:274-276 | the running `num_classes` never falls below its input, is at least every visited window's largest label (accepted or not), and is the input or one of those labels |
| Tiler.AcceptedPixelsCount | images_to_samples.py:111 | when every window has `sq` pixels, the accepted windows hold `sq` times their number |
| Tiler.FileStep | images_to_samples.py:138-140 | writing window `n` to its file, when it is routed there, extends that file by the window's image, its labels and the metadata index |
| Tiler.ReplayFiles | images_to_samples.py:199-272 | after the first `n` windows, each file holds its old contents followed by the windows routed to it, in visiting order, each with the shared metadata index |
| Tiler.ReplayCounters | images_to_samples.py:224-227 | after the first `n` windows, each counter has grown by the number of windows routed to its file |
| Tiler.ReplayClasses | images_to_samples.py:142-144 | after the first `n` windows, every class has grown by its pixels in the accepted windows |
| Tiler.ReplayKeys | images_to_samples.py:143-144 | recording windows never adds or removes a class |
| Tiler.ReplayTotal | images_to_samples.py:142-144 | after the first `n` windows, the histogram's sum has grown by all the pixels of the accepted windows |
| Tiler.ReplayMax | images_to_samples.py:274-276 | after the first `n` windows, `num_classes` is the running maximum of the windows' largest labels |
| Tiler.ReplayMeans | images_to_samples.py:199-276 | the file contents, counters, histogram and `num_classes` after the first `n` windows, all together |
| Tiler.Conclude | images_to_samples.py:199-276 | after all windows: each file holds its routed windows; each counter grew by their number; each class by its pixels; the sum by `size*size` per accepted window; `num_classes` is the largest label seen |
| Tiler.SliceWindow | images_to_samples.py:205-215 | the sliced and conditionally padded windows are exactly the clamped, zero-padded image and label windows at the corner |
| Tiler.Record | images_to_samples.py:222-227 | an accepted window is written through `compute_classes` and raises the counter of the file it went to; `num_classes` rises to the window's largest label either way; the histogram keeps its classes |
| Tiler.ProcessWindow | images_to_samples.py:205-276 | one loop-body pass applies that window's outcome step (slice, pad, background share, dispatch, record) to the files, histogram and counters |
| Tiler.VisitRow | images_to_samples.py:204-276 | the inner loop takes the state from the windows before row `k` to the windows through row `k` |
| Tiler.VisitWindows | images_to_samples.py:199-276 | the two loops take the files, histogram and counters from their start state to the state after every window |
| Tiler.TileRaster | images_to_samples.py:199-276 | after the loops: each file holds its routed windows; the counters grew by their number; the histogram by the accepted pixels (sum `size*size` each); `num_classes` is the maximum label seen |
| Tiler.SamplesPreparation | images_to_samples.py:149-288 | a dataset other than `trn`/`tst` fails before any write. Otherwise the metadata is appended once when present, and every routed window carries its index (-1 when absent). Each file gains exactly its routed windows, and the histogram grows by the accepted pixels. `tst` adds its accepted count to `tst`; `trn` splits its accepted windows between `trn` and `val`. The returned `num_classes` is `max(input, largest label seen)` |

## Left out

- `main` is not part of this model. It covers reading rasters and vectors, S3, creating, flushing and closing HDF5 files, the band-count check and the summary printout. It is I/O and calls into libraries whose behaviour is not visible here.
- HDF5 files are modelled as in-memory sequences (`Store.Dataset`). Resizing a dataset is appending to its sequence.
- The progress bar and its postfix (lines 199-201, 278-280) are display only. So are `added_samples` and `excl_samples` (lines 196-197, 228-272), which feed only that display. Their quirk, that a rejection by the first of two methods is not counted as excluded, is stated by `Policy.Dispatch`'s `Skip` verdict.
- The stride `round(size * (1 - overlap/100))` (line 195) is not computed; the stride is an input of at least 1. A stride of 0, which makes `range` raise, is excluded.
- Floating-point arithmetic is not modelled:
  - Percentages are exact rationals `count*100/total`.
  - `round(x, 1)` is round-half-to-even on that exact value.
  - Python's binary representation error is not modelled.
- Policy.MinimumAnnotatedExact: does not decide shares within 0.05 above `100 - map`; whether such a share is accepted depends on the rounding.
- Pixel values are integers. Floating-point image bands are not modelled.
- The label raster is taken as two-dimensional: the `squeeze` of its single band (line 206) is not modelled.
- The random number generator is not modelled. Each window carries a draw in 1..99 (`np.random.randint(1, 100)`, line 132) as an input, and it is used only when that window is an accepted `trn` window.
- The metadata list and its `repr` (line 193) are inputs: the list, for its truthiness, and its printed text.
- Validation of the rule set (`check_sampling_dict`) is assumed before tiling. The tiling methods require a well-formed rule set whose lookups succeed (`Policy.Ready`).
- Failures are excluded by preconditions instead of being modelled:
  - the `KeyError` of a label outside the histogram (line 144);
  - the `KeyError` of a class key outside `0..num_classes` (line 119);
  - the `bincount` error on a negative label (lines 115, 144);
  - the `TypeError` of a per-class threshold that is not a number or a bool (a string, `None` or a list), raised by the comparison `prop_classes[key] >= value` (line 119) on every window that reaches `class_proportion`. `check_sampling_dict` does not inspect these values, so such a rule set passes validation; the model requires every per-class threshold to be a number or a bool (`Policy.IsThreshold`).
  Every raster label, and 0, must be a histogram class; labels must be non-negative.
  - With negative labels the code's background percent would be the share of the smallest label, not of class 0. `Policy.BackgroundPercent` computes exactly that, and `Policy.BackgroundIsClassZero` shows the two agree under the precondition.
- Python's `int()` of non-ASCII decimal digits (which it accepts), and rule-set keys that are not strings, are not modelled. Keys written with such digits are modelled as refused.
- `samples_count` is a dictionary that `samples_preparation` updates in place and also returns (lines 282-288). The model returns the updated counts as a new `Counts` value. The caller's dictionary being the same object is not modelled.
- Tiler.SamplesPreparation: does not model the error message's wording. The source's message names `trn or val` although `tst` is the other accepted value; the model reports the rejected name only.
- The module-global `params` is passed in explicitly, as the rule set, `num_classes` and the sample size.

## Findings

The model's pixel values are integers, so the docstring's `x2` is taken with every value times 10.

| source | as written | input that shows it | evidently intended | confidence | as-written member | corrected member |
|---|---|---|---|---|---|---|
| images_to_samples.py:31-37 | the docstring of `mask_image` prints `[11., 1.1]` at cell `[1][0]` of the result | the docstring's own `x1` and `x2`, where `x1[1][0][0] == 0` | the code at lines 41-53 clears that cell to `[0., 0.]`, and the code is what the rest of the program relies on, so the printed result should show `[0., 0.]` there | high; not executed | Mask.DocShownDiffers | Mask.DocResult |
