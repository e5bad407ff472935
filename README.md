# Fixed-focus beamforming of the Field II beamformation toolbox, in Dafny

This project models the fixed-focus core of `beamform.c` in the Field II
beamformation toolbox (`bft_64bit`):

- the schedule cursor. Every fixed-focus routine walks a time-ordered table of
  delay zones (and of apodization zones) with a forward-only cursor
  `id`/`ind`, where `ind == id + 1`. An initial scan and a one-step check for
  each output sample move it.
- `beamform_line_times` and `beamform_apo_line_times`. They focus one line of
  receive data `rf[element][sample]` with per-element delays, linear
  interpolation fractions and (in the second) apodization weights.
- `apodize_fix`. It scales a data set `rf[sample][channel]` in place by the
  weights of a single apodization zone.
- the synthetic-aperture combination. `sum_lines_time` builds a
  high-resolution line from two low-resolution lines.
  `add_lines_time`, `add_apo_lines_time`, `sub_lines_time` and
  `sub_apo_lines_time` add a low-resolution line's contribution to a
  high-resolution buffer in place, or take it out again. `sum_images`,
  `add_images` and `sub_images` apply them line by line.
- the validation and routine selection of `beamform_image`. It decides which
  line routine each line goes to. With several lines it runs one thread per
  line, and each thread writes only its own slot. Here a loop over the lines
  does the same work.

Sample values, fractions and weights are `real`: interpolation is exact and
the add/sub round trip holds exactly. Indexes are `int`. The unsigned tests
of the C code become the index ranges they implement. For example,
`(is1-1) < no_samples` with an unsigned `is1` becomes `1 <= is1 <= no_samples`.
The absolute index of the first output sample is a parameter `o0`. It stands
for `floor(time*fs)` in the beamformers and `time*fs` truncated in the
combination routines. An `abort()` becomes a precondition, and a NULL result
becomes `None` (or a `Null` slot).

Modules, one per file:

- `Schedules` (`schedules.dfy`): zones, time lines, and the coverage
  predicates. These include the sentinel zone that closes every table.
- `Cursor` (`cursor.dfy`): the cursor as functions (`Scan`, `Advance`,
  `CursorAt`, `CursorBefore`), as the methods the loops run
  (`FindFirstSegment`, `Check`), and lemmas about it.
- `FixedFocus` (`fixed_focus.dfy`): the two line beamformers and
  `apodize_fix`.
- `SyntheticAperture` (`synthetic_aperture.dfy`): sum, add and subtract, for
  lines and for images.
- `ImageAssembly` (`image.dfy`): `beamform_image`.

Every line routine is a method. It is proved to return or leave exactly what
a specification function of its inputs gives, and the properties are proved
about those functions.

Three behaviours of the code are worth stating, because they follow from
its exact tests rather than from a general rule:

- `beamform_line_times` does not force its last output sample to zero. It
  takes the raw sample when the delayed index is 0 (`beamform.c:81`) and
  interpolates when the index is below `no_samples-1` (`beamform.c:84`), so
  a delayed element can still reach the last sample. `PlainLastSampleExample`
  shows the line `[0, 1, 2]`. The apodized routine, in contrast, sets
  `bf_line[no_samples-1]` to 0 (`beamform.c:193`) and never writes it again
  (`ApoLastSampleExample`).
- The cursor moves to a zone only once the absolute sample is strictly
  past its start (`o_abs_s > ftl->delay[ind].time`, `beamform.c:72`). So at
  a sample equal to a zone's start, the previous zone is still in use
  (`ActiveZoneIsLatestStarted`).
- For two elements, zero delays, zero fractions and rows `[1, 2, 3, 4]` and
  `[5, 6, 7, 8]`, the plain routine gives `[6, 8, 10, 0]`
  (`PairPlainExample`). The apodized routine with unit weights has no
  raw-sample case at index 0 and gives `[0, 8, 10, 0]` (`PairApoExample`).

## Model

| member | source | states |
|---|---|---|
| Cursor.Scan | Field_II_Scripts/bft_64bit/c/beamform.c:62 | the initial scan stops at the first index at or after its start whose zone does not start before the first absolute sample; every index it passes starts before it |
| Cursor.FindFirstSegment | Field_II_Scripts/bft_64bit/c/beamform.c:54-62 | the scan loop as run: `ind == id + 1`, `delay[ind].time >= o_abs_s`, and every zone from 1 to `ind-1` starts before `o_abs_s` |
| Cursor.ScanIsLeast | Field_II_Scripts/bft_64bit/c/beamform.c:62 | any index with the scan loop's exit properties is the scan's result, which ties the loop to `Scan` |
| Cursor.Check | Field_II_Scripts/bft_64bit/c/beamform.c:72-77 | the in-loop check moves the cursor one zone exactly when the absolute sample is past zone `ind`'s start, keeps `ind == id + 1`, and leaves the cursor where the next sample's check expects it |
| Cursor.CursorAt | Field_II_Scripts/bft_64bit/c/beamform.c:62-77 | the cursor after the check for output sample `os` stays inside the table, between 1 and its last index |
| Cursor.CursorBefore | Field_II_Scripts/bft_64bit/c/beamform.c:62-77 | the cursor before the check for sample `os` is the scan's result for the first sample and the previous cursor otherwise, and stays inside the table |
| Cursor.FirstCheckKeepsScan | Field_II_Scripts/bft_64bit/c/beamform.c:62-77 | the check for the first output sample never moves the cursor the scan left |
| Cursor.CursorMonotone | Field_II_Scripts/bft_64bit/c/beamform.c:69-77 | `id` never decreases, and over `j - i` samples it moves at most `j - i` zones |
| Cursor.CursorIsLookup | Field_II_Scripts/bft_64bit/c/beamform.c:54-77 | with strictly increasing zone starts, the incremental cursor equals a fresh scan from the current absolute sample: one step per sample never lags |
| Cursor.ActiveZoneIsLatestStarted | Field_II_Scripts/bft_64bit/c/beamform.c:54-77 | the zone in use is the last one that started strictly before the absolute sample, and no later zone starts before it |
| FixedFocus.LineTimes | Field_II_Scripts/bft_64bit/c/beamform.c:35-93 | the line beamform_line_times returns has `no_samples` samples, each the element sum in the zone the cursor is in |
| FixedFocus.PlainSampleSum | Field_II_Scripts/bft_64bit/c/beamform.c:78-89 | the element loop accumulates each element's term in element order: the raw sample at index 0, the interpolation for indexes 1 to n-2, and nothing elsewhere |
| FixedFocus.PlainSampleInZone | Field_II_Scripts/bft_64bit/c/beamform.c:72-89 | reading the delays of zone `id` after the check gives exactly sample `os` of the specified line |
| FixedFocus.BeamformLineTimes | Field_II_Scripts/bft_64bit/c/beamform.c:35-93 | a fresh buffer holding exactly `LineTimes` of the inputs |
| FixedFocus.ApoLineTimes | Field_II_Scripts/bft_64bit/c/beamform.c:144-222 | the apodized line: the plain line when the apodization table is empty; otherwise `n` samples whose last one is 0 |
| FixedFocus.ApoSampleSum | Field_II_Scripts/bft_64bit/c/beamform.c:210-218 | the element loop accumulates weight times interpolation for each element whose compensated index is in `[1, n-1]` |
| FixedFocus.ApoSampleInZones | Field_II_Scripts/bft_64bit/c/beamform.c:196-218 | reading zone `id` and apodization zone `ia` after both checks gives exactly sample `os` of the apodized line |
| FixedFocus.FillApodized | Field_II_Scripts/bft_64bit/c/beamform.c:190-219 | after `no_samples--`, the sample loop leaves the last sample 0 and every other sample equal to the apodized element sum |
| FixedFocus.BeamformApoLineTimes | Field_II_Scripts/bft_64bit/c/beamform.c:144-222 | a fresh buffer holding exactly `ApoLineTimes`; on an empty apodization table, the plain routine's line |
| FixedFocus.ApodizeFix | Field_II_Scripts/bft_64bit/c/beamform.c:106-126 | with exactly one apodization zone, every `rf[s][ic]` with `s < no_samples` and `ic < no_channels` is multiplied by `a[ic]`; every other entry, and all of them when the zone count is not 1, is unchanged; the same array is returned |
| FixedFocus.LineUsesLatestZone | Field_II_Scripts/bft_64bit/c/beamform.c:54-89 | with strictly increasing zone starts, each sample is the element sum in the zone a fresh search for its absolute sample finds |
| FixedFocus.UnitWeightSumMatchesPlain | Field_II_Scripts/bft_64bit/c/beamform.c:78-89 | with unit weights, and no compensated index at 0 or n-1, the apodized element sum equals the plain one (the apodized element loop is at lines 210-218) |
| FixedFocus.UnitApodizationMatchesPlain | Field_II_Scripts/bft_64bit/c/beamform.c:144-222 | under the same conditions, the apodized routine's sample equals the plain routine's sample (the plain routine is at lines 35-93) |
| FixedFocus.PlainTermAdditive | Field_II_Scripts/bft_64bit/c/beamform.c:80-88 | one element's plain term is linear in the receive row |
| FixedFocus.ApoTermAdditive | Field_II_Scripts/bft_64bit/c/beamform.c:212-217 | one element's apodized term is linear in the receive row |
| FixedFocus.PlainSumAdditive | Field_II_Scripts/bft_64bit/c/beamform.c:78-89 | the plain element sum of summed data is the sum of the element sums |
| FixedFocus.ApoSumAdditive | Field_II_Scripts/bft_64bit/c/beamform.c:210-218 | the apodized element sum of summed data is the sum of the element sums |
| FixedFocus.LineTimesAdditive | Field_II_Scripts/bft_64bit/c/beamform.c:35-93 | beamform_line_times is linear: beamforming summed data gives the sum of the beamformed lines |
| FixedFocus.ApoLineTimesAdditive | Field_II_Scripts/bft_64bit/c/beamform.c:144-222 | beamform_apo_line_times is linear in the same way |
| FixedFocus.ZeroDelayPassesRowThrough | Field_II_Scripts/bft_64bit/c/beamform.c:78-89 | one element with zero delays and fractions reproduces its row, except the last sample (when n > 1), which is 0 |
| FixedFocus.PlainLastSampleExample | Field_II_Scripts/bft_64bit/c/beamform.c:78-89 | a one-sample delay on the row [1, 2, 3] gives [0, 1, 2]: the plain routine's last sample is not cleared |
| FixedFocus.ApoLastSampleExample | Field_II_Scripts/bft_64bit/c/beamform.c:190-218 | the same input through the apodized routine gives [0, 0, 0] |
| FixedFocus.PairPlainExample | Field_II_Scripts/bft_64bit/c/beamform.c:66-90 | two elements, zero delays and fractions, rows [1,2,3,4] and [5,6,7,8], give [6, 8, 10, 0] |
| FixedFocus.PairApoExample | Field_II_Scripts/bft_64bit/c/beamform.c:190-218 | the same input with unit weights gives [0, 8, 10, 0] through the apodized routine |
| SyntheticAperture.ElementGuardAdmitsOnePastTheEnd | Field_II_Scripts/bft_64bit/c/beamform.c:766 | for every focus table holding one delay and one fraction per element, the check `element > no_elements` accepts exactly one element the intended check refuses, element `no_elements`, and no zone has an entry for it |
| SyntheticAperture.ElementInRangeReadsInside | Field_II_Scripts/bft_64bit/c/beamform.c:766-771 | an element below `no_elements` has a delay, a fraction and a weight in every zone of covering tables |
| SyntheticAperture.SumLine | Field_II_Scripts/bft_64bit/c/beamform.c:734-818 | the summed line (with element2's fraction read from the start) has `n` samples, and its last sample is the 0 from the allocation |
| SyntheticAperture.SumLineAsWritten | Field_II_Scripts/bft_64bit/c/beamform.c:783-814 | the summed line as written, with the second line's fraction read from element1 until the delay cursor first moves, has `n` samples |
| SyntheticAperture.SumLineSymmetric | Field_II_Scripts/bft_64bit/c/beamform.c:734-818 | the corrected sum does not depend on which line is passed first |
| SyntheticAperture.SumAsWrittenDependsOnOrder | Field_II_Scripts/bft_64bit/c/beamform.c:785 | as written, the example's sample 1 is 4 in one argument order and 3 in the other; the corrected sum gives 3.5 |
| SyntheticAperture.SumLinesTime | Field_II_Scripts/bft_64bit/c/beamform.c:734-818 | a fresh buffer holding exactly `SumLine` |
| SyntheticAperture.FillSum | Field_II_Scripts/bft_64bit/c/beamform.c:775-815 | on a zero-initialised buffer, the last sample stays 0 and every other sample is the sum of both windowed, weighted terms |
| SyntheticAperture.SumSampleInZones | Field_II_Scripts/bft_64bit/c/beamform.c:795-814 | reading both elements' delays, fractions and weights after the checks gives exactly sample `os` of the sum |
| SyntheticAperture.Contribution | Field_II_Scripts/bft_64bit/c/beamform.c:1125-1175 | what add_lines_time adds covers samples 0 to n-2 |
| SyntheticAperture.ApoContribution | Field_II_Scripts/bft_64bit/c/beamform.c:1048-1118 | what add_apo_lines_time adds covers samples 0 to n-2 |
| SyntheticAperture.Added | Field_II_Scripts/bft_64bit/c/beamform.c:1171-1172 | a buffer with a contribution added has the buffer's length |
| SyntheticAperture.Subtracted | Field_II_Scripts/bft_64bit/c/beamform.c:1281 | a buffer with a contribution taken away has the buffer's length |
| SyntheticAperture.SubtractUndoesAdd | Field_II_Scripts/bft_64bit/c/beamform.c:1357 | taking a contribution away after adding it restores the buffer exactly, and so does adding after taking away (the addition is at line 1114) |
| SyntheticAperture.AddsCommute | Field_II_Scripts/bft_64bit/c/beamform.c:1211-1220 | adding two low-resolution lines in either order gives the same buffer |
| SyntheticAperture.AddedNothing | Field_II_Scripts/bft_64bit/c/beamform.c:1163 | before the first sample nothing is added |
| SyntheticAperture.SubtractedNothing | Field_II_Scripts/bft_64bit/c/beamform.c:1272 | before the first sample nothing is taken away |
| SyntheticAperture.AddedPrefixStep | Field_II_Scripts/bft_64bit/c/beamform.c:1172 | adding one more sample of a contribution changes that sample of the buffer only |
| SyntheticAperture.SubtractedPrefixStep | Field_II_Scripts/bft_64bit/c/beamform.c:1281 | taking away one more sample changes that sample only |
| SyntheticAperture.AddSample | Field_II_Scripts/bft_64bit/c/beamform.c:1172 | `hi_res[os] += v` extends the added prefix of the contribution by sample `os` (also line 1114) |
| SyntheticAperture.SubtractSample | Field_II_Scripts/bft_64bit/c/beamform.c:1281 | `hi_res[os] -= v` extends the subtracted prefix by sample `os` (also line 1357) |
| SyntheticAperture.ContributionWindow | Field_II_Scripts/bft_64bit/c/beamform.c:1169-1172 | a sample whose compensated index is outside `[1, n-2]` gets nothing |
| SyntheticAperture.UnitWeightContribution | Field_II_Scripts/bft_64bit/c/beamform.c:1110-1114 | with unit weights, the apodized contribution equals the plain one (the plain term is at lines 1169-1172) |
| SyntheticAperture.SumIsTwoAdds | Field_II_Scripts/bft_64bit/c/beamform.c:808-814 | a summed sample equals the two apodized contributions it combines, unless a compensated index is n-1, which only the sum's window holds (the added term is at lines 1110-1114) |
| SyntheticAperture.LoSampleInZone | Field_II_Scripts/bft_64bit/c/beamform.c:1164-1172 | the term add/sub_lines_time computes after the check is exactly the contribution's sample `os` |
| SyntheticAperture.ApoLoSampleInZones | Field_II_Scripts/bft_64bit/c/beamform.c:1100-1114 | the weighted term after both checks is exactly the weighted contribution's sample `os` |
| SyntheticAperture.AddLinesTime | Field_II_Scripts/bft_64bit/c/beamform.c:1125-1175 | `hi_res` becomes its old contents with the contribution added to samples 0 to n-2; nothing else changes |
| SyntheticAperture.SubLinesTime | Field_II_Scripts/bft_64bit/c/beamform.c:1234-1285 | `hi_res` becomes its old contents with the contribution taken away; nothing else changes |
| SyntheticAperture.AddApoLinesTime | Field_II_Scripts/bft_64bit/c/beamform.c:1048-1118 | `hi_res` becomes its old contents with the weighted contribution added; nothing else changes |
| SyntheticAperture.SubApoLinesTime | Field_II_Scripts/bft_64bit/c/beamform.c:1292-1361 | `hi_res` becomes its old contents with the weighted contribution taken away; nothing else changes |
| SyntheticAperture.AddThenSubtract | Field_II_Scripts/bft_64bit/c/beamform.c:1343-1359 | sub_apo_lines_time after add_apo_lines_time with the same arguments restores `hi_res` (the addition is at lines 1099-1116) |
| SyntheticAperture.AddSubFrame | Field_II_Scripts/bft_64bit/c/beamform.c:1161-1173 | samples from n-1 on, and samples whose compensated index is outside `[1, n-2]`, are the same after adding or taking away (and the same loop in sub_lines_time, lines 1270-1283) |
| SyntheticAperture.SumImage | Field_II_Scripts/bft_64bit/c/beamform.c:825-860 | no image when the counts differ or are zero; otherwise one line of `n` samples per focus line |
| SyntheticAperture.SumImageSymmetric | Field_II_Scripts/bft_64bit/c/beamform.c:825-860 | the corrected image sum does not depend on which image is passed first |
| SyntheticAperture.SumImages | Field_II_Scripts/bft_64bit/c/beamform.c:825-860 | NULL exactly when the counts differ or are zero; otherwise line i is a fresh buffer holding line i of `SumImage` |
| SyntheticAperture.LineContribution | Field_II_Scripts/bft_64bit/c/beamform.c:1214-1220 | the contribution a line gets covers samples 0 to n-2; it is the weighted one exactly when the line's apodization table is non-empty |
| SyntheticAperture.AddLine | Field_II_Scripts/bft_64bit/c/beamform.c:1214-1220 | a line's buffer gets that line's contribution added through the routine its table selects |
| SyntheticAperture.SubLine | Field_II_Scripts/bft_64bit/c/beamform.c:1393-1399 | a line's buffer gets that line's contribution taken away through the routine its table selects |
| SyntheticAperture.AddImages | Field_II_Scripts/bft_64bit/c/beamform.c:1182-1222 | every high-resolution line `i` below the focus-line count becomes its old contents plus its own contribution; a count mismatch is only reported |
| SyntheticAperture.SubImages | Field_II_Scripts/bft_64bit/c/beamform.c:1368-1401 | every high-resolution line becomes its old contents minus its contribution; there is no focusing-mode check |
| SyntheticAperture.AddThenSubtractImage | Field_II_Scripts/bft_64bit/c/beamform.c:1368-1401 | sub_images after add_images with the same arguments restores every high-resolution line (add_images is at lines 1182-1222) |
| ImageAssembly.RouteFor | Field_II_Scripts/bft_64bit/c/beamform.c:863-890 | a dynamic line goes to a dynamic routine, otherwise a pixel line to a pixel routine, otherwise to a fixed routine; the apodized variant is the one asked for (the single-line dispatch at lines 944-966 is the same) |
| ImageAssembly.SelectRoutes | Field_II_Scripts/bft_64bit/c/beamform.c:913-1031 | no routes exactly when the counts differ or are zero; otherwise one route per line |
| ImageAssembly.MaxApoTimes | Field_II_Scripts/bft_64bit/c/beamform.c:969-971 | the result bounds every line's zone count and is one of them (or 0); it is positive exactly when some line has apodization |
| ImageAssembly.BeamformedImage | Field_II_Scripts/bft_64bit/c/beamform.c:897-1036 | no image exactly when the counts differ or are zero, in either direction; otherwise one slot per line |
| ImageAssembly.RouteFollowsMode | Field_II_Scripts/bft_64bit/c/beamform.c:940-1028 | each route follows the line's flags; sta is set when an element is given or `element_no < 64000`; pixel routines get `element_no` for one line and -1 for several; the apodized variant follows the single line's own table, or with several lines whether any table is non-empty |
| ImageAssembly.ApodizedTableTakesApoRoute | Field_II_Scripts/bft_64bit/c/beamform.c:945-988 | a line with a non-empty apodization table always goes to an apodized routine |
| ImageAssembly.EmptyTableFixedLineIsPlain | Field_II_Scripts/bft_64bit/c/beamform.c:164-166 | a fixed line without apodization gets the plain line, even when another line sends every line to the apodized routine (reached through lines 872-874 when line 988 picks the apodized threads) |
| ImageAssembly.ApodizedFixedLine | Field_II_Scripts/bft_64bit/c/beamform.c:961-966 | a fixed line with apodization gets the apodized line (with several lines, lines 872-874) |
| ImageAssembly.RefusedExactly | Field_II_Scripts/bft_64bit/c/beamform.c:274-279 | a slot is NULL exactly when the image has several lines, some table is non-empty, and this line is dynamic with an empty table (and lines 442-447, reached through lines 865-869 when line 988 picks the apodized threads) |
| ImageAssembly.BeamformRoutedLine | Field_II_Scripts/bft_64bit/c/beamform.c:863-890 | the slot a route's routine fills holds that route's outcome; computed lines go in fresh buffers |
| ImageAssembly.BeamformImage | Field_II_Scripts/bft_64bit/c/beamform.c:897-1036 | NULL exactly when the counts differ or are zero, including more focus lines than apodization lines; otherwise one slot per line, slot i holding what `BeamformedImage` gives for line i, each computed slot a fresh buffer of its own, distinct from every other slot's |

## Left out

- The dynamic-focus and pixel-focus line routines (`beamform_line_dynamic`,
  `beamform_apo_line_dynamic`, their `_sta` variants, `beamform_line_pixels`
  and `beamform_apo_line_pixels`) are not modelled. They work in
  floating-point geometry (`tan`, `sqrt`, a distance function in a header
  that is not part of this model, `floor` of real indexes). `beamform_image`
  routes lines to them, and their slots are `NotComputed(route)`. Only the
  NULL the apodized dynamic routines return on an empty table is modelled.
- Threads (`pthread_create`/`pthread_join`, the copied `BFT_ThreadData`) are
  replaced by a loop over the lines. Each thread writes only its own slot,
  so the order does not matter.
- `printf`, `mexErrMsgTxt` and `abort` are left out. Aborts are
  preconditions; messages that do not stop the routine (the count checks of
  `add_images` and `sub_images`) have no effect in the model.
- Allocation failure is left out. The NULL check on the image's pointer
  array, and the `assert` after `calloc`, are not modelled; buffers are fresh
  arrays.
- The conversion of `time` to `o_abs_s` is left out: `o0` is a parameter, as
  are the sampling frequency and `time`.
- 32-bit wrap-around is left out. The unsigned window tests are modelled as
  the ranges they implement. Casting a negative delay-compensated `double` to
  `ui32` (in `sum_lines_time` and the add/sub routines, where the delays are
  `double`) is undefined in C; the model takes the intended range test.
- Floating point is left out: samples are `real`, so rounding, NaN and the
  sign of zero are not modelled. The add/sub methods add 0 to a sample
  outside the window instead of skipping it, which over the reals is the
  same.
- `hi_res` buffers and the `rf` row arrays are modelled so that they cannot
  alias the data they are computed from. Low-resolution lines and receive
  data are sequence values; the buffers of `add_images`/`sub_images` are
  required to be distinct.
- `SyntheticAperture.AddImages`: does not model two lines sharing one
  high-resolution buffer, because the buffers are required to be distinct.
- `FixedFocus.ApodizeFix`: the data set is one two-dimensional array; row
  pointers that alias each other are not modelled.
- The zone tables carry a sentinel zone that starts at or after the absolute
  index past the last output sample (`HasSentinel`). Reads beyond the table
  are undefined in C, so this is a precondition.
- `FixedFocus.ApoLineInputs` and the combination routines require
  `no_samples >= 1`: they decrement `no_samples` and write or loop up to
  it, which with 0 would wrap around.
- The element-range check is modelled as evidently intended
  (`element < no_elements`; see Findings), not as written.
- `sum_lines_time` is modelled with the second line's initial fraction read
  from element2, as evidently intended (see Findings); the code as written
  is `SyntheticAperture.SumLineAsWritten`.
- `types.h`, `error.h` and the structure definitions of `beamform.h` are not
  part of this model. Only the fields the core reads are reconstructed.

## Findings

| source | as written | input that shows it | evidently intended | confidence | as-written member | corrected member |
|---|---|---|---|---|---|---|
| Field_II_Scripts/bft_64bit/c/beamform.c:785 | `A2 = ftl->delay[id].a[element1]`: until the delay cursor first moves, the second line is interpolated with element1's fraction | two elements with fractions 0 and 0.5, zero delays, unit weights, both lines [1, 2, 3], n = 3: sample 1 is 4 for (element 0, element 1) and 3 for (element 1, element 0) | `a[element2]`, as in the in-loop update at line 799; the sum is then symmetric (3.5 here) | not executed | SyntheticAperture.SumLineAsWritten, SyntheticAperture.SumAsWrittenDependsOnOrder | SyntheticAperture.SumLine, SyntheticAperture.SumLineSymmetric |
| Field_II_Scripts/bft_64bit/c/beamform.c:766 | `element > no_elements` aborts, so element `no_elements` passes; the same check is at lines 1076, 1144, 1252 and 1320 | `element == no_elements` with zones holding one delay per element: the routine reads `d[no_elements]`, past the end | `element >= no_elements` aborts, so that indexes run 0 to `no_elements-1` | not executed | SyntheticAperture.ElementAcceptedAsWritten, SyntheticAperture.ElementGuardAdmitsOnePastTheEnd | SyntheticAperture.ElementInRange, SyntheticAperture.ElementInRangeReadsInside |
