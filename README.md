# pyccd observation qualification and result consolidation, in Dafny

This project models two parts of pyccd, a per-pixel land-cover change
detector for satellite time series.

- **Observation qualification** (`ccd/qa.py`, module `Qa` in `qa.dfy`).
  Each observation carries a bit-packed QA code. The code is decoded to one
  QA offset under the priority fill > cloud > shadow > snow > water > clear.
  The decoded labels give label masks, counts and the clear/snow ratios that
  choose a procedure. The saturation, thermal and median-green range filters
  and the first-occurrence duplicate-date mask are combined into the three
  filtering procedures: standard, snow and insufficient-clear.
- **Result consolidation and resume** (`ccd/models/__init__.py`, module
  `Models` in `models.dfy`). Seven per-band fits and six segment scalars are
  packed into a change-model record. A previous run's segments are sorted by
  start day, and the trailing unconfirmed "end fits" (change probability 0)
  are trimmed.

`bool_masks.dfy` (module `BoolMasks`) gives numpy's boolean-array operations
as Dafny functions: element-wise `&`, `|` and `~`, `numpy.sum` of a mask
(`Count`), boolean indexing `xs[m]` (`Select`), and the in-place write
`m[m] = vals` (`Scatter`, `AssignSelected`).

How the model is shaped:
- Observations are band-major, `observations[b][i]`. Quality values, dates and
  masks are sequences. A QA code is a `nat`.
- The six QA offsets, the thermal and green row indices and the median-green
  filter range, which the source takes from `ccd.app.params`, are fields of a
  `Params` record. It is passed to the operations that read them. The clear
  and snow thresholds, also `ccd.app.params` defaults, are the `threshold`
  argument of `EnoughClear` and `EnoughSnow`. The label masks, the range
  filters and the duplicate mask take no `Params`: the label offset, the
  thermal bounds and the green range are plain arguments, and the saturation
  bound 10000 is a constant.
- The duplicate mask and the procedures write into arrays in place, as the
  source does. They hand back the final mask as a sequence.
- `qabitval`'s `ValueError` is the `Err(UnsupportedQa(code))` result.
- `results_fromprev`'s reverse loop with `continue` and early returns is a
  `while` loop with the same exits. Python's stable `sorted` is a stable
  insertion sort (`SortByStart`).

## Model

| member | source | states |
|---|---|---|
| `Qa.Pow2` | ccd/qa.py:20 | `1 << offset` is positive; which bit it sets is stated by `CheckBitPow2` |
| `Qa.BitAnd` | ccd/qa.py:22 | `a & b` on non-negative integers is at most each operand; its value against a single-bit operand `1 << k` (the only `&`, at line 22) is stated by `BitAndPow2` |
| `Qa.CheckBit` | ccd/qa.py:9-22 | `(packedint & (1 << offset)) > 0` holds exactly when bit `offset` of the code is set, `(x / 2^k) % 2 == 1` |
| `Qa.BitAndPow2` | ccd/qa.py:20-22 | `x & (1 << k)` is `1 << k` when bit k of x is set and 0 otherwise |
| `Qa.CheckBitPow2` | ccd/qa.py:20-22 | the code `1 << o` has bit j set iff j == o |
| `Qa.QaBitVal` | ccd/qa.py:25-59 | decodes iff one of the six configured bits is set; the result is the first set offset in the order fill, cloud, shadow, snow, water, clear; fill wins whatever else is set; otherwise the error names the code |
| `Qa.OneConfiguredBitCode` | ccd/qa.py:46-57 | a code with exactly one of the six configured bits set decodes to the offset owning that bit, whatever unconfigured bits it also carries (e.g. 322 with clear at bit 1) |
| `Qa.SingleBitCode` | ccd/qa.py:46-57 | with distinct offsets, the code `1 << o` of a configured offset o decodes to o |
| `Qa.UnpackQa` | ccd/qa.py:62-73 | succeeds iff every code decodes; then it has the same length and element i is the decoding of code i; otherwise the error is that of the first code that fails |
| `Qa.MaskLabel` | ccd/qa.py:76-133 | mask_snow / clear / water / fill: same length, true exactly where the decoded value equals the offset |
| `Qa.MaskClearOrWater` | ccd/qa.py:136-148 | true exactly where the value is the clear or the water offset |
| `Qa.CountClearOrWater` | ccd/qa.py:173-182 | the sum of the clear and water counts; with distinct clear and water offsets this is the size of the clear-or-water mask |
| `Qa.CountFill` | ccd/qa.py:185-194 | at most the length; zero iff no value is fill |
| `Qa.CountSnow` | ccd/qa.py:197-208 | at most the length; zero iff no value is snow |
| `Qa.CountTotal` | ccd/qa.py:211-222 | the non-fill count is the length minus the fill count |
| `Qa.ClearOrWaterWithinTotal` | ccd/qa.py:173-222 | with distinct offsets, clear-or-water never exceeds the non-fill count |
| `Qa.RatioClear` | ccd/qa.py:225-236 | for a series with a non-fill observation: non-negative, zero iff there is no clear-or-water observation, at most 1 with distinct offsets |
| `Qa.RatioSnow` | ccd/qa.py:239-253 | always defined, in [0, 1), and zero iff there is no snow observation |
| `Qa.EnoughClear` | ccd/qa.py:256-269 | true iff clear-or-water >= threshold × non-fill count, i.e. ratio_clear >= threshold |
| `Qa.EnoughSnow` | ccd/qa.py:272-284 | true iff snow >= threshold × (clear-or-water + snow + 0.01), i.e. ratio_snow >= threshold |
| `Qa.SnowDenominator` | ccd/qa.py:251-253 | the smoothed denominator is at least 0.01 and larger than the snow count |
| `Qa.FilterMedianGreen` | ccd/qa.py:287-301 | same length, true exactly where green < median(green) + filter range |
| `Qa.MedianGreenKeepsHalf` | ccd/qa.py:299-301 | with a positive range and a median that has at least half the values at or below it, at least half of the values pass |
| `Qa.FilterSaturated` | ccd/qa.py:304-320 | true at column i iff each of rows 0..5 lies strictly inside (0, 10000) |
| `Qa.FilterThermalCelsius` | ccd/qa.py:323-337 | true iff the thermal value is strictly inside (min, max) |
| `Qa.FirstOccurrences` | ccd/qa.py:151-170 | the duplicate mask has the input's length, and its true positions carry pairwise distinct values |
| `Qa.MaskDuplicateValues` | ccd/qa.py:151-170 | an all-false mask with position i switched on iff no earlier position holds the same value |
| `Qa.FirstOccurrencesCount` | ccd/qa.py:167-168 | the number of true positions equals the number of distinct values |
| `Qa.KeepFirstDates` | ccd/qa.py:362-364 | deduplicating inside a selection keeps a subset of it, and the kept positions have pairwise distinct dates |
| `Qa.KeepFirstDatesCovers` | ccd/qa.py:362-364 | every date at a selected position is kept at or before that position, so each selected date is kept exactly once, at its first selected occurrence |
| `Qa.KeepFirstDatesIsScatter` | ccd/qa.py:362-364 | `mask[mask] = mask_duplicate_values(dates[mask])` computes exactly that first-occurrence-within-the-selection mask |
| `Qa.KeepFirstDatesOfDistinct` | ccd/qa.py:422-423 | a selection whose dates are already distinct is left unchanged |
| `Qa.KeepFirstDatesIdempotent` | ccd/qa.py:420-423 | deduplicating a second time changes nothing |
| `BoolMasks.Count` | ccd/qa.py:194 | `numpy.sum` of a boolean array (also lines 182, 208, 222): at most its length, and zero iff no entry is true |
| `BoolMasks.And` | ccd/qa.py:358-360 | element-wise `&` (also lines 314-319, 336-337, 387-389, 420): same length, true exactly where both are true |
| `BoolMasks.Or` | ccd/qa.py:148 | element-wise `\|` (also line 389): same length, true exactly where either is true |
| `BoolMasks.Not` | ccd/qa.py:222 | element-wise `~`: same length, true exactly where the input is false |
| `BoolMasks.Select` | ccd/qa.py:362 | boolean indexing `xs[m]` (also lines 391, 418, 422): as many elements as `m` has true entries; `SelectAt` and `SelectContains` state which |
| `BoolMasks.Scatter` | ccd/qa.py:364 | the mask `m[m] = vals` leaves (also lines 393, 420, 423): the length of `m`; `ScatterAt` states each position |
| `BoolMasks.SelectAt` | ccd/qa.py:362 | the element `dates[mask]` takes from selected position i is found at rank count(mask[..i]) |
| `BoolMasks.SelectContains` | ccd/qa.py:362 | a value occurs in `dates[mask]` iff it sits at some selected position |
| `BoolMasks.ScatterAt` | ccd/qa.py:364 | after `mask[mask] = vals`, selected position i holds `vals[count(mask[..i])]` and unselected positions are false |
| `BoolMasks.AssignSelected` | ccd/qa.py:364 | the in-place `mask[mask] = vals` leaves the scattered mask |
| `BoolMasks.CountNot` | ccd/qa.py:222 | `sum(~m)` is the length minus `sum(m)` |
| `BoolMasks.CountOrDisjoint` | ccd/qa.py:182 | the count of a union of disjoint masks is the sum of their counts |
| `Qa.DedupeSelected` | ccd/qa.py:362-364 | the in-place dedupe leaves `KeepFirstDates` of the old mask |
| `Qa.StandardBase` | ccd/qa.py:358-360 | the base mask is clear-or-water and thermal strictly inside (-9320, 7070) and rows 0..5 unsaturated |
| `Qa.SnowBase` | ccd/qa.py:387-389 | the snow base is the standard base or snow, so snow rows bypass the thermal and saturation tests |
| `Qa.StandardProcedureFilter` | ccd/qa.py:340-366 | the result is the standard base deduplicated by date; every kept row is clear-or-water, thermal in range and unsaturated |
| `Qa.SnowProcedureFilter` | ccd/qa.py:369-395 | the result is the snow base deduplicated by date; every kept row passes the standard tests or is snow |
| `Qa.InsufficientClearBase` | ccd/qa.py:417-420 | the standard mask restricted by the median-green filter is a subset of the standard mask |
| `Qa.InsufficientClearFilter` | ccd/qa.py:398-425 | a subset of the standard mask in which every kept row has green < median(standard-masked green) + filter range |
| `Models.ResultsToChangeModel` | ccd/models/__init__.py:14-61 | the six scalars are copied unchanged; band b (blue, green, red, nir, swir1, swir2, thermal) takes rmse, coefficients and intercept of fitted model b and magnitude b |
| `Models.InsertByStartSorted` | ccd/models/__init__.py:76 | inserting a segment into a start-day-sorted list keeps it sorted |
| `Models.SortByStart` | ccd/models/__init__.py:76 | the sorted list is a permutation of the input, non-decreasing in start day |
| `Models.SortByStartStable` | ccd/models/__init__.py:76 | segments with the same start day keep their input order |
| `Models.SortByStartMembers` | ccd/models/__init__.py:76 | sorting neither adds nor loses segments |
| `Models.TrimsEndFitsUnique` | ccd/models/__init__.py:78-86 | only one prefix drops exactly the maximal trailing run of zero-probability segments |
| `Models.DropEndFitsTrims` | ccd/models/__init__.py:78-86 | peeling zero-probability segments off the back removes exactly that maximal trailing run |
| `Models.TrimsEndFitsCases` | ccd/models/__init__.py:81-86 | a nonzero last segment keeps the whole sorted list; an input of only zero-probability segments gives an empty result; the result is sorted by start day |
| `Models.ResultsFromPrev` | ccd/models/__init__.py:64-86 | the result is a prefix of the input sorted by start day, every dropped segment has probability 0, the last kept segment has a nonzero probability, and the result is sorted |

## Left out

- `ccd/math_utils.py` and `ccd/change.py` are not part of this model. This leaves out the variogram and adjusted variogram, RMSE and residuals, the Euclidean norm, the sum of squares, the cadence window adjustment and `adjustpeek`. They are floating-point computations whose sources are not modelled.
- `calc_median` is a parameter `calcMedian: seq<int> -> real` of the median-green filter and of the insufficient-clear procedure. Nothing is assumed about it except in `MedianGreenKeepsHalf`, which states its median property as a precondition.
- The `ccd.app.params` values are not fixed. The QA offsets, the row indices and the median-green range are fields of `Params`. The clear and snow thresholds (`CLEAR_PCT_THREHOLD`, `SNOW_PCT_THRESHOLD`) are the `threshold` argument of `EnoughClear` and `EnoughSnow`. The thermal bounds -9320 and 7070 are the source's own defaults and are constants.
- numpy dtypes and the `float()` / `int()` conversions at ccd/models/__init__.py:42-54 are the identity. Integers are unbounded and ratios are exact reals.
- `copy.deepcopy` is the identity: every type here is a value, so the result shares no state with the input and the input is never modified.
- `mask_duplicate_values` uses `numpy.unique(..., return_index=True)`, which sorts the values. The model records first occurrences in one scan with a set of seen values. The resulting mask is the same; the sort is not modelled.
- Qa.RatioClear: requires a non-fill observation. On an all-fill series the source divides by zero, and numpy gives inf or nan; that case is not modelled.
- Qa.EnoughClear: requires a non-fill observation, for the same reason as `RatioClear`.
- Qa.InsufficientClearFilter: models the evident intent. Line 417 passes `thermal_idx` into the `dates` parameter of `standard_procedure_filter`, so as written `dates[mask]` at line 362 fails on an integer. The model passes the real `dates`.
- Models.ResultsToChangeModel: requires at least 7 fitted models and at least one magnitude per fitted model. With fewer, the source fails with an index error at lines 46 and 55-61.
- Only `change_models` of the previous results is modelled. The other keys of that dictionary are not read by `results_fromprev`.
- `FittedModel.residual` is carried but never read. This matches the source.
- `setup.py` is packaging only.
