# Penguin sensor labels in Dafny

This project models the feature-deriving helpers of the penguin nest-sensor
pipeline (`helper_functions.py`). These pure functions turn a timestamp or a
reading into a categorical label:

- `season` gives the Southern-hemisphere season of a date's month
  (`AUTUMN`, `WINTER`, `SPRING`, `SUMMER`). A month outside 1..12 gives
  `None`.
- `temp_bucket` gives a temperature's 10-degree bin (`temp_<0`,
  `temp_0-10` … `temp_90-100`, `temp_100+`).
- `humidity_bucket` gives a relative humidity's 20-point bin (`RH%_<20`,
  `RH%_20-40` … `RH%_140-160`, `RH%_160+`).
- `average_activity_phase` gives a breeding-phase label for an optional
  timestamp.

Files:

- `decimal.dfy` (module `Decimal`) renders a whole number as decimal digits.
  This is what the source's `{:.0f}` format prints for the whole-valued bin
  bounds. Reading the string back gives the number.
- `helper_functions.dfy` (module `HelperFunctions`) holds the four labelling
  functions, the datatypes of their labels, and the lemmas about them.

Readings are exact rationals (`real`). Python's `x // w` on a reading is
`(x / w).Floor` (`BinIndex`). Each label is a datatype value (`Season`,
`TempBand`, `HumidityBand`, `Phase`) with a rendering to the source's exact
string. `TempBucket` and `HumidityBucket` return the strings themselves.

`average_activity_phase` is modelled as the code is written, not as its
documentation describes. Its second test is `month >= 4 and month >= 5`
(helper_functions.py:125). So every month from 5 on is `nest building`,
April falls through to `unknown`, and no later branch can be reached. The
`month >= 9` test at line 135 would shadow the October to December branches,
but line 125 already shadows every branch after it, and the model follows
the code. `IntendedActivityPhase`
follows the documented calendar (helper_functions.py:110-117). The lemmas
say exactly where the two agree.

## Model

| member | source | states |
|---|---|---|
| `HelperFunctions.SeasonOf` | helper_functions.py:60-73 | None exactly when the month is outside 1..12. Otherwise the season of the month's three-month quarter counted from December: 12/1/2 summer, 3-5 autumn, 6-8 winter, 9-11 spring |
| `HelperFunctions.SeasonLabel` | helper_functions.py:60-73 | the string `season` returns: None exactly when the month is outside 1..12; otherwise `AUTUMN` for months 3-5, `WINTER` for 6-8, `SPRING` for 9-11 and `SUMMER` for 12, 1 and 2 |
| `HelperFunctions.SeasonOfValidDate` | helper_functions.py:70-73 | a date that Python can build always gets a season, never None |
| `HelperFunctions.SeasonAdvancesByAtMostOne` | helper_functions.py:64-71 | the seasons are contiguous: the next month keeps the season or moves to the next season in the cycle |
| `HelperFunctions.SeasonHasThreeMonths` | helper_functions.py:64-71 | each of the four seasons covers exactly three months, so the ranges cover the year with no gap or overlap |
| `HelperFunctions.BinIndex` | helper_functions.py:86-87 | the floor quotient `x // w` picks the bin with k*w <= x < (k+1)*w |
| `HelperFunctions.BinIndexUnique` | helper_functions.py:86-87 | the bins do not overlap: any k with k*w <= x < (k+1)*w is the one `x // w` picks |
| `HelperFunctions.BinIndexMonotone` | helper_functions.py:86-87 | a larger reading never gets a smaller bin index |
| `HelperFunctions.TempBandOf` | helper_functions.py:80-87 | below-zero exactly when t < 0; 100-plus exactly when t >= 100; otherwise a bin whose lower bound is a multiple of 10 in 0..90 with lo <= t < lo + 10 |
| `HelperFunctions.TempBucket` | helper_functions.py:76-89 | `temp_<0` exactly when t < 0; `temp_100+` exactly when t >= 100; for 0 <= t < 100 the label is `temp_<lo>-<lo+10>` with lo a multiple of 10 in 0..90 and lo <= t < lo + 10 |
| `HelperFunctions.TempBucketOfBin` | helper_functions.py:85-88 | every t in [lo, lo + 10), with lo a multiple of 10 in 0..90, gets the label `temp_<lo>-<lo+10>` |
| `HelperFunctions.TempLabelInjective` | helper_functions.py:81-88 | two temperature bins have the same label exactly when they are the same bin |
| `HelperFunctions.TempBandMonotone` | helper_functions.py:81-88 | if x <= y, the bin of x is not above the bin of y (`<0` lowest, `100+` highest) |
| `HelperFunctions.TempBucketExamples` | helper_functions.py:76-89 | -5 gives `temp_<0`, 23 gives `temp_20-30`, 99.999 gives `temp_90-100`, 100 gives `temp_100+` |
| `HelperFunctions.HumidityBandOf` | helper_functions.py:96-103 | below-20 exactly when h < 20; 160-plus exactly when h >= 160; otherwise a bin whose lower bound is a multiple of 20 in 20..140 with lo <= h < lo + 20 |
| `HelperFunctions.HumidityBucket` | helper_functions.py:92-105 | `RH%_<20` exactly when h < 20; `RH%_160+` exactly when h >= 160; for 20 <= h < 160 the label is `RH%_<lo>-<lo+20>` with lo a multiple of 20 in 20..140 and lo <= h < lo + 20 |
| `HelperFunctions.HumidityBucketOfBin` | helper_functions.py:101-104 | every h in [lo, lo + 20), with lo a multiple of 20 in 20..140, gets the label `RH%_<lo>-<lo+20>` |
| `HelperFunctions.HumidityLabelInjective` | helper_functions.py:97-104 | two humidity bins have the same label exactly when they are the same bin |
| `HelperFunctions.HumidityNeverZeroToTwenty` | helper_functions.py:94-104 | the `0-20` band that the docstring mentions is never produced |
| `HelperFunctions.HumidityBandMonotone` | helper_functions.py:97-104 | if x <= y, the bin of x is not above the bin of y (`<20` lowest, `160+` highest) |
| `HelperFunctions.HumidityBucketExamples` | helper_functions.py:92-105 | 15 gives `RH%_<20`, 45 gives `RH%_40-60`, 200 gives `RH%_160+` |
| `HelperFunctions.RangeLabelInjective` | helper_functions.py:88 | a `<prefix><lo>-<hi>` label determines both bounds |
| `HelperFunctions.RangeLabelHasDash` | helper_functions.py:82-88 | every range label contains a `-`, so it differs from the open-ended labels, which have none |
| `HelperFunctions.SplitAtDashJoined` | helper_functions.py:88 | splitting `<A>-<B>` at its first dash gives back A and B when A holds no dash |
| `Decimal.NatToString` | helper_functions.py:88 | `{:.0f}` of a whole non-negative bound gives a non-empty string of digits with no leading zero, and it parses back to the number |
| `Decimal.NatToStringInjective` | helper_functions.py:88 | two bounds render the same exactly when they are equal |
| `Decimal.NatToStringHasNoDash` | helper_functions.py:88 | a rendered bound never contains the `-` that separates the two bounds |
| `HelperFunctions.ActivityPhase` | helper_functions.py:108-142 | as written: None exactly for None; `moulting` exactly for months 1-3; `nest building` exactly for months 5 and above; `unknown` exactly for month 4 (or a month below 1); never `laying`, `incubating`, `rearing`, `fledging` or `post-fledging` |
| `HelperFunctions.ActivityPhaseLabel` | helper_functions.py:108-142 | the string `average_activity_phase` returns: None exactly for None; `moulting` for months 1-3; `nest building` for months 5 and above; `unknown` for month 4 (or a month below 1); never `laying`, `incubating`, `rearing`, `fledging` or `post-fledging` |
| `HelperFunctions.IntendedActivityPhase` | helper_functions.py:110-117 | the documented calendar: None exactly for None, and never `unknown` for a month in 1..12 |
| `HelperFunctions.IntendedPhaseInCalendarOrder` | helper_functions.py:110-117 | over a year, the documented phases come in order: a later date never has an earlier phase |
| `HelperFunctions.IntendedPhaseReachesEveryPhase` | helper_functions.py:110-117 | every documented phase is the phase of some valid date |
| `HelperFunctions.ActivityPhaseAgreesWithIntendedOnlyIn` | helper_functions.py:121-142 | the code as written agrees with the documented calendar exactly in January, February, March and May |
| `HelperFunctions.ActivityPhaseJuneCounterexample` | helper_functions.py:125-128 | 15 June 2020 is a valid date; the code gives `nest building` and the documented calendar gives `laying` |

## Left out

- `log`, `read_file_handler_start` and `read_file_handler_end` (helper_functions.py:10-57): they only print timestamped messages and read a file's size. They are I/O and hold no logic. On the failure path, line 57 calls `sys.exit(0)`, but the file never imports `sys` (lines 1-6). So the process ends with a `NameError` traceback and status 1, not a clean exit 0.
- `1_data_prep/uploader.py` is not part of this model. It is database and filesystem plumbing: connections, CSV schema sniffing, bulk copy, header deletion by row id, and YAML configuration. Its behaviour lives in the database and in libraries outside this repository.
- HelperFunctions.TempBucket: readings are exact rationals, not IEEE doubles. Infinities and float rounding in `//` are not modelled. Two float readings give labels the model does not capture:
  - negative zero fails both tests at lines 81 and 83. `-0.0 // 10` is `-0.0`, and `{:.0f}` prints it as `-0`, so the source returns `temp_-0-10` where the model gives `temp_0-10`;
  - NaN fails both tests and reaches line 88, so the source returns `temp_nan-nan`, which lies outside every bin. NaN is the usual missing value in a pandas sensor column.
- HelperFunctions.HumidityBucket: readings are exact rationals, as for `TempBucket`. NaN fails both tests at lines 97 and 99, so the source returns `RH%_nan-nan` at line 104, and the model has no such label. Negative zero is below 20, so it gets `RH%_<20` in both.
- Inputs that are not numbers, for example `None` passed to a bucket, raise a Python `TypeError`. The model's types rule them out.
- HelperFunctions.ActivityPhase: the August branches at helper_functions.py:131-134 call `date`, which the file never imports, so reaching them would raise `NameError`. They cannot be reached, so the model writes their comparison as the day test it stands for (`day <= 7`).
- `DateTime` keeps only year, month and day. Time of day and time zone play no part in any label.
- HelperFunctions.IntendedActivityPhase: the documented calendar gives fledging as "1 Oct - 30 Oct" and post-fledging from 1 Nov, which leaves 31 October uncovered. The intended model counts all of October as fledging.

## Findings

| source | as written | input that shows it | evidently intended | confidence | as-written member | corrected member |
|---|---|---|---|---|---|---|
| helper_functions.py:125 | `month >= 4 and month >= 5` sends every month from May on to `nest building` and April to `unknown`. The laying, incubating, rearing, fledging and post-fledging branches (127-140) can never be reached | a timestamp on 15 June 2020 gives `nest building` | the calendar of the docstring (110-117): 15 June is `laying`. The test was evidently meant to be `4 <= month <= 5`. The later `month >= 9` test (135) would then still shadow October to December, so the correction follows the calendar, not the chain | high (not executed) | `HelperFunctions.ActivityPhaseJuneCounterexample` | `HelperFunctions.IntendedActivityPhase` |
