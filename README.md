# spc control-chart engines in Dafny

A model of the two statistical-process-control engines of the `spc` Go
package, with proofs about it. Both engines keep a list of inspection
samples that only grows. Both also keep a cache of derived statistics behind
a `requiresRecalculation` flag.

- **p-chart** (`pchart.dfy`, module `PChartEngine`)
  - Each sample has its own number of inspected items.
  - A recalculation first sums the inspections and defectives.
  - It then computes pBar, kept to three decimals.
  - Finally it walks the samples in order and rewrites each one's proportion
    defective `p` and its control limits `ucl` and `lcl`. Each is kept to
    two decimals, and a negative `lcl` is raised to zero.
  - The flag is cleared afterwards.
- **np-chart** (`npchart.dfy`, module `NPChartEngine`)
  - Every sample has the same size.
  - A recalculation computes:
    - `sampleSize × number of samples` inspected items;
    - the total of the defectives;
    - npBar, the mean number of defectives per sample;
    - one chart-wide pair of limits, with the lower one clamped at zero.
  - `recalculate` (`npchart/npchart.go:85-105`) never clears
    `requiresRecalculation`, so once a sample exists every read recalculates
    again. The model reproduces this.

Both charts are Dafny classes. Their fields are the Go structs' fields. The
methods update those fields in place, and `modifies` frames say which ones.
Every read (`Get…`) recalculates first when the flag is raised. Each
recalculation is proved against specification functions of the samples:
- p-chart: `SumInspections`, `SumDefectives`, `PBarOf` and `RecalculateAll`;
- np-chart: `SumDefectives`, `NPBarOf`, `UpperLimit` and `LowerLimit`.

Lemmas about those functions carry the properties: totals, idempotence,
limits that are numbers, `0 <= lcl <= ucl`, the symmetry of the limits, and
the rounding grid.

Supporting modules:
- `float64.dfy` (module `Float64`) models Go's `float64` as used here.
  - Finite values are exact reals.
  - The special values NaN and ±Inf are kept. They arise from dividing by a
    zero count and from the square root of a negative number, and they
    follow the IEEE 754 rules for `+ - * /`, `<` and `math.Sqrt`.
  - `math.Round` is rounding half away from zero.
  - `math.Sqrt` is a parameter `root` of each chart. Only its non-negativity
    on non-negative arguments is assumed.
- `clock.dfy` (module `Clock`) represents a `time.Time` as nanoseconds since
  the Unix epoch.

No `requires` excludes an input that the Go code handles. A chart without
samples is never recalculated, so its getters return Go's zero values, and
the model's getters return them too. Zero total inspections, a sample with
zero inspections or a zero sample size give the NaN or infinite results Go
computes. Apart from the invariant `Valid()`, which the constructor and
`AddSample` establish, the only preconditions are the index bounds of the
per-sample getters: there, Go panics.

## Model

| member | source | states |
|---|---|---|
| Float64.Sqrt | pchart/pchart.go:101 | `math.Sqrt`: never negative; a number exactly when its argument is a non-negative number; +Inf at +Inf; NaN for a negative argument or NaN |
| Float64.Add | pchart/pchart.go:102 | `a + b` under IEEE 754: the exact sum of two finite values; NaN exactly when an operand is NaN or the operands are opposite infinities; an infinity plus a finite value or the same infinity is that infinity |
| Float64.Sub | pchart/pchart.go:101-103 | `a - b`: the exact difference of two finite values; NaN exactly when an operand is NaN or both are the same infinity; an infinity minus a finite value or the opposite infinity is that infinity; a finite value minus an infinity is the opposite infinity |
| Float64.Mul | pchart/pchart.go:101 | `a * b`: the exact product of two finite values; NaN exactly when an operand is NaN or an infinity meets zero; an infinity times a non-zero non-NaN value is infinite, negative exactly when one operand is |
| Float64.Div | pchart/pchart.go:94 | `a / b`: the exact quotient for a non-zero finite divisor; NaN exactly for a NaN operand, 0/0 or an infinity over an infinity; a non-zero finite value over zero is an infinity with the dividend's sign; a finite value over an infinity is zero; an infinity over a finite value is an infinity with the sign of the product |
| Float64.Less | pchart/pchart.go:110 | `a < b` is false whenever an operand is NaN, is the order of the reals on finite values, and otherwise places −Inf below and +Inf above everything else |
| Float64.Round | pchart/pchart.go:106-108 | `math.Round` returns NaN and ±Inf unchanged; a finite result is an integer within 0.5 of its argument |
| Float64.RoundHalfAwayFromZero | pchart/pchart.go:96 | `math.Round` on a finite value: the result is within 0.5 of `x`, and halves go away from zero |
| Float64.RoundToThreeDecimals | pchart/pchart.go:96 | `math.Round(1000*x)/1000` keeps NaN and ±Inf; a finite result lies on the 0.001 grid, within 0.0005 of `x` |
| Float64.RoundToTwoDecimals | pchart/pchart.go:106-108 | `math.Round(100*x)/100` keeps NaN and ±Inf; a finite result lies on the 0.01 grid, within 0.005 of `x` |
| Float64.RoundHalfAwayFromZeroMonotonic | pchart/pchart.go:106-108 | rounding preserves order |
| Float64.RoundHalfAwayFromZeroWithin | pchart/pchart.go:96 | rounding a value between two integers stays between them |
| Float64.RoundToTwoDecimalsMonotonic | pchart/pchart.go:106-108 | rounding two limits to two decimals keeps their order |
| Float64.RoundToThreeDecimalsKeepsProportion | pchart/pchart.go:96 | a proportion rounded to three decimals is still in [0, 1] |
| Float64.RoundToTwoDecimalsKeepsProportion | pchart/pchart.go:106 | a proportion rounded to two decimals is still in [0, 1] |
| PChartEngine.PBarOf | pchart/pchart.go:94-96 | pBar lies on the 0.001 grid. It is a number iff some item was inspected, NaN iff nothing was inspected and nothing found defective, and +Inf iff defectives exist without inspections. A numeric pBar is within 0.0005 of total defectives over total inspections |
| PChartEngine.Spread | pchart/pchart.go:101 | the half-width `3·sqrt(pBar(1−pBar)/n)` is never negative |
| PChartEngine.Proportion | pchart/pchart.go:100-106 | a sample's `p` lies on the 0.01 grid; for a sample with inspections it is a number within 0.005 of defectives over inspections |
| PChartEngine.UpperLimit | pchart/pchart.go:101-107 | a sample's `ucl` lies on the 0.01 grid; for a numeric pBar and spread it is a number within 0.005 of `pBar + delta` |
| PChartEngine.LowerLimit | pchart/pchart.go:101-112 | a sample's `lcl` lies on the 0.01 grid and is never below zero, because the clamp comes after rounding; a rounded `pBar − delta` that is not negative is kept as it is; for a numeric pBar and spread, `lcl` is either zero or within 0.005 of `pBar − delta` |
| PChartEngine.Recalculated | pchart/pchart.go:99-113 | recalculating a sample keeps start, end, inspections and defectives; it writes `p`, `ucl` and `lcl` on the 0.01 grid, with `lcl >= 0` |
| PChartEngine.RecalculateAll | pchart/pchart.go:99-113 | the pass keeps the number of samples |
| PChartEngine.RecalculationIsCached | pchart/pchart.go:86-116 | after recalculation, the totals and pBar computed over the rewritten samples equal those of the originals, and every sample holds its own recalculated values |
| PChartEngine.RecalculatedIsStable | pchart/pchart.go:99-113 | the derived fields depend only on the counts, so recalculating a recalculated sample changes nothing |
| PChartEngine.RecalculationKeepsSums | pchart/pchart.go:87-113 | the per-sample pass leaves the inspection and defective totals unchanged |
| PChartEngine.RecalculationIsIdempotent | pchart/pchart.go:86-116 | recalculating a recalculated chart gives the same pBar and the same samples |
| PChartEngine.SumsOfConcatenation | pchart/pchart.go:87-92 | both totals are additive over consecutive runs of samples |
| PChartEngine.DefectivesBoundedByInspections | pchart/pchart.go:87-92 | if no sample has more defectives than inspections, the same holds for the totals |
| PChartEngine.SomeInspections | pchart/pchart.go:87-92 | one sample with inspections makes the inspection total positive |
| PChartEngine.ProportionWithinUnit | pchart/pchart.go:100 | `d/n` with `d <= n`, `n > 0` is a number in [0, 1] |
| PChartEngine.PBarIsProportion | pchart/pchart.go:94-96 | for consistent samples with some inspections, pBar is a number in [0, 1] |
| PChartEngine.LimitsSymmetricWhenNotClamped | pchart/pchart.go:101-112 | `delta >= 0`; when the lower limit is not clamped, the stored `ucl` and `lcl` lie within 0.005 of `pBar + delta` and `pBar − delta`, so `ucl − pBar` and `pBar − lcl` differ by at most 0.01 |
| PChartEngine.SpreadIsNumber | pchart/pchart.go:101 | with pBar in [0, 1] and a positive sample size, the spread is a number |
| PChartEngine.ProportionIsNumber | pchart/pchart.go:100-106 | a consistent sample with inspections has `p` in [0, 1] |
| PChartEngine.SampleLimitsAreNumbers | pchart/pchart.go:101-112 | around pBar in [0, 1], a sample's limits are numbers with `0 <= lcl <= ucl` |
| PChartEngine.LimitsAreNumbers | pchart/pchart.go:94-112 | for consistent samples that all have inspections, every recalculated sample has `p` in [0, 1] and number limits with `0 <= lcl <= ucl` |
| PChartEngine.PChart.constructor | pchart/pchart.go:32-35 | a new chart stores part and machine, has no samples, a clear flag and zero totals |
| PChartEngine.PChart.AddSample | pchart/pchart.go:38-42 | appends exactly one sample with the given counts, keeps the earlier samples and raises the flag |
| PChartEngine.PChart.RecalculateSample | pchart/pchart.go:100-112 | one loop iteration computes the recalculated sample |
| PChartEngine.PChart.CountTotals | pchart/pchart.go:87-92 | the loop's totals are the sums of inspections and defectives over all samples |
| PChartEngine.PChart.RecalculateSamples | pchart/pchart.go:98-113 | the in-order pass rewrites every sample to its recalculated form |
| PChartEngine.PChart.ReCalculate | pchart/pchart.go:86-116 | sets the totals, pBar and the rewritten samples of the old samples, clears the flag, and leaves a consistent cache |
| PChartEngine.PChart.GetTotalInspected | pchart/pchart.go:44-49 | returns the inspection total of the samples; recalculates only when the flag is raised, and otherwise changes nothing |
| PChartEngine.PChart.GetTotalDefectives | pchart/pchart.go:51-56 | returns the defective total of the samples, with the same caching |
| PChartEngine.PChart.GetPBar | pchart/pchart.go:58-63 | returns pBar of the samples, or zero for a chart without samples |
| PChartEngine.PChart.GetProportionDefectiveForSample | pchart/pchart.go:65-70 | for an index below the number of samples, returns the i-th sample's rounded proportion |
| PChartEngine.PChart.GetUpperControlLimitForSample | pchart/pchart.go:72-77 | for an index below the number of samples, returns the i-th sample's rounded upper limit around pBar |
| PChartEngine.PChart.GetLowerControlLimitForSample | pchart/pchart.go:79-84 | for an index below the number of samples, returns the i-th sample's clamped lower limit, never below zero |
| PChartEngine.ReadTotalsAfterAddSample | pchart/pchart.go:38-56 | a read after `AddSample` reports the earlier inspection and defective totals raised by the new sample's counts, whether or not the chart was current before |
| PChartEngine.ReadPBarTwice | pchart/pchart.go:58-63 | two reads of pBar in a row return the same value, pBar of the samples as they were before the first read |
| PChartEngine.TestSamplesAreConsistent | pchart/pchart_test.go:110-112 | every test sample has inspections and no more defectives than inspections |
| PChartEngine.BuildTestChart | pchart/pchart_test.go:110-125 | the test chart holds the 22 samples with the listed counts, in order, and its flag is raised |
| PChartEngine.TestChartSampleCount | pchart/pchart_test.go:33-39 | the test chart holds 22 samples |
| PChartEngine.TestSampleLimits | pchart/pchart_test.go:68-108 | every test sample, recalculated around the chart's pBar, has `p` in [0, 1] and numeric limits with `0 <= lcl <= ucl`, and a second recalculation keeps pBar and the sample's inspections |
| PChartEngine.TestChartLimits | pchart/pchart_test.go:68-108 | every sample of the test chart reads back `p` in [0, 1] and number limits with `0 <= lcl <= ucl` |
| NPChartEngine.NPBarOf | npchart/npchart.go:95 | npBar is NaN iff there are no samples; otherwise it is the number with `npBar × count = total defectives` |
| NPChartEngine.Spread | npchart/npchart.go:97-98 | the half-width `3·sqrt(npBar(1−npBar/n))` is never negative |
| NPChartEngine.UpperLimit | npchart/npchart.go:98-99 | for a number npBar and spread, `ucl` is exactly the number `npBar + delta`, never clamped, so it is no smaller than npBar |
| NPChartEngine.LowerLimit | npchart/npchart.go:100-104 | `lcl` is never below zero; `npBar − delta` is kept whenever it is not negative, and the clamp only ever substitutes zero for it |
| NPChartEngine.SumDefectivesOfAppend | npchart/npchart.go:37-41 | appending a sample adds its defectives to the total |
| NPChartEngine.SumDefectivesOfConcatenation | npchart/npchart.go:89-93 | the defective total is additive over consecutive runs of samples |
| NPChartEngine.DefectivesBoundedByInspections | npchart/npchart.go:89-93 | if no sample has more defectives than its size, total defectives `<= sampleSize × count` |
| NPChartEngine.NPBarWithinSampleSize | npchart/npchart.go:95 | for consistent samples, npBar is a number in [0, sampleSize] |
| NPChartEngine.NPBarIsMean | npchart/npchart.go:95 | with samples, npBar is total defectives divided by the number of samples |
| NPChartEngine.SpreadIsNumber | npchart/npchart.go:97-98 | with a positive sample size and npBar in [0, sampleSize], the spread is a number |
| NPChartEngine.LimitsSymmetricWhenNotClamped | npchart/npchart.go:98-104 | `delta >= 0`; when no clamping happens, `ucl − npBar = npBar − lcl = delta` |
| NPChartEngine.LimitsAreNumbers | npchart/npchart.go:95-104 | for a positive sample size and consistent samples, npBar and both limits are numbers with `0 <= lcl <= npBar <= ucl` |
| NPChartEngine.LimitsAroundNumber | npchart/npchart.go:98-104 | around a non-negative npBar with a numeric spread, both limits are numbers with `0 <= lcl <= npBar <= ucl` |
| NPChartEngine.NPChart.constructor | npchart/npchart.go:31-34 | a new chart stores part, machine, characteristic and sample size, and has no samples and a clear flag |
| NPChartEngine.NPChart.AddSample | npchart/npchart.go:37-41 | appends exactly one sample with the given defectives, keeps the earlier samples and raises the flag |
| NPChartEngine.NPChart.CountTotals | npchart/npchart.go:86-93 | the loop's totals: `sampleSize × count` inspected, the sum of defectives, and the number of samples |
| NPChartEngine.NPChart.Recalculate | npchart/npchart.go:85-105 | sets totals, npBar and the clamped limit pair to the values the samples determine; leaves the flag and the samples alone |
| NPChartEngine.NPChart.GetTotalInspected | npchart/npchart.go:43-48 | returns `sampleSize ×` the number of samples; samples and flag unchanged |
| NPChartEngine.NPChart.GetTotalDefectives | npchart/npchart.go:50-55 | returns the sum of the samples' defectives |
| NPChartEngine.NPChart.GetNPBar | npchart/npchart.go:57-62 | returns npBar of the samples, or zero for a chart without samples |
| NPChartEngine.NPChart.GetNumberOfDefectivesForSample | npchart/npchart.go:64-69 | for an index below the number of samples, returns the defectives of the i-th added sample |
| NPChartEngine.NPChart.GetUpperControlLimit | npchart/npchart.go:71-76 | returns the chart's upper limit, or zero without samples |
| NPChartEngine.NPChart.GetLowerControlLimit | npchart/npchart.go:78-83 | returns the chart's clamped lower limit, never below zero, or zero without samples |
| NPChartEngine.ReadTotalAfterAddSample | npchart/npchart.go:37-55 | a read after `AddSample` reports the earlier defective total raised by the new sample's defectives |
| NPChartEngine.ReadNPBarTwice | npchart/npchart.go:57-62 | two reads of npBar in a row return the same value, although the flag stays raised and the second read recalculates again |
| NPChartEngine.BuildTestChart | npchart/npchart_test.go:105-119 | the test chart has sample size 50 and the 22 listed defectives, in order |
| NPChartEngine.TestChartTotalInspected | npchart/npchart_test.go:49-56 | the test chart reports 1100 inspected items |
| NPChartEngine.TestChartDefectivesForSample | npchart/npchart_test.go:76-85 | the test chart reports each sample's defectives as added |

Each getter's contract states in full the state it leaves:
- p-chart: `PChart.Refreshed`. A current cache is untouched, so a second read
  with no `AddSample` in between returns the same value. A stale cache is
  recomputed.
- np-chart: `NPChart.Read`. Samples and flag are unchanged, and the cache
  holds what the samples determine.

Repeated reads therefore return identical values; `ReadPBarTwice` and
`ReadNPBarTwice` state this for pBar and npBar.

## Left out

- IEEE 754 rounding to 53 bits is not modelled: finite values are exact reals. The signed zero is not tracked either. No divisor in either engine can be a negative zero, so every division has the sign Go gives it. The one place where Go produces a −0.0 that the model does not is the rounded p-chart lower limit, described below.
- `math.Sqrt` is a parameter of each chart. The model assumes only that it is non-negative on non-negative arguments, so no control limit of the tests (7.8 and the per-sample `ucl` and `lcl` lists) is derived.
- The other literal values the tests expect are not derived either: pBar 0.067, npBar 2.9 and the per-sample proportions. Finite values are exact reals, so a Go result that differs from the exact quotient in its last binary digit is outside the model. The totals behind those values are covered by the next two lines.
- PChartEngine.BuildTestChart: the test totals 3624 inspected and 243 defective are not derived for the literal sample lists. The sums over the listed counts are stated only in general form, by `GetTotalInspected` and `GetTotalDefectives`, because the verifier does not evaluate a recursive sum over a 22-element literal list without one hand-written step per element.
- NPChartEngine.BuildTestChart: the test total of 63 defectives is not derived for the literal list, for the same reason. It is stated only in general form, by `GetTotalDefectives`. The 1100 inspected items are derived, by `TestChartTotalInspected`.
- PChartEngine.PChart.GetLowerControlLimitForSample: Go's `math.Round` keeps the sign of zero. A raw lower limit in (−0.005, 0) therefore rounds to −0.0. That value is not below zero, so `pchart/pchart.go:108-112` does not clamp it and Go returns −0.0 for such a sample. The model has no signed zero and returns 0.
- The `uint` totals are `nat`, so wrap-around past 2^64 is not modelled.
- A `time.Time` is an integer count of nanoseconds. Time zones and monotonic clock readings are not modelled, because the engines only store the timestamps.
- The strings `part`, `machine` and `characteristic` are only stored.
- An out-of-range index in a per-sample getter panics in Go. It is modelled as the precondition `i < |samples|`.
- Concurrent use of a chart is not modelled: the objects are not safe for concurrent use, and the model is sequential.
- PChartEngine.PChart.ReCalculate: its two loops are the methods `CountTotals` and `RecalculateSamples`, and one loop iteration is `RecalculateSample`. The order of operations inside an iteration is unchanged.
- NPChartEngine.NPChart.Recalculate: the counting loop is the method `CountTotals`.
