# density-timebox, modelled in Dafny

This project models the computational core of density-timebox, a library
that renders many time series as one density heatmap. Its modules follow the
program:

- **Planner** and **Batching** (`src/core/index.ts`).
  - A heatmap of `W×H` cells is replicated `repeatsX × repeatsY` times on
    one GPU surface, and each replica ("tile") has four colour channels.
  - So one batch draws `4·repeatsX·repeatsY` series, each into its own
    (tile column, tile row, channel) slot.
  - The planner chooses the repeats from the surface cap.
  - The batch loop walks the series in order, one batch at a time.
- **Surface**, **Passes**, **Density** and **Pipeline** (`src/core/index.ts`).
  - These model the fragment shaders that run per batch. Each is stated as a
    pure per-cell formula over exact reals and integer texel indices:
    - the kernel smoother (`gaussian`), which only reads taps inside the
      cell's own tile;
    - the per-column or per-tile `sum`, floored at 1;
    - `normalize`, which blends additively into the result surface;
    - the horizontal and vertical merges into one `W×H` heat grid.
  - Each pass is also a method that fills a flattened `array<real>`
    surface in a loop.
  - The pipeline proves that the final heat grid equals the sum, over the
    drawn series, of each series' own normalised density. It therefore does
    not depend on batch order.
- **Filters** and **Ranking** (`src/core/index.ts`).
  - These are the queries on the flattened per-series buffer:
    - `filterByValues` (value range);
    - `filterByAngles` (pairwise slope);
    - `findMax`;
    - `calWeight`;
    - the index extraction from the 4-wide read-back;
    - `findKTop`: a stable ranking followed by the greedy diversity rule,
      built on `average`/`standardDeviation`.
- **Handle** (`src/core/index.ts`).
  - The object the library returns is a class.
  - Its mutable state is `indexCache` and `maxDensity`, plus its
    framebuffers.
  - Its methods are `rerender`, `filterRange`, `filterAngle`, `findKTop`,
    and the `maxDensity` getter and setter.
- **MeanShift** (`src/core/meanshiftTest.js`). This covers `main`:
  - the packing of all series into one time buffer and one value buffer,
    using prefix-sum offsets;
  - the `lineCache` entries;
  - the KD-buffer capacity check;
  - the shared batch loop;
  - the final per-column `maxDensity` shader.
- **Clustering** (`src/core/clustering.js`).
  - `kmeans` over a given distance matrix, as an imperative state machine
    over `assignment` and `clusters` arrays, capped at 20 iterations.
- **Distance** (`src/core/distance.js`).
  - The five matrix builders fill an `array2` in nested loops.
  - They are stated over uninterpreted `point_line_distance` and
    `point_line_distance_multi`, which are passed in as function
    parameters.
- **KDTree** (`src/core/kdtree.js`).
  - The `KDLine` class has three parts:
    - its constructor check over a model of JavaScript values;
    - the validated `precision` field;
    - `buildKDTree`'s segment extraction.
  - The argument checks at the top of `render` are modelled too.
- **Utils** (`src/core/utils.ts`): `range`, `rangeDup`, `float` and the
  trivial branch of `makePair`.

The GPU rasterises polylines into a binary lines grid (`drawLine`). That
step is the parameter `cover(item, x, y)`, which says whether a line
covers local cell `(x, y)` of its tile. The flattened per-series buffer
drawn by `drawFlatLine` is an input sequence `flat`: slot `k` holds series
`k` at row `k / 4`, channel `k % 4`. A texture lookup is nearest-texel
with clamp-to-edge (`Surface.TexelIndex`).

In `buildKDTree`, a line with no points makes `reduce(..., null)` return
`null`, and `.list` on that throws a TypeError. The model keeps this as the
error result `TypeErrorRaised`.

In `kmeans`, `assignment[i] === j` compares a cluster index with `j`, and
`classify` returns `null` only when `k == 0`. The model uses
`Option<nat>` for the assignment.

## Model

| member | source | states |
|---|---|---|
| Utils.Range | src/core/utils.ts:6-12 | the fresh output has length n and holds i at every index i |
| Utils.Indexes | src/core/utils.ts:6-12 | the reference sequence: length n, entry i is i |
| Utils.RangeDup | src/core/utils.ts:14-20 | the fresh output has length n·multi; entry i is floor(i/multi) |
| Utils.Dup | src/core/utils.ts:14-20 | the reference sequence of rangeDup has length n·multi |
| Utils.DupMonotone | src/core/utils.ts:14-20 | the rangeDup output is non-decreasing |
| Utils.DupPosition | src/core/utils.ts:14-20 | entry value r sits at positions r·multi up to (r+1)·multi − 1 |
| Utils.DupBlocks | src/core/utils.ts:14-20 | each k < n fills exactly the multi consecutive positions of its block |
| Utils.MakePairTrivial | src/core/utils.ts:28-29 | the trivial branch is taken iff the input has at most one element, and it returns the empty list |
| Utils.Digits | src/core/utils.ts:54 | the decimal text of a natural number is non-empty and all digits, with no leading zero; it starts with '0' only for 0 |
| Utils.DigitsRoundTrip | src/core/utils.ts:54 | parsing the digits of n gives back n |
| Utils.DecimalRoundTrip | src/core/utils.ts:54 | parsing the signed decimal text of an integer gives it back |
| Utils.Float | src/core/utils.ts:50-55 | a number with a positive fractional part is returned unchanged; otherwise the text is the canonical plain-decimal text of i (`Digits`: no leading zero) followed by ".0", and its prefix parses back to i; this is the source's text for integers below 1e21 in magnitude |
| Planner.FirstBadRow | src/core/index.ts:116-122 | returns the first row whose length differs from the row count, or None iff every row has that length |
| Planner.CheckKernel | src/core/index.ts:116-126 | succeeds iff the kernel is square with an odd side, and then returns the centre offset o with 2o+1 = side; a non-square kernel fails with NotSquare before the parity test; a square even kernel fails with EvenSize |
| Planner.ResolveKernel | src/core/index.ts:100-106 | a missing kernel becomes the default kernel, which passes the check with offset 1; a given kernel is used as-is |
| Planner.CeilOfQuotient | src/core/index.ts:156 | Math.ceil of the real quotient a/b equals the integer ceiling division |
| Planner.CeilDivBounds | src/core/index.ts:156 | (⌈a/b⌉ − 1)·b < a ≤ ⌈a/b⌉·b |
| Planner.NudgedQuarterCeilIsCeilDiv | src/core/index.ts:151 | for n ≥ 1, Math.ceil(n/4 − 1e-6) equals ⌈n/4⌉ |
| Planner.PlanTiles | src/core/index.ts:144-165 | 1 ≤ repeatsX ≤ ⌈n/4⌉, W·repeatsX ≤ cap, within MAX_REPEATS_X, and the largest such value; the same for repeatsY with bound ⌈n/(4·repeatsX)⌉; batchSize = 4·repeatsX·repeatsY |
| Planner.RepeatBounds | src/core/index.ts:144-158 | the min of floor(cap/size), the bound and the extra cap is at least 1, fits the cap, and is the largest value that does |
| Planner.UnboundedPlanX | src/core/meanshiftTest.js:184-199 | with Infinity for the extra caps, repeatsX = min(floor(cap/W), ⌈n/4⌉) and repeatsY = min(floor(cap/H), ⌈n/(4·repeatsX)⌉) |
| Planner.KDOverflow | src/core/meanshiftTest.js:185-209 | main stops early iff there are series and ⌈n/4/kdRepeatsX⌉ exceeds maxKDBufferSize (or kdRepeatsX is 0) |
| Batching.SlotRoundTrip | src/core/index.ts:881-885 | batch position p has column < repeatsX and a mask with exactly channel p mod 4 set; its (column, row, channel) encodes back to p |
| Batching.SlotPosDecodes | src/core/index.ts:914-931 | the slot at position row·4·repeatsX + 4·column + channel has that column, row and channel |
| Batching.SlotsDistinct | src/core/index.ts:914-931 | distinct batch positions draw into distinct (column, row, mask) triples |
| Batching.PrepareBatch | src/core/index.ts:906-939 | the fresh lines array has length min(batchSize, n − series) and is completely filled with series `start..` at their slots; series advances by that length |
| Batching.ScheduleStep | src/core/index.ts:902-975 | one batch-loop iteration extends the drawn prefix by the batch and keeps every batch well slotted |
| Batching.BatchSchedule | src/core/index.ts:890-975 | flattening the batches gives back every series exactly once in order; there are ⌈n/batchSize⌉ batches, each completely filled |
| Batching.CeilDivCount | src/core/index.ts:902 | a loop from 0 by steps of m while below n runs ⌈n/m⌉ times |
| Batching.BatchStart | src/core/index.ts:1120-1124 | the batch holding position f starts at a multiple of the batch size, at or before f and less than one batch before it |
| Surface.Index4Decode | src/core/index.ts:824-860 | every flat RGBA index decodes to an in-range (x, y, channel) that encodes back to it |
| Surface.Index4Encode | src/core/index.ts:824-860 | every in-range (x, y, channel) encodes to an in-range index that decodes back to it |
| Surface.TexelOfCenter | src/core/index.ts:656 | sampling at (p + 0.5)/size hits texel p |
| Surface.TileStartTexel | src/core/index.ts:402-414 | the sum pass's row r/repeatsY + (j + 0.5)/reshapedHeight hits texel r·H + j |
| Surface.TileOfCenter | src/core/index.ts:402 | the sums buffer row sampled from texel y is tile row floor(y/H) |
| Surface.TileTexel | src/core/index.ts:512-513 | the horizontal merge's (i + u)/repeatsX hits texel i·W + x |
| Passes.AtLeastOne | src/core/index.ts:433 | max(1, x) is at least 1 and at least x, and is one of them |
| Density.HitsSlot | src/core/index.ts:352-381 | a line hits a surface texel and channel iff it is the line of that texel's slot and covers the local cell |
| Density.LinesCellSlot | src/core/index.ts:902-949 | the lines grid at a texel is the rasterised line of its slot in that tile, or 0 for an unused slot |
| Density.TapSlot | src/core/index.ts:350-368 | a smoother tap is the slot's own line at the local offset cell, or 0 outside the tile |
| Density.TapInside | src/core/index.ts:361 | every tap the same-tile test accepts lies inside the surface |
| Density.GaussianSlot | src/core/index.ts:341-388 | the smoothed texel is that slot's own smoothed line, with no bleed from neighbouring tiles |
| Density.ColumnSumSlot | src/core/index.ts:408-416 | the per-column sum of a slot is its own series' column sum |
| Density.RawSumSlot | src/core/index.ts:418-430 | the per-tile sum of a slot is its own series' tile sum |
| Density.NormalizedSlot | src/core/index.ts:450-495 | the normalised texel is its slot's series density, or 0 for an unused slot |
| Density.BatchFoldIsDensity | src/core/index.ts:498-546 | folding a batch's tile columns, tile rows and channels yields the sum of its series' densities |
| Density.MergedStep | src/core/index.ts:469-489 | one additive normalize pass adds exactly the batch fold to the merged heat |
| Density.MergeVOfMergeH | src/core/index.ts:498-549 | the vertical merge of the horizontal merge is the sum over all tiles and channels |
| Density.SmoothNonneg | src/core/index.ts:369-378 | with a non-negative kernel and non-negative taps, the smoother is non-negative |
| Density.LineDensityNonneg | src/core/index.ts:441-470 | a series' normalised density is non-negative for a non-negative kernel |
| Density.HeatNonneg | src/core/index.ts:498-549 | the heat grid is non-negative for a non-negative kernel |
| Density.Capped | src/core/index.ts:433 | raw/max(1, raw) is at most 1 and at most raw, and is one of them |
| Density.ScaledMass | src/core/index.ts:433-467 | dividing terms that sum to raw by max(1, raw) gives terms that sum to min(raw, 1) |
| Density.ColumnOverRaw | src/core/index.ts:408-467 | a normalised series column sums to its column sum over max(1, divisor) |
| Density.ColumnMass | src/core/index.ts:408-416 | in column mode each normalised series column sums to min(raw column sum, 1) |
| Density.TileMass | src/core/index.ts:418-430 | in tile mode each normalised series tile sums to min(raw tile sum, 1) |
| Density.HeatAppend | src/core/index.ts:902-975 | the heat of a concatenation is the sum of the heats |
| Density.HeatPermutation | src/core/index.ts:902-975 | the heat depends only on the multiset of drawn series, not on their order |
| Pipeline.SumFragment | src/core/index.ts:398-434 | the fragment's loop computes the sums cell of its texel |
| Pipeline.SumPass | src/core/index.ts:392-441 | every sums texel holds its sums cell |
| Pipeline.NormalizePass | src/core/index.ts:450-495 | every result texel grows by exactly its normalised cell (additive blending) |
| Pipeline.MergeHFragment | src/core/index.ts:506-519 | the fragment's loop collects all tile columns of its texel |
| Pipeline.MergeHPass | src/core/index.ts:498-525 | every pre-merged texel holds its merge-horizontal cell |
| Pipeline.MergeVFragment | src/core/index.ts:534-547 | the fragment's loop collects all tile rows and the four channels |
| Pipeline.MergeVPass | src/core/index.ts:526-553 | every heat texel is (v, v, v, 1) for its merged value v |
| Pipeline.Allocate | src/core/index.ts:824-860 | fresh, distinct buffers of the planned sizes |
| Pipeline.AccumulateBatches | src/core/index.ts:1116-1175 | after clearing resultBuffer and running every batch through `sum` and additive `normalize`, the merged view of resultBuffer is the heat of the given series |
| Pipeline.RenderStep | src/core/index.ts:902-975 | after batch q the merged result is the heat of the series of batches 0..q |
| Pipeline.RenderHeat | src/core/index.ts:887-987 | the heat buffer ends as the heat image of all drawn series, whatever was in the buffers before |
| Pipeline.HeatImage | src/core/index.ts:983-986 | the reference image has W·H·4 entries |
| Pipeline.ImageOfTexels | src/core/index.ts:983-986 | a buffer that holds the heat texel everywhere is the heat image |
| Pipeline.HeatImagePermutation | src/core/index.ts:1104-1186 | two series lists with the same multiset render the same heat image |
| Filters.SeriesChannel | src/core/index.ts:914-934 | series s = q·batchSize + k, drawn by `drawFlatLine` into row floor(s/4) through colorMask(k), lands in channel s mod 4; the texel written at column p is the one FlatAt reads for slot s, lies inside the flattened buffer, and decodes back to column p and slot s |
| Filters.PointerTexel | src/core/index.ts:656 | sampling column p at (p + 0.5)/W reads texel min(p, W − 1), clamped at the edge |
| Filters.EdgeTexel | src/core/index.ts:795 | sampling column p at p/W reads texel min(p, W − 1) |
| Filters.RangeFragment | src/core/index.ts:717-738 | a slot is marked 1 iff some integer column p with start ≤ p ≤ end holds a value in [v0, v1] |
| Filters.FilterByValues | src/core/index.ts:703-749 | every slot of the 4-wide read-back holds its range mark |
| Filters.AngleStep | src/core/index.ts:657-676 | one step of the inner loop extends "some positive value" and "all slopes within range" by one pair |
| Filters.AngleRow | src/core/index.ts:654-679 | a finished or skipped row passes both facts on to the next pointer |
| Filters.AngleDone | src/core/index.ts:680-689 | after the loops, the slot is marked iff some pair has a positive later value and every pair's slope is within [a0, a1] |
| Filters.AngleFragment | src/core/index.ts:646-690 | the fragment marks a slot iff the angle condition holds |
| Filters.FilterByAngles | src/core/index.ts:632-701 | every slot of the read-back holds its angle mark |
| Filters.Marked | src/core/index.ts:1022-1025 | the extracted indices are ascending and in range, and k is in them iff entry k is non-zero |
| Filters.WeightTable | src/core/index.ts:780-805 | there is one weight per slot |
| Filters.WeightFragment | src/core/index.ts:790-805 | the fragment's loop computes the slot's sum of heat at (column, flattened value) |
| Filters.CalWeight | src/core/index.ts:780-815 | every slot holds its weight |
| Filters.SlotWeightNonneg | src/core/index.ts:794-803 | weights are non-negative when the heat is |
| Filters.FindMax | src/core/index.ts:751-778 | the result is at least 0, at least every heat cell, and either 0 or some heat cell |
| Ranking.Average | src/core/index.ts:1226-1233 | NaN (None) iff the input is empty; otherwise avg·length = sum |
| Ranking.SquareDiffs | src/core/index.ts:1214-1218 | entry i is (x_i − avg)² |
| Ranking.TotalNonneg | src/core/index.ts:1227-1229 | a sum of non-negative values is non-negative |
| Ranking.VarianceNonneg | src/core/index.ts:1211-1224 | the variance is defined iff the input is non-empty, and then it is non-negative |
| Ranking.StdDevBelowIsSqrt | src/core/index.ts:1088 | for any s ≥ 0 with s² = variance, "standardDeviation < d" holds iff s < d |
| Ranking.DiffSeries | src/core/index.ts:1074-1087 | length min(|a|, |b|); entry t is the difference of the aligned tails divided by maxY |
| Ranking.SelfNotDiverse | src/core/index.ts:1074-1088 | a series compared with itself is "too close" iff it is non-empty and diverse is positive |
| Ranking.Greedy | src/core/index.ts:1068-1096 | at most three accepted candidates, all taken from the candidates |
| Ranking.GreedySaturated | src/core/index.ts:1069 | once three are accepted, later candidates change nothing |
| Ranking.GreedyPairwise | src/core/index.ts:1071-1095 | no accepted candidate clashes with one accepted before it |
| Ranking.GreedyFirst | src/core/index.ts:1069-1095 | the first candidate is always accepted |
| Ranking.GreedyRejects | src/core/index.ts:1069-1095 | candidate t is appended iff fewer than three are accepted and it clashes with none of them |
| Ranking.GreedyDistinct | src/core/index.ts:1068-1096 | distinct candidates give distinct accepted indices |
| Ranking.GreedyReadsSpec | src/core/index.ts:1067-1098 | the diversity loop with its reads of `data` succeeds iff no rank throws, and then returns the greedy selection, whose entries after the first all name series; otherwise it fails at the first rank whose comparison reads an unknown series |
| Ranking.ThrowsFront | src/core/index.ts:1069-1076 | whether an earlier rank throws does not depend on later candidates |
| Ranking.GreedyReadsKnown | src/core/index.ts:1067-1098 | when every candidate names a series, the loop never throws and returns the greedy selection |
| Ranking.GreedyReadsStep | src/core/index.ts:1069-1095 | one more candidate either throws (fewer than three accepted, and it or the first accepted is unknown), is appended (fewer than three, no clash) or changes nothing |
| Ranking.GreedyReadsStays | src/core/index.ts:1069 | after a throw, or once three are accepted, later candidates change nothing |
| Ranking.Accepts | src/core/index.ts:1070-1092 | the inner loop throws (None) iff there is an accepted series and the candidate or the first accepted index names no series; otherwise it returns the compatibility flag |
| Ranking.Diversify | src/core/index.ts:1067-1098 | the loop returns the diversity selection with its reads, `GreedyReads`: the greedy list or the TypeError at the first rank that reads an unknown series |
| Ranking.Tagged | src/core/index.ts:1058-1062 | one tagged weight per slot, with weight 0 for padding slots at index ≥ n |
| Ranking.Keep | src/core/index.ts:1063 | keeps exactly the tagged weights whose index is cached, in their original order |
| Ranking.Insert | src/core/index.ts:1064 | insertion adds exactly one element (multiset) |
| Ranking.InsertRanked | src/core/index.ts:1064 | inserting into a ranked list keeps it ranked |
| Ranking.Rank | src/core/index.ts:1064 | the sorted list is a permutation of its input |
| Ranking.RankRanked | src/core/index.ts:1064 | the sorted list is ordered by weight, and ties keep increasing index (a stable sort) |
| Ranking.RankUnique | src/core/index.ts:1064 | two ranked permutations of the same multiset are equal, so any stable sort gives this order |
| Ranking.Ids | src/core/index.ts:1101 | projects each candidate to its index |
| Ranking.KeptTagged | src/core/index.ts:1058-1063 | the kept weights are exactly the cached slots' tagged weights, with increasing indices |
| Ranking.CandidatesSpec | src/core/index.ts:1058-1064 | the candidates are ranked, have distinct indices, and are exactly the cached slots' tagged weights |
| Ranking.CandidateIds | src/core/index.ts:1058-1064 | candidate indices are distinct, in range and cached |
| Ranking.KTopFirstThree | src/core/index.ts:1099-1102 | without the diversity rule, the call never throws and the result is the first min(3, count) candidate indices: distinct, cached, in range |
| Ranking.KTopDiverse | src/core/index.ts:1067-1098 | with the diversity rule: it never throws when every cached index names a series; it throws exactly at the first rank whose comparison reads an unknown series; otherwise at most three indices, the best candidate first, no later one clashing with an earlier one, distinct, cached |
| Handle.Setup.Plan | src/core/index.ts:144-165 | the layout is valid for the heatmap size and fits the surface cap |
| Handle.DensityHandle.constructor | src/core/index.ts:116-1005 | the handle is valid; indexCache = range(n); maxDensity is the ceiling of the peak heat |
| Handle.FirstUnknown | src/core/index.ts:1135 | the first position whose index names no series, or the length when every index does |
| Handle.DensityHandle.Rerender | src/core/index.ts:1104-1191 | indexCache becomes the given indexes (default range(n)) and maxDensity is unchanged; it succeeds iff every index names a series, and then the heat buffer is the heat image of exactly those series; otherwise it throws the TypeError at the first unknown position f, heatBuffer is unchanged, and resultBuffer holds the heat of the batches before f's batch |
| Handle.DensityHandle.MaxDensity | src/core/index.ts:1195-1197 | the getter is never negative |
| Handle.DensityHandle.SetMaxDensity | src/core/index.ts:1198-1205 | no-op when v equals maxDensity or v < 1, otherwise sets it; the handle stays ready, and stays valid if it was |
| Handle.DensityHandle.FilterRange | src/core/index.ts:1027-1048 | ascending slot indices, each below the padded slot count, and k is returned iff its range condition holds |
| Handle.DensityHandle.FilterAngle | src/core/index.ts:1008-1026 | ascending slot indices, and k is returned iff its angle condition holds |
| Handle.DensityHandle.FindKTop | src/core/index.ts:1049-1103 | the result is the k-top of the current weights: a TypeError only on the diverse path and never when every cached index names a series (as after a completed render); otherwise at most three distinct cached indices |
| Handle.CreateHeatmap | src/core/index.ts:80-1005 | fails iff the resolved kernel fails its check, with that error; otherwise a fresh valid handle over range(n) |
| MeanShift.OffsetStep | src/core/meanshiftTest.js:233-238 | the offset of series i + 1 is that of series i plus its length |
| MeanShift.OffsetEnd | src/core/meanshiftTest.js:219 | the offset past the last series is the total sample count |
| MeanShift.SegmentsOrdered | src/core/meanshiftTest.js:233-245 | series i ends at or before the offset of every later series |
| MeanShift.Locate | src/core/meanshiftTest.js:233-245 | every buffer position belongs to some sample j of some series i |
| MeanShift.LocateUnique | src/core/meanshiftTest.js:233-245 | and to only one |
| MeanShift.SegmentCount | src/core/meanshiftTest.js:242 | count + 1 = length, or the series is empty and count = 0 |
| MeanShift.SetAt | src/core/meanshiftTest.js:236-237 | copies the source at the offset and leaves every other element unchanged |
| MeanShift.PackStep | src/core/meanshiftTest.js:234-245 | copying series i at its offset extends the packed prefix by that series |
| MeanShift.PackBuffers | src/core/meanshiftTest.js:218-245 | the fresh time and value buffers hold each series' x and y values at offset_i; each lineCache entry has offsetA = 4·offset_i, offsetB = offsetA + 4, count = max(len − 1, 0) and lineIdx = i |
| MeanShift.InstanceEndpoints | src/core/meanshiftTest.js:256-365 | instance k of series i reads samples k and k + 1 of that series from both buffers |
| MeanShift.AsWrittenWhenSquare | src/core/meanshiftTest.js:621-625 | for a square heatmap the as-written row sampling agrees with the corrected one |
| MeanShift.RowSamplingCounterexample | src/core/meanshiftTest.js:622 | for W = 2, H = 4 and mass 5 in row 0, the as-written column value is 1 while the corrected one is 5 |
| MeanShift.ColumnPeakFragment | src/core/meanshiftTest.js:618-629 | the fragment's loop computes the corrected column value |
| MeanShift.MaxDensityPass | src/core/meanshiftTest.js:609-636 | texel 4x + c of the W-wide output holds the corrected column value of x and channel c |
| MeanShift.EveryFourth | src/core/meanshiftTest.js:791 | keeps entries 0, 4, 8, …, in order |
| MeanShift.ColumnPeakIsMass | src/core/meanshiftTest.js:609-636 | channel 0 of a column's output is max(1, sum over rows of the heat) |
| MeanShift.LineCache | src/core/meanshiftTest.js:234-245 | one lineCache entry per series |
| MeanShift.ColumnDensities | src/core/meanshiftTest.js:116-792 | fails iff the kernel check fails; returns undefined (None) iff the KD buffer overflows; otherwise W values, value x being max(1, Σ_y heat(x, y)) over all series. This is the corrected row sampling, divided by heatmapHeight; the shader as written divides by heatmapWidth (see Findings) |
| Extended.Smaller | src/core/clustering.js:35 | the smaller of two extended reals is one of them and is greater than neither |
| Clustering.Dist2Cluster | src/core/clustering.js:22-29 | the loop computes the cluster distance: +∞ for an empty cluster, else the mean distance to its members |
| Clustering.MemberSumBetween | src/core/clustering.js:23-27 | the member sum lies between count·lo and count·hi |
| Clustering.MeanBetween | src/core/clustering.js:28 | a non-empty cluster's distance lies between the least and greatest of its distances |
| Clustering.Argmin | src/core/clustering.js:30-41 | None iff there are no clusters; otherwise an index below k |
| Clustering.ArgminIsFirstMinimum | src/core/clustering.js:32-38 | the chosen cluster has minimal distance, and every lower index is strictly farther (strict >) |
| Clustering.Classify | src/core/clustering.js:30-41 | the loop returns the first minimal cluster |
| Clustering.Dists | src/core/clustering.js:32-33 | one distance per cluster |
| Clustering.Assign | src/core/clustering.js:49-53 | one assignment per point |
| Clustering.Members | src/core/clustering.js:63-69 | i is listed iff point i is assigned to j; the list is strictly ascending and in range |
| Clustering.Gather | src/core/clustering.js:63-69 | the loop builds the member list |
| Clustering.PassShape | src/core/clustering.js:61-82 | the pass keeps k clusters; it reports movement iff some cluster differs from its members; clusters up to the first change are replaced and later ones kept |
| Clustering.UpdatePass | src/core/clustering.js:61-104 | the clusters array and the movement flag become those of the pass |
| Clustering.AssignAll | src/core/clustering.js:49-53 | the assignment array becomes the classification of every point |
| Clustering.Round | src/core/clustering.js:47-104 | one iteration: classify, then update |
| Clustering.Initial | src/core/clustering.js:16 | cluster c starts as [c, n − c − 1] |
| Clustering.Rounds | src/core/clustering.js:43-105 | keeps k clusters, all of whose members are point indices |
| Clustering.RoundsOutcome | src/core/clustering.js:43-46 | with at most 20 iterations, the loop stops with no movement or no iteration left; on no movement the clusters are stable |
| Clustering.Nearest | src/core/clustering.js:30-41 | the nearest cluster index is below k |
| Clustering.StablePartition | src/core/clustering.js:46-82 | clusters that did not move partition 0..n − 1: each point is in its nearest cluster and in no other, and each cluster is ascending |
| Clustering.Present | src/core/clustering.js:110-113 | with allFlag, every cluster mapped through ids if given; otherwise each cluster's first member mapped, or undefined for an empty cluster |
| Clustering.KMeans | src/core/clustering.js:4-115 | the result is the presentation of the clusters after at most 20 rounds from the initial clusters |
| Distance.SegmentTerms | src/core/distance.js:14-23 | the term list has (len_i − 1)·len_j terms, or none for an empty line |
| Distance.SegmentTermsAt | src/core/distance.js:14-20 | term m·len_j + k is the distance of point k of line j to segment m of line i |
| Distance.SegmentTermsDecode | src/core/distance.js:14-20 | every term index decodes to that segment and point |
| Distance.Max0Bounds | src/core/distance.js:13-21 | the running max from 0 is ≥ 0, ≥ every term, and is 0 or some term |
| Distance.MinFoldBounds | src/core/distance.js:37-42 | the running min from +∞ is ≤ every term and is +∞ or some term |
| Distance.Quotient | src/core/distance.js:111-112 | NaN iff the length is 0; otherwise quotient·length = sum |
| Distance.MaxTermIsMaximum | src/core/distance.js:13-24 | maxDistance[i][j] is ≥ 0, ≥ every segment–point distance, and equals one of them unless 0 |
| Distance.SumTermNested | src/core/distance.js:76-87 | the flat sum of terms equals the nested sum by segment and point |
| Distance.MaxBelowSum | src/core/distance.js:13-24 | for non-negative distances the max entry is at most the sum entry |
| Distance.TotalNonneg | src/core/distance.js:76-87 | the sum entry is non-negative for non-negative distances |
| Distance.MinTermCases | src/core/distance.js:37-45 | +∞ iff line i has fewer than 2 points or line j is empty; otherwise the least distance, which is attained |
| Distance.HausdorffTermCases | src/core/distance.js:57-64 | 0 when line j has fewer than 2 points; otherwise ≥ 0, ≥ every point's distance, and 0 or one of them |
| Distance.SegmentMax | src/core/distance.js:13-23 | the nested loops compute the max entry |
| Distance.SegmentSum | src/core/distance.js:76-86 | the nested loops compute the sum entry |
| Distance.PolylineMin | src/core/distance.js:37-43 | the loop computes the min entry |
| Distance.PolylineMaxMin | src/core/distance.js:57-63 | the loop computes the Hausdorff entry |
| Distance.MaxDistance | src/core/distance.js:7-29 | a fresh n×n matrix: entry [i][j] for j < i is the max entry, mirrored to [j][i], zero diagonal |
| Distance.MinDistance | src/core/distance.js:31-49 | the same pattern for the min entry, with a zero diagonal |
| Distance.SumDistance | src/core/distance.js:70-92 | the same pattern for the sum entry |
| Distance.AverageDistance | src/core/distance.js:94-116 | [i][j] is sum/len_i and [j][i] is sum/len_j (NaN for an empty line); zero diagonal |
| Distance.HausdorffDistance | src/core/distance.js:51-68 | every entry, the diagonal included, is its Hausdorff entry |
| KDTree.FirstHit | src/core/kdtree.js:24-30 | findIndex-style scan: Miss iff every element misses; otherwise the outcome of the first non-miss |
| KDTree.CheckData | src/core/kdtree.js:21-35 | succeeds iff data is an array of arrays of points with numeric x and y, returning those points; otherwise BadData, or TypeErrorRaised for a null or undefined point |
| KDTree.TypeErrorOnlyForNullPoints | src/core/kdtree.js:28 | a TypeError arises only from reading x of a null or undefined point |
| KDTree.LineSegmentsShape | src/core/kdtree.js:64-79 | a line with m ≥ 1 points gives m − 1 segments, segment k built from points k and k + 1; an empty line raises a TypeError |
| KDTree.SegmentsLayout | src/core/kdtree.js:62-80 | the flatMap succeeds iff every line is non-empty, and then has the total segment count |
| KDTree.SegmentsAt | src/core/kdtree.js:62-80 | segment k of line i sits at that line's offset + k and is [x_k, x_{k+1}, y_k, y_{k+1}, slope, i] |
| KDTree.OffsetMonotone | src/core/kdtree.js:62 | line offsets are non-decreasing |
| KDTree.SegmentsOrderedByLine | src/core/kdtree.js:62-80 | segments of an earlier line come before those of a later line |
| KDTree.FailureIsTypeError | src/core/kdtree.js:64-79 | the only failure of segment extraction is the TypeError |
| KDTree.CheckRender | src/core/kdtree.js:94-130 | succeeds iff the canvas is a canvas, domain and range are 2×2 numeric boxes, and the kernel is a non-empty square numeric matrix; it fails with BadCanvas iff the canvas test fails, with BadDomainRange iff the canvas passes and domain or range is not a box, and with BadKernel iff only the kernel test fails |
| KDTree.BoxCheck | src/core/kdtree.js:99-118 | the negated findIndex test is exactly "a 2×2 array of non-NaN numbers" |
| KDTree.KernelCheck | src/core/kdtree.js:119-130 | the negated test is exactly "a non-empty n×n array of non-NaN numbers" |
| KDTree.KDLine.constructor | src/core/kdtree.js:13-36 | precision starts at 1 and the tree at null |
| KDTree.KDLine.SetPrecision | src/core/kdtree.js:38-47 | precision becomes the value iff it is a finite number > 0, otherwise it is unchanged; precision > 0 is kept |
| KDTree.KDLine.Precision | src/core/kdtree.js:49-51 | the getter returns the field, which is positive |
| KDTree.KDLine.BuildKDTree | src/core/kdtree.js:57-85 | succeeds iff every line is non-empty, and then the tree holds the extracted segments; otherwise TypeError, with the tree unchanged |
| KDTree.NewKDLine | src/core/kdtree.js:21-36 | succeeds iff the data is well formed, with a fresh KDLine of precision 1 over the checked points; otherwise the check's error |

## Left out

- GPU plumbing (context, `lost` handler, framebuffer allocation, `regl.read`,
  `destroy`) is not modelled. Buffers are `array<real>` surfaces.
- Line rasterisation (`drawLine`, `drawFlatLine`, instanced quads). The
  lines grid is the parameter `cover`, and the flattened buffer is the input
  `flat`.
- `cover(item, x, y)` marks cells of the item's own tile only. The source's
  `drawLine` does not clip to the tile (`src/core/index.ts:190-206`). A
  sample whose time lies outside `[0, maxDataPoints]`, or whose value lies
  outside `[0, binY.stop]`, is drawn into a neighbouring tile in the same
  channel, which is another series' slot. The model assumes every sample
  lies inside `[0, maxDataPoints] × [0, binY.stop]`, as the source's own
  scaling does (`src/core/index.ts:189`). The members below hold under that
  assumption only.
- Density.GaussianSlot: its "no bleed from neighbouring tiles" holds only for
  samples inside the data box above.
- Density.BatchFoldIsDensity: holds only for samples inside the data box.
- Density.HeatPermutation: holds only for samples inside the data box. Out
  of the box, a sample bleeds into whichever series shares the neighbouring
  slot, and that depends on the order.
- Pipeline.HeatImagePermutation: holds only for samples inside the data box,
  for the same reason.
- Texture precision (uint8 lines, float32 surfaces and distance matrices,
  mediump arithmetic) is not modelled. Cells are exact reals, and texture
  lookups are exact nearest-texel indices.
- `slope` (imported in `src/core/index.ts` but not defined in
  `src/core/utils.ts`) is not part of this model. `filterRange` and
  `filterAngle` take already-rescaled arguments.
- `MAX_REPEATS_X/Y` come from a constants file that is not part of this
  model. They are a `RepeatCap` parameter.
- Utils.Float: numbers are exact reals. The model does not capture
  JavaScript's exponent form for integers with |i| ≥ 1e21, where the source
  gives e.g. `"1e+21.0"` and the model gives plain digits. NaN and
  ±Infinity, which give `"NaN.0"` and `"Infinity.0"`, are not modelled
  either.
- Ranking.StdDevBelow: `Math.sqrt` is not modelled. The test
  `standardDeviation < d` is stated as `d > 0 ∧ variance < d²`, which
  `StdDevBelowIsSqrt` shows equivalent for every square root.
- Planner.PlanTiles: requires `n ≥ 1` and `1 ≤ W, H ≤ cap`. The source does
  not check these. For W > cap (or H > cap) it plans `repeatsX = 0` (or
  `repeatsY = 0`), which gives a zero-width (or zero-height) surface. For
  n = 0 it plans `repeatsX = -0` and `repeatsY = NaN`. In each case
  `batchSize` is 0 (NaN for n = 0), so with series to draw the batch loops
  `b += batchSize` (index.ts:902, 1120) never advance. The requires
  excludes exactly these plans.
- Handle.DensityHandle.constructor: requires `maxY ≠ 0`, because the
  diversity rule divides by it. It also requires one y-value list per
  series (`|values| = n`), because both come from the same `data` array;
  `Handle.CreateHeatmap` requires the same.
- Ranking.DiffSeries: assumes each series has as many x values as y
  values. The source takes `testLength` as the smaller of the two
  `xValues` lengths and slices the `yValues` by it (index.ts:1074-1087);
  the model takes the smaller of the two y lengths. The two agree when
  every series has as many x values as y values.
- `diverse` is truthy iff it is non-zero. NaN is not modelled.
- The `makePair` and `duplicate` bodies beyond the trivial branch are
  ndarray library calls that are not part of this model.
- `drawTexture` (colour ramp) and the canvas drawing in `KDLine.render`
  are presentation.
- `VolRTree` and its queries (`knn`, `rnn`, `brush`, `angular`, `rep`) are
  not part of this model. The tree field holds the segment list that would
  be handed to `new VolRTree`.
- `alphaOpt.js` is float geometry over classes that are not part of this
  model.
- In `src/core/meanshiftTest.js`, `getData` (file reading, CSV parsing,
  random filtering), the top-level script, and the in-place min/max shift
  of the data are I/O preprocessing and are left out.
- MeanShift.PackBuffers requires each series to have as many x values as
  y values. `timeArray.set` with a longer `yValues` would otherwise
  overwrite the next series.
- MeanShift.ColumnDensities: the result buffer is fresh rather than
  cleared. `main` runs once, so the two agree.
- `point_line_distance` and `point_line_distance_multi` are library
  functions. They are parameters, so only the fill patterns and folds are
  proved.
- The slope division in `buildKDTree` (JavaScript `/`, which can give
  ±Infinity or NaN) is a parameter returning a `JsNumber`.
- Clustering.KMeans: takes a finite real distance matrix. The `+∞` entries
  of a `minDistance` matrix are not fed to it.
- Clustering.KMeans: requires `k ≤ n`. For larger k, `Initial` would have
  negative member indices, which JavaScript reads as undefined.
- Clustering.KMeans: requires `ids`, when given, to be at least as long as
  the data.
- `sumDist` in `kmeans` is computed but never used, so it is left out.
- KDTree.CheckRender: the `instanceof HTMLCanvasElement` test is the
  boolean parameter `isCanvas`.
- Property reads on non-objects are simplified to `undefined`, except the
  `null`/`undefined` reads that throw.

## Findings

| source | as written | input that shows it | evidently intended | confidence | as-written member | corrected member |
|---|---|---|---|---|---|---|
| src/core/meanshiftTest.js:621-622 | the `maxDensity` shader samples row j at `(j + 0.5) / heatmapWidth` | W = 2, H = 4, heat mass 5 in row 0 (`RowZeroHeat`): the as-written column value is 1, the intended value is 5 | divide by `heatmapHeight`, as the `sum` shader of `src/core/index.ts` does | not executed | MeanShift.RowSamplingCounterexample | MeanShift.ColumnPeakFragment |
