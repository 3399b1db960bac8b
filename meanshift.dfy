/** The density pipeline as src/core/meanshiftTest.js's `main` runs it: the
    series are packed into one time buffer and one value buffer with a
    per-series entry (byte offsets and segment count), the planner runs
    without repeat caps, a capacity check may give up before anything is
    drawn, the same batch loop and passes produce the heatmap, and the
    `maxDensity` shader reduces every heatmap column to one number. */
module MeanShift {
  import opened Wrappers
  import opened Sums
  import opened Planner
  import opened Surface
  import opened Passes
  import opened Density
  import opened Pipeline

  /** One input series: `xValues` and `yValues`. */
  datatype Series = Series(xs: seq<real>, ys: seq<real>)

  /** Every series has as many y values as x values. */
  predicate Paired(data: seq<Series>)
  {
    forall i :: 0 <= i < |data| ==> |data[i].ys| == |data[i].xs|
  }

  /** `data.reduce((p, v) => p + v.xValues.length, 0)`: the total sample count. */
  function TotalLength(data: seq<Series>): nat
  {
    if |data| == 0 then 0 else TotalLength(data[..|data| - 1]) + |data[|data| - 1].xs|
  }

  /** The value of `linePointer` when series i is packed: the samples before it. */
  function Offset(data: seq<Series>, i: nat): nat
    requires i <= |data|
  {
    TotalLength(data[..i])
  }

  lemma OffsetStep(data: seq<Series>, i: nat)
    requires i < |data|
    ensures Offset(data, i + 1) == Offset(data, i) + |data[i].xs|
  {
    assert data[..i + 1][..i] == data[..i];
  }

  lemma OffsetEnd(data: seq<Series>)
    ensures Offset(data, |data|) == TotalLength(data)
  {
    assert data[..|data|] == data;
  }

  /** Series i's block ends no later than series k's block starts, for i < k. */
  lemma {:induction false} SegmentsOrdered(data: seq<Series>, i: nat, k: nat)
    requires i < k <= |data|
    ensures Offset(data, i) + |data[i].xs| <= Offset(data, k)
    decreases k - i
  {
    OffsetStep(data, i);
    if i + 1 < k {
      SegmentsOrdered(data, i + 1, k);
      OffsetStep(data, i + 1);
    }
  }

  /** Every position of the packed buffers lies in the block of some series... */
  lemma {:induction false} Locate(data: seq<Series>, p: nat) returns (i: nat, j: nat)
    requires p < TotalLength(data)
    ensures i < |data| && j < |data[i].xs| && p == Offset(data, i) + j
    decreases |data|
  {
    var last := |data| - 1;
    OffsetStep(data, last);
    OffsetEnd(data);
    if p >= Offset(data, last) {
      i, j := last, p - Offset(data, last);
    } else {
      var prefix := data[..last];
      assert TotalLength(prefix) == Offset(data, last);
      i, j := Locate(prefix, p);
      assert prefix[..i] == data[..i];
    }
  }

  /** ... and of only one: the blocks do not overlap. */
  lemma LocateUnique(data: seq<Series>, i: nat, j: nat, i': nat, j': nat)
    requires i < |data| && j < |data[i].xs| && i' < |data| && j' < |data[i'].xs|
    requires Offset(data, i) + j == Offset(data, i') + j'
    ensures i == i' && j == j'
  {
    if i < i' {
      SegmentsOrdered(data, i, i');
    } else if i' < i {
      SegmentsOrdered(data, i', i);
    }
  }

  /** `Float32Array.BYTES_PER_ELEMENT` */
  const BytesPerFloat: nat := 4

  /** A `lineCache` entry: byte offsets of the first point A and point B of
      the first segment into the packed buffers, the segment count, the series. */
  datatype LineEntry = LineEntry(offsetA: nat, offsetB: nat, count: nat, lineIdx: nat)

  /** `Math.max(length - 1, 0)`: segments drawn for a series of `length` samples. */
  function SegmentCount(length: nat): (r: nat)
    ensures r + 1 == length || (length == 0 && r == 0)
  {
    if length >= 1 then length - 1 else 0
  }

  /** Series i's entry: its first point A at its offset, point B one element
      later, and one segment fewer than its samples. */
  function EntryOf(data: seq<Series>, i: nat): LineEntry
    requires i < |data|
  {
    LineEntry(BytesPerFloat * Offset(data, i), BytesPerFloat * (Offset(data, i) + 1), SegmentCount(|data[i].xs|), i)
  }

  /** The `lineCache` of `data` as the packing loop builds it. */
  ghost predicate Cached(data: seq<Series>, lineCache: seq<LineEntry>)
  {
    |lineCache| == |data| &&
    forall i :: 0 <= i < |data| ==>
      lineCache[i] == EntryOf(data, i)
  }

  /** Series i' is in place in the packed buffers, below element `bound`. */
  ghost predicate SeriesPlaced(data: seq<Series>, times: seq<real>, values: seq<real>, i': nat, bound: nat)
    requires i' < |data| && bound <= |times| && bound <= |values|
  {
    Offset(data, i') + |data[i'].xs| <= bound && |data[i'].ys| == |data[i'].xs| &&
    forall j :: 0 <= j < |data[i'].xs| ==>
      times[Offset(data, i') + j] == data[i'].xs[j] && values[Offset(data, i') + j] == data[i'].ys[j]
  }

  /** Sample j of a placed series. */
  lemma PlacedAt(data: seq<Series>, times: seq<real>, values: seq<real>, i': nat, bound: nat, j: nat)
    requires i' < |data| && bound <= |times| && bound <= |values|
    requires SeriesPlaced(data, times, values, i', bound) && j < |data[i'].xs|
    ensures Offset(data, i') + j < bound && j < |data[i'].ys|
    ensures times[Offset(data, i') + j] == data[i'].xs[j] && values[Offset(data, i') + j] == data[i'].ys[j]
  {
  }

  /** The packed time and value buffers: series i's samples at its block. */
  ghost predicate Packed(data: seq<Series>, times: seq<real>, values: seq<real>)
  {
    Paired(data) && |times| == |values| == TotalLength(data) &&
    forall i :: 0 <= i < |data| ==> SeriesPlaced(data, times, values, i, TotalLength(data))
  }

  /** `target.set(source, offset)` on a typed array. */
  method SetAt(target: array<real>, source: seq<real>, offset: nat)
    requires offset + |source| <= target.Length
    modifies target
    ensures forall j :: 0 <= j < |source| ==> target[offset + j] == source[j]
    ensures forall p :: 0 <= p < target.Length && !(offset <= p < offset + |source|) ==> target[p] == old(target[p])
  {
    for j := 0 to |source|
      invariant forall j' :: 0 <= j' < j ==> target[offset + j'] == source[j']
      invariant forall p :: 0 <= p < target.Length && !(offset <= p < offset + j) ==> target[p] == old(target[p])
    {
      target[offset + j] := source[j];
    }
  }

  /** Series 0 .. i - 1 are in place in the packed buffers. */
  ghost predicate PackedUpTo(data: seq<Series>, times: seq<real>, values: seq<real>, i: nat)
    requires i <= |data|
  {
    Paired(data) && |times| == |values| == TotalLength(data) && Offset(data, i) <= TotalLength(data) &&
    forall i' :: 0 <= i' < i ==> SeriesPlaced(data, times, values, i', Offset(data, i))
  }

  /** An earlier series stays in place when series i is copied after it. */
  lemma EarlierStays(data: seq<Series>, t0: seq<real>, v0: seq<real>, t1: seq<real>, v1: seq<real>, i: nat, i': nat)
    requires i < |data| && PackedUpTo(data, t0, v0, i) && |t1| == |t0| && |v1| == |v0| && i' < i
    requires forall p :: 0 <= p < |t1| && !(Offset(data, i) <= p < Offset(data, i) + |data[i].xs|) ==>
      t1[p] == t0[p] && v1[p] == v0[p]
    ensures Offset(data, i + 1) <= |t1| && SeriesPlaced(data, t1, v1, i', Offset(data, i + 1))
  {
    OffsetStep(data, i);
    SegmentsOrdered(data, i, |data|);
    OffsetEnd(data);
    assert SeriesPlaced(data, t0, v0, i', Offset(data, i));
    forall j | 0 <= j < |data[i'].xs|
      ensures t1[Offset(data, i') + j] == data[i'].xs[j] && v1[Offset(data, i') + j] == data[i'].ys[j]
    {
      PlacedAt(data, t0, v0, i', Offset(data, i), j);
    }
  }

  /** Copying series i into its block keeps the earlier ones and adds it. */
  lemma PackStep(data: seq<Series>, t0: seq<real>, v0: seq<real>, t1: seq<real>, v1: seq<real>, i: nat)
    requires i < |data| && PackedUpTo(data, t0, v0, i) && |t1| == |t0| && |v1| == |v0|
    requires forall j :: 0 <= j < |data[i].xs| ==>
      Offset(data, i) + j < |t1| && t1[Offset(data, i) + j] == data[i].xs[j] && v1[Offset(data, i) + j] == data[i].ys[j]
    requires forall p :: 0 <= p < |t1| && !(Offset(data, i) <= p < Offset(data, i) + |data[i].xs|) ==>
      t1[p] == t0[p] && v1[p] == v0[p]
    ensures PackedUpTo(data, t1, v1, i + 1)
  {
    OffsetStep(data, i);
    SegmentsOrdered(data, i, |data|);
    OffsetEnd(data);
    ghost var bound := Offset(data, i + 1);
    forall i' | 0 <= i' < i + 1
      ensures SeriesPlaced(data, t1, v1, i', bound)
    {
      if i' < i {
        EarlierStays(data, t0, v0, t1, v1, i, i');
      }
    }
  }

  /** All series in place is the packed layout. */
  lemma PackedAll(data: seq<Series>, times: seq<real>, values: seq<real>)
    requires PackedUpTo(data, times, values, |data|)
    ensures Packed(data, times, values)
  {
    OffsetEnd(data);
  }

  /** The `lineCache = data.map(...)` loop advancing `linePointer`. */
  method PackBuffers(data: seq<Series>) returns (timeArray: array<real>, valueArray: array<real>, lineCache: seq<LineEntry>)
    requires Paired(data)
    ensures fresh(timeArray) && fresh(valueArray) && timeArray != valueArray
    ensures Packed(data, timeArray[..], valueArray[..])
    ensures Cached(data, lineCache)
  {
    var dataLength := TotalLength(data);
    timeArray := new real[dataLength];
    valueArray := new real[dataLength];
    var linePointer := 0;
    lineCache := [];
    for i := 0 to |data|
      invariant linePointer == Offset(data, i)
      invariant PackedUpTo(data, timeArray[..], valueArray[..], i)
      invariant |lineCache| == i
      invariant forall i' :: 0 <= i' < i ==>
        lineCache[i'] == EntryOf(data, i')
    {
      var offset := linePointer;
      OffsetStep(data, i);
      SegmentsOrdered(data, i, |data|);
      OffsetEnd(data);
      ghost var t0, v0 := timeArray[..], valueArray[..];
      SetAt(timeArray, data[i].xs, offset);
      SetAt(valueArray, data[i].ys, offset);
      PackStep(data, t0, v0, timeArray[..], valueArray[..], i);
      linePointer := linePointer + |data[i].xs|;
      lineCache := lineCache + [LineEntry(BytesPerFloat * offset, BytesPerFloat * (offset + 1),
                                          SegmentCount(|data[i].xs|), i)];
    }
    PackedAll(data, timeArray[..], valueArray[..]);
  }

  /** Instance k of series i's instanced draw reads its point A at element
      `offsetA / 4 + k` and point B at `offsetB / 4 + k`: samples k and k + 1
      of that same series, so a series of 0 or 1 samples draws nothing and no
      segment joins two series. */
  lemma InstanceEndpoints(data: seq<Series>, times: seq<real>, values: seq<real>, lineCache: seq<LineEntry>,
                          i: nat, k: nat)
    requires Paired(data) && Packed(data, times, values) && Cached(data, lineCache)
    requires i < |data| && k < lineCache[i].count
    ensures var a, b := lineCache[i].offsetA / BytesPerFloat + k, lineCache[i].offsetB / BytesPerFloat + k;
      k + 1 < |data[i].xs| && b == a + 1 && b < |times| &&
      times[a] == data[i].xs[k] && values[a] == data[i].ys[k] &&
      times[b] == data[i].xs[k + 1] && values[b] == data[i].ys[k + 1]
  {
    var o := Offset(data, i);
    assert lineCache[i].offsetA / BytesPerFloat == o;
    assert lineCache[i].offsetB / BytesPerFloat == o + 1;
    SegmentsOrdered(data, i, |data|);
    OffsetEnd(data);
    assert SeriesPlaced(data, times, values, i, TotalLength(data));
    PlacedAt(data, times, values, i, TotalLength(data), k);
    PlacedAt(data, times, values, i, TotalLength(data), k + 1);
  }

  // ---------------------------------------------------------------------------
  // The `maxDensity` output shader
  // ---------------------------------------------------------------------------

  /** Output texel x, channel c of the `maxDensity` shader as written: row j
      is sampled at `(j + 0.5) / heatmapWidth`, and the sum floored at 1. */
  function ColumnPeakAsWritten(W: nat, H: nat, heat: seq<real>, x: int, c: int): real
    requires W >= 1 && H >= 1
  {
    AtLeastOne(Sum(0, H, j => At(heat, Index4(W, x, RowAsWritten(W, H, j), c))))
  }

  /** The heatmap row the shader as written reads for loop index j. */
  function RowAsWritten(W: nat, H: nat, j: int): int
    requires W >= 1 && H >= 1
  {
    TexelIndex((j as real + 0.5) / W as real, H)
  }

  /** The evidently intended output: the sum of heat column x, floored at 1
      (row j sampled at `(j + 0.5) / heatmapHeight`, which is row j). */
  function ColumnPeak(W: nat, H: nat, heat: seq<real>, x: int, c: int): real
  {
    AtLeastOne(Sum(0, H, j => At(heat, Index4(W, x, j, c))))
  }

  /** When the heatmap is square the two readings coincide. */
  lemma AsWrittenWhenSquare(W: nat, heat: seq<real>, x: int, c: int)
    requires W >= 1
    ensures ColumnPeakAsWritten(W, W, heat, x, c) == ColumnPeak(W, W, heat, x, c)
  {
    forall j | 0 <= j < W
      ensures RowAsWritten(W, W, j) == j
    {
      TexelOfCenter(j, W);
    }
    SumExt(0, W, j => At(heat, Index4(W, x, RowAsWritten(W, W, j), c)), j => At(heat, Index4(W, x, j, c)));
  }

  /** A 2 x 4 heatmap whose only mass, 5, is at row 0 of column 0. */
  function RowZeroHeat(): seq<real>
  {
    seq(32, i => if i == 0 then 5.0 else 0.0)
  }

  /** With W = 2 and H = 4 the shader as written samples rows 1, 3, 3, 3 of
      column 0: it misses the mass at row 0 and reports 1 instead of 5. */
  lemma RowSamplingCounterexample()
    ensures ColumnPeakAsWritten(2, 4, RowZeroHeat(), 0, 0) == 1.0
    ensures ColumnPeak(2, 4, RowZeroHeat(), 0, 0) == 5.0
  {
    var heat := RowZeroHeat();
    var f := j => At(heat, Index4(2, 0, RowAsWritten(2, 4, j), 0));
    assert RowAsWritten(2, 4, 0) == 1;
    assert RowAsWritten(2, 4, 1) == 3;
    assert RowAsWritten(2, 4, 2) == 3;
    assert RowAsWritten(2, 4, 3) == 3;
    assert f(0) == heat[4] && f(1) == heat[12] && f(2) == heat[12] && f(3) == heat[12];
    Sum4(f);
    var g := j => At(heat, Index4(2, 0, j, 0));
    assert g(0) == heat[0] && g(1) == heat[8] && g(2) == heat[16] && g(3) == heat[24];
    Sum4(g);
  }

  /** One fragment and channel of the corrected `maxDensity` shader. */
  method ColumnPeakFragment(W: nat, H: nat, heat: seq<real>, x: int, c: int) returns (v: real)
    requires W >= 1 && H >= 1
    ensures v == ColumnPeak(W, H, heat, x, c)
  {
    var sum := 0.0;
    for j := 0 to H
      invariant sum == Sum(0, j, j => At(heat, Index4(W, x, j, c)))
    {
      TexelOfCenter(j, H);
      var row := TexelIndex((j as real + 0.5) / H as real, H);
      SumLast(0, j + 1, j => At(heat, Index4(W, x, j, c)));
      sum := sum + At(heat, Index4(W, x, row, c));
    }
    v := AtLeastOne(sum);
  }

  /** The corrected `maxDensity` pass over the `W x 1` target, as read back:
      channel c of texel x at entry 4x + c. */
  method MaxDensityPass(W: nat, H: nat, heat: seq<real>) returns (res: seq<real>)
    requires W >= 1 && H >= 1
    ensures |res| == 4 * W
    ensures forall x, c :: 0 <= x < W && 0 <= c < 4 ==> res[4 * x + c] == ColumnPeak(W, H, heat, x, c)
  {
    res := [];
    for i := 0 to 4 * W
      invariant |res| == i
      invariant forall k :: 0 <= k < i ==> res[k] == ColumnPeak(W, H, heat, k / 4, k % 4)
    {
      var v := ColumnPeakFragment(W, H, heat, i / 4, i % 4);
      res := res + [v];
    }
    forall x, c | 0 <= x < W && 0 <= c < 4
      ensures res[4 * x + c] == ColumnPeak(W, H, heat, x, c)
    {
      assert (4 * x + c) / 4 == x && (4 * x + c) % 4 == c;
    }
  }

  /** `res.filter((_, i) => i % 4 == 0)`: the first channel of every texel. */
  function EveryFourth(s: seq<real>): (r: seq<real>)
    ensures |r| == (|s| + 3) / 4
    ensures forall i :: 0 <= i < |r| ==> 4 * i < |s| && r[i] == s[4 * i]
  {
    if |s| == 0 then []
    else
      var prev := EveryFourth(s[..|s| - 1]);
      if (|s| - 1) % 4 == 0 then prev + [s[|s| - 1]] else prev
  }

  /** With the reference heat image the corrected output for column x is the
      density mass of that column, floored at 1. */
  lemma ColumnPeakIsMass<T>(L: Layout, S: Smoothing, cover: (T, int, int) -> bool, items: seq<T>, x: int)
    requires L.Valid() && 0 <= x < L.w
    ensures ColumnPeak(L.w, L.h, HeatImage(L, S, cover, items), x, 0)
         == AtLeastOne(Sum(0, L.h, y => Heat(L.w, L.h, S, cover, items, x, y)))
  {
    var img := HeatImage(L, S, cover, items);
    forall y | 0 <= y < L.h
      ensures At(img, Index4(L.w, x, y, 0)) == Heat(L.w, L.h, S, cover, items, x, y)
    {
      Index4Encode(L.w, L.h, x, y, 0);
    }
    SumExt(0, L.h, j => At(img, Index4(L.w, x, j, 0)), y => Heat(L.w, L.h, S, cover, items, x, y));
  }

  // ---------------------------------------------------------------------------
  // main
  // ---------------------------------------------------------------------------

  /** The entries the batch loop spreads over the slots: `lineCache`. */
  function LineCache(data: seq<Series>): (r: seq<LineEntry>)
    ensures |r| == |data|
  {
    seq(|data|, i requires 0 <= i < |data| =>
      EntryOf(data, i))
  }

  /** `main`: the kernel checks throw; the capacity check returns `undefined`
      (None) before anything is allocated; otherwise the packed series go
      through the batch pipeline over the uncapped plan and the result is
      one value per heatmap column: its density mass floored at 1.
      This is the corrected `maxDensity` pass, which samples row j at
      `(j + 0.5) / heatmapHeight`. The shader as written divides by
      `heatmapWidth` (`ColumnPeakAsWritten`, `RowSamplingCounterexample`); the
      two agree only for a square heatmap (`AsWrittenWhenSquare`). */
  method ColumnDensities(data: seq<Series>, w: nat, h: nat, limit: nat, kernel: Option<seq<seq<real>>>,
                         doNormalize: int, cover: (LineEntry, int, int) -> bool)
    returns (r: Result<Option<seq<real>>, KernelError>)
    requires Paired(data) && |data| >= 1
    requires 1 <= w <= SurfaceCap(limit) && 1 <= h <= SurfaceCap(limit)
    ensures r.Failure? <==> CheckKernel(ResolveKernel(kernel)).Failure?
    ensures r.Failure? ==> r.error == CheckKernel(ResolveKernel(kernel)).error
    ensures r == Success(None) <==> CheckKernel(ResolveKernel(kernel)).Success? && KDOverflow(|data|, w, limit)
    ensures r.Success? && r.value.Some? ==>
      var S := Smoothing(ResolveKernel(kernel), doNormalize);
      |r.value.value| == w &&
      forall x :: 0 <= x < w ==>
        r.value.value[x] == AtLeastOne(Sum(0, h, y => Heat(w, h, S, cover, LineCache(data), x, y)))
  {
    var gaussianKernel := ResolveKernel(kernel);
    var check := CheckKernel(gaussianKernel);
    if check.Failure? {
      return Failure(check.error);
    }
    var plan := PlanTiles(|data|, w, h, limit, Unbounded, Unbounded);
    if KDOverflow(|data|, w, limit) {
      return Success(None);
    }
    var timeArray, valueArray, lineCache := PackBuffers(data);
    assert lineCache == LineCache(data);
    var L := Layout(w, h, plan.repeatsX, plan.repeatsY);
    var S := Smoothing(gaussianKernel, doNormalize);
    var result, preMerged, heat, sums := Allocate(L);
    RenderHeat(L, S, cover, lineCache, result, preMerged, heat, sums);
    var res := MaxDensityPass(w, h, heat[..]);
    var out := EveryFourth(res);
    forall x | 0 <= x < w
      ensures out[x] == AtLeastOne(Sum(0, h, y => Heat(w, h, S, cover, lineCache, x, y)))
    {
      ColumnPeakIsMass(L, S, cover, lineCache, x);
      assert out[x] == res[4 * x + 0];
    }
    return Success(Some(out));
  }
}
