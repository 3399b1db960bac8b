/** The handle `createHeatmap` returns: the construction-time checks and
    first render, and the closure state `indexCache` / `maxDensity` with the
    operations over it (`rerender`, `filterRange`, `filterAngle`,
    `findKTop`, the `maxDensity` getter and setter). Series are identified
    by their index; `cover` is the rasterised line of a series. */
module Handle {
  import opened Wrappers
  import opened Planner
  import opened Surface
  import opened Passes
  import opened Pipeline
  import opened Density
  import opened Batching
  import opened Filters
  import opened Ranking
  import opened Utils

  /** The arguments of `createHeatmap` the model keeps: the series count, the
      heatmap size, the renderbuffer limit, the repeat caps, the kernel
      (undefined: the default), `doNormalize` and `binY.stop`. */
  datatype Setup = Setup(n: nat, w: nat, h: nat, limit: nat, capX: RepeatCap, capY: RepeatCap,
                         kernel: Option<seq<seq<real>>>, doNormalize: int, maxY: real)
  {
    /** What the planner needs: at least one series, a heatmap that fits the
        surface, and repeat caps of at least 1. */
    predicate Plannable()
    {
      n >= 1 && 1 <= w <= SurfaceCap(limit) && 1 <= h <= SurfaceCap(limit) &&
      CapAtLeastOne(capX) && CapAtLeastOne(capY)
    }

    /** The surface layout the planner picks. */
    function Plan(): (L: Layout)
      requires Plannable()
      ensures L.Valid() && L.w == w && L.h == h
      ensures L.Width() <= SurfaceCap(limit) && L.Height() <= SurfaceCap(limit)
    {
      var p := PlanTiles(n, w, h, limit, capX, capY);
      Layout(w, h, p.repeatsX, p.repeatsY)
    }
  }

  /** `Math.ceil(data.length / 4)`: the rows of flatLinesBuffer and of the query target. */
  function Rows(n: nat): nat
  {
    CeilDiv(n, 4)
  }

  /** m is what `findMax` reads back: the largest r value of the heatmap, or 0. */
  ghost predicate PeakOf(W: nat, H: nat, heat: seq<real>, m: real)
  {
    m >= 0.0 &&
    (forall x, y :: 0 <= x < W && 0 <= y < H ==> HeatR(W, heat, x, y) <= m) &&
    (m == 0.0 || exists x, y :: 0 <= x < W && 0 <= y < H && m == HeatR(W, heat, x, y))
  }

  /** `rerender` reads `data[indexes[series]].xValues`; for an index that
      names no series this throws a TypeError at that position of `indexes`. */
  datatype RerenderError = TypeErrorRaised(position: nat)

  /** The position of the first index that names no series, or |ids| if every
      index does. */
  function FirstUnknown(ids: seq<nat>, n: nat): (f: nat)
    ensures f <= |ids|
    ensures forall j :: 0 <= j < f ==> ids[j] < n
    ensures f < |ids| ==> ids[f] >= n
  {
    if |ids| == 0 || ids[0] >= n then 0 else 1 + FirstUnknown(ids[1..], n)
  }

  class DensityHandle {
    const L: Layout
    const S: Smoothing
    const n: nat
    const cover: (nat, int, int) -> bool
    /** flatLinesBuffer as drawn by `drawFlatLine` at construction. */
    const flat: seq<real>
    /** The y values of every series (`data[i].yValues`). */
    const values: seq<seq<real>>
    const maxY: real
    const result: array<real>
    const preMerged: array<real>
    const heat: array<real>
    const sums: array<real>
    var indexCache: seq<nat>
    var maxDensity: real

    /** What every operation needs: the buffers have the planned sizes, the
        kernel passed its check, there are y values for each of the n series
        and maxDensity is not negative. A failed `rerender` keeps this. */
    ghost predicate Ready()
      reads this
    {
      Buffers(L, result, preMerged, heat, sums) && S.Valid() && maxY != 0.0 &&
      |values| == n && maxDensity >= 0.0
    }

    /** The handle after a completed render: in addition every cached index
        names a series, and heatBuffer holds the density of exactly the
        cached series. */
    ghost predicate Valid()
      reads this, heat
    {
      Ready() &&
      (forall k :: k in indexCache ==> k < n) &&
      heat[..] == HeatImage(L, S, cover, indexCache)
    }

    /** Allocation, the first render of every series in order, `findMax`, and
        `indexCache = range(data.length)`. */
    constructor (setup: Setup, kernel: seq<seq<real>>, cover: (nat, int, int) -> bool,
                 flat: seq<real>, values: seq<seq<real>>)
      requires setup.Plannable() && CheckKernel(kernel).Success? && setup.maxY != 0.0
      requires |values| == setup.n
      ensures Valid()
      ensures L == setup.Plan() && S == Smoothing(kernel, setup.doNormalize) && n == setup.n
      ensures this.cover == cover && this.flat == flat && this.values == values && maxY == setup.maxY
      ensures indexCache == Indexes(setup.n)
      ensures exists m :: PeakOf(L.w, L.h, heat[..], m) && maxDensity == Ceil(m) as real
    {
      var layout := setup.Plan();
      L := layout;
      S := Smoothing(kernel, setup.doNormalize);
      n := setup.n;
      this.cover := cover;
      this.flat := flat;
      this.values := values;
      maxY := setup.maxY;
      var r, p, h, s := Allocate(layout);
      result, preMerged, heat, sums := r, p, h, s;
      indexCache := [];
      maxDensity := 0.0;
      new;
      RenderHeat(L, S, cover, Indexes(n), result, preMerged, heat, sums);
      var m := FindMax(L.w, L.h, heat[..]);
      assert PeakOf(L.w, L.h, heat[..], m);
      maxDensity := Ceil(m) as real;
      var ids := Range(n);
      indexCache := ids[..];
      assert heat[..] == HeatImage(L, S, cover, indexCache);
    }

    /** `rerender(indexes)`: cache the indexes (all series when undefined),
        clear resultBuffer and run the batch pipeline over the cached series.
        maxDensity and flatLinesBuffer are left as they are. An index that
        names no series throws while its batch is prepared: the batches
        before it have been added into resultBuffer, and the merges into
        heatBuffer never run. */
    method Rerender(indexes: Option<seq<nat>>) returns (r: Result<(), RerenderError>)
      requires Ready()
      modifies this, result, preMerged, heat, sums
      ensures Ready()
      ensures indexCache == (if indexes.Some? then indexes.value else Indexes(n))
      ensures maxDensity == old(maxDensity)
      ensures r.Success? <==> forall k :: k in indexCache ==> k < n
      ensures r.Success? ==> Valid() && heat[..] == HeatImage(L, S, cover, indexCache)
      ensures r.Failure? ==>
        var f := FirstUnknown(indexCache, n);
        f < |indexCache| && r.error == TypeErrorRaised(f) && heat[..] == old(heat[..]) &&
        forall x, y :: 0 <= x < L.w && 0 <= y < L.h ==>
          Merged(L, result[..], x, y) ==
          Heat(L.w, L.h, S, cover, indexCache[..BatchStart(f, 4 * L.rx * L.ry)], x, y)
    {
      var chosen: seq<nat>;
      if indexes.None? {
        var ids := Range(n);
        chosen := ids[..];
      } else {
        chosen := indexes.value;
      }
      indexCache := chosen;
      var f := FirstUnknown(chosen, n);
      if f < |chosen| {
        assert chosen[f] in indexCache;
        AccumulateBatches(L, S, cover, chosen[..BatchStart(f, 4 * L.rx * L.ry)], result, preMerged, heat, sums);
        return Failure(TypeErrorRaised(f));
      }
      RenderHeat(L, S, cover, chosen, result, preMerged, heat, sums);
      r := Success(());
    }

    /** The `maxDensity` getter. */
    function MaxDensity(): (r: real)
      reads this
      requires Ready()
      ensures r >= 0.0
    {
      maxDensity
    }

    /** The `maxDensity` setter: ignored when v equals the current value or is below 1. */
    method SetMaxDensity(v: real)
      requires Ready()
      modifies this
      ensures Ready() && (old(Valid()) ==> Valid())
      ensures maxDensity == (if old(maxDensity) == v || v < 1.0 then old(maxDensity) else v)
      ensures indexCache == old(indexCache)
    {
      if maxDensity == v || v < 1.0 {
        return;
      }
      maxDensity := v;
    }

    /** `filterRange` with the time window and value range already mapped by
        `slope`: the ascending slots with a value in [v0, v1] inside the window. */
    method FilterRange(t0: real, t1: real, v0: real, v1: real) returns (r: seq<nat>)
      requires Ready()
      ensures forall i, j :: 0 <= i < j < |r| ==> r[i] < r[j]
      ensures forall k: nat :: k in r <==>
        k < 4 * Rows(n) && RangeHit(L.w, flat, k, t0 * L.w as real, t1 * L.w as real, v0, v1)
    {
      var marks := FilterByValues(L.w, Rows(n), flat, t0 * L.w as real, t1 * L.w as real, v0, v1);
      r := Marked(marks);
    }

    /** `filterAngle` with the time window and angle range already mapped by
        `slope`: the ascending slots passing the pairwise slope test. */
    method FilterAngle(t0: real, t1: real, a0: real, a1: real) returns (r: seq<nat>)
      requires Ready()
      ensures forall i, j :: 0 <= i < j < |r| ==> r[i] < r[j]
      ensures forall k: nat :: k in r <==>
        k < 4 * Rows(n) && AngleHit(L.w, flat, k, t0 * L.w as real, t1 * L.w as real, a0, a1)
    {
      var marks := FilterByAngles(L.w, Rows(n), flat, t0 * L.w as real, t1 * L.w as real, a0, a1);
      r := Marked(marks);
    }

    /** `findKTop(isHighest, diverse)`: weigh every slot against heatBuffer,
        keep the cached series, rank them and pick at most three. The
        diversity loop reads `data` at the cached indexes, so after a failed
        `rerender` it can throw; after a completed render it cannot. */
    method FindKTop(isHighest: bool, diverse: real) returns (r: Result<seq<nat>, KTopError>)
      requires Ready()
      ensures r == KTop(WeightTable(L.w, L.h, Rows(n), heat[..], flat), n, indexCache, isHighest, diverse, values, maxY)
      ensures r.Failure? ==> isHighest && diverse != 0.0
      ensures (forall k :: k in indexCache ==> k < n) ==> r.Success?
      ensures r.Success? ==> |r.value| <= 3
      ensures r.Success? ==> forall a, b :: 0 <= a < b < |r.value| ==> r.value[a] != r.value[b]
      ensures r.Success? ==> forall a :: 0 <= a < |r.value| ==> r.value[a] in indexCache
    {
      var weights := CalWeight(L.w, L.h, Rows(n), heat[..], flat);
      var ranked := Candidates(weights, n, indexCache, isHighest);
      if isHighest && diverse != 0.0 {
        r := Diversify(values, n, maxY, diverse, Ids(ranked));
        KTopDiverse(weights, n, indexCache, isHighest, diverse, values, maxY);
      } else {
        r := Success(Ids(ranked[..Min(3, |ranked|)]));
        KTopFirstThree(weights, n, indexCache, isHighest, diverse, values, maxY);
      }
    }
  }

  /** `createHeatmap`: the kernel checks throw before anything is allocated;
      otherwise a handle over the planned surface. */
  method CreateHeatmap(setup: Setup, cover: (nat, int, int) -> bool, flat: seq<real>, values: seq<seq<real>>)
    returns (r: Result<DensityHandle, KernelError>)
    requires setup.Plannable() && setup.maxY != 0.0
    requires |values| == setup.n
    ensures r.Failure? <==> CheckKernel(ResolveKernel(setup.kernel)).Failure?
    ensures r.Failure? ==> r == Failure(CheckKernel(ResolveKernel(setup.kernel)).error)
    ensures r.Success? ==>
      fresh(r.value) && r.value.Valid() && r.value.indexCache == Indexes(setup.n) &&
      r.value.S.kernel == ResolveKernel(setup.kernel)
  {
    var kernel := ResolveKernel(setup.kernel);
    var check := CheckKernel(kernel);
    if check.Failure? {
      return Failure(check.error);
    }
    var handle := new DensityHandle(setup, kernel, cover, flat, values);
    return Success(handle);
  }
}
