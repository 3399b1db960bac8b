/** Kernel validation and the tile planner of the density pipeline
    (src/core/index.ts and its copy in src/core/meanshiftTest.js). */
module Planner {
  import opened Wrappers

  // ---------------------------------------------------------------------------
  // Kernel validation
  // ---------------------------------------------------------------------------

  datatype KernelError =
    | NotSquare   // some row's length differs from the number of rows
    | EvenSize    // the number of rows is even (an empty kernel included)

  /** The kernel used when the caller passes none. */
  const DefaultKernel: seq<seq<real>> := [[1.0, 2.0, 1.0], [2.0, 8.0, 2.0], [1.0, 2.0, 1.0]]

  ghost predicate IsSquare(kernel: seq<seq<real>>)
  {
    forall r :: 0 <= r < |kernel| ==> |kernel[r]| == |kernel|
  }

  /** `kernel.find(row => row.length != kernel.length)`, searching from row `from`:
      the first row whose length differs from the number of rows. */
  function FirstBadRow(kernel: seq<seq<real>>, from: nat): (r: Option<nat>)
    requires from <= |kernel|
    ensures r.Some? ==> from <= r.value < |kernel| && |kernel[r.value]| != |kernel|
    ensures r.Some? ==> forall q :: from <= q < r.value ==> |kernel[q]| == |kernel|
    ensures r.None? <==> forall q :: from <= q < |kernel| ==> |kernel[q]| == |kernel|
    decreases |kernel| - from
  {
    if from == |kernel| then None
    else if |kernel[from]| != |kernel| then Some(from)
    else FirstBadRow(kernel, from + 1)
  }

  /** The two checks made before anything is allocated; on success the centre
      offset `Math.round((len - 1) / 2)`. The square check comes first. */
  function CheckKernel(kernel: seq<seq<real>>): (r: Result<nat, KernelError>)
    ensures r.Success? <==> IsSquare(kernel) && |kernel| % 2 == 1
    ensures r.Success? ==> 2 * r.value + 1 == |kernel|
    ensures !IsSquare(kernel) ==> r == Failure(NotSquare)
    ensures IsSquare(kernel) && |kernel| % 2 == 0 ==> r == Failure(EvenSize)
  {
    if FirstBadRow(kernel, 0).Some? then Failure(NotSquare)
    else if |kernel| % 2 == 0 then Failure(EvenSize)
    else Success((|kernel| - 1) / 2)
  }

  /** The kernel actually used: the caller's, or the default when it is undefined. */
  function ResolveKernel(given: Option<seq<seq<real>>>): (k: seq<seq<real>>)
    ensures given.None? ==> CheckKernel(k) == Success(1)
    ensures given.Some? ==> k == given.value
  {
    match given
    case None => DefaultKernel
    case Some(k) => k
  }

  // ---------------------------------------------------------------------------
  // Tile planner
  // ---------------------------------------------------------------------------

  /** `Math.ceil` on an exact real. */
  function Ceil(x: real): int
  {
    -((-x).Floor)
  }

  /** Ceil(x) is the unique integer q with q - 1 < x <= q. */
  lemma CeilUnique(x: real, q: int)
    requires (q - 1) as real < x <= q as real
    ensures Ceil(x) == q
  {
    var f := (-x).Floor;
    assert f as real <= -x < f as real + 1.0;
  }

  /** Integer ceiling of a / b. */
  function CeilDiv(a: nat, b: nat): nat
    requires b > 0
  {
    (a + b - 1) / b
  }

  /** The least integer not below a / b is CeilDiv(a, b). */
  lemma CeilOfQuotient(a: nat, b: nat)
    requires b > 0
    ensures Ceil(a as real / b as real) == CeilDiv(a, b)
  {
    var q: int := CeilDiv(a, b);
    CeilDivBounds(a, b);
    ScaleBelow((q - 1) as real, a as real, b as real);
    ScaleAbove(q as real, a as real, b as real);
    CeilUnique(a as real / b as real, q);
  }

  lemma CeilDivBounds(a: nat, b: nat)
    requires b > 0
    ensures (CeilDiv(a, b) - 1) * b < a <= CeilDiv(a, b) * b
  {
    var q := CeilDiv(a, b);
    var r := (a + b - 1) % b;
    assert a + b - 1 == q * b + r && 0 <= r < b;
    assert (q - 1) * b == q * b - b;
  }

  lemma ScaleBelow(y: real, a: real, b: real)
    requires b > 0.0 && y * b < a
    ensures y < a / b
  {
    assert a / b * b == a;
  }

  lemma ScaleAbove(y: real, a: real, b: real)
    requires b > 0.0 && a <= y * b
    ensures a / b <= y
  {
    assert a / b * b == a;
  }

  /** `Math.ceil(n / 4 - 1e-6)`, the X-repeat bound of the planner. */
  function NudgedQuarterCeil(n: nat): int
  {
    Ceil(n as real / 4.0 - 0.000001)
  }

  /** The 1e-6 nudge never changes the ceiling of n / 4 for n >= 1. */
  lemma NudgedQuarterCeilIsCeilDiv(n: nat)
    requires n >= 1
    ensures NudgedQuarterCeil(n) == CeilDiv(n, 4)
  {
    var q: int := CeilDiv(n, 4);
    var x := n as real / 4.0 - 0.000001;
    CeilDivBounds(n, 4);
    assert 4 * (q - 1) <= n - 1;
    assert (q - 1) as real < x <= q as real;
    CeilUnique(x, q);
  }

  /** A repeat cap: `MAX_REPEATS_*` (a finite constant of an unseen module) or
      `Infinity` as in meanshiftTest.js. */
  datatype RepeatCap = Finite(limit: nat) | Unbounded

  function CapMin(a: int, cap: RepeatCap): int
  {
    match cap
    case Finite(m) => if m < a then m else a
    case Unbounded => a
  }

  predicate WithinCap(r: int, cap: RepeatCap)
  {
    cap.Unbounded? || r <= cap.limit
  }

  predicate CapAtLeastOne(cap: RepeatCap)
  {
    cap.Unbounded? || cap.limit >= 1
  }

  function Min(a: int, b: int): int { if a < b then a else b }

  /** `Math.min(regl.limits.maxRenderbufferSize, 4096)`. */
  function SurfaceCap(limit: nat): nat
  {
    Min(limit, 4096)
  }

  datatype TilePlan = TilePlan(repeatsX: nat, repeatsY: nat, batchSize: nat)

  /** The planner: how many heatmap-sized tiles go side by side and stacked on
      the accumulation surface, and the batch size `4 * repeatsX * repeatsY`. */
  function PlanTiles(n: nat, w: nat, h: nat, limit: nat, capX: RepeatCap, capY: RepeatCap): (p: TilePlan)
    requires n >= 1 && 1 <= w <= SurfaceCap(limit) && 1 <= h <= SurfaceCap(limit)
    requires CapAtLeastOne(capX) && CapAtLeastOne(capY)
    // repeatsX meets all three bounds ...
    ensures 1 <= p.repeatsX <= CeilDiv(n, 4) && w * p.repeatsX <= SurfaceCap(limit)
    ensures WithinCap(p.repeatsX, capX)
    // ... and is the largest value that does
    ensures forall r: nat :: w * r <= SurfaceCap(limit) && r <= CeilDiv(n, 4) && WithinCap(r, capX) ==> r <= p.repeatsX
    ensures 1 <= p.repeatsY <= CeilDiv(n, 4 * p.repeatsX) && h * p.repeatsY <= SurfaceCap(limit)
    ensures WithinCap(p.repeatsY, capY)
    ensures forall r: nat :: h * r <= SurfaceCap(limit) && r <= CeilDiv(n, 4 * p.repeatsX) && WithinCap(r, capY) ==> r <= p.repeatsY
    ensures p.batchSize == 4 * p.repeatsX * p.repeatsY
  {
    var cap := SurfaceCap(limit);
    var rx := RepeatsX(n, w, limit, capX);
    RepeatBounds(cap, w, CeilDiv(n, 4), capX);
    var ry := RepeatsY(n, h, limit, rx, capY);
    RepeatBounds(cap, h, CeilDiv(n, 4 * rx), capY);
    MulMono(4 * rx, 0, ry);
    TilePlan(rx, ry, 4 * rx * ry)
  }

  /** `repeatsX`, computed with the nudged quarter ceiling: the integer
      `min(floor(cap / w), ceil(n / 4))` under the cap. */
  function RepeatsX(n: nat, w: nat, limit: nat, capX: RepeatCap): (rx: int)
    requires n >= 1 && 1 <= w
    ensures rx == CapMin(Min(SurfaceCap(limit) / w, CeilDiv(n, 4)), capX)
  {
    NudgedQuarterCeilIsCeilDiv(n);
    CapMin(Min(SurfaceCap(limit) / w, NudgedQuarterCeil(n)), capX)
  }

  /** `repeatsY`, computed with the float ceiling of `n / (repeatsX * 4)`: the
      integer `min(floor(cap / h), ceil(n / (4 * repeatsX)))` under the cap. */
  function RepeatsY(n: nat, h: nat, limit: nat, rx: nat, capY: RepeatCap): (ry: int)
    requires 1 <= h && rx >= 1
    ensures ry == CapMin(Min(SurfaceCap(limit) / h, CeilDiv(n, 4 * rx)), capY)
  {
    CeilOfQuotient(n, rx * 4);
    CapMin(Min(SurfaceCap(limit) / h, Ceil(n as real / (rx * 4) as real)), capY)
  }

  /** One axis of the planner: the repeat count is the largest r that fits the
      surface, does not exceed the series bound and respects the cap. */
  lemma RepeatBounds(cap: nat, size: nat, bound: nat, extra: RepeatCap)
    requires 1 <= size <= cap && bound >= 1 && CapAtLeastOne(extra)
    ensures var r := CapMin(Min(cap / size, bound), extra);
      1 <= r <= bound && size * r <= cap && WithinCap(r, extra) &&
      forall r': nat :: size * r' <= cap && r' <= bound && WithinCap(r', extra) ==> r' <= r
  {
    FloorDivBound(cap, size);
    var q := cap / size;
    assert q >= 1;
    var r := CapMin(Min(q, bound), extra);
    assert r <= q;
    MulMono(size, r, q);
  }

  /** cap / w is the largest r with w * r <= cap. */
  lemma FloorDivBound(cap: nat, w: nat)
    requires w >= 1
    ensures w * (cap / w) <= cap
    ensures forall r: nat :: w * r <= cap ==> r <= cap / w
  {
    var q := cap / w;
    assert cap == w * q + cap % w;
    forall r: nat | w * r <= cap ensures r <= q {
      if r > q {
        MulMono(w, q + 1, r);
      }
    }
  }

  lemma MulMono(w: nat, a: nat, b: nat)
    requires w >= 1 && a <= b
    ensures w * a <= w * b
  {
  }

  /** With both caps `Infinity` (meanshiftTest.js) the X repeat is
      `min(floor(cap / w), ceil(n / 4))`. */
  lemma UnboundedPlanX(n: nat, w: nat, h: nat, limit: nat)
    requires n >= 1 && 1 <= w <= SurfaceCap(limit) && 1 <= h <= SurfaceCap(limit)
    ensures PlanTiles(n, w, h, limit, Unbounded, Unbounded).repeatsX == Min(SurfaceCap(limit) / w, CeilDiv(n, 4))
    ensures PlanTiles(n, w, h, limit, Unbounded, Unbounded).repeatsY
         == Min(SurfaceCap(limit) / h, CeilDiv(n, 4 * PlanTiles(n, w, h, limit, Unbounded, Unbounded).repeatsX))
  {
    NudgedQuarterCeilIsCeilDiv(n);
    var rx := PlanTiles(n, w, h, limit, Unbounded, Unbounded).repeatsX;
    CeilOfQuotient(n, rx * 4);
  }

  // ---------------------------------------------------------------------------
  // Capacity check of meanshiftTest.js
  // ---------------------------------------------------------------------------

  /** `Math.min(regl.limits.maxRenderbufferSize, 16000) - 1`. */
  function KDBufferSize(limit: nat): int
  {
    Min(limit, 16000) - 1
  }

  /** `kdBufferHeight > maxKDBufferSize` with JavaScript number semantics:
      `n / 4 / 0` is `Infinity` for n > 0 and `NaN` (never greater) for n = 0. */
  function KDOverflow(n: nat, w: nat, limit: nat): (over: bool)
    requires w >= 1 && limit >= 1
    ensures over <==> n > 0 && (KDBufferSize(limit) / w == 0 || CeilDiv(n, 4 * (KDBufferSize(limit) / w)) > KDBufferSize(limit))
  {
    var maxKD := KDBufferSize(limit);
    var kdRepeatsX := maxKD / w;
    if kdRepeatsX == 0 then n > 0
    else
      CeilOfQuotient(n, 4 * kdRepeatsX);
      assert n as real / 4.0 / kdRepeatsX as real == n as real / (4 * kdRepeatsX) as real;
      Ceil(n as real / 4.0 / kdRepeatsX as real) > maxKD
  }
}
