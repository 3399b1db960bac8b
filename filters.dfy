/** The query shaders over the flattened per-series buffer (`flatLinesBuffer`,
    `W x ceil(n / 4)` RGBA texels, series s in row floor(s / 4), channel s mod 4)
    and over heatBuffer: `filterByValues`, `filterByAngles`, `calWeight` and
    `findMax`, and the extraction of the marked slots from the read-back. */
module Filters {
  import opened Sums
  import opened Surface
  import opened Passes
  import opened Planner
  import opened Arith
  import opened Batching

  /** Slot k of the flattened buffer at column p. */
  function FlatAt(W: nat, flat: seq<real>, k: nat, p: int): real
  {
    At(flat, Index4(W, p, k / 4, k % 4))
  }

  /** `drawFlatLine` draws series s (`lineIdx`) into row floor(s / 4) of the
      flattened buffer, through `colorMask(i)` of its batch position k (channel
      k mod 4, `Batching.SlotRoundTrip`). Batches start at multiples of the batch
      size, a multiple of 4, so that channel is s mod 4: at every column the
      texel the draw writes is the one `FlatAt` reads for slot s, it lies inside
      the `W x rows` buffer, and it decodes back to column p and slot s. */
  lemma SeriesChannel(q: nat, k: nat, rx: nat, ry: nat, W: nat, rows: nat, p: int, flat: seq<real>)
    requires rx >= 1 && ry >= 1 && k < 4 * rx * ry && 0 <= p < W
    requires (q * (4 * rx * ry) + k) / 4 < rows
    ensures var s := q * (4 * rx * ry) + k;
      var t := Index4(W, p, s / 4, k % 4);
      k % 4 == s % 4 && FlatAt(W, flat, s, p) == At(flat, t) &&
      0 <= t < W * rows * 4 && (t / 4) % W == p && 4 * ((t / 4) / W) + t % 4 == s
  {
    var s := q * (4 * rx * ry) + k;
    assert s == (q * rx * ry + k / 4) * 4 + k % 4;
    DivMulAdd(q * rx * ry + k / 4, 4, k % 4);
    assert 4 * (s / 4) + s % 4 == s;
    Index4Encode(W, rows, p, s / 4, s % 4);
  }

  /** The filters loop `pointer` over 0 .. W inclusive and read `(pointer + 0.5) / width`:
      column p, with the last pointer clamped onto column W - 1. */
  lemma PointerTexel(p: int, W: nat)
    requires W >= 1 && 0 <= p <= W
    ensures TexelIndex((p as real + 0.5) / W as real, W) == Min(p, W - 1)
  {
    var s := W as real;
    assert (p as real + 0.5) / s * s == p as real + 0.5;
  }

  /** `findMax` and `calWeight` read texel coordinates `p / size`, without the half-texel offset. */
  lemma EdgeTexel(p: int, size: nat)
    requires size >= 1 && 0 <= p <= size
    ensures TexelIndex(p as real / size as real, size) == Min(p, size - 1)
  {
    var s := size as real;
    assert p as real / s * s == p as real;
  }

  /** The value a filter sees for slot k at loop pointer p. */
  function Sample(W: nat, flat: seq<real>, k: nat, p: int): real
  {
    FlatAt(W, flat, k, Min(p, W - 1))
  }

  /** `pointer >= start && pointer <= end`, with start = startTime * W and end = endTime * W. */
  predicate InWindow(start: real, end: real, p: int)
  {
    start <= p as real <= end
  }

  /** A shader output channel: 1.0 for a marked slot, 0.0 otherwise. */
  function Mark(b: bool): real
  {
    if b then 1.0 else 0.0
  }

  // ---------------------------------------------------------------- filterByValues

  /** Slot k has a value in [v0, v1] at some pointer of the time window. */
  ghost predicate RangeHit(W: nat, flat: seq<real>, k: nat, start: real, end: real, v0: real, v1: real)
  {
    exists p :: 0 <= p <= W && InWindow(start, end, p) && v0 <= Sample(W, flat, k, p) <= v1
  }

  /** One channel of one fragment of `filterByValues`. */
  method RangeFragment(W: nat, flat: seq<real>, k: nat, start: real, end: real, v0: real, v1: real)
    returns (mark: real)
    requires W >= 1
    ensures mark == Mark(RangeHit(W, flat, k, start, end, v0, v1))
  {
    mark := 0.0;
    for p := 0 to W + 1
      invariant mark == Mark(exists q :: 0 <= q < p && InWindow(start, end, q) && v0 <= Sample(W, flat, k, q) <= v1)
    {
      if InWindow(start, end, p) {
        PointerTexel(p, W);
        var value := FlatAt(W, flat, k, TexelIndex((p as real + 0.5) / W as real, W));
        if v0 <= value && value <= v1 {
          assert v0 <= Sample(W, flat, k, p) <= v1;
          mark := 1.0;
        }
      }
    }
  }

  /** The `filterByValues` pass over the `1 x rows` target: entry k of the read-back is slot k. */
  method FilterByValues(W: nat, rows: nat, flat: seq<real>, start: real, end: real, v0: real, v1: real)
    returns (marks: seq<real>)
    requires W >= 1
    ensures |marks| == 4 * rows
    ensures forall k :: 0 <= k < |marks| ==> marks[k] == Mark(RangeHit(W, flat, k, start, end, v0, v1))
  {
    marks := [];
    for k := 0 to 4 * rows
      invariant |marks| == k
      invariant forall k' :: 0 <= k' < k ==> marks[k'] == Mark(RangeHit(W, flat, k', start, end, v0, v1))
    {
      var mark := RangeFragment(W, flat, k, start, end, v0, v1);
      marks := marks + [mark];
    }
  }

  // ---------------------------------------------------------------- filterByAngles

  /** The pointer pairs the nested loops of `filterByAngles` visit. */
  predicate Pair(W: nat, start: real, end: real, p: int, p2: int)
  {
    0 <= p < p2 <= W && start <= p as real && p2 as real <= end
  }

  /** `(angle2 - angle) * 500.0 / (pointer2 - pointer) * width / 1000.0`. */
  function SlopeOf(W: nat, angle: real, angle2: real, p: int, p2: int): real
    requires p < p2
  {
    (angle2 - angle) * 500.0 / (p2 - p) as real * W as real / 1000.0
  }

  /** The slope the shader computes for slot k between pointers p and p2. */
  function Slope(W: nat, flat: seq<real>, k: nat, p: int, p2: int): real
    requires p < p2
  {
    SlopeOf(W, Sample(W, flat, k, p), Sample(W, flat, k, p2), p, p2)
  }

  predicate SlopeWithin(W: nat, flat: seq<real>, k: nat, a0: real, a1: real, p: int, p2: int)
    requires p < p2
  {
    a0 <= Slope(W, flat, k, p, p2) <= a1
  }

  /** Pair (q, q2) comes before the loops' position (p, p2). */
  predicate Prior(q: int, q2: int, p: int, p2: int)
  {
    q < p || (q == p && q2 < p2)
  }

  ghost predicate SomePositiveBefore(W: nat, flat: seq<real>, k: nat, start: real, end: real, p: int, p2: int)
  {
    exists q, q2 :: Pair(W, start, end, q, q2) && Prior(q, q2, p, p2) && Sample(W, flat, k, q2) > 0.0
  }

  ghost predicate SlopesBefore(W: nat, flat: seq<real>, k: nat, start: real, end: real, a0: real, a1: real, p: int, p2: int)
  {
    forall q, q2 :: Pair(W, start, end, q, q2) && Prior(q, q2, p, p2) ==> SlopeWithin(W, flat, k, a0, a1, q, q2)
  }

  /** Slot k is marked: some visited pair has a positive later value, and
      every visited pair has its slope within [a0, a1]. */
  ghost predicate AngleHit(W: nat, flat: seq<real>, k: nat, start: real, end: real, a0: real, a1: real)
  {
    (exists p, p2 :: Pair(W, start, end, p, p2) && Sample(W, flat, k, p2) > 0.0) &&
    (forall p, p2 :: Pair(W, start, end, p, p2) ==> SlopeWithin(W, flat, k, a0, a1, p, p2))
  }

  /** Visiting pair (p, p2) extends both prefixes by that pair alone. */
  lemma AngleStep(W: nat, flat: seq<real>, k: nat, start: real, end: real, a0: real, a1: real, p: int, p2: int)
    ensures SomePositiveBefore(W, flat, k, start, end, p, p2 + 1) <==>
      SomePositiveBefore(W, flat, k, start, end, p, p2) || (Pair(W, start, end, p, p2) && Sample(W, flat, k, p2) > 0.0)
    ensures SlopesBefore(W, flat, k, start, end, a0, a1, p, p2 + 1) <==>
      SlopesBefore(W, flat, k, start, end, a0, a1, p, p2) && (Pair(W, start, end, p, p2) ==> SlopeWithin(W, flat, k, a0, a1, p, p2))
  {
    if SomePositiveBefore(W, flat, k, start, end, p, p2 + 1) {
      var q, q2 :| Pair(W, start, end, q, q2) && Prior(q, q2, p, p2 + 1) && Sample(W, flat, k, q2) > 0.0;
      if !(q == p && q2 == p2) {
        assert Prior(q, q2, p, p2);
      }
    }
    if SomePositiveBefore(W, flat, k, start, end, p, p2) {
      var q, q2 :| Pair(W, start, end, q, q2) && Prior(q, q2, p, p2) && Sample(W, flat, k, q2) > 0.0;
      assert Prior(q, q2, p, p2 + 1);
    }
    if Pair(W, start, end, p, p2) && Sample(W, flat, k, p2) > 0.0 {
      assert Prior(p, p2, p, p2 + 1);
    }
  }

  /** After the inner loop (p2 past W) the prefix is that of the next outer
      pointer; a pointer outside the window contributes no pair. */
  lemma AngleRow(W: nat, flat: seq<real>, k: nat, start: real, end: real, a0: real, a1: real, p: int, p2: int)
    requires p2 == W + 1 || (p2 == 0 && !InWindow(start, end, p))
    ensures SomePositiveBefore(W, flat, k, start, end, p, p2) <==> SomePositiveBefore(W, flat, k, start, end, p + 1, 0)
    ensures SlopesBefore(W, flat, k, start, end, a0, a1, p, p2) <==> SlopesBefore(W, flat, k, start, end, a0, a1, p + 1, 0)
  {
    if SomePositiveBefore(W, flat, k, start, end, p + 1, 0) {
      var q, q2 :| Pair(W, start, end, q, q2) && Prior(q, q2, p + 1, 0) && Sample(W, flat, k, q2) > 0.0;
      assert Prior(q, q2, p, p2);
    }
    if SomePositiveBefore(W, flat, k, start, end, p, p2) {
      var q, q2 :| Pair(W, start, end, q, q2) && Prior(q, q2, p, p2) && Sample(W, flat, k, q2) > 0.0;
      assert Prior(q, q2, p + 1, 0);
    }
    forall q, q2 | Pair(W, start, end, q, q2) && Prior(q, q2, p + 1, 0)
      ensures Prior(q, q2, p, p2)
    {
    }
  }

  /** Once the outer loop has passed W, every pair has been visited. */
  lemma AngleDone(W: nat, flat: seq<real>, k: nat, start: real, end: real, a0: real, a1: real)
    ensures AngleHit(W, flat, k, start, end, a0, a1) <==>
      SomePositiveBefore(W, flat, k, start, end, W + 1, 0) && SlopesBefore(W, flat, k, start, end, a0, a1, W + 1, 0)
  {
    if exists p, p2 :: Pair(W, start, end, p, p2) && Sample(W, flat, k, p2) > 0.0 {
      var p, p2 :| Pair(W, start, end, p, p2) && Sample(W, flat, k, p2) > 0.0;
      assert Prior(p, p2, W + 1, 0);
    }
  }

  /** One channel of one fragment of `filterByAngles`. */
  method AngleFragment(W: nat, flat: seq<real>, k: nat, start: real, end: real, a0: real, a1: real)
    returns (mark: real)
    requires W >= 1
    ensures mark == Mark(AngleHit(W, flat, k, start, end, a0, a1))
  {
    var result := 1.0;
    var valid := 0.0;
    for p := 0 to W + 1
      invariant valid == Mark(SomePositiveBefore(W, flat, k, start, end, p, 0))
      invariant result == Mark(SlopesBefore(W, flat, k, start, end, a0, a1, p, 0))
    {
      if InWindow(start, end, p) {
        PointerTexel(p, W);
        var angle := FlatAt(W, flat, k, TexelIndex((p as real + 0.5) / W as real, W));
        assert angle == Sample(W, flat, k, p);
        for p2 := 0 to W + 1
          invariant valid == Mark(SomePositiveBefore(W, flat, k, start, end, p, p2))
          invariant result == Mark(SlopesBefore(W, flat, k, start, end, a0, a1, p, p2))
        {
          AngleStep(W, flat, k, start, end, a0, a1, p, p2);
          if p2 > p && p2 as real <= end {
            PointerTexel(p2, W);
            var angle2 := FlatAt(W, flat, k, TexelIndex((p2 as real + 0.5) / W as real, W));
            assert angle2 == Sample(W, flat, k, p2);
            assert Pair(W, start, end, p, p2);
            if angle2 > 0.0 {
              valid := 1.0;
            }
            var diff := SlopeOf(W, angle, angle2, p, p2);
            assert diff == Slope(W, flat, k, p, p2);
            if diff < a0 || diff > a1 {
              result := 0.0;
            }
          }
        }
        AngleRow(W, flat, k, start, end, a0, a1, p, W + 1);
      } else {
        AngleRow(W, flat, k, start, end, a0, a1, p, 0);
      }
    }
    AngleDone(W, flat, k, start, end, a0, a1);
    if valid <= 0.0 {
      result := 0.0;
    }
    mark := result;
  }

  /** The `filterByAngles` pass over the `1 x rows` target. */
  method FilterByAngles(W: nat, rows: nat, flat: seq<real>, start: real, end: real, a0: real, a1: real)
    returns (marks: seq<real>)
    requires W >= 1
    ensures |marks| == 4 * rows
    ensures forall k :: 0 <= k < |marks| ==> marks[k] == Mark(AngleHit(W, flat, k, start, end, a0, a1))
  {
    marks := [];
    for k := 0 to 4 * rows
      invariant |marks| == k
      invariant forall k' :: 0 <= k' < k ==> marks[k'] == Mark(AngleHit(W, flat, k', start, end, a0, a1))
    {
      var mark := AngleFragment(W, flat, k, start, end, a0, a1);
      marks := marks + [mark];
    }
  }

  // ---------------------------------------------------------------- read-back extraction

  /** `.map((x, i) => (x ? i + 1 : 0)).filter((x) => x).map((x) => x - 1)`:
      the ascending positions of the non-zero entries. */
  function Marked(marks: seq<real>): (r: seq<nat>)
    ensures forall i, j :: 0 <= i < j < |r| ==> r[i] < r[j]
    ensures forall i :: 0 <= i < |r| ==> r[i] < |marks|
    ensures forall k :: 0 <= k < |marks| ==> (k in r <==> marks[k] != 0.0)
  {
    if |marks| == 0 then []
    else
      var prev := Marked(marks[..|marks| - 1]);
      assert forall k :: 0 <= k < |marks| - 1 ==> marks[..|marks| - 1][k] == marks[k];
      if marks[|marks| - 1] != 0.0 then prev + [|marks| - 1] else prev
  }

  // ---------------------------------------------------------------- calWeight and findMax

  /** The r channel of heatBuffer at (x, y). */
  function HeatR(W: nat, heat: seq<real>, x: int, y: int): real
  {
    At(heat, Index4(W, x, y, 0))
  }

  /** The weight of slot k: the sum over the W columns of the heat at
      (column, the slot's flattened value read as a row coordinate). */
  function SlotWeight(W: nat, H: nat, heat: seq<real>, flat: seq<real>, k: nat): real
    requires H >= 1
  {
    Sum(0, W, i => HeatR(W, heat, i, TexelIndex(FlatAt(W, flat, k, i), H)))
  }

  /** The read-back of `calWeight`: the weight of every slot of the `1 x rows` target. */
  function WeightTable(W: nat, H: nat, rows: nat, heat: seq<real>, flat: seq<real>): (r: seq<real>)
    requires H >= 1
    ensures |r| == 4 * rows
  {
    seq(4 * rows, k requires 0 <= k < 4 * rows => SlotWeight(W, H, heat, flat, k))
  }

  /** One channel of one fragment of `calWeight`. */
  method WeightFragment(W: nat, H: nat, heat: seq<real>, flat: seq<real>, k: nat) returns (sum: real)
    requires W >= 1 && H >= 1
    ensures sum == SlotWeight(W, H, heat, flat, k)
  {
    sum := 0.0;
    for i := 0 to W
      invariant sum == Sum(0, i, i => HeatR(W, heat, i, TexelIndex(FlatAt(W, flat, k, i), H)))
    {
      EdgeTexel(i, W);
      var column := TexelIndex(i as real / W as real, W);
      var pointer := FlatAt(W, flat, k, column);
      SumLast(0, i + 1, i => HeatR(W, heat, i, TexelIndex(FlatAt(W, flat, k, i), H)));
      sum := sum + HeatR(W, heat, column, TexelIndex(pointer, H));
    }
  }

  /** The `calWeight` pass over the `1 x rows` target. */
  method CalWeight(W: nat, H: nat, rows: nat, heat: seq<real>, flat: seq<real>) returns (weights: seq<real>)
    requires W >= 1 && H >= 1
    ensures |weights| == 4 * rows
    ensures forall k :: 0 <= k < |weights| ==> weights[k] == SlotWeight(W, H, heat, flat, k)
    ensures weights == WeightTable(W, H, rows, heat, flat)
  {
    weights := [];
    for k := 0 to 4 * rows
      invariant |weights| == k
      invariant forall k' :: 0 <= k' < k ==> weights[k'] == SlotWeight(W, H, heat, flat, k')
    {
      var w := WeightFragment(W, H, heat, flat, k);
      weights := weights + [w];
    }
  }

  /** With a non-negative heatmap every weight is non-negative. */
  lemma SlotWeightNonneg(W: nat, H: nat, heat: seq<real>, flat: seq<real>, k: nat)
    requires H >= 1
    requires forall x, y :: 0 <= x < W && 0 <= y < H ==> HeatR(W, heat, x, y) >= 0.0
    ensures SlotWeight(W, H, heat, flat, k) >= 0.0
  {
    SumNonneg(0, W, i => HeatR(W, heat, i, TexelIndex(FlatAt(W, flat, k, i), H)));
  }

  /** `findMax`: the largest r value of heatBuffer, starting from 0; the loops
      run x over 0 .. W and y over 0 .. H inclusive, the last ones clamped. */
  method FindMax(W: nat, H: nat, heat: seq<real>) returns (m: real)
    requires W >= 1 && H >= 1
    ensures m >= 0.0
    ensures forall x, y :: 0 <= x < W && 0 <= y < H ==> HeatR(W, heat, x, y) <= m
    ensures m == 0.0 || exists x, y :: 0 <= x < W && 0 <= y < H && m == HeatR(W, heat, x, y)
  {
    m := 0.0;
    for x := 0 to W + 1
      invariant m >= 0.0
      invariant forall x', y :: 0 <= x' < Min(x, W) && 0 <= y < H ==> HeatR(W, heat, x', y) <= m
      invariant m == 0.0 || exists x', y :: 0 <= x' < W && 0 <= y < H && m == HeatR(W, heat, x', y)
    {
      EdgeTexel(x, W);
      var tx := TexelIndex(x as real / W as real, W);
      for y := 0 to H + 1
        invariant m >= 0.0
        invariant forall x', y' :: 0 <= x' < Min(x, W) && 0 <= y' < H ==> HeatR(W, heat, x', y') <= m
        invariant forall y' :: 0 <= y' < Min(y, H) ==> HeatR(W, heat, tx, y') <= m
        invariant m == 0.0 || exists x', y' :: 0 <= x' < W && 0 <= y' < H && m == HeatR(W, heat, x', y')
      {
        EdgeTexel(y, H);
        var ty := TexelIndex(y as real / H as real, H);
        var texel := HeatR(W, heat, tx, ty);
        if texel > m {
          m := texel;
        }
      }
    }
  }
}
