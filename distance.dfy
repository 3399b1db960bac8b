/** The pairwise distance builders of src/core/distance.js. Every builder
    fills an n x n matrix for n series; the point-to-segment distance
    `point_line_distance(p, a, b)` and the point-to-polyline distance
    `point_line_distance_multi(p, line)[1]` come from a library and are
    parameters here (`pld`, `pldm`). */
module Distance {
  import opened Sums
  import opened Extended
  import opened Arith

  datatype Point = Point(x: real, y: real)

  // ---------------------------------------------------------------------------
  // The terms the inner loops visit
  // ---------------------------------------------------------------------------

  /** One `m` iteration: the distances of b's points to the segment a[m] - a[m + 1]. */
  function SegmentRow(pld: (Point, Point, Point) -> real, a: seq<Point>, b: seq<Point>, m: nat): (r: seq<real>)
    requires m + 1 < |a|
    ensures |r| == |b|
  {
    seq(|b|, k requires 0 <= k < |b| => pld(b[k], a[m], a[m + 1]))
  }

  /** All the terms of the `m < data[i].length - 1`, `n < data[j].length` loops, in loop order. */
  function SegmentTerms(pld: (Point, Point, Point) -> real, a: seq<Point>, b: seq<Point>): (t: seq<real>)
    ensures |t| == if |a| == 0 then 0 else (|a| - 1) * |b|
    decreases |a|
  {
    if |a| < 2 then []
    else
      var prev := SegmentTerms(pld, a[..|a| - 1], b);
      assert |prev| == (|a| - 2) * |b|;
      assert (|a| - 2) * |b| + |b| == (|a| - 1) * |b|;
      prev + SegmentRow(pld, a, b, |a| - 2)
  }

  /** Term m * |b| + k is the distance of b[k] to segment m. */
  lemma {:induction false} SegmentTermsAt(pld: (Point, Point, Point) -> real, a: seq<Point>, b: seq<Point>, m: nat, k: nat)
    requires m + 1 < |a| && k < |b|
    ensures m * |b| + k < |SegmentTerms(pld, a, b)|
    ensures SegmentTerms(pld, a, b)[m * |b| + k] == pld(b[k], a[m], a[m + 1])
    decreases |a|
  {
    var prefix := a[..|a| - 1];
    var prev := SegmentTerms(pld, prefix, b);
    if m + 2 < |a| {
      SegmentTermsAt(pld, prefix, b, m, k);
    } else {
      assert |prev| == m * |b|;
    }
  }

  /** The polyline terms of `minDistance` and `hausdorffDistance`: the
      distance of each point of `points` to the polyline `line`. */
  function PointTerms(pldm: (Point, seq<Point>) -> real, points: seq<Point>, line: seq<Point>): (t: seq<real>)
    ensures |t| == |points|
  {
    seq(|points|, k requires 0 <= k < |points| => pldm(points[k], line))
  }

  // ---------------------------------------------------------------------------
  // The running maximum, minimum and sum
  // ---------------------------------------------------------------------------

  /** `Math.max(a, b)`. */
  function RMax(a: real, b: real): real
  {
    if a > b then a else b
  }

  /** `max = 0; ... max = Math.max(dis, max)` over the terms t. */
  function Max0(t: seq<real>): real
  {
    if |t| == 0 then 0.0 else RMax(t[|t| - 1], Max0(t[..|t| - 1]))
  }

  /** The running maximum is at least 0 and every term, and it is 0 or one of the terms. */
  lemma {:induction false} Max0Bounds(t: seq<real>)
    ensures Max0(t) >= 0.0
    ensures forall k :: 0 <= k < |t| ==> t[k] <= Max0(t)
    ensures Max0(t) == 0.0 || exists k :: 0 <= k < |t| && Max0(t) == t[k]
  {
    if |t| > 0 {
      var prefix := t[..|t| - 1];
      Max0Bounds(prefix);
      assert forall k :: 0 <= k < |prefix| ==> prefix[k] == t[k];
      if Max0(t) != t[|t| - 1] && Max0(t) != 0.0 {
        var k :| 0 <= k < |prefix| && Max0(prefix) == prefix[k];
        assert Max0(t) == t[k];
      }
    }
  }

  lemma Max0Snoc(s: seq<real>, x: real)
    ensures Max0(s + [x]) == RMax(x, Max0(s))
  {
    assert (s + [x])[..|s|] == s;
  }

  /** `min = Infinity; ... min = Math.min(min, dis)` over the terms t. */
  function MinFold(t: seq<real>): Dist
  {
    if |t| == 0 then Infinite else Smaller(MinFold(t[..|t| - 1]), Finite(t[|t| - 1]))
  }

  /** The running minimum stays `Infinity` exactly when there are no terms;
      otherwise it is at most every term and is one of them. */
  lemma {:induction false} MinFoldBounds(t: seq<real>)
    ensures MinFold(t).Infinite? <==> |t| == 0
    ensures MinFold(t).Finite? ==>
      (forall k :: 0 <= k < |t| ==> MinFold(t).v <= t[k]) && exists k :: 0 <= k < |t| && MinFold(t).v == t[k]
  {
    if |t| > 0 {
      var prefix := t[..|t| - 1];
      MinFoldBounds(prefix);
      assert forall k :: 0 <= k < |prefix| ==> prefix[k] == t[k];
      if MinFold(t).v != t[|t| - 1] {
        var k :| 0 <= k < |prefix| && MinFold(prefix).v == prefix[k];
        assert MinFold(t).v == t[k];
      }
    }
  }

  lemma MinFoldSnoc(s: seq<real>, x: real)
    ensures MinFold(s + [x]) == Smaller(MinFold(s), Finite(x))
  {
    assert (s + [x])[..|s|] == s;
  }

  /** The running `sum += dis` over the terms t. */
  function Total(t: seq<real>): real
  {
    SeqSum(t, x => x)
  }

  lemma TotalSnoc(s: seq<real>, x: real)
    ensures Total(s + [x]) == Total(s) + x
  {
    assert (s + [x])[..|s|] == s;
  }

  // ---------------------------------------------------------------------------
  // The matrix entries
  // ---------------------------------------------------------------------------

  /** `maxDistance[i][j]`, i > j: a = data[i], b = data[j]. */
  function MaxTerm(pld: (Point, Point, Point) -> real, a: seq<Point>, b: seq<Point>): real
  {
    Max0(SegmentTerms(pld, a, b))
  }

  /** `sumDistance[i][j]`, i > j. */
  function SumTerm(pld: (Point, Point, Point) -> real, a: seq<Point>, b: seq<Point>): real
  {
    Total(SegmentTerms(pld, a, b))
  }

  /** `minDistance[i][j]`, i > j: only polylines of at least two points contribute. */
  function MinTerm(pldm: (Point, seq<Point>) -> real, a: seq<Point>, b: seq<Point>): Dist
  {
    if |a| >= 2 then MinFold(PointTerms(pldm, b, a)) else Infinite
  }

  /** `hausdorffDistance[i][j]`: a = data[i] supplies the points, b = data[j] the polyline. */
  function HausdorffTerm(pldm: (Point, seq<Point>) -> real, a: seq<Point>, b: seq<Point>): real
  {
    if |b| >= 2 then Max0(PointTerms(pldm, a, b)) else 0.0
  }

  /** A stored `averageDistance` entry: `sum / length`, NaN for 0 / 0. */
  datatype Ratio = Number(v: real) | NotANumber

  function Quotient(sum: real, length: nat): (r: Ratio)
    ensures r.NotANumber? <==> length == 0
    ensures r.Number? ==> r.v * length as real == sum
  {
    if length == 0 then NotANumber else Number(sum / length as real)
  }

  /** The max entry is the largest segment distance, or 0 when no pair is visited. */
  lemma MaxTermIsMaximum(pld: (Point, Point, Point) -> real, a: seq<Point>, b: seq<Point>)
    ensures MaxTerm(pld, a, b) >= 0.0
    ensures forall m, k :: 0 <= m < |a| - 1 && 0 <= k < |b| ==> pld(b[k], a[m], a[m + 1]) <= MaxTerm(pld, a, b)
    ensures |a| < 2 || |b| == 0 ==> MaxTerm(pld, a, b) == 0.0
    ensures MaxTerm(pld, a, b) == 0.0 ||
      exists m, k :: 0 <= m < |a| - 1 && 0 <= k < |b| && MaxTerm(pld, a, b) == pld(b[k], a[m], a[m + 1])
  {
    Max0Bounds(SegmentTerms(pld, a, b));
    forall m, k | 0 <= m < |a| - 1 && 0 <= k < |b|
      ensures pld(b[k], a[m], a[m + 1]) <= MaxTerm(pld, a, b)
    {
      TermBelowMax(pld, a, b, m, k);
    }
    MaxTermAttained(pld, a, b);
  }

  /** One visited pair's distance is at most the max entry. */
  lemma TermBelowMax(pld: (Point, Point, Point) -> real, a: seq<Point>, b: seq<Point>, m: nat, k: nat)
    requires m + 1 < |a| && k < |b|
    ensures pld(b[k], a[m], a[m + 1]) <= MaxTerm(pld, a, b)
  {
    var t := SegmentTerms(pld, a, b);
    SegmentTermsAt(pld, a, b, m, k);
    var idx := m * |b| + k;
    assert 0 <= idx < |t| && t[idx] == pld(b[k], a[m], a[m + 1]);
    MaxAtLeast(t, idx);
  }

  lemma MaxAtLeast(t: seq<real>, idx: nat)
    requires idx < |t|
    ensures t[idx] <= Max0(t)
  {
    Max0Bounds(t);
  }

  /** A nonzero max entry is the distance of some visited pair. */
  lemma MaxTermAttained(pld: (Point, Point, Point) -> real, a: seq<Point>, b: seq<Point>)
    ensures MaxTerm(pld, a, b) == 0.0 ||
      exists m, k :: 0 <= m < |a| - 1 && 0 <= k < |b| && MaxTerm(pld, a, b) == pld(b[k], a[m], a[m + 1])
  {
    var t := SegmentTerms(pld, a, b);
    Max0Bounds(t);
    if MaxTerm(pld, a, b) != 0.0 {
      var idx :| 0 <= idx < |t| && Max0(t) == t[idx];
      var m, k := SegmentTermsDecode(pld, a, b, idx);
    }
  }

  /** Every term is the distance of some point to some segment. */
  lemma SegmentTermsDecode(pld: (Point, Point, Point) -> real, a: seq<Point>, b: seq<Point>, idx: nat)
    returns (m: nat, k: nat)
    requires idx < |SegmentTerms(pld, a, b)|
    ensures m + 1 < |a| && k < |b| && SegmentTerms(pld, a, b)[idx] == pld(b[k], a[m], a[m + 1])
  {
    m, k := idx / |b|, idx % |b|;
    assert idx == m * |b| + k;
    if m >= |a| - 1 {
      MulLe(|b|, |a| - 1, m);
    }
    SegmentTermsAt(pld, a, b, m, k);
  }

  /** The distance of b[k] to segment m of a, 0 outside the loops' range. */
  function SegmentDistance(pld: (Point, Point, Point) -> real, a: seq<Point>, b: seq<Point>, m: int, k: int): real
  {
    if 0 <= m && m + 1 < |a| && 0 <= k < |b| then pld(b[k], a[m], a[m + 1]) else 0.0
  }

  /** The sum over b's points for segment m. */
  function RowSum(pld: (Point, Point, Point) -> real, a: seq<Point>, b: seq<Point>, m: int): real
  {
    Sum(0, |b|, k => SegmentDistance(pld, a, b, m, k))
  }

  /** The sum entry is the sum over segments of the sums over points. */
  lemma {:induction false} SumTermNested(pld: (Point, Point, Point) -> real, a: seq<Point>, b: seq<Point>)
    requires |a| >= 1
    ensures SumTerm(pld, a, b) == Sum(0, |a| - 1, m => RowSum(pld, a, b, m))
    decreases |a|
  {
    if |a| >= 2 {
      var prefix := a[..|a| - 1];
      SumTermNested(pld, prefix, b);
      forall m | 0 <= m < |a| - 2
        ensures RowSum(pld, prefix, b, m) == RowSum(pld, a, b, m)
      {
        SumExt(0, |b|, k => SegmentDistance(pld, prefix, b, m, k), k => SegmentDistance(pld, a, b, m, k));
      }
      SumExt(0, |a| - 2, m => RowSum(pld, prefix, b, m), m => RowSum(pld, a, b, m));
      SumLast(0, |a| - 1, m => RowSum(pld, a, b, m));
      var row := SegmentRow(pld, a, b, |a| - 2);
      SeqSumAppend(SegmentTerms(pld, prefix, b), row, x => x);
      SeqSumAsSum(row, x => x, k => SegmentDistance(pld, a, b, |a| - 2, k));
    }
  }

  /** With non-negative distances the sum entry dominates the max entry. */
  lemma {:induction false} MaxBelowSum(t: seq<real>)
    requires forall k :: 0 <= k < |t| ==> t[k] >= 0.0
    ensures Max0(t) <= Total(t)
  {
    if |t| > 0 {
      var prefix := t[..|t| - 1];
      MaxBelowSum(prefix);
      assert Total(t) == Total(prefix) + t[|t| - 1];
      Max0Bounds(prefix);
      Max0Bounds(t);
      TotalNonneg(prefix);
    }
  }

  lemma {:induction false} TotalNonneg(t: seq<real>)
    requires forall k :: 0 <= k < |t| ==> t[k] >= 0.0
    ensures Total(t) >= 0.0
  {
    if |t| > 0 {
      TotalNonneg(t[..|t| - 1]);
      assert Total(t) == Total(t[..|t| - 1]) + t[|t| - 1];
    }
  }

  /** The min entry: `Infinity` exactly when the polyline has under two
      points or there are no points; otherwise the least polyline distance. */
  lemma MinTermCases(pldm: (Point, seq<Point>) -> real, a: seq<Point>, b: seq<Point>)
    ensures MinTerm(pldm, a, b).Infinite? <==> |a| < 2 || |b| == 0
    ensures MinTerm(pldm, a, b).Finite? ==>
      (forall k :: 0 <= k < |b| ==> MinTerm(pldm, a, b).v <= pldm(b[k], a)) &&
      exists k :: 0 <= k < |b| && MinTerm(pldm, a, b).v == pldm(b[k], a)
  {
    var t := PointTerms(pldm, b, a);
    MinFoldBounds(t);
    assert forall k :: 0 <= k < |b| ==> t[k] == pldm(b[k], a);
    if MinTerm(pldm, a, b).Finite? {
      var k :| 0 <= k < |t| && MinFold(t).v == t[k];
      assert MinTerm(pldm, a, b).v == pldm(b[k], a);
    }
  }

  /** The Hausdorff entry: 0 for a polyline of under two points, otherwise
      the largest distance of a's points to b, and at least 0. */
  lemma HausdorffTermCases(pldm: (Point, seq<Point>) -> real, a: seq<Point>, b: seq<Point>)
    ensures HausdorffTerm(pldm, a, b) >= 0.0
    ensures |b| < 2 ==> HausdorffTerm(pldm, a, b) == 0.0
    ensures |b| >= 2 ==> forall k :: 0 <= k < |a| ==> pldm(a[k], b) <= HausdorffTerm(pldm, a, b)
    ensures HausdorffTerm(pldm, a, b) == 0.0 || exists k :: 0 <= k < |a| && HausdorffTerm(pldm, a, b) == pldm(a[k], b)
  {
    var t := PointTerms(pldm, a, b);
    Max0Bounds(t);
    assert forall k :: 0 <= k < |a| ==> t[k] == pldm(a[k], b);
    if HausdorffTerm(pldm, a, b) != 0.0 {
      var k :| 0 <= k < |t| && Max0(t) == t[k];
      assert HausdorffTerm(pldm, a, b) == pldm(a[k], b);
    }
  }

  // ---------------------------------------------------------------------------
  // The inner loops
  // ---------------------------------------------------------------------------

  /** The points of a visited by the segment loop before iteration m. */
  function Visited(a: seq<Point>, m: nat): seq<Point>
  {
    if m < |a| then a[..m + 1] else a
  }

  lemma VisitedStep(pld: (Point, Point, Point) -> real, a: seq<Point>, b: seq<Point>, m: nat)
    requires m + 1 < |a|
    ensures SegmentTerms(pld, Visited(a, m + 1), b) == SegmentTerms(pld, Visited(a, m), b) + SegmentRow(pld, a, b, m)
  {
    var v := a[..m + 2];
    assert v[..|v| - 1] == a[..m + 1];
    assert SegmentRow(pld, v, b, m) == SegmentRow(pld, a, b, m);
  }

  /** The `n` loop of `maxDistance` for segment m, continuing the running `max`. */
  method RowMax(pld: (Point, Point, Point) -> real, a: seq<Point>, b: seq<Point>, m: nat, max0: real, ghost done: seq<real>)
    returns (max: real)
    requires m + 1 < |a| && max0 == Max0(done)
    ensures max == Max0(done + SegmentRow(pld, a, b, m))
  {
    ghost var row := SegmentRow(pld, a, b, m);
    max := max0;
    assert done + row[..0] == done;
    for n := 0 to |b|
      invariant max == Max0(done + row[..n])
    {
      assert done + row[..n + 1] == (done + row[..n]) + [row[n]];
      Max0Snoc(done + row[..n], row[n]);
      max := RMax(pld(b[n], a[m], a[m + 1]), max);
    }
    assert row[..|b|] == row;
  }

  /** The `m` / `n` loops of `maxDistance` with the running `max`. */
  method SegmentMax(pld: (Point, Point, Point) -> real, a: seq<Point>, b: seq<Point>) returns (max: real)
    ensures max == MaxTerm(pld, a, b)
  {
    max := 0.0;
    var m := 0;
    while m + 1 < |a|
      invariant m == 0 || m < |a|
      invariant max == Max0(SegmentTerms(pld, Visited(a, m), b))
    {
      max := RowMax(pld, a, b, m, max, SegmentTerms(pld, Visited(a, m), b));
      VisitedStep(pld, a, b, m);
      m := m + 1;
    }
    assert Visited(a, m) == a;
  }

  /** The `n` loop of `sumDistance` for segment m, continuing the running `sum`. */
  method RowTotal(pld: (Point, Point, Point) -> real, a: seq<Point>, b: seq<Point>, m: nat, sum0: real, ghost done: seq<real>)
    returns (sum: real)
    requires m + 1 < |a| && sum0 == Total(done)
    ensures sum == Total(done + SegmentRow(pld, a, b, m))
  {
    ghost var row := SegmentRow(pld, a, b, m);
    sum := sum0;
    assert done + row[..0] == done;
    for n := 0 to |b|
      invariant sum == Total(done + row[..n])
    {
      assert done + row[..n + 1] == (done + row[..n]) + [row[n]];
      TotalSnoc(done + row[..n], row[n]);
      sum := sum + pld(b[n], a[m], a[m + 1]);
    }
    assert row[..|b|] == row;
  }

  /** The `m` / `n` loops of `sumDistance` and `averageDistance` with the running `sum`. */
  method SegmentSum(pld: (Point, Point, Point) -> real, a: seq<Point>, b: seq<Point>) returns (sum: real)
    ensures sum == SumTerm(pld, a, b)
  {
    sum := 0.0;
    var m := 0;
    while m + 1 < |a|
      invariant m == 0 || m < |a|
      invariant sum == Total(SegmentTerms(pld, Visited(a, m), b))
    {
      sum := RowTotal(pld, a, b, m, sum, SegmentTerms(pld, Visited(a, m), b));
      VisitedStep(pld, a, b, m);
      m := m + 1;
    }
    assert Visited(a, m) == a;
  }

  /** The `k` loop of `minDistance` with the running `min`. */
  method PolylineMin(pldm: (Point, seq<Point>) -> real, a: seq<Point>, b: seq<Point>) returns (min: Dist)
    ensures min == MinTerm(pldm, a, b)
  {
    ghost var t := PointTerms(pldm, b, a);
    min := Infinite;
    for k := 0 to |b|
      invariant min == if |a| >= 2 then MinFold(t[..k]) else Infinite
    {
      assert t[..k + 1] == t[..k] + [t[k]];
      MinFoldSnoc(t[..k], t[k]);
      if |a| >= 2 {
        min := Smaller(min, Finite(pldm(b[k], a)));
      }
    }
    assert t[..|b|] == t;
  }

  /** The `k` loop of `hausdorffDistance` with the running `maxmin`. */
  method PolylineMaxMin(pldm: (Point, seq<Point>) -> real, a: seq<Point>, b: seq<Point>) returns (maxmin: real)
    ensures maxmin == HausdorffTerm(pldm, a, b)
  {
    ghost var t := PointTerms(pldm, a, b);
    maxmin := 0.0;
    for k := 0 to |a|
      invariant maxmin == if |b| >= 2 then Max0(t[..k]) else 0.0
    {
      assert t[..k + 1] == t[..k] + [t[k]];
      Max0Snoc(t[..k], t[k]);
      if |b| >= 2 {
        maxmin := RMax(pldm(a[k], b), maxmin);
      }
    }
    assert t[..|a|] == t;
  }

  // ---------------------------------------------------------------------------
  // The fill patterns
  // ---------------------------------------------------------------------------

  /** Pair (p, q), q < p, has been visited by the time the loops reach (i, j). */
  predicate Before(p: nat, q: nat, i: nat, j: nat)
  {
    p < i || (p == i && q < j)
  }

  /** The triangular loops have written `below(p, q)` at [p][q] and
      `above(p, q)` at [q][p] for each visited q < p; the rest holds the
      zero the rows were allocated with. */
  ghost predicate Mirrored<T>(d: array2<T>, zero: T, i: nat, j: nat, below: (nat, nat) -> T, above: (nat, nat) -> T)
    reads d
  {
    forall p, q :: 0 <= p < d.Length0 && 0 <= q < d.Length1 ==>
      d[p, q] == if q < p && Before(p, q, i, j) then below(p, q)
                 else if p < q && Before(q, p, i, j) then above(q, p)
                 else zero
  }

  /** `distance[i][j] = vb; distance[j][i] = va;` */
  method Mirror<T>(d: array2<T>, ghost zero: T, i: nat, j: nat, ghost below: (nat, nat) -> T, ghost above: (nat, nat) -> T, vb: T, va: T)
    requires j < i < d.Length0 == d.Length1 && vb == below(i, j) && va == above(i, j)
    requires Mirrored(d, zero, i, j, below, above)
    modifies d
    ensures Mirrored(d, zero, i, j + 1, below, above)
  {
    d[i, j] := vb;
    d[j, i] := va;
  }

  lemma MirroredNextRow<T>(d: array2<T>, zero: T, i: nat, below: (nat, nat) -> T, above: (nat, nat) -> T)
    requires Mirrored(d, zero, i, i, below, above)
    ensures Mirrored(d, zero, i + 1, 0, below, above)
  {
  }

  /** `maxDistance(data)`: symmetric, zero diagonal, the max entry below it. */
  method MaxDistance(pld: (Point, Point, Point) -> real, data: seq<seq<Point>>) returns (distance: array2<real>)
    ensures fresh(distance) && distance.Length0 == |data| && distance.Length1 == |data|
    ensures forall p, q :: 0 <= q < p < |data| ==> distance[p, q] == MaxTerm(pld, data[p], data[q])
    ensures forall p, q :: 0 <= p < |data| && 0 <= q < |data| ==> distance[p, q] == distance[q, p]
    ensures forall p :: 0 <= p < |data| ==> distance[p, p] == 0.0
  {
    var n := |data|;
    distance := new real[n, n]((_, _) => 0.0);
    ghost var below := (p: nat, q: nat) => if p < n && q < n then MaxTerm(pld, data[p], data[q]) else 0.0;
    for i := 0 to n
      invariant Mirrored(distance, 0.0, i, 0, below, below)
    {
      for j := 0 to i
        invariant Mirrored(distance, 0.0, i, j, below, below)
      {
        var max := SegmentMax(pld, data[i], data[j]);
        Mirror(distance, 0.0, i, j, below, below, max, max);
      }
      MirroredNextRow(distance, 0.0, i, below, below);
    }
  }

  /** `minDistance(data)`: symmetric, zero diagonal, the min entry below it. */
  method MinDistance(pldm: (Point, seq<Point>) -> real, data: seq<seq<Point>>) returns (distance: array2<Dist>)
    ensures fresh(distance) && distance.Length0 == |data| && distance.Length1 == |data|
    ensures forall p, q :: 0 <= q < p < |data| ==> distance[p, q] == MinTerm(pldm, data[p], data[q])
    ensures forall p, q :: 0 <= p < |data| && 0 <= q < |data| ==> distance[p, q] == distance[q, p]
    ensures forall p :: 0 <= p < |data| ==> distance[p, p] == Finite(0.0)
  {
    var n := |data|;
    distance := new Dist[n, n]((_, _) => Finite(0.0));
    ghost var below := (p: nat, q: nat) => if p < n && q < n then MinTerm(pldm, data[p], data[q]) else Finite(0.0);
    for i := 0 to n
      invariant Mirrored(distance, Finite(0.0), i, 0, below, below)
    {
      for j := 0 to i
        invariant Mirrored(distance, Finite(0.0), i, j, below, below)
      {
        var min := PolylineMin(pldm, data[i], data[j]);
        Mirror(distance, Finite(0.0), i, j, below, below, min, min);
      }
      MirroredNextRow(distance, Finite(0.0), i, below, below);
    }
  }

  /** `sumDistance(data)`: symmetric, zero diagonal, the sum entry below it. */
  method SumDistance(pld: (Point, Point, Point) -> real, data: seq<seq<Point>>) returns (distance: array2<real>)
    ensures fresh(distance) && distance.Length0 == |data| && distance.Length1 == |data|
    ensures forall p, q :: 0 <= q < p < |data| ==> distance[p, q] == SumTerm(pld, data[p], data[q])
    ensures forall p, q :: 0 <= p < |data| && 0 <= q < |data| ==> distance[p, q] == distance[q, p]
    ensures forall p :: 0 <= p < |data| ==> distance[p, p] == 0.0
  {
    var n := |data|;
    distance := new real[n, n]((_, _) => 0.0);
    ghost var below := (p: nat, q: nat) => if p < n && q < n then SumTerm(pld, data[p], data[q]) else 0.0;
    for i := 0 to n
      invariant Mirrored(distance, 0.0, i, 0, below, below)
    {
      for j := 0 to i
        invariant Mirrored(distance, 0.0, i, j, below, below)
      {
        var sum := SegmentSum(pld, data[i], data[j]);
        Mirror(distance, 0.0, i, j, below, below, sum, sum);
      }
      MirroredNextRow(distance, 0.0, i, below, below);
    }
  }

  /** `averageDistance(data)`: the sum entry of i > j divided by the length
      of data[i] at [i][j] and by the length of data[j] at [j][i]. */
  method AverageDistance(pld: (Point, Point, Point) -> real, data: seq<seq<Point>>) returns (distance: array2<Ratio>)
    ensures fresh(distance) && distance.Length0 == |data| && distance.Length1 == |data|
    ensures forall p, q :: 0 <= q < p < |data| ==>
      distance[p, q] == Quotient(SumTerm(pld, data[p], data[q]), |data[p]|) &&
      distance[q, p] == Quotient(SumTerm(pld, data[p], data[q]), |data[q]|)
    ensures forall p :: 0 <= p < |data| ==> distance[p, p] == Number(0.0)
  {
    var n := |data|;
    distance := new Ratio[n, n]((_, _) => Number(0.0));
    ghost var below := (p: nat, q: nat) => if p < n && q < n then Quotient(SumTerm(pld, data[p], data[q]), |data[p]|) else Number(0.0);
    ghost var above := (p: nat, q: nat) => if p < n && q < n then Quotient(SumTerm(pld, data[p], data[q]), |data[q]|) else Number(0.0);
    for i := 0 to n
      invariant Mirrored(distance, Number(0.0), i, 0, below, above)
    {
      for j := 0 to i
        invariant Mirrored(distance, Number(0.0), i, j, below, above)
      {
        var sum := SegmentSum(pld, data[i], data[j]);
        Mirror(distance, Number(0.0), i, j, below, above, Quotient(sum, |data[i]|), Quotient(sum, |data[j]|));
      }
      MirroredNextRow(distance, Number(0.0), i, below, above);
    }
  }

  /** Every (p, q) visited by the full `i` / `j` loops holds entry(p, q); the rest is 0. */
  ghost predicate FilledTo(d: array2<real>, i: nat, j: nat, entry: (nat, nat) -> real)
    reads d
  {
    forall p, q :: 0 <= p < d.Length0 && 0 <= q < d.Length1 ==>
      d[p, q] == if Before(p, q, i, j) then entry(p, q) else 0.0
  }

  /** `hausdorffDistance(data)`: every entry, the diagonal included. */
  method HausdorffDistance(pldm: (Point, seq<Point>) -> real, data: seq<seq<Point>>) returns (distance: array2<real>)
    ensures fresh(distance) && distance.Length0 == |data| && distance.Length1 == |data|
    ensures forall p, q :: 0 <= p < |data| && 0 <= q < |data| ==> distance[p, q] == HausdorffTerm(pldm, data[p], data[q])
  {
    var n := |data|;
    distance := new real[n, n]((_, _) => 0.0);
    ghost var entry := (p: nat, q: nat) => if p < n && q < n then HausdorffTerm(pldm, data[p], data[q]) else 0.0;
    for i := 0 to n
      invariant FilledTo(distance, i, 0, entry)
    {
      for j := 0 to n
        invariant FilledTo(distance, i, j, entry)
      {
        var maxmin := PolylineMaxMin(pldm, data[i], data[j]);
        distance[i, j] := maxmin;
      }
      assert FilledTo(distance, i + 1, 0, entry);
    }
  }
}
