/** `KDLine` of src/core/kdtree.js: the untyped-input checks of its
    constructor and of `render`, the validated `precision` field, and the
    segment list `buildKDTree` hands to the spatial index. */
module KDTree {
  import opened Wrappers

  /** A JavaScript number. */
  datatype JsNumber = Real(v: real) | NaN | Infinity | NegInfinity

  /** The JavaScript values the checks can meet. */
  datatype JsValue =
    | Number(num: JsNumber)
    | Str(text: string)
    | Bool(flag: bool)
    | Array(elems: seq<JsValue>)
    | Object(fields: map<string, JsValue>)
    | Null
    | Undefined

  /** What a check can raise. */
  datatype KDError =
    | BadData       // "Constructor paramerter should be ..."
    | TypeErrorRaised    // reading a property of null or undefined
    | BadCanvas     // "`canvas` should be HTMLCanvasElement"
    | BadDomainRange   // "`domain` and `range` should be 2x2 array."
    | BadKernel     // "`kernel` should be nxn matrix"

  /** Reading `v[name]` on a value that is not null or undefined. */
  function Prop(v: JsValue, name: string): JsValue
    requires !v.Null? && !v.Undefined?
  {
    if v.Object? && name in v.fields then v.fields[name] else Undefined
  }

  /** The outcome of a `findIndex` callback: true, false, or an exception. */
  datatype Test = Hit | Miss | Throw

  /** `s.findIndex(p) >= 0`, evaluated left to right: stops at the first
      element the callback accepts or throws on. */
  function FirstHit<T>(s: seq<T>, p: T -> Test): (r: Test)
    ensures r == Miss <==> forall i :: 0 <= i < |s| ==> p(s[i]) == Miss
    ensures r != Miss ==> exists i :: 0 <= i < |s| && p(s[i]) == r && forall i' :: 0 <= i' < i ==> p(s[i']) == Miss
    decreases |s|
  {
    if |s| == 0 then Miss
    else if p(s[0]) != Miss then p(s[0])
    else
      var r := FirstHit(s[1..], p);
      assert forall i :: 0 < i < |s| ==> s[i] == s[1..][i - 1];
      r
  }

  // ---------------------------------------------------------------------------
  // The constructor
  // ---------------------------------------------------------------------------

  /** The inner callback: `typeof d.x !== "number" || typeof d.y !== "number"`. */
  function BadPoint(d: JsValue): Test
  {
    if d.Null? || d.Undefined? then Throw
    else if !Prop(d, "x").Number? then Hit
    else if !Prop(d, "y").Number? then Hit
    else Miss
  }

  /** The outer callback: `!(d instanceof Array) || d.findIndex(...) >= 0`. */
  function BadLine(d: JsValue): Test
  {
    if !d.Array? then Hit else FirstHit(d.elems, BadPoint)
  }

  /** A point as `buildKDTree` reads it: `v.x` and `v.y`. */
  datatype Point = Point(x: JsNumber, y: JsNumber)

  /** A value with numeric `x` and `y`. */
  predicate NumericPoint(d: JsValue)
  {
    d.Object? && "x" in d.fields && "y" in d.fields && d.fields["x"].Number? && d.fields["y"].Number?
  }

  function PointOf(d: JsValue): Point
    requires NumericPoint(d)
  {
    Point(d.fields["x"].num, d.fields["y"].num)
  }

  /** The data the constructor accepts: an array of arrays of numeric points. */
  predicate WellFormedData(data: JsValue)
  {
    data.Array? &&
    (forall i :: 0 <= i < |data.elems| ==> data.elems[i].Array?) &&
    forall i, j :: 0 <= i < |data.elems| && data.elems[i].Array? && 0 <= j < |data.elems[i].elems| ==>
      NumericPoint(data.elems[i].elems[j])
  }

  /** The inner callback accepts exactly the numeric points. */
  lemma PointMiss(d: JsValue)
    ensures BadPoint(d) == Miss <==> NumericPoint(d)
  {
  }

  /** The outer callback accepts exactly the arrays of numeric points. */
  lemma LineMiss(d: JsValue)
    ensures BadLine(d) == Miss <==> d.Array? && forall j :: 0 <= j < |d.elems| ==> NumericPoint(d.elems[j])
  {
    if d.Array? {
      forall j | 0 <= j < |d.elems|
        ensures BadPoint(d.elems[j]) == Miss <==> NumericPoint(d.elems[j])
      {
        PointMiss(d.elems[j]);
      }
    }
  }

  /** No line is rejected exactly when the data is well formed. */
  lemma MissIffWellFormed(data: JsValue)
    requires data.Array?
    ensures FirstHit(data.elems, BadLine) == Miss <==> WellFormedData(data)
  {
    forall i | 0 <= i < |data.elems|
      ensures BadLine(data.elems[i]) == Miss <==>
        data.elems[i].Array? && forall j :: 0 <= j < |data.elems[i].elems| ==> NumericPoint(data.elems[i].elems[j])
    {
      LineMiss(data.elems[i]);
    }
  }

  /** The constructor's check, and on success the points it stores. */
  function CheckData(data: JsValue): (r: Result<seq<seq<Point>>, KDError>)
    ensures r.Success? <==> WellFormedData(data)
    ensures r.Success? ==> |r.value| == |data.elems|
    ensures r.Success? ==> forall i :: 0 <= i < |data.elems| ==> |r.value[i]| == |data.elems[i].elems|
    ensures r.Success? ==> forall i, j :: 0 <= i < |data.elems| && 0 <= j < |data.elems[i].elems| ==>
                             r.value[i][j] == PointOf(data.elems[i].elems[j])
    ensures r.Failure? ==> r.error == BadData || r.error == TypeErrorRaised
  {
    if !data.Array? then Failure(BadData)
    else
      var t := FirstHit(data.elems, BadLine);
      MissIffWellFormed(data);
      if t == Hit then Failure(BadData)
      else if t == Throw then Failure(TypeErrorRaised)
      else
        Success(seq(|data.elems|, i requires 0 <= i < |data.elems| =>
          seq(|data.elems[i].elems|, j requires 0 <= j < |data.elems[i].elems| => PointOf(data.elems[i].elems[j]))))
  }

  /** The constructor throws a TypeError exactly when, before any other
      defect, a line holds null or undefined. */
  lemma TypeErrorOnlyForNullPoints(data: JsValue)
    requires CheckData(data) == Failure(TypeErrorRaised)
    ensures data.Array?
    ensures exists i, j ::
              0 <= i < |data.elems| && data.elems[i].Array? && 0 <= j < |data.elems[i].elems| &&
              (data.elems[i].elems[j].Null? || data.elems[i].elems[j].Undefined?)
  {
    var i :| 0 <= i < |data.elems| && BadLine(data.elems[i]) == Throw;
    var j :| 0 <= j < |data.elems[i].elems| && BadPoint(data.elems[i].elems[j]) == Throw;
  }

  // ---------------------------------------------------------------------------
  // buildKDTree's segment extraction
  // ---------------------------------------------------------------------------

  /** One entry `[xMin, xMax, yMin, yMax, slope, i]`: consecutive endpoints,
      not sorted, the slope as the float division computes it. */
  datatype Segment = Segment(xMin: JsNumber, xMax: JsNumber, yMin: JsNumber, yMax: JsNumber, slope: JsNumber, line: nat)

  /** The accumulator `{list, previous}` of the reduce. */
  datatype Acc = Acc(list: seq<Segment>, previous: Point)

  /** `data.reduce(..., null)` over the first points: null before any point is seen. */
  function Reduce(pts: seq<Point>, i: nat, slope: (Point, Point) -> JsNumber): Option<Acc>
  {
    if |pts| == 0 then None
    else
      var p := Reduce(pts[..|pts| - 1], i, slope);
      var v := pts[|pts| - 1];
      if p.None? then Some(Acc([], v))
      else
        var u := p.value.previous;
        Some(Acc(p.value.list + [Segment(u.x, v.x, u.y, v.y, slope(u, v), i)], v))
  }

  /** `.list` of the reduce of line i: a TypeError for an empty line, whose
      reduce returns its initial value null. */
  function LineSegments(pts: seq<Point>, i: nat, slope: (Point, Point) -> JsNumber): Result<seq<Segment>, KDError>
  {
    var r := Reduce(pts, i, slope);
    if r.None? then Failure(TypeErrorRaised) else Success(r.value.list)
  }

  /** The segment joining point k and point k + 1 of line i. */
  function SegmentAt(pts: seq<Point>, i: nat, k: nat, slope: (Point, Point) -> JsNumber): Segment
    requires k + 1 < |pts|
  {
    Segment(pts[k].x, pts[k + 1].x, pts[k].y, pts[k + 1].y, slope(pts[k], pts[k + 1]), i)
  }

  /** A line of m >= 1 points gives its m - 1 consecutive segments, in order;
      an empty line fails. */
  lemma {:induction false} LineSegmentsShape(pts: seq<Point>, i: nat, slope: (Point, Point) -> JsNumber)
    ensures LineSegments(pts, i, slope).Success? <==> |pts| >= 1
    ensures |pts| >= 1 ==>
      var segs := LineSegments(pts, i, slope).value;
      |segs| == |pts| - 1 && forall k :: 0 <= k < |segs| ==> segs[k] == SegmentAt(pts, i, k, slope)
    ensures |pts| >= 1 ==> Reduce(pts, i, slope).value.previous == pts[|pts| - 1]
    decreases |pts|
  {
    if |pts| >= 2 {
      var prefix := pts[..|pts| - 1];
      LineSegmentsShape(prefix, i, slope);
      var ps := LineSegments(prefix, i, slope).value;
      var segs := LineSegments(pts, i, slope).value;
      assert segs == ps + [SegmentAt(pts, i, |pts| - 2, slope)];
      assert |ps| == |prefix| - 1;
      forall k | 0 <= k < |segs|
        ensures segs[k] == SegmentAt(pts, i, k, slope)
      {
        if k < |ps| {
          assert segs[k] == ps[k] == SegmentAt(prefix, i, k, slope);
          assert prefix[k] == pts[k] && prefix[k + 1] == pts[k + 1];
        }
      }
    } else if |pts| == 1 {
      assert Reduce(pts[..0], i, slope).None?;
      assert Reduce(pts, i, slope) == Some(Acc([], pts[0]));
    }
  }

  /** `this.#data.flatMap((data, i) => ...)` over lines 0 .. |data| - 1. */
  function Segments(data: seq<seq<Point>>, slope: (Point, Point) -> JsNumber): Result<seq<Segment>, KDError>
  {
    if |data| == 0 then Success([])
    else
      var prev := Segments(data[..|data| - 1], slope);
      if prev.Failure? then prev
      else
        var last := LineSegments(data[|data| - 1], |data| - 1, slope);
        if last.Failure? then last else Success(prev.value + last.value)
  }

  /** Where the segments of line i start: the segment counts of the lines before it. */
  function SegmentOffset(data: seq<seq<Point>>, i: nat): nat
    requires i <= |data|
  {
    if i == 0 then 0 else SegmentOffset(data, i - 1) + (if |data[i - 1]| >= 1 then |data[i - 1]| - 1 else 0)
  }

  /** The flatMap succeeds iff no line is empty, and then holds
      SegmentOffset(|data|) segments in all. */
  lemma {:induction false} SegmentsLayout(data: seq<seq<Point>>, slope: (Point, Point) -> JsNumber)
    ensures Segments(data, slope).Success? <==> forall i :: 0 <= i < |data| ==> |data[i]| >= 1
    ensures Segments(data, slope).Success? ==> |Segments(data, slope).value| == SegmentOffset(data, |data|)
    decreases |data|
  {
    if |data| > 0 {
      var prefix := data[..|data| - 1];
      var n := |data| - 1;
      SegmentsLayout(prefix, slope);
      LineSegmentsShape(data[n], n, slope);
      assert forall i :: 0 <= i < n ==> prefix[i] == data[i];
      OffsetPrefix(data, n);
    }
  }

  /** Segment k of line i sits at position SegmentOffset(i) + k. */
  lemma {:induction false} SegmentsAt(data: seq<seq<Point>>, slope: (Point, Point) -> JsNumber, i: nat, k: nat)
    requires Segments(data, slope).Success? && i < |data| && k + 1 < |data[i]|
    ensures SegmentOffset(data, i) + k < |Segments(data, slope).value|
    ensures Segments(data, slope).value[SegmentOffset(data, i) + k] == SegmentAt(data[i], i, k, slope)
    decreases |data|
  {
    var prefix := data[..|data| - 1];
    var n := |data| - 1;
    assert Segments(prefix, slope).Success?;
    var ps := Segments(prefix, slope).value;
    var last := LineSegments(data[n], n, slope).value;
    assert Segments(data, slope).value == ps + last;
    SegmentsLayout(prefix, slope);
    LineSegmentsShape(data[n], n, slope);
    OffsetPrefix(data, n);
    if i < n {
      assert prefix[i] == data[i];
      SegmentsAt(prefix, slope, i, k);
    }
  }

  lemma {:induction false} OffsetPrefix(data: seq<seq<Point>>, n: nat)
    requires n <= |data|
    ensures forall i :: 0 <= i <= n ==> SegmentOffset(data[..n], i) == SegmentOffset(data, i)
    decreases n
  {
    if n > 0 {
      forall i | 0 <= i <= n
        ensures SegmentOffset(data[..n], i) == SegmentOffset(data, i)
      {
        OffsetPrefixAt(data, n, i);
      }
    }
  }

  lemma {:induction false} OffsetPrefixAt(data: seq<seq<Point>>, n: nat, i: nat)
    requires i <= n <= |data|
    ensures SegmentOffset(data[..n], i) == SegmentOffset(data, i)
    decreases i
  {
    if i > 0 {
      OffsetPrefixAt(data, n, i - 1);
    }
  }

  /** The segment offsets do not decrease from line to line. */
  lemma {:induction false} OffsetMonotone(data: seq<seq<Point>>, i: nat, k: nat)
    requires i <= k <= |data|
    ensures SegmentOffset(data, i) <= SegmentOffset(data, k)
    decreases k - i
  {
    if i < k {
      OffsetMonotone(data, i, k - 1);
    }
  }

  /** Segments are ordered by line: a segment of line i comes before every
      segment of a later line. */
  lemma SegmentsOrderedByLine(data: seq<seq<Point>>, slope: (Point, Point) -> JsNumber, i: nat, k: nat, i': nat, k': nat)
    requires Segments(data, slope).Success?
    requires i < i' < |data| && k < |data[i]| - 1 && k' < |data[i']| - 1
    ensures SegmentOffset(data, i) + k < SegmentOffset(data, i') + k'
  {
    OffsetMonotone(data, i + 1, i');
  }

  // ---------------------------------------------------------------------------
  // render's argument checks
  // ---------------------------------------------------------------------------

  /** `x.findIndex((x) => typeof x !== "number" || isNaN(x)) >= 0`. */
  function NotNumber(x: JsValue): Test
  {
    if !x.Number? || x.num.NaN? then Hit else Miss
  }

  /** The callback on one entry of `domain` / `range`: not an array of two numbers. */
  function NotPair(x: JsValue): Test
  {
    if !x.Array? || |x.elems| != 2 then Hit else FirstHit(x.elems, NotNumber)
  }

  /** The test of `domain` or `range` alone. */
  function BadBox(v: JsValue): bool
  {
    !v.Array? || |v.elems| != 2 || FirstHit(v.elems, NotPair) == Hit
  }

  /** The kernel callback for a row, given `kernel.length`. */
  function BadRow(n: nat): JsValue -> Test
  {
    (x: JsValue) => if !x.Array? || |x.elems| != n then Hit else FirstHit(x.elems, NotNumber)
  }

  /** A non-empty square matrix of numbers none of which is NaN. */
  predicate SquareKernel(kernel: JsValue)
  {
    kernel.Array? && |kernel.elems| > 0 &&
    forall i :: 0 <= i < |kernel.elems| ==>
      kernel.elems[i].Array? && |kernel.elems[i].elems| == |kernel.elems| &&
      forall j :: 0 <= j < |kernel.elems[i].elems| ==>
        kernel.elems[i].elems[j].Number? && !kernel.elems[i].elems[j].num.NaN?
  }

  /** A 2 x 2 array of numbers none of which is NaN. */
  predicate Box(v: JsValue)
  {
    v.Array? && |v.elems| == 2 &&
    forall i :: 0 <= i < 2 ==>
      v.elems[i].Array? && |v.elems[i].elems| == 2 &&
      forall j :: 0 <= j < 2 ==> v.elems[i].elems[j].Number? && !v.elems[i].elems[j].num.NaN?
  }

  /** The checks at the top of `render`, in their order. */
  function CheckRender(isCanvas: bool, domain: JsValue, range: JsValue, kernel: JsValue): (r: Result<(), KDError>)
    ensures r.Success? <==> isCanvas && Box(domain) && Box(range) && SquareKernel(kernel)
    ensures r == Failure(BadKernel) <==> isCanvas && Box(domain) && Box(range) && !SquareKernel(kernel)
    ensures r == Failure(BadCanvas) <==> !isCanvas
    ensures r == Failure(BadDomainRange) <==> isCanvas && !(Box(domain) && Box(range))
  {
    BoxCheck(domain);
    BoxCheck(range);
    KernelCheck(kernel);
    if !isCanvas then Failure(BadCanvas)
    else if BadBox(domain) || BadBox(range) then Failure(BadDomainRange)
    else if !kernel.Array? || |kernel.elems| <= 0 || FirstHit(kernel.elems, BadRow(|kernel.elems|)) == Hit then
      Failure(BadKernel)
    else Success(())
  }

  lemma BoxCheck(v: JsValue)
    ensures !BadBox(v) <==> Box(v)
  {
    if v.Array? && |v.elems| == 2 {
      if FirstHit(v.elems, NotPair) != Hit {
        forall i | 0 <= i < 2
          ensures NotPair(v.elems[i]) == Miss
        {
        }
        forall i | 0 <= i < 2
          ensures FirstHit(v.elems[i].elems, NotNumber) == Miss
        {
          assert NotPair(v.elems[i]) == Miss;
        }
      }
    }
  }

  lemma KernelCheck(kernel: JsValue)
    ensures (kernel.Array? && |kernel.elems| > 0 && FirstHit(kernel.elems, BadRow(|kernel.elems|)) != Hit) <==> SquareKernel(kernel)
  {
    if kernel.Array? && |kernel.elems| > 0 {
      var n := |kernel.elems|;
      if FirstHit(kernel.elems, BadRow(n)) != Hit {
        forall i | 0 <= i < n
          ensures kernel.elems[i].Array? && |kernel.elems[i].elems| == n &&
            FirstHit(kernel.elems[i].elems, NotNumber) == Miss
        {
          assert BadRow(n)(kernel.elems[i]) == Miss;
        }
      }
    }
  }

  // ---------------------------------------------------------------------------
  // The class
  // ---------------------------------------------------------------------------

  class KDLine {
    /** `#data`, set once by the constructor. */
    const data: seq<seq<Point>>
    /** `#precision`. */
    var precision: real
    /** `#tree`: null until `buildKDTree`; the index is built over this segment list. */
    var tree: Option<seq<Segment>>

    ghost predicate Valid()
      reads this
    {
      precision > 0.0
    }

    /** The constructor after its check succeeded. */
    constructor (data: seq<seq<Point>>)
      ensures Valid() && this.data == data && precision == 1.0 && tree == None
    {
      this.data := data;
      precision := 1.0;
      tree := None;
    }

    /** The `precision` setter: ignores anything but a finite positive number. */
    method SetPrecision(value: JsValue)
      requires Valid()
      modifies this
      ensures Valid() && tree == old(tree)
      ensures precision == if value.Number? && value.num.Real? && value.num.v > 0.0 then value.num.v else old(precision)
    {
      if !value.Number? || value.num.NaN? || value.num.Infinity? || value.num.NegInfinity? || value.num.v <= 0.0 {
        return;
      }
      precision := value.num.v;
    }

    /** The `precision` getter. */
    function Precision(): (r: real)
      reads this
      requires Valid()
      ensures r > 0.0 && r == precision
    {
      precision
    }

    /** `buildKDTree()`: rebuilds the index over the segment list; an empty
      line makes it throw before `#tree` is assigned. */
    method BuildKDTree(slope: (Point, Point) -> JsNumber) returns (r: Result<(), KDError>)
      requires Valid()
      modifies this
      ensures Valid() && precision == old(precision)
      ensures r.Success? <==> forall i :: 0 <= i < |data| ==> |data[i]| >= 1
      ensures r.Success? ==> Segments(data, slope).Success? && tree == Some(Segments(data, slope).value)
      ensures r.Failure? ==> r.error == TypeErrorRaised && tree == old(tree)
    {
      SegmentsLayout(data, slope);
      var segments := Segments(data, slope);
      if segments.Failure? {
        FailureIsTypeError(data, slope);
        return Failure(TypeErrorRaised);
      }
      tree := Some(segments.value);
      return Success(());
    }
  }

  lemma {:induction false} FailureIsTypeError(data: seq<seq<Point>>, slope: (Point, Point) -> JsNumber)
    ensures Segments(data, slope).Failure? ==> Segments(data, slope).error == TypeErrorRaised
    decreases |data|
  {
    if |data| > 0 {
      FailureIsTypeError(data[..|data| - 1], slope);
    }
  }

  /** `new KDLine(data)`: the check, then the object. */
  method NewKDLine(data: JsValue) returns (r: Result<KDLine, KDError>)
    ensures r.Success? <==> WellFormedData(data)
    ensures r.Failure? ==> CheckData(data) == Failure(r.error)
    ensures r.Success? ==> fresh(r.value) && r.value.Valid()
    ensures r.Success? ==> r.value.precision == 1.0 && r.value.tree == None && r.value.data == CheckData(data).value
  {
    var checked := CheckData(data);
    if checked.Failure? {
      return Failure(checked.error);
    }
    var line := new KDLine(checked.value);
    return Success(line);
  }
}
