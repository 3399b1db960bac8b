/** The per-texel formulas of the density shaders: line drawing into the
    slots of a batch, the tile-local kernel smoother, the column / tile sums,
    normalisation, and the horizontal and vertical merges. Each is the value
    one fragment computes, over exact integer texel indices. */
module Passes {
  import opened Sums
  import opened Surface
  import opened Batching
  import opened Planner

  /** The kernel and the `doNormalize` mode (0: no normalisation, 2: per tile,
      any other value: per column). */
  datatype Smoothing = Smoothing(kernel: seq<seq<real>>, doNormalize: int)
  {
    /** The kernel passed the construction-time check. */
    predicate Valid()
    {
      CheckKernel(kernel).Success?
    }
  }

  /** Kernel entry [r][col]; 0 outside the kernel. */
  function Weight(kernel: seq<seq<real>>, r: int, col: int): real
  {
    if 0 <= r < |kernel| && 0 <= col < |kernel[r]| then kernel[r][col] else 0.0
  }

  /** The unrolled `gl_FragColor` expression of the gaussian shader: kernel
      entry [r][col] weighs the tap at offset (o - col, r - o), o the centre
      offset (the kernel is mirrored horizontally). */
  function Smooth(kernel: seq<seq<real>>, tap: (int, int) -> real): real
  {
    Sum(0, |kernel|, r => KernelRow(kernel, tap, r))
  }

  /** The terms of kernel row r (`offsetY = r`). */
  function KernelRow(kernel: seq<seq<real>>, tap: (int, int) -> real, r: int): real
  {
    var o := (|kernel| - 1) / 2;
    Sum(0, |kernel|, col => tap(o - col, r - o) * Weight(kernel, r, col))
  }

  /** Line s is drawn at surface texel (X, Y) in channel c: the texel is in the
      slot's tile, c is the one channel its colour mask enables, and the
      rasterised line covers the tile-local texel. */
  predicate Hits<T>(L: Layout, cover: (T, int, int) -> bool, s: Slotted<T>, X: int, Y: int, c: int)
    requires L.Valid()
  {
    s.column == X / L.w && s.row == Y / L.h && 0 <= c < |s.mask| && s.mask[c] &&
    cover(s.item, X % L.w, Y % L.h)
  }

  /** linesBuffer after clearing and `drawLine(lines)`: 1.0 where a line of the
      batch is drawn in channel c, 0.0 elsewhere. */
  function LinesCell<T>(L: Layout, cover: (T, int, int) -> bool, lines: seq<Slotted<T>>, X: int, Y: int, c: int): real
    requires L.Valid()
  {
    if |lines| == 0 then 0.0
    else if Hits(L, cover, lines[|lines| - 1], X, Y, c) then 1.0
    else LinesCell(L, cover, lines[..|lines| - 1], X, Y, c)
  }

  /** getColor's guard: the neighbour (X + dx, Y + dy) is in the tile of (X, Y)
      and not left of or below the surface. The shader divides with GLSL's
      truncating `int` division, which agrees with this one whenever the
      conjunction can hold (both operands non-negative). */
  predicate SameTile(L: Layout, X: int, Y: int, dx: int, dy: int)
    requires L.Valid()
  {
    X + dx >= 0 && Y + dy >= 0 && X / L.w == (X + dx) / L.w && Y / L.h == (Y + dy) / L.h
  }

  /** One `getColor(dx, dy)` of the gaussian shader on the lines buffer. */
  function Tap<T>(L: Layout, cover: (T, int, int) -> bool, lines: seq<Slotted<T>>, X: int, Y: int, c: int, dx: int, dy: int): real
    requires L.Valid()
  {
    if SameTile(L, X, Y, dx, dy) then LinesCell(L, cover, lines, X + dx, Y + dy, c) else 0.0
  }

  /** gaussianBuffer: the smoothed lines buffer. */
  function GaussianCell<T>(L: Layout, S: Smoothing, cover: (T, int, int) -> bool, lines: seq<Slotted<T>>, X: int, Y: int, c: int): real
    requires L.Valid()
  {
    Smooth(S.kernel, (dx, dy) => Tap(L, cover, lines, X, Y, c, dx, dy))
  }

  /** The `sum` shader's inner loop: the column of surface column X in tile row r. */
  function ColumnSum<T>(L: Layout, S: Smoothing, cover: (T, int, int) -> bool, lines: seq<Slotted<T>>, X: int, r: int, c: int): real
    requires L.Valid()
  {
    Sum(0, L.h, j => GaussianCell(L, S, cover, lines, X, r * L.h + j, c))
  }

  /** The sum before the floor, for sums texel (X, r): the column of X
      (doNormalize != 2) or all columns of the tile of X (doNormalize == 2). */
  function RawSum<T>(L: Layout, S: Smoothing, cover: (T, int, int) -> bool, lines: seq<Slotted<T>>, X: int, r: int, c: int): real
    requires L.Valid()
  {
    if S.doNormalize != 2 then
      ColumnSum(L, S, cover, lines, X, r, c)
    else
      Sum(0, L.w, i => ColumnSum(L, S, cover, lines, (X / L.w) * L.w + i, r, c))
  }

  /** `max(vec4(1.0), sum)` in one channel. */
  function AtLeastOne(x: real): (r: real)
    ensures r >= 1.0 && r >= x && (r == x || r == 1.0)
  {
    if x < 1.0 then 1.0 else x
  }

  /** sumsBuffer texel (X, r). */
  function SumsCell<T>(L: Layout, S: Smoothing, cover: (T, int, int) -> bool, lines: seq<Slotted<T>>, X: int, r: int, c: int): real
    requires L.Valid()
  {
    AtLeastOne(RawSum(L, S, cover, lines, X, r, c))
  }

  /** What the `normalize` pass adds to resultBuffer at (X, Y): the smoothed
      value divided by the sums texel of its tile row when doNormalize is
      non-zero, the smoothed value itself otherwise. */
  function NormalizedCell<T>(L: Layout, S: Smoothing, cover: (T, int, int) -> bool, lines: seq<Slotted<T>>, X: int, Y: int, c: int): real
    requires L.Valid()
  {
    var g := GaussianCell(L, S, cover, lines, X, Y, c);
    if S.doNormalize != 0 then g / SumsCell(L, S, cover, lines, X, Y / L.h, c) else g
  }

  /** Entry i of a buffer, 0 outside it. */
  function At(s: seq<real>, i: int): real
  {
    if 0 <= i < |s| then s[i] else 0.0
  }

  /** preMergedBuffer texel (x, Y), channel c: the sum of the resultBuffer
      texels at column x of every tile column. */
  function MergeHCell(L: Layout, result: seq<real>, x: int, Y: int, c: int): real
  {
    Sum(0, L.rx, t => At(result, Index4(L.Width(), t * L.w + x, Y, c)))
  }

  /** heatBuffer texel (x, y): the preMergedBuffer texels at row y of every
      tile row, summed over the four channels. */
  function MergeVCell(L: Layout, preMerged: seq<real>, x: int, y: int): real
  {
    Sum(0, 4, c => Sum(0, L.ry, i => At(preMerged, Index4(L.w, x, i * L.h + y, c))))
  }
}
