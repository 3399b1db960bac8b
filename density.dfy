/** What the batched, tiled, four-channel pipeline computes, stated without
    tiles, channels or batches: every line is smoothed and normalised on its
    own `W x H` grid, and the heat texel is the sum of those densities. */
module Density {
  import opened Sums
  import opened Arith
  import opened Surface
  import opened Batching
  import opened Passes

  /** One line drawn alone on an empty `w x h` grid. */
  function LocalLine<T>(w: nat, h: nat, cover: (T, int, int) -> bool, item: T, x: int, y: int): real
  {
    if 0 <= x < w && 0 <= y < h && cover(item, x, y) then 1.0 else 0.0
  }

  /** That grid smoothed with the kernel; taps outside the grid read 0. */
  function LocalGauss<T>(w: nat, h: nat, S: Smoothing, cover: (T, int, int) -> bool, item: T, x: int, y: int): real
  {
    Smooth(S.kernel, (dx, dy) => LocalLine(w, h, cover, item, x + dx, y + dy))
  }

  /** The mass of column x of that smoothed grid. */
  function LocalColumn<T>(w: nat, h: nat, S: Smoothing, cover: (T, int, int) -> bool, item: T, x: int): real
  {
    Sum(0, h, j => LocalGauss(w, h, S, cover, item, x, j))
  }

  /** Its column-x mass (per-column mode) or whole-grid mass (per-tile mode). */
  function LocalRaw<T>(w: nat, h: nat, S: Smoothing, cover: (T, int, int) -> bool, item: T, x: int): real
  {
    if S.doNormalize != 2 then
      LocalColumn(w, h, S, cover, item, x)
    else
      Sum(0, w, i => LocalColumn(w, h, S, cover, item, i))
  }

  /** The density one line contributes to heat texel (x, y). */
  function LineDensity<T>(w: nat, h: nat, S: Smoothing, cover: (T, int, int) -> bool, item: T, x: int, y: int): real
  {
    var g := LocalGauss(w, h, S, cover, item, x, y);
    if S.doNormalize != 0 then g / AtLeastOne(LocalRaw(w, h, S, cover, item, x)) else g
  }

  /** The heat texel (x, y) of the lines `items`: the sum of their densities. */
  function Heat<T>(w: nat, h: nat, S: Smoothing, cover: (T, int, int) -> bool, items: seq<T>, x: int, y: int): real
  {
    SeqSum(items, item => LineDensity(w, h, S, cover, item, x, y))
  }

  /** Batch position of the slot that surface texel (X, Y), channel c belongs to. */
  function SlotAt(L: Layout, X: int, Y: int, c: int): int
    requires L.Valid()
  {
    SlotPos(X / L.w, Y / L.h, c, L.rx)
  }

  // ---------------------------------------------------------------------
  // No bleed across slots: each texel channel sees only the line of its slot.

  /** The line at batch position k is drawn at (X, Y) in channel c only when k
      is the slot of (X, Y, c) and the line covers the tile-local texel. */
  lemma HitsSlot<T>(L: Layout, cover: (T, int, int) -> bool, lines: seq<Slotted<T>>, items: seq<T>, start: nat,
                    X: int, Y: int, c: int, k: int)
    requires L.Valid() && WellSlotted(lines, items, start, L.rx)
    requires 0 <= X < L.Width() && 0 <= Y && 0 <= c < 4 && 0 <= k < |lines|
    ensures Hits(L, cover, lines[k], X, Y, c) <==>
      k == SlotAt(L, X, Y, c) && cover(lines[k].item, X % L.w, Y % L.h)
  {
    TileBounds(L.w, L.rx, X);
    TileBounds(L.h, 1, Y);
    SlotRoundTrip(items[start + k], k, L.rx);
    if k == SlotAt(L, X, Y, c) {
      SlotPosDecodes(items[start + k], X / L.w, Y / L.h, c, L.rx);
    }
  }

  /** The lines buffer at a surface texel holds the line of that texel's slot. */
  lemma {:induction false} LinesCellSlot<T>(L: Layout, cover: (T, int, int) -> bool, lines: seq<Slotted<T>>, items: seq<T>,
                                            start: nat, X: int, Y: int, c: int)
    requires L.Valid() && WellSlotted(lines, items, start, L.rx)
    requires 0 <= X < L.Width() && 0 <= Y && 0 <= c < 4
    ensures SlotAt(L, X, Y, c) >= 0
    ensures var p := SlotAt(L, X, Y, c);
      LinesCell(L, cover, lines, X, Y, c) ==
        if p < |lines| then LocalLine(L.w, L.h, cover, lines[p].item, X % L.w, Y % L.h) else 0.0
  {
    TileBounds(L.w, L.rx, X);
    TileBounds(L.h, 1, Y);
    if |lines| > 0 {
      var m := |lines| - 1;
      var pre := lines[..m];
      assert WellSlotted(pre, items, start, L.rx);
      LinesCellSlot(L, cover, pre, items, start, X, Y, c);
      HitsSlot(L, cover, lines, items, start, X, Y, c, m);
    }
  }

  /** On one axis: the neighbour at offset d is in the same tile exactly when
      the tile-local coordinate plus d stays in [0, size). */
  lemma AxisLocal(size: nat, z: int, d: int)
    requires size >= 1 && z >= 0
    ensures (z + d >= 0 && z / size == (z + d) / size) <==> 0 <= z % size + d < size
    ensures (z + d >= 0 && z / size == (z + d) / size) ==> (z + d) % size == z % size + d
  {
    var t, x := z / size, z % size;
    assert z == t * size + x;
    if 0 <= x + d < size {
      DivMulAdd(t, size, x + d);
    }
    if z + d >= 0 && z / size == (z + d) / size {
      assert z + d == t * size + (z + d) % size;
    }
  }

  /** No bleed across tiles: a tap of the smoother reads the tile-local grid of
      the texel's own slot, and 0 outside it. */
  lemma TapSlot<T>(L: Layout, cover: (T, int, int) -> bool, lines: seq<Slotted<T>>, items: seq<T>, start: nat,
                   X: int, Y: int, c: int, dx: int, dy: int)
    requires L.Valid() && WellSlotted(lines, items, start, L.rx)
    requires 0 <= X < L.Width() && 0 <= Y && 0 <= c < 4
    ensures SlotAt(L, X, Y, c) >= 0
    ensures var p := SlotAt(L, X, Y, c);
      Tap(L, cover, lines, X, Y, c, dx, dy) ==
        if p < |lines| then LocalLine(L.w, L.h, cover, lines[p].item, X % L.w + dx, Y % L.h + dy) else 0.0
  {
    LinesCellSlot(L, cover, lines, items, start, X, Y, c);
    AxisLocal(L.w, X, dx);
    AxisLocal(L.h, Y, dy);
    if SameTile(L, X, Y, dx, dy) {
      TileBounds(L.w, L.rx, X);
      TileBounds(L.w, L.rx, X + dx);
      LinesCellSlot(L, cover, lines, items, start, X + dx, Y + dy, c);
    }
  }

  /** Every tap the smoother counts lies inside the surface. */
  lemma TapInside(L: Layout, X: int, Y: int, dx: int, dy: int)
    requires L.Valid() && 0 <= X < L.Width() && 0 <= Y < L.Height()
    ensures SameTile(L, X, Y, dx, dy) ==> 0 <= X + dx < L.Width() && 0 <= Y + dy < L.Height()
  {
    if SameTile(L, X, Y, dx, dy) {
      TileBounds(L.w, L.rx, X);
      TileBounds(L.w, L.rx, X + dx);
      TileBounds(L.h, L.ry, Y);
      TileBounds(L.h, L.ry, Y + dy);
    }
  }

  lemma SmoothExt(kernel: seq<seq<real>>, a: (int, int) -> real, b: (int, int) -> real)
    requires forall dx, dy :: a(dx, dy) == b(dx, dy)
    ensures Smooth(kernel, a) == Smooth(kernel, b)
  {
    var o := (|kernel| - 1) / 2;
    forall r | 0 <= r < |kernel|
      ensures KernelRow(kernel, a, r) == KernelRow(kernel, b, r)
    {
      SumExt(0, |kernel|, col => a(o - col, r - o) * Weight(kernel, r, col),
                          col => b(o - col, r - o) * Weight(kernel, r, col));
    }
    SumExt(0, |kernel|, r => KernelRow(kernel, a, r), r => KernelRow(kernel, b, r));
  }

  lemma SmoothZero(kernel: seq<seq<real>>, a: (int, int) -> real)
    requires forall dx, dy :: a(dx, dy) == 0.0
    ensures Smooth(kernel, a) == 0.0
  {
    var o := (|kernel| - 1) / 2;
    forall r | 0 <= r < |kernel|
      ensures KernelRow(kernel, a, r) == 0.0
    {
      SumZero(0, |kernel|, col => a(o - col, r - o) * Weight(kernel, r, col));
    }
    SumZero(0, |kernel|, r => KernelRow(kernel, a, r));
  }

  /** The gaussian buffer at a surface texel is the smoothed grid of its slot's line. */
  lemma GaussianSlot<T>(L: Layout, S: Smoothing, cover: (T, int, int) -> bool, lines: seq<Slotted<T>>, items: seq<T>,
                        start: nat, X: int, Y: int, c: int)
    requires L.Valid() && WellSlotted(lines, items, start, L.rx)
    requires 0 <= X < L.Width() && 0 <= Y && 0 <= c < 4
    ensures SlotAt(L, X, Y, c) >= 0
    ensures var p := SlotAt(L, X, Y, c);
      GaussianCell(L, S, cover, lines, X, Y, c) ==
        if p < |lines| then LocalGauss(L.w, L.h, S, cover, lines[p].item, X % L.w, Y % L.h) else 0.0
  {
    LinesCellSlot(L, cover, lines, items, start, X, Y, c);
    var p := SlotAt(L, X, Y, c);
    forall dx, dy
      ensures Tap(L, cover, lines, X, Y, c, dx, dy) ==
        if p < |lines| then LocalLine(L.w, L.h, cover, lines[p].item, X % L.w + dx, Y % L.h + dy) else 0.0
    {
      TapSlot(L, cover, lines, items, start, X, Y, c, dx, dy);
    }
    if p < |lines| {
      var item := lines[p].item;
      var x, y := X % L.w, Y % L.h;
      SmoothExt(S.kernel, (dx, dy) => Tap(L, cover, lines, X, Y, c, dx, dy),
                          (dx, dy) => LocalLine(L.w, L.h, cover, item, x + dx, y + dy));
    } else {
      SmoothZero(S.kernel, (dx, dy) => Tap(L, cover, lines, X, Y, c, dx, dy));
    }
  }

  /** The column sum at a surface texel is the column mass of its slot's line. */
  lemma ColumnSumSlot<T>(L: Layout, S: Smoothing, cover: (T, int, int) -> bool, lines: seq<Slotted<T>>, items: seq<T>,
                         start: nat, X: int, Y: int, c: int)
    requires L.Valid() && WellSlotted(lines, items, start, L.rx)
    requires 0 <= X < L.Width() && 0 <= Y && 0 <= c < 4
    ensures SlotAt(L, X, Y, c) >= 0
    ensures var p := SlotAt(L, X, Y, c);
      ColumnSum(L, S, cover, lines, X, Y / L.h, c) ==
        if p < |lines| then LocalColumn(L.w, L.h, S, cover, lines[p].item, X % L.w) else 0.0
  {
    LinesCellSlot(L, cover, lines, items, start, X, Y, c);
    var p := SlotAt(L, X, Y, c);
    var r := Y / L.h;
    TileBounds(L.h, 1, Y);
    forall j | 0 <= j < L.h
      ensures RowOfTile(L, S, cover, lines, X, r, c, j) ==
        if p < |lines| then LocalGauss(L.w, L.h, S, cover, lines[p].item, X % L.w, j) else 0.0
    {
      RowOfTileSlot(L, S, cover, lines, items, start, X, Y, c, j);
    }
    SumExt(0, L.h, j => GaussianCell(L, S, cover, lines, X, r * L.h + j, c),
                   j => RowOfTile(L, S, cover, lines, X, r, c, j));
    if p < |lines| {
      var item := lines[p].item;
      var x := X % L.w;
      SumExt(0, L.h, j => RowOfTile(L, S, cover, lines, X, r, c, j),
                     j => LocalGauss(L.w, L.h, S, cover, item, x, j));
    } else {
      SumZero(0, L.h, j => RowOfTile(L, S, cover, lines, X, r, c, j));
    }
  }

  /** Row j of the tile holding surface texel (X, Y) belongs to the same slot. */
  lemma RowOfTileSlot<T>(L: Layout, S: Smoothing, cover: (T, int, int) -> bool, lines: seq<Slotted<T>>, items: seq<T>,
                         start: nat, X: int, Y: int, c: int, j: int)
    requires L.Valid() && WellSlotted(lines, items, start, L.rx)
    requires 0 <= X < L.Width() && 0 <= Y && 0 <= c < 4 && 0 <= j < L.h
    ensures SlotAt(L, X, Y, c) >= 0
    ensures var p := SlotAt(L, X, Y, c);
      RowOfTile(L, S, cover, lines, X, Y / L.h, c, j) ==
        if p < |lines| then LocalGauss(L.w, L.h, S, cover, lines[p].item, X % L.w, j) else 0.0
  {
    LinesCellSlot(L, cover, lines, items, start, X, Y, c);
    var r := Y / L.h;
    TileBounds(L.h, 1, Y);
    DivMulAdd(r, L.h, j);
    assert SlotAt(L, X, r * L.h + j, c) == SlotAt(L, X, Y, c);
    GaussianSlot(L, S, cover, lines, items, start, X, r * L.h + j, c);
  }

  /** Texel row j of tile row r of the gaussian buffer, at surface column X. */
  function RowOfTile<T>(L: Layout, S: Smoothing, cover: (T, int, int) -> bool, lines: seq<Slotted<T>>, X: int, r: int, c: int, j: int): real
    requires L.Valid()
  {
    GaussianCell(L, S, cover, lines, X, r * L.h + j, c)
  }

  /** Column i of the tile of surface column X, summed over tile row r. */
  function ColumnOfTile<T>(L: Layout, S: Smoothing, cover: (T, int, int) -> bool, lines: seq<Slotted<T>>, X: int, r: int, c: int, i: int): real
    requires L.Valid()
  {
    ColumnSum(L, S, cover, lines, (X / L.w) * L.w + i, r, c)
  }

  /** The sums texel of a surface texel is the column or grid mass of its slot's line. */
  lemma RawSumSlot<T>(L: Layout, S: Smoothing, cover: (T, int, int) -> bool, lines: seq<Slotted<T>>, items: seq<T>,
                      start: nat, X: int, Y: int, c: int)
    requires L.Valid() && WellSlotted(lines, items, start, L.rx)
    requires 0 <= X < L.Width() && 0 <= Y && 0 <= c < 4
    ensures SlotAt(L, X, Y, c) >= 0
    ensures var p := SlotAt(L, X, Y, c);
      RawSum(L, S, cover, lines, X, Y / L.h, c) ==
        if p < |lines| then LocalRaw(L.w, L.h, S, cover, lines[p].item, X % L.w) else 0.0
  {
    ColumnSumSlot(L, S, cover, lines, items, start, X, Y, c);
    var p := SlotAt(L, X, Y, c);
    if S.doNormalize == 2 {
      var X0 := (X / L.w) * L.w;
      TileBounds(L.w, L.rx, X);
      forall i | 0 <= i < L.w
        ensures ColumnOfTile(L, S, cover, lines, X, Y / L.h, c, i) ==
          if p < |lines| then LocalColumn(L.w, L.h, S, cover, lines[p].item, i) else 0.0
      {
        DivMulAdd(X / L.w, L.w, i);
        assert SlotAt(L, X0 + i, Y, c) == p;
        TileBounds(L.w, L.rx, X0 + i);
        ColumnSumSlot(L, S, cover, lines, items, start, X0 + i, Y, c);
      }
      SumExt(0, L.w, i => ColumnSum(L, S, cover, lines, (X / L.w) * L.w + i, Y / L.h, c),
                     i => ColumnOfTile(L, S, cover, lines, X, Y / L.h, c, i));
      if p < |lines| {
        var item := lines[p].item;
        SumExt(0, L.w, i => ColumnOfTile(L, S, cover, lines, X, Y / L.h, c, i),
                       i => LocalColumn(L.w, L.h, S, cover, item, i));
      } else {
        SumZero(0, L.w, i => ColumnOfTile(L, S, cover, lines, X, Y / L.h, c, i));
      }
    }
  }

  /** What one batch adds to resultBuffer at a surface texel is the density of
      the line in that texel's slot, or 0 for an unused slot. */
  lemma NormalizedSlot<T>(L: Layout, S: Smoothing, cover: (T, int, int) -> bool, lines: seq<Slotted<T>>, items: seq<T>,
                          start: nat, X: int, Y: int, c: int)
    requires L.Valid() && WellSlotted(lines, items, start, L.rx)
    requires 0 <= X < L.Width() && 0 <= Y && 0 <= c < 4
    ensures SlotAt(L, X, Y, c) >= 0
    ensures var p := SlotAt(L, X, Y, c);
      NormalizedCell(L, S, cover, lines, X, Y, c) ==
        if p < |lines| then LineDensity(L.w, L.h, S, cover, lines[p].item, X % L.w, Y % L.h) else 0.0
  {
    GaussianSlot(L, S, cover, lines, items, start, X, Y, c);
    RawSumSlot(L, S, cover, lines, items, start, X, Y, c);
  }

  // ---------------------------------------------------------------------
  // Merging: tiles and channels fold back into one W x H grid.

  /** Row i of the horizontally merged resultBuffer at heat texel (x, y), channel c. */
  function MergeRow(L: Layout, result: seq<real>, x: int, y: int, c: int, i: int): real
  {
    MergeHCell(L, result, x, i * L.h + y, c)
  }

  function MergedChannel(L: Layout, result: seq<real>, x: int, y: int, c: int): real
  {
    Sum(0, L.ry, i => MergeRow(L, result, x, y, c, i))
  }

  /** Both merge passes applied to resultBuffer: the heat texel (x, y). */
  function Merged(L: Layout, result: seq<real>, x: int, y: int): real
  {
    Sum(0, 4, c => MergedChannel(L, result, x, y, c))
  }

  /** The same fold applied to one batch's normalised output. */
  function BatchCell<T>(L: Layout, S: Smoothing, cover: (T, int, int) -> bool, lines: seq<Slotted<T>>, x: int, y: int, c: int, i: int, t: int): real
    requires L.Valid()
  {
    NormalizedCell(L, S, cover, lines, t * L.w + x, i * L.h + y, c)
  }

  function BatchRow<T>(L: Layout, S: Smoothing, cover: (T, int, int) -> bool, lines: seq<Slotted<T>>, x: int, y: int, c: int, i: int): real
    requires L.Valid()
  {
    Sum(0, L.rx, t => BatchCell(L, S, cover, lines, x, y, c, i, t))
  }

  function BatchChannel<T>(L: Layout, S: Smoothing, cover: (T, int, int) -> bool, lines: seq<Slotted<T>>, x: int, y: int, c: int): real
    requires L.Valid()
  {
    Sum(0, L.ry, i => BatchRow(L, S, cover, lines, x, y, c, i))
  }

  function BatchFold<T>(L: Layout, S: Smoothing, cover: (T, int, int) -> bool, lines: seq<Slotted<T>>, x: int, y: int): real
    requires L.Valid()
  {
    Sum(0, 4, c => BatchChannel(L, S, cover, lines, x, y, c))
  }

  /** The density of the line at batch position p at heat texel (x, y); 0 for an unused position. */
  function SlotDensity<T>(L: Layout, S: Smoothing, cover: (T, int, int) -> bool, lines: seq<Slotted<T>>, x: int, y: int, p: int): real
  {
    if 0 <= p < |lines| then LineDensity(L.w, L.h, S, cover, lines[p].item, x, y) else 0.0
  }

  function SlotTerm<T>(L: Layout, S: Smoothing, cover: (T, int, int) -> bool, lines: seq<Slotted<T>>, x: int, y: int, c: int, i: int, t: int): real
  {
    SlotDensity(L, S, cover, lines, x, y, SlotPos(t, i, c, L.rx))
  }

  /** A texel of tile (t, i) of the surface, in tile-local coordinates (x, y). */
  lemma TileTexelCoords(L: Layout, x: int, y: int, t: int, i: int)
    requires L.Valid() && 0 <= x < L.w && 0 <= y < L.h && 0 <= t < L.rx && 0 <= i < L.ry
    ensures 0 <= t * L.w + x < L.Width() && 0 <= i * L.h + y < L.Height()
    ensures (t * L.w + x) / L.w == t && (t * L.w + x) % L.w == x
    ensures (i * L.h + y) / L.h == i && (i * L.h + y) % L.h == y
  {
    DivMulAdd(t, L.w, x);
    DivMulAdd(i, L.h, y);
    MulLe(L.w, t + 1, L.rx);
    MulLe(L.h, i + 1, L.ry);
  }

  lemma BatchRowSlots<T>(L: Layout, S: Smoothing, cover: (T, int, int) -> bool, lines: seq<Slotted<T>>, items: seq<T>,
                         start: nat, x: int, y: int, c: int, i: int)
    requires L.Valid() && WellSlotted(lines, items, start, L.rx)
    requires 0 <= x < L.w && 0 <= y < L.h && 0 <= c < 4 && 0 <= i < L.ry
    ensures BatchRow(L, S, cover, lines, x, y, c, i) == Sum(0, L.rx, t => SlotTerm(L, S, cover, lines, x, y, c, i, t))
  {
    forall t | 0 <= t < L.rx
      ensures BatchCell(L, S, cover, lines, x, y, c, i, t) == SlotTerm(L, S, cover, lines, x, y, c, i, t)
    {
      BatchCellSlot(L, S, cover, lines, items, start, x, y, c, i, t);
    }
    SumExt(0, L.rx, t => BatchCell(L, S, cover, lines, x, y, c, i, t), t => SlotTerm(L, S, cover, lines, x, y, c, i, t));
  }

  /** Texel (x, y) of tile (t, i) holds the density of the line at that tile's slot. */
  lemma BatchCellSlot<T>(L: Layout, S: Smoothing, cover: (T, int, int) -> bool, lines: seq<Slotted<T>>, items: seq<T>,
                         start: nat, x: int, y: int, c: int, i: int, t: int)
    requires L.Valid() && WellSlotted(lines, items, start, L.rx)
    requires 0 <= x < L.w && 0 <= y < L.h && 0 <= c < 4 && 0 <= i < L.ry && 0 <= t < L.rx
    ensures BatchCell(L, S, cover, lines, x, y, c, i, t) == SlotTerm(L, S, cover, lines, x, y, c, i, t)
  {
    TileTexelCoords(L, x, y, t, i);
    NormalizedSlot(L, S, cover, lines, items, start, t * L.w + x, i * L.h + y, c);
  }

  /** The four channels of tile row i, summed over tile columns. */
  function TileRowFold<T>(L: Layout, S: Smoothing, cover: (T, int, int) -> bool, lines: seq<Slotted<T>>, x: int, y: int, i: int): real
    requires L.Valid()
  {
    Sum(0, 4, c => BatchRow(L, S, cover, lines, x, y, c, i))
  }

  /** Tile row i holds batch positions [i * 4 * repeatsX, (i + 1) * 4 * repeatsX). */
  lemma TileRowSlots<T>(L: Layout, S: Smoothing, cover: (T, int, int) -> bool, lines: seq<Slotted<T>>, items: seq<T>,
                        start: nat, x: int, y: int, i: int)
    requires L.Valid() && WellSlotted(lines, items, start, L.rx)
    requires 0 <= x < L.w && 0 <= y < L.h && 0 <= i < L.ry
    ensures TileRowFold(L, S, cover, lines, x, y, i) ==
      Sum(i * (4 * L.rx), i * (4 * L.rx) + L.rx * 4, p => SlotDensity(L, S, cover, lines, x, y, p))
  {
    RowChannelsSlots(L, S, cover, lines, items, start, x, y, i);
    RowInterleaved(L, S, cover, lines, x, y, i);
  }

  /** The interleaving step of TileRowSlots, from its four channel sums. */
  lemma RowInterleaved<T>(L: Layout, S: Smoothing, cover: (T, int, int) -> bool, lines: seq<Slotted<T>>, x: int, y: int, i: int)
    requires L.Valid()
    requires forall c :: 0 <= c < 4 ==>
      BatchRow(L, S, cover, lines, x, y, c, i) == Sum(0, L.rx, t => SlotTerm(L, S, cover, lines, x, y, c, i, t))
    ensures TileRowFold(L, S, cover, lines, x, y, i) ==
      Sum(i * (4 * L.rx), i * (4 * L.rx) + L.rx * 4, p => SlotDensity(L, S, cover, lines, x, y, p))
  {
    var base := i * (4 * L.rx);
    var f := p => SlotDensity(L, S, cover, lines, x, y, p);
    var F := c => t => SlotTerm(L, S, cover, lines, x, y, c, i, t);
    var R := c => BatchRow(L, S, cover, lines, x, y, c, i);
    RowTermsAtSlots(L, S, cover, lines, x, y, i);
    SumInterleaved(base, L.rx, 4, f, F, R);
  }

  lemma RowChannelsSlots<T>(L: Layout, S: Smoothing, cover: (T, int, int) -> bool, lines: seq<Slotted<T>>, items: seq<T>,
                            start: nat, x: int, y: int, i: int)
    requires L.Valid() && WellSlotted(lines, items, start, L.rx)
    requires 0 <= x < L.w && 0 <= y < L.h && 0 <= i < L.ry
    ensures forall c :: 0 <= c < 4 ==>
      BatchRow(L, S, cover, lines, x, y, c, i) == Sum(0, L.rx, t => SlotTerm(L, S, cover, lines, x, y, c, i, t))
  {
    forall c | 0 <= c < 4
      ensures BatchRow(L, S, cover, lines, x, y, c, i) == Sum(0, L.rx, t => SlotTerm(L, S, cover, lines, x, y, c, i, t))
    {
      BatchRowSlots(L, S, cover, lines, items, start, x, y, c, i);
    }
  }

  /** Channel c of tile column t in tile row i is batch position i * 4 * repeatsX + 4 * t + c. */
  lemma RowTermsAtSlots<T>(L: Layout, S: Smoothing, cover: (T, int, int) -> bool, lines: seq<Slotted<T>>, x: int, y: int, i: int)
    ensures forall c, t :: 0 <= c < 4 && 0 <= t < L.rx ==>
      SlotTerm(L, S, cover, lines, x, y, c, i, t) == SlotDensity(L, S, cover, lines, x, y, i * (4 * L.rx) + t * 4 + c)
  {
  }

  /** Folding channels first or tile rows first gives the same batch fold. */
  lemma BatchFoldByRows<T>(L: Layout, S: Smoothing, cover: (T, int, int) -> bool, lines: seq<Slotted<T>>, x: int, y: int)
    requires L.Valid()
    ensures BatchFold(L, S, cover, lines, x, y) == Sum(0, L.ry, i => TileRowFold(L, S, cover, lines, x, y, i))
  {
    SumSwap(4, L.ry, c => i => BatchRow(L, S, cover, lines, x, y, c, i),
      i => c => BatchRow(L, S, cover, lines, x, y, c, i),
      c => BatchChannel(L, S, cover, lines, x, y, c),
      i => TileRowFold(L, S, cover, lines, x, y, i));
  }

  /** The tile rows of a batch, one block of positions each, cover all batch positions. */
  lemma RowsCoverSlots<T>(L: Layout, S: Smoothing, cover: (T, int, int) -> bool, lines: seq<Slotted<T>>, items: seq<T>,
                          start: nat, x: int, y: int)
    requires L.Valid() && WellSlotted(lines, items, start, L.rx)
    requires 0 <= x < L.w && 0 <= y < L.h
    ensures Sum(0, L.ry, i => TileRowFold(L, S, cover, lines, x, y, i))
         == Sum(0, 4 * L.rx * L.ry, p => SlotDensity(L, S, cover, lines, x, y, p))
  {
    var m := 4 * L.rx;
    forall i | 0 <= i < L.ry
      ensures TileRowFold(L, S, cover, lines, x, y, i) == Sum(0 + i * m, 0 + i * m + m, p => SlotDensity(L, S, cover, lines, x, y, p))
    {
      TileRowSlots(L, S, cover, lines, items, start, x, y, i);
      assert 0 + i * m == i * (4 * L.rx) && 0 + i * m + m == i * (4 * L.rx) + L.rx * 4;
    }
    SumBlocks(0, L.ry, m, p => SlotDensity(L, S, cover, lines, x, y, p), i => TileRowFold(L, S, cover, lines, x, y, i));
    assert 0 + L.ry * m == 4 * L.rx * L.ry;
  }

  /** Folding one batch's normalised output over tiles and channels visits every
      batch position once. */
  lemma BatchFoldSlots<T>(L: Layout, S: Smoothing, cover: (T, int, int) -> bool, lines: seq<Slotted<T>>, items: seq<T>,
                          start: nat, x: int, y: int)
    requires L.Valid() && WellSlotted(lines, items, start, L.rx)
    requires 0 <= x < L.w && 0 <= y < L.h
    ensures BatchFold(L, S, cover, lines, x, y) == Sum(0, 4 * L.rx * L.ry, p => SlotDensity(L, S, cover, lines, x, y, p))
  {
    BatchFoldByRows(L, S, cover, lines, x, y);
    RowsCoverSlots(L, S, cover, lines, items, start, x, y);
  }

  /** Unused batch positions contribute nothing: the positions sum to the
      densities of the batch's lines. */
  lemma SlotDensitySum<T>(L: Layout, S: Smoothing, cover: (T, int, int) -> bool, lines: seq<Slotted<T>>, x: int, y: int, size: nat)
    requires |lines| <= size
    ensures Sum(0, size, p => SlotDensity(L, S, cover, lines, x, y, p)) == Heat(L.w, L.h, S, cover, Items(lines), x, y)
  {
    var D := p => SlotDensity(L, S, cover, lines, x, y, p);
    SumSplit(0, |lines|, size, D);
    SumZero(|lines|, size, D);
    var f := item => LineDensity(L.w, L.h, S, cover, item, x, y);
    SeqSumAsSum(Items(lines), f, D);
  }

  /** Folding one batch's normalised output over tiles and channels gives the
      sum of the densities of the batch's lines: each line counted once. */
  lemma BatchFoldIsDensity<T>(L: Layout, S: Smoothing, cover: (T, int, int) -> bool, lines: seq<Slotted<T>>, items: seq<T>,
                              start: nat, x: int, y: int)
    requires L.Valid() && WellSlotted(lines, items, start, L.rx) && |lines| <= 4 * L.rx * L.ry
    requires 0 <= x < L.w && 0 <= y < L.h
    ensures BatchFold(L, S, cover, lines, x, y) == Heat(L.w, L.h, S, cover, Items(lines), x, y)
  {
    BatchFoldSlots(L, S, cover, lines, items, start, x, y);
    SlotDensitySum(L, S, cover, lines, x, y, 4 * L.rx * L.ry);
  }

  /** Additive blending: when resultBuffer grows by a batch's normalised output
      texel by texel, the merged heat grows by that batch's fold. */
  lemma MergedStep<T>(L: Layout, S: Smoothing, cover: (T, int, int) -> bool, lines: seq<Slotted<T>>,
                      before: seq<real>, after: seq<real>, x: int, y: int)
    requires L.Valid() && |before| == |after| == L.Width() * L.Height() * 4
    requires forall X, Y, c :: 0 <= X < L.Width() && 0 <= Y < L.Height() && 0 <= c < 4 ==>
      At(after, Index4(L.Width(), X, Y, c)) == At(before, Index4(L.Width(), X, Y, c)) + NormalizedCell(L, S, cover, lines, X, Y, c)
    requires 0 <= x < L.w && 0 <= y < L.h
    ensures Merged(L, after, x, y) == Merged(L, before, x, y) + BatchFold(L, S, cover, lines, x, y)
  {
    forall c | 0 <= c < 4
      ensures MergedChannel(L, after, x, y, c) == MergedChannel(L, before, x, y, c) + BatchChannel(L, S, cover, lines, x, y, c)
    {
      MergedChannelStep(L, S, cover, lines, before, after, x, y, c);
    }
    SumAdd(0, 4, c => MergedChannel(L, before, x, y, c), c => BatchChannel(L, S, cover, lines, x, y, c),
                 c => MergedChannel(L, after, x, y, c));
  }

  /** One channel of MergedStep. */
  lemma MergedChannelStep<T>(L: Layout, S: Smoothing, cover: (T, int, int) -> bool, lines: seq<Slotted<T>>,
                             before: seq<real>, after: seq<real>, x: int, y: int, c: int)
    requires L.Valid() && |before| == |after| == L.Width() * L.Height() * 4
    requires forall X, Y, c :: 0 <= X < L.Width() && 0 <= Y < L.Height() && 0 <= c < 4 ==>
      At(after, Index4(L.Width(), X, Y, c)) == At(before, Index4(L.Width(), X, Y, c)) + NormalizedCell(L, S, cover, lines, X, Y, c)
    requires 0 <= x < L.w && 0 <= y < L.h
    requires 0 <= c < 4
    ensures MergedChannel(L, after, x, y, c) == MergedChannel(L, before, x, y, c) + BatchChannel(L, S, cover, lines, x, y, c)
  {
    forall i | 0 <= i < L.ry
      ensures MergeRow(L, after, x, y, c, i) == MergeRow(L, before, x, y, c, i) + BatchRow(L, S, cover, lines, x, y, c, i)
    {
      MergeRowStep(L, S, cover, lines, before, after, x, y, c, i);
    }
    SumAdd(0, L.ry, i => MergeRow(L, before, x, y, c, i), i => BatchRow(L, S, cover, lines, x, y, c, i),
                    i => MergeRow(L, after, x, y, c, i));
  }

  /** One tile row of one channel of MergedStep. */
  lemma MergeRowStep<T>(L: Layout, S: Smoothing, cover: (T, int, int) -> bool, lines: seq<Slotted<T>>,
                        before: seq<real>, after: seq<real>, x: int, y: int, c: int, i: int)
    requires L.Valid() && |before| == |after| == L.Width() * L.Height() * 4
    requires forall X, Y, c :: 0 <= X < L.Width() && 0 <= Y < L.Height() && 0 <= c < 4 ==>
      At(after, Index4(L.Width(), X, Y, c)) == At(before, Index4(L.Width(), X, Y, c)) + NormalizedCell(L, S, cover, lines, X, Y, c)
    requires 0 <= x < L.w && 0 <= y < L.h
    requires 0 <= c < 4 && 0 <= i < L.ry
    ensures MergeRow(L, after, x, y, c, i) == MergeRow(L, before, x, y, c, i) + BatchRow(L, S, cover, lines, x, y, c, i)
  {
    forall t | 0 <= t < L.rx
      ensures At(after, Index4(L.Width(), t * L.w + x, i * L.h + y, c))
           == At(before, Index4(L.Width(), t * L.w + x, i * L.h + y, c)) + BatchCell(L, S, cover, lines, x, y, c, i, t)
    {
      MergeCellStep(L, S, cover, lines, before, after, x, y, c, i, t);
    }
    SumAdd(0, L.rx, t => At(before, Index4(L.Width(), t * L.w + x, i * L.h + y, c)),
                    t => BatchCell(L, S, cover, lines, x, y, c, i, t),
                    t => At(after, Index4(L.Width(), t * L.w + x, i * L.h + y, c)));
  }

  /** One texel of one tile row of MergedStep. */
  lemma MergeCellStep<T>(L: Layout, S: Smoothing, cover: (T, int, int) -> bool, lines: seq<Slotted<T>>,
                         before: seq<real>, after: seq<real>, x: int, y: int, c: int, i: int, t: int)
    requires L.Valid() && |before| == |after| == L.Width() * L.Height() * 4
    requires forall X, Y, c :: 0 <= X < L.Width() && 0 <= Y < L.Height() && 0 <= c < 4 ==>
      At(after, Index4(L.Width(), X, Y, c)) == At(before, Index4(L.Width(), X, Y, c)) + NormalizedCell(L, S, cover, lines, X, Y, c)
    requires 0 <= x < L.w && 0 <= y < L.h
    requires 0 <= c < 4 && 0 <= i < L.ry && 0 <= t < L.rx
    ensures At(after, Index4(L.Width(), t * L.w + x, i * L.h + y, c))
         == At(before, Index4(L.Width(), t * L.w + x, i * L.h + y, c)) + BatchCell(L, S, cover, lines, x, y, c, i, t)
  {
    TileTexelInside(L, x, y, t, i);
  }

  lemma TileTexelInside(L: Layout, x: int, y: int, t: int, i: int)
    requires L.Valid() && 0 <= x < L.w && 0 <= y < L.h && 0 <= t < L.rx && 0 <= i < L.ry
    ensures 0 <= t * L.w + x < L.Width() && 0 <= i * L.h + y < L.Height()
  {
    MulLe(L.w, t + 1, L.rx);
    MulLe(L.h, i + 1, L.ry);
  }

  /** A cleared resultBuffer merges to 0. */
  lemma MergedZero(L: Layout, result: seq<real>, x: int, y: int)
    requires forall i :: 0 <= i < |result| ==> result[i] == 0.0
    ensures Merged(L, result, x, y) == 0.0
  {
    forall c | 0 <= c < 4
      ensures MergedChannel(L, result, x, y, c) == 0.0
    {
      forall i | 0 <= i < L.ry
        ensures MergeRow(L, result, x, y, c, i) == 0.0
      {
        SumZero(0, L.rx, t => At(result, Index4(L.Width(), t * L.w + x, i * L.h + y, c)));
      }
      SumZero(0, L.ry, i => MergeRow(L, result, x, y, c, i));
    }
    SumZero(0, 4, c => MergedChannel(L, result, x, y, c));
  }

  /** The vertical pass over a correctly merged preMergedBuffer yields Merged. */
  lemma MergeVOfMergeH(L: Layout, result: seq<real>, preMerged: seq<real>, x: int, y: int)
    requires L.Valid() && |preMerged| == L.w * L.Height() * 4
    requires forall X, Y, c :: 0 <= X < L.w && 0 <= Y < L.Height() && 0 <= c < 4 ==>
      At(preMerged, Index4(L.w, X, Y, c)) == MergeHCell(L, result, X, Y, c)
    requires 0 <= x < L.w && 0 <= y < L.h
    ensures MergeVCell(L, preMerged, x, y) == Merged(L, result, x, y)
  {
    forall c | 0 <= c < 4
      ensures Sum(0, L.ry, i => At(preMerged, Index4(L.w, x, i * L.h + y, c))) == MergedChannel(L, result, x, y, c)
    {
      forall i | 0 <= i < L.ry
        ensures At(preMerged, Index4(L.w, x, i * L.h + y, c)) == MergeRow(L, result, x, y, c, i)
      {
        TileTexelCoords(L, x, y, 0, i);
        Index4Encode(L.w, L.Height(), x, i * L.h + y, c);
      }
      SumExt(0, L.ry, i => At(preMerged, Index4(L.w, x, i * L.h + y, c)), i => MergeRow(L, result, x, y, c, i));
    }
    SumExt(0, 4, c => Sum(0, L.ry, i => At(preMerged, Index4(L.w, x, i * L.h + y, c))),
                 c => MergedChannel(L, result, x, y, c));
  }

  // ---------------------------------------------------------------------
  // Properties of the density itself

  /** Every kernel entry is non-negative. */
  ghost predicate NonnegKernel(kernel: seq<seq<real>>)
  {
    forall r, col :: 0 <= r < |kernel| && 0 <= col < |kernel[r]| ==> kernel[r][col] >= 0.0
  }

  lemma ProductNonneg(a: real, b: real)
    requires a >= 0.0 && b >= 0.0
    ensures a * b >= 0.0
  {
  }

  /** A non-negative kernel over non-negative taps smooths to a non-negative value. */
  lemma SmoothNonneg(kernel: seq<seq<real>>, tap: (int, int) -> real)
    requires NonnegKernel(kernel) && forall dx, dy :: tap(dx, dy) >= 0.0
    ensures Smooth(kernel, tap) >= 0.0
  {
    var o := (|kernel| - 1) / 2;
    forall r | 0 <= r < |kernel|
      ensures KernelRow(kernel, tap, r) >= 0.0
    {
      forall col | 0 <= col < |kernel|
        ensures tap(o - col, r - o) * Weight(kernel, r, col) >= 0.0
      {
        ProductNonneg(tap(o - col, r - o), Weight(kernel, r, col));
      }
      SumNonneg(0, |kernel|, col => tap(o - col, r - o) * Weight(kernel, r, col));
    }
    SumNonneg(0, |kernel|, r => KernelRow(kernel, tap, r));
  }

  /** With a non-negative kernel no line contributes negative density. */
  lemma LineDensityNonneg<T>(w: nat, h: nat, S: Smoothing, cover: (T, int, int) -> bool, item: T, x: int, y: int)
    requires NonnegKernel(S.kernel)
    ensures LineDensity(w, h, S, cover, item, x, y) >= 0.0
  {
    var tap := (dx, dy) => LocalLine(w, h, cover, item, x + dx, y + dy);
    forall dx, dy
      ensures tap(dx, dy) >= 0.0
    {
      assert tap(dx, dy) == LocalLine(w, h, cover, item, x + dx, y + dy);
    }
    SmoothNonneg(S.kernel, tap);
  }

  /** ... so every heat texel is non-negative, and so is the maximum density. */
  lemma {:induction false} HeatNonneg<T>(w: nat, h: nat, S: Smoothing, cover: (T, int, int) -> bool, items: seq<T>, x: int, y: int)
    requires NonnegKernel(S.kernel)
    ensures Heat(w, h, S, cover, items, x, y) >= 0.0
    decreases |items|
  {
    if |items| > 0 {
      HeatNonneg(w, h, S, cover, items[..|items| - 1], x, y);
      LineDensityNonneg(w, h, S, cover, items[|items| - 1], x, y);
    }
  }

  /** `min(raw, 1)`. */
  function Capped(raw: real): (r: real)
    ensures r <= 1.0 && r <= raw && (r == raw || r == 1.0)
  {
    if raw < 1.0 then raw else 1.0
  }

  /** A sum divided by its own mass floored at 1 is min(mass, 1). */
  lemma ScaledMass(lo: int, hi: int, f: int -> real, g: int -> real, raw: real)
    requires Sum(lo, hi, f) == raw
    requires forall i :: lo <= i < hi ==> g(i) == f(i) / AtLeastOne(raw)
    ensures Sum(lo, hi, g) == Capped(raw)
  {
    SumDiv(lo, hi, AtLeastOne(raw), f, g);
  }

  /** With normalisation on, column x of one line's density is that column of
      its smoothed grid divided by the floored mass. */
  lemma ColumnOverRaw<T>(w: nat, h: nat, S: Smoothing, cover: (T, int, int) -> bool, item: T, x: int)
    requires S.doNormalize != 0
    ensures Sum(0, h, y => LineDensity(w, h, S, cover, item, x, y))
         == LocalColumn(w, h, S, cover, item, x) / AtLeastOne(LocalRaw(w, h, S, cover, item, x))
  {
    var a := AtLeastOne(LocalRaw(w, h, S, cover, item, x));
    SumDiv(0, h, a, j => LocalGauss(w, h, S, cover, item, x, j), y => LineDensity(w, h, S, cover, item, x, y));
  }

  /** Per-column normalisation: column x of one line's density has mass
      min(raw, 1), raw the mass of that column of its smoothed grid. */
  lemma ColumnMass<T>(w: nat, h: nat, S: Smoothing, cover: (T, int, int) -> bool, item: T, x: int)
    requires S.doNormalize != 0 && S.doNormalize != 2
    ensures Sum(0, h, y => LineDensity(w, h, S, cover, item, x, y)) == Capped(LocalColumn(w, h, S, cover, item, x))
  {
    ColumnOverRaw(w, h, S, cover, item, x);
  }

  /** Per-tile normalisation: one line's whole density grid has mass
      min(raw, 1), raw the mass of its smoothed grid. */
  lemma TileMass<T>(w: nat, h: nat, S: Smoothing, cover: (T, int, int) -> bool, item: T)
    requires S.doNormalize == 2
    ensures Sum(0, w, x => Sum(0, h, y => LineDensity(w, h, S, cover, item, x, y)))
         == Capped(Sum(0, w, i => LocalColumn(w, h, S, cover, item, i)))
  {
    var raw := Sum(0, w, i => LocalColumn(w, h, S, cover, item, i));
    forall x | 0 <= x < w
      ensures Sum(0, h, y => LineDensity(w, h, S, cover, item, x, y)) == LocalColumn(w, h, S, cover, item, x) / AtLeastOne(raw)
    {
      assert LocalRaw(w, h, S, cover, item, x) == raw;
      ColumnOverRaw(w, h, S, cover, item, x);
    }
    ScaledMass(0, w, i => LocalColumn(w, h, S, cover, item, i), x => Sum(0, h, y => LineDensity(w, h, S, cover, item, x, y)), raw);
  }

  /** Heat is additive over the lines drawn. */
  lemma HeatAppend<T>(w: nat, h: nat, S: Smoothing, cover: (T, int, int) -> bool, a: seq<T>, b: seq<T>, x: int, y: int)
    ensures Heat(w, h, S, cover, a + b, x, y) == Heat(w, h, S, cover, a, x, y) + Heat(w, h, S, cover, b, x, y)
  {
    SeqSumAppend(a, b, item => LineDensity(w, h, S, cover, item, x, y));
  }

  /** Batch-order independence: heat depends only on the multiset of lines drawn. */
  lemma HeatPermutation<T>(w: nat, h: nat, S: Smoothing, cover: (T, int, int) -> bool, a: seq<T>, b: seq<T>, x: int, y: int)
    requires multiset(a) == multiset(b)
    ensures Heat(w, h, S, cover, a, x, y) == Heat(w, h, S, cover, b, x, y)
  {
    SeqSumPermutation(a, b, item => LineDensity(w, h, S, cover, item, x, y));
  }
}
