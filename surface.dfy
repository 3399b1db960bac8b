/** The accumulation surface: `repeatsX * repeatsY` tiles of `W x H` texels,
    four channels per texel, and the texel lookup the shaders use. */
module Surface {
  import opened Arith

  /** Tile size (heatmapWidth, heatmapHeight) and tile repeats. */
  datatype Layout = Layout(w: nat, h: nat, rx: nat, ry: nat)
  {
    predicate Valid()
    {
      w >= 1 && h >= 1 && rx >= 1 && ry >= 1
    }

    /** reshapedWidth */
    function Width(): nat
    {
      w * rx
    }

    /** reshapedHeight */
    function Height(): nat
    {
      h * ry
    }
  }

  /** Offset of channel c of texel (x, y) in an RGBA buffer `width` texels wide. */
  function Index4(width: nat, x: int, y: int, c: int): int
  {
    (y * width + x) * 4 + c
  }

  /** Every offset of a `width x height` RGBA buffer is the offset of one texel channel. */
  lemma Index4Decode(width: nat, height: nat, i: int)
    requires width >= 1 && 0 <= i < width * height * 4
    ensures var x, y, c := (i / 4) % width, (i / 4) / width, i % 4;
      0 <= x < width && 0 <= y < height && 0 <= c < 4 && Index4(width, x, y, c) == i
  {
    var q := i / 4;
    assert i == q * 4 + i % 4;
    assert q == (q / width) * width + q % width;
    if q / width >= height {
      MulLe(width, height, q / width);
      MulLe(4, width * height, q);
    }
  }

  /** ... and the offset of a texel channel decodes back to it. */
  lemma Index4Encode(width: nat, height: nat, x: int, y: int, c: int)
    requires 0 <= x < width && 0 <= y < height && 0 <= c < 4
    ensures var i := Index4(width, x, y, c);
      0 <= i < width * height * 4 && (i / 4) % width == x && (i / 4) / width == y && i % 4 == c
  {
    var i := Index4(width, x, y, c);
    DivMulAdd(y * width + x, 4, c);
    DivMulAdd(y, width, x);
    MulLe(width, y + 1, height);
    assert y * width + x < width * height;
    MulLe(4, y * width + x + 1, width * height);
  }

  /** Texel k of a single-channel walk over a `width x height` grid. */
  lemma Index2Decode(width: nat, height: nat, k: int)
    requires width >= 1 && 0 <= k < width * height
    ensures 0 <= k % width < width && 0 <= k / width < height && (k / width) * width + k % width == k
  {
    if k / width >= height {
      MulLe(width, height, k / width);
    }
  }

  /** A non-negative coordinate lies inside `repeats` tiles of `size` texels
      exactly when its tile index is below `repeats`. */
  lemma TileBounds(size: nat, repeats: nat, z: int)
    requires size >= 1 && z >= 0
    ensures z < size * repeats <==> z / size < repeats
    ensures z == (z / size) * size + z % size && 0 <= z / size
  {
    var q := z / size;
    if q < repeats {
      MulLe(size, q + 1, repeats);
    } else {
      MulLe(size, repeats, q);
    }
  }

  /** Nearest-texel lookup with clamp-to-edge: the texel of a `size`-texel axis
      that `texture2D` returns for coordinate u. */
  function TexelIndex(u: real, size: nat): (t: int)
    requires size >= 1
    ensures 0 <= t < size
  {
    var f := (u * size as real).Floor;
    if f < 0 then 0 else if f >= size then size - 1 else f
  }

  /** Sampling at a texel's centre, as every full-screen pass does, reads that texel. */
  lemma TexelOfCenter(p: int, size: nat)
    requires 0 <= p < size
    ensures TexelIndex((p as real + 0.5) / size as real, size) == p
  {
    var s := size as real;
    assert (p as real + 0.5) / s * s == p as real + 0.5;
  }

  /** The sum pass reads `texelRowStart + (j + 0.5) / reshapedHeight` with
      `texelRowStart = floor(uv.y * repeatsY) / repeatsY` (and likewise for columns):
      texel `r * H + j` of tile r. */
  lemma TileStartTexel(h: nat, ry: nat, r: nat, j: nat)
    requires h >= 1 && r < ry && j < h
    ensures TexelIndex(r as real / ry as real + (j as real + 0.5) / (h * ry) as real, h * ry) == r * h + j
  {
    TileStartCoordinate(h, ry, r, j);
    MulLe(h, r + 1, ry);
    TexelOfCenter(r * h + j, h * ry);
  }

  lemma TileStartCoordinate(h: nat, ry: nat, r: nat, j: nat)
    requires h >= 1 && ry >= 1
    ensures r as real / ry as real + (j as real + 0.5) / (h * ry) as real == ((r * h + j) as real + 0.5) / (h * ry) as real
  {
    var H, R := h as real, ry as real;
    assert (h * ry) as real == H * R;
    assert (r * h) as real == r as real * H;
    OverCommon(r as real, H, R, j as real + 0.5);
  }

  lemma OverCommon(r: real, H: real, R: real, b: real)
    requires H > 0.0 && R > 0.0
    ensures r / R + b / (H * R) == (r * H + b) / (H * R)
  {
    assert r / R == (r * H) / (H * R);
  }

  lemma NestedQuotient(i: real, W: real, R: real, b: real)
    requires W > 0.0 && R > 0.0
    ensures (i + b / W) / R == (i * W + b) / (W * R)
  {
    assert i + b / W == (i * W + b) / W;
  }

  /** For surface row Y the sum pass's `floor(uv.y * repeatsY)` and the normalise
      pass's lookup in the `repeatsY`-high sums buffer both give tile row `Y / H`
      (and likewise for columns). */
  lemma TileOfCenter(h: nat, ry: nat, y: nat)
    requires h >= 1 && ry >= 1 && y < h * ry
    ensures TexelIndex((y as real + 0.5) / (h * ry) as real, ry) == y / h
  {
    TileRowFloor(h, ry, y);
    if y / h >= ry {
      MulLe(h, ry, y / h);
    }
  }

  /** Scaled back by repeatsY, the centre of surface row y has floor y / h. */
  lemma TileRowFloor(h: nat, ry: nat, y: nat)
    requires h >= 1 && ry >= 1
    ensures ((y as real + 0.5) / (h * ry) as real * ry as real).Floor == y / h
  {
    var H, R := h as real, ry as real;
    assert (y as real + 0.5) / (h * ry) as real * R == (y as real + 0.5) / H by {
      assert (h * ry) as real == H * R;
      CancelRight(y as real + 0.5, H, R);
    }
    CenterBetween(h, y);
    FloorBetween((y as real + 0.5) / H, y / h);
  }

  /** The floor of a value in [q, q + 1) is q. */
  lemma FloorBetween(v: real, q: int)
    requires q as real <= v < q as real + 1.0
    ensures v.Floor == q
  {
  }

  /** The centre of texel y lies in block y / h of h texels. */
  lemma CenterBetween(h: nat, y: nat)
    requires h >= 1
    ensures (y / h) as real <= (y as real + 0.5) / h as real < (y / h) as real + 1.0
  {
    var H, q := h as real, y / h;
    assert q * h <= y < (q + 1) * h;
    assert (q * h) as real == q as real * H && ((q + 1) * h) as real == (q as real + 1.0) * H;
    QuotientBounds(y as real + 0.5, H, q as real);
  }

  /** Scaling by R undoes the division by H * R down to a division by H. */
  lemma CancelRight(a: real, H: real, R: real)
    requires H > 0.0 && R > 0.0
    ensures a / (H * R) * R == a / H
  {
    var d := a / (H * R);
    assert d * (H * R) == a;
    assert (d * R) * H == a;
  }

  /** A value between q and q + 1 multiples of H has quotient between q and q + 1. */
  lemma QuotientBounds(a: real, H: real, q: real)
    requires H > 0.0 && q * H <= a < (q + 1.0) * H
    ensures q <= a / H < q + 1.0
  {
    var d := a / H;
    assert d * H == a;
    if d < q {
      ScaleStrict(d, q, H);
    }
    if d >= q + 1.0 {
      ScaleMono(q + 1.0, d, H);
    }
  }

  lemma ScaleStrict(x: real, y: real, H: real)
    requires H > 0.0 && x < y
    ensures x * H < y * H
  {
    assert (y - x) * H > 0.0;
  }

  lemma ScaleMono(x: real, y: real, H: real)
    requires H > 0.0 && x <= y
    ensures x * H <= y * H
  {
    assert (y - x) * H >= 0.0;
  }

  /** mergeBufferHorizontally reads `(i + uv.x) / repeatsX` of the wide buffer,
      mergeBufferVertically `(i + uv.y) / repeatsY` of the tall one: texel
      `i * W + x` of tile i. */
  lemma TileTexel(w: nat, rx: nat, i: nat, x: nat)
    requires w >= 1 && i < rx && x < w
    ensures TexelIndex((i as real + (x as real + 0.5) / w as real) / rx as real, w * rx) == i * w + x
  {
    TileTexelCoordinate(w, rx, i, x);
    MulLe(w, i + 1, rx);
    TexelOfCenter(i * w + x, w * rx);
  }

  lemma TileTexelCoordinate(w: nat, rx: nat, i: nat, x: nat)
    requires w >= 1 && rx >= 1
    ensures (i as real + (x as real + 0.5) / w as real) / rx as real == ((i * w + x) as real + 0.5) / (w * rx) as real
  {
    var W, R := w as real, rx as real;
    assert (w * rx) as real == W * R;
    assert (i * w) as real == i as real * W;
    NestedQuotient(i as real, W, R, x as real + 0.5);
  }
}
