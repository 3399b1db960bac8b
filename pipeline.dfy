/** The GPU passes of one heatmap computation as fragment loops over the
    persistent buffers: clear resultBuffer, then per batch the `sum` and
    additive `normalize` passes, then the two merge passes into heatBuffer. */
module Pipeline {
  import opened Sums
  import opened Arith
  import opened Surface
  import opened Batching
  import opened Passes
  import opened Density
  import opened Planner

  /** `regl.clear({color: [0, 0, 0, 0]})`. */
  method Clear(a: array<real>)
    modifies a
    ensures forall i :: 0 <= i < a.Length ==> a[i] == 0.0
  {
    for i := 0 to a.Length
      invariant forall k :: 0 <= k < i ==> a[k] == 0.0
    {
      a[i] := 0.0;
    }
  }

  /** One channel of one fragment of the `sum` shader: the loop over the
      column (or the tile's columns) of the gaussian buffer, floored at 1. */
  method SumFragment<T>(L: Layout, S: Smoothing, cover: (T, int, int) -> bool, lines: seq<Slotted<T>>, X: int, r: int, c: int)
    returns (s: real)
    requires L.Valid()
    ensures s == SumsCell(L, S, cover, lines, X, r, c)
  {
    var sum := 0.0;
    if S.doNormalize != 2 {
      for j := 0 to L.h
        invariant sum == Sum(0, j, j => GaussianCell(L, S, cover, lines, X, r * L.h + j, c))
      {
        SumLast(0, j + 1, j => GaussianCell(L, S, cover, lines, X, r * L.h + j, c));
        sum := sum + GaussianCell(L, S, cover, lines, X, r * L.h + j, c);
      }
    } else {
      var texelColumnStart := (X / L.w) * L.w;
      for i := 0 to L.w
        invariant sum == Sum(0, i, i => ColumnSum(L, S, cover, lines, (X / L.w) * L.w + i, r, c))
      {
        var column := 0.0;
        for j := 0 to L.h
          invariant column == Sum(0, j, j => GaussianCell(L, S, cover, lines, texelColumnStart + i, r * L.h + j, c))
        {
          SumLast(0, j + 1, j => GaussianCell(L, S, cover, lines, texelColumnStart + i, r * L.h + j, c));
          column := column + GaussianCell(L, S, cover, lines, texelColumnStart + i, r * L.h + j, c);
        }
        SumLast(0, i + 1, i => ColumnSum(L, S, cover, lines, (X / L.w) * L.w + i, r, c));
        sum := sum + column;
      }
    }
    s := AtLeastOne(sum);
  }

  /** The `sum` pass: every texel of the `reshapedWidth x repeatsY` sums buffer. */
  method SumPass<T>(L: Layout, S: Smoothing, cover: (T, int, int) -> bool, lines: seq<Slotted<T>>, sums: array<real>)
    requires L.Valid() && sums.Length == L.Width() * L.ry * 4
    modifies sums
    ensures forall X, r, c :: 0 <= X < L.Width() && 0 <= r < L.ry && 0 <= c < 4 ==>
      At(sums[..], Index4(L.Width(), X, r, c)) == SumsCell(L, S, cover, lines, X, r, c)
  {
    var W := L.Width();
    for i := 0 to sums.Length
      invariant forall k :: 0 <= k < i ==> sums[k] == SumsCell(L, S, cover, lines, (k / 4) % W, (k / 4) / W, k % 4)
    {
      var s := SumFragment(L, S, cover, lines, (i / 4) % W, (i / 4) / W, i % 4);
      sums[i] := s;
    }
    forall X, r, c | 0 <= X < W && 0 <= r < L.ry && 0 <= c < 4
      ensures At(sums[..], Index4(W, X, r, c)) == SumsCell(L, S, cover, lines, X, r, c)
    {
      Index4Encode(W, L.ry, X, r, c);
    }
  }

  /** The `normalize` pass with additive blending into resultBuffer: each
      texel gains the gaussian value, divided by its sums texel when
      doNormalize is non-zero. */
  method NormalizePass<T>(L: Layout, S: Smoothing, cover: (T, int, int) -> bool, lines: seq<Slotted<T>>,
                          sums: array<real>, result: array<real>)
    requires L.Valid() && sums != result
    requires sums.Length == L.Width() * L.ry * 4 && result.Length == L.Width() * L.Height() * 4
    requires forall X, r, c :: 0 <= X < L.Width() && 0 <= r < L.ry && 0 <= c < 4 ==>
      At(sums[..], Index4(L.Width(), X, r, c)) == SumsCell(L, S, cover, lines, X, r, c)
    modifies result
    ensures forall X, Y, c :: 0 <= X < L.Width() && 0 <= Y < L.Height() && 0 <= c < 4 ==>
      At(result[..], Index4(L.Width(), X, Y, c)) ==
        At(old(result[..]), Index4(L.Width(), X, Y, c)) + NormalizedCell(L, S, cover, lines, X, Y, c)
  {
    var W := L.Width();
    for i := 0 to result.Length
      invariant forall k :: 0 <= k < i ==>
        result[k] == old(result[k]) + NormalizedCell(L, S, cover, lines, (k / 4) % W, (k / 4) / W, k % 4)
      invariant forall k :: i <= k < result.Length ==> result[k] == old(result[k])
    {
      Index4Decode(W, L.Height(), i);
      var X, Y, c := (i / 4) % W, (i / 4) / W, i % 4;
      TileBounds(L.h, L.ry, Y);
      Index4Encode(W, L.ry, X, Y / L.h, c);
      var value := GaussianCell(L, S, cover, lines, X, Y, c);
      var sum := sums[Index4(W, X, Y / L.h, c)];
      assert sum == SumsCell(L, S, cover, lines, X, Y / L.h, c);
      var fragColor := if S.doNormalize != 0 then value / sum else value;
      result[i] := result[i] + fragColor;
    }
    forall X, Y, c | 0 <= X < W && 0 <= Y < L.Height() && 0 <= c < 4
      ensures At(result[..], Index4(W, X, Y, c)) ==
        At(old(result[..]), Index4(W, X, Y, c)) + NormalizedCell(L, S, cover, lines, X, Y, c)
    {
      Index4Encode(W, L.Height(), X, Y, c);
    }
  }

  /** One fragment of mergeBufferHorizontally: the loop over tile columns. */
  method MergeHFragment(L: Layout, result: array<real>, x: int, Y: int, c: int) returns (color: real)
    requires L.Valid() && result.Length == L.Width() * L.Height() * 4
    requires 0 <= x < L.w && 0 <= Y < L.Height() && 0 <= c < 4
    ensures color == MergeHCell(L, result[..], x, Y, c)
  {
    color := 0.0;
    ghost var texels := result[..];
    for i := 0 to L.rx
      invariant color == Sum(0, i, t => At(texels, Index4(L.Width(), t * L.w + x, Y, c)))
    {
      SumLast(0, i + 1, t => At(texels, Index4(L.Width(), t * L.w + x, Y, c)));
      DivMulAdd(i, L.w, x);
      TileBounds(L.w, L.rx, i * L.w + x);
      Index4Encode(L.Width(), L.Height(), i * L.w + x, Y, c);
      color := color + result[Index4(L.Width(), i * L.w + x, Y, c)];
    }
  }

  /** mergeBufferHorizontally: resultBuffer into the `W x reshapedHeight` preMergedBuffer. */
  method MergeHPass(L: Layout, result: array<real>, preMerged: array<real>)
    requires L.Valid() && result != preMerged
    requires result.Length == L.Width() * L.Height() * 4 && preMerged.Length == L.w * L.Height() * 4
    modifies preMerged
    ensures forall x, Y, c :: 0 <= x < L.w && 0 <= Y < L.Height() && 0 <= c < 4 ==>
      At(preMerged[..], Index4(L.w, x, Y, c)) == MergeHCell(L, result[..], x, Y, c)
  {
    for i := 0 to preMerged.Length
      invariant forall k :: 0 <= k < i ==> preMerged[k] == MergeHCell(L, result[..], (k / 4) % L.w, (k / 4) / L.w, k % 4)
    {
      Index4Decode(L.w, L.Height(), i);
      var color := MergeHFragment(L, result, (i / 4) % L.w, (i / 4) / L.w, i % 4);
      preMerged[i] := color;
    }
    forall x, Y, c | 0 <= x < L.w && 0 <= Y < L.Height() && 0 <= c < 4
      ensures At(preMerged[..], Index4(L.w, x, Y, c)) == MergeHCell(L, result[..], x, Y, c)
    {
      Index4Encode(L.w, L.Height(), x, Y, c);
    }
  }

  /** One fragment of mergeBufferVertically: the loop over tile rows of all four
      channels, then `color.r + color.g + color.b + color.a`. */
  method MergeVFragment(L: Layout, preMerged: array<real>, x: int, y: int) returns (value: real)
    requires L.Valid() && preMerged.Length == L.w * L.Height() * 4
    requires 0 <= x < L.w && 0 <= y < L.h
    ensures value == MergeVCell(L, preMerged[..], x, y)
  {
    var color := [0.0, 0.0, 0.0, 0.0];
    ghost var texels := preMerged[..];
    for i := 0 to L.ry
      invariant |color| == 4
      invariant forall c :: 0 <= c < 4 ==> color[c] == Sum(0, i, i => At(texels, Index4(L.w, x, i * L.h + y, c)))
    {
      TileBounds(L.h, L.ry, i * L.h + y);
      DivMulAdd(i, L.h, y);
      var row := [0.0, 0.0, 0.0, 0.0];
      for c := 0 to 4
        invariant |row| == 4
        invariant forall c' :: 0 <= c' < c ==> row[c'] == At(preMerged[..], Index4(L.w, x, i * L.h + y, c'))
      {
        Index4Encode(L.w, L.Height(), x, i * L.h + y, c);
        row := row[c := preMerged[Index4(L.w, x, i * L.h + y, c)]];
      }
      forall c | 0 <= c < 4
        ensures color[c] + row[c] == Sum(0, i + 1, i => At(texels, Index4(L.w, x, i * L.h + y, c)))
      {
        SumLast(0, i + 1, i => At(texels, Index4(L.w, x, i * L.h + y, c)));
      }
      color := [color[0] + row[0], color[1] + row[1], color[2] + row[2], color[3] + row[3]];
    }
    value := color[0] + color[1] + color[2] + color[3];
    Sum4(c => Sum(0, L.ry, i => At(texels, Index4(L.w, x, i * L.h + y, c))));
  }

  /** Channel c of a heatBuffer texel holding `value`: `vec4(vec3(value), 1.0)`. */
  function HeatTexel(value: real, c: int): real
  {
    if c < 3 then value else 1.0
  }

  /** The heatBuffer entry at flat index k, as the vertical merge writes it. */
  ghost function HeatEntry(L: Layout, texels: seq<real>, k: int): real
    requires L.Valid()
  {
    HeatTexel(MergeVCell(L, texels, (k / 4) % L.w, (k / 4) / L.w), k % 4)
  }

  /** The value the vertical merge writes at flat heatBuffer index i. */
  method HeatEntryAt(L: Layout, preMerged: array<real>, i: int) returns (v: real)
    requires L.Valid() && preMerged.Length == L.w * L.Height() * 4
    requires 0 <= i < L.w * L.h * 4
    ensures v == HeatEntry(L, preMerged[..], i)
  {
    Index4Decode(L.w, L.h, i);
    var value := MergeVFragment(L, preMerged, (i / 4) % L.w, (i / 4) / L.w);
    v := HeatTexel(value, i % 4);
  }

  /** mergeBufferVertically into heatBuffer: `vec4(vec3(value), 1.0)` per texel. */
  method MergeVPass(L: Layout, preMerged: array<real>, heat: array<real>)
    requires L.Valid() && preMerged != heat
    requires preMerged.Length == L.w * L.Height() * 4 && heat.Length == L.w * L.h * 4
    modifies heat
    ensures forall x, y, c :: 0 <= x < L.w && 0 <= y < L.h && 0 <= c < 4 ==>
      At(heat[..], Index4(L.w, x, y, c)) == HeatTexel(MergeVCell(L, preMerged[..], x, y), c)
  {
    ghost var texels := preMerged[..];
    for i := 0 to heat.Length
      invariant preMerged[..] == texels
      invariant forall k :: 0 <= k < i ==> heat[k] == HeatEntry(L, texels, k)
    {
      heat[i] := HeatEntryAt(L, preMerged, i);
    }
    forall x, y, c | 0 <= x < L.w && 0 <= y < L.h && 0 <= c < 4
      ensures At(heat[..], Index4(L.w, x, y, c)) == HeatTexel(MergeVCell(L, texels, x, y), c)
    {
      Index4Encode(L.w, L.h, x, y, c);
      assert heat[Index4(L.w, x, y, c)] == HeatEntry(L, texels, Index4(L.w, x, y, c));
    }
  }

  /** The buffers of one density computation. */
  predicate Buffers(L: Layout, result: array<real>, preMerged: array<real>, heat: array<real>, sums: array<real>)
    reads {}
  {
    L.Valid() &&
    result != preMerged && result != heat && result != sums &&
    preMerged != heat && preMerged != sums && heat != sums &&
    result.Length == L.Width() * L.Height() * 4 && preMerged.Length == L.w * L.Height() * 4 &&
    heat.Length == L.w * L.h * 4 && sums.Length == L.Width() * L.ry * 4
  }

  /** The framebuffers of the pipeline, allocated zeroed at their planned sizes. */
  method Allocate(L: Layout) returns (result: array<real>, preMerged: array<real>, heat: array<real>, sums: array<real>)
    requires L.Valid()
    ensures fresh(result) && fresh(preMerged) && fresh(heat) && fresh(sums)
    ensures Buffers(L, result, preMerged, heat, sums)
  {
    result := new real[L.Width() * L.Height() * 4];
    preMerged := new real[L.w * L.Height() * 4];
    heat := new real[L.w * L.h * 4];
    sums := new real[L.Width() * L.ry * 4];
  }

  /** One iteration of the batch loop: after batch q has been added into
      resultBuffer, the merged surface holds the density of batches 0 .. q. */
  lemma RenderStep<T>(L: Layout, S: Smoothing, cover: (T, int, int) -> bool, items: seq<T>,
                      batches: seq<seq<Slotted<T>>>, q: nat, before: seq<real>, after: seq<real>)
    requires L.Valid() && q < |batches| && Scheduled(batches, items, 4 * L.rx * L.ry, L.rx)
    requires |before| == |after| == L.Width() * L.Height() * 4
    requires forall X, Y, c :: 0 <= X < L.Width() && 0 <= Y < L.Height() && 0 <= c < 4 ==>
      At(after, Index4(L.Width(), X, Y, c)) == At(before, Index4(L.Width(), X, Y, c)) + NormalizedCell(L, S, cover, batches[q], X, Y, c)
    requires forall x, y :: 0 <= x < L.w && 0 <= y < L.h ==>
      Merged(L, before, x, y) == Heat(L.w, L.h, S, cover, Flatten(batches[..q]), x, y)
    ensures forall x, y :: 0 <= x < L.w && 0 <= y < L.h ==>
      Merged(L, after, x, y) == Heat(L.w, L.h, S, cover, Flatten(batches[..q + 1]), x, y)
  {
    var lines := batches[q];
    var bs := 4 * L.rx * L.ry;
    assert |lines| == Min(bs, |items| - q * bs) && WellSlotted(lines, items, q * bs, L.rx);
    assert batches[..q + 1][..q] == batches[..q];
    assert Flatten(batches[..q + 1]) == Flatten(batches[..q]) + Items(lines);
    forall x, y | 0 <= x < L.w && 0 <= y < L.h
      ensures Merged(L, after, x, y) == Heat(L.w, L.h, S, cover, Flatten(batches[..q + 1]), x, y)
    {
      MergedStep(L, S, cover, lines, before, after, x, y);
      BatchFoldIsDensity(L, S, cover, lines, items, q * bs, x, y);
      SeqSumAppend(Flatten(batches[..q]), Items(lines), item => LineDensity(L.w, L.h, S, cover, item, x, y));
    }
  }

  /** The cleared resultBuffer after every batch of the slot schedule of
      `items` has gone through `sum` and additive `normalize`: its merged view
      holds the density of `items`. */
  method AccumulateBatches<T>(L: Layout, S: Smoothing, cover: (T, int, int) -> bool, items: seq<T>,
                              result: array<real>, preMerged: array<real>, heat: array<real>, sums: array<real>)
    requires Buffers(L, result, preMerged, heat, sums)
    modifies result, sums
    ensures forall x, y :: 0 <= x < L.w && 0 <= y < L.h ==>
      Merged(L, result[..], x, y) == Heat(L.w, L.h, S, cover, items, x, y)
  {
    Clear(result);
    forall x, y | 0 <= x < L.w && 0 <= y < L.h
      ensures Merged(L, result[..], x, y) == 0.0
    {
      MergedZero(L, result[..], x, y);
    }
    var batches := BatchSchedule(items, L.rx, L.ry);
    for q := 0 to |batches|
      invariant forall x, y :: 0 <= x < L.w && 0 <= y < L.h ==>
        Merged(L, result[..], x, y) == Heat(L.w, L.h, S, cover, Flatten(batches[..q]), x, y)
    {
      var lines := batches[q];
      SumPass(L, S, cover, lines, sums);
      ghost var before := result[..];
      NormalizePass(L, S, cover, lines, sums, result);
      RenderStep(L, S, cover, items, batches, q, before, result[..]);
    }
    assert batches[..|batches|] == batches;
  }

  /** The batched computation of `rerender`: the batch loop over `items`,
      then both merges. The heat texel (x, y) ends up as the sum of the
      densities of `items`. */
  method RenderHeat<T>(L: Layout, S: Smoothing, cover: (T, int, int) -> bool, items: seq<T>,
                       result: array<real>, preMerged: array<real>, heat: array<real>, sums: array<real>)
    requires Buffers(L, result, preMerged, heat, sums)
    modifies result, preMerged, heat, sums
    ensures forall x, y, c :: 0 <= x < L.w && 0 <= y < L.h && 0 <= c < 4 ==>
      At(heat[..], Index4(L.w, x, y, c)) == HeatTexel(Heat(L.w, L.h, S, cover, items, x, y), c)
    ensures heat[..] == HeatImage(L, S, cover, items)
  {
    AccumulateBatches(L, S, cover, items, result, preMerged, heat, sums);
    MergeHPass(L, result, preMerged);
    MergeVPass(L, preMerged, heat);
    forall x, y | 0 <= x < L.w && 0 <= y < L.h
      ensures MergeVCell(L, preMerged[..], x, y) == Heat(L.w, L.h, S, cover, items, x, y)
    {
      MergeVOfMergeH(L, result[..], preMerged[..], x, y);
    }
    ImageOfTexels(L, S, cover, items, heat[..]);
  }

  /** The whole heatBuffer of the reference density: texel (x, y) is
      (v, v, v, 1) for v the heat of (x, y). */
  function HeatImage<T>(L: Layout, S: Smoothing, cover: (T, int, int) -> bool, items: seq<T>): (img: seq<real>)
    requires L.Valid()
    ensures |img| == L.w * L.h * 4
  {
    seq(L.w * L.h * 4, k => HeatTexel(Heat(L.w, L.h, S, cover, items, (k / 4) % L.w, (k / 4) / L.w), k % 4))
  }

  /** A buffer of the right size agreeing with the reference at every texel
      channel is the reference image. */
  lemma ImageOfTexels<T>(L: Layout, S: Smoothing, cover: (T, int, int) -> bool, items: seq<T>, buf: seq<real>)
    requires L.Valid() && |buf| == L.w * L.h * 4
    requires forall x, y, c :: 0 <= x < L.w && 0 <= y < L.h && 0 <= c < 4 ==>
      At(buf, Index4(L.w, x, y, c)) == HeatTexel(Heat(L.w, L.h, S, cover, items, x, y), c)
    ensures buf == HeatImage(L, S, cover, items)
  {
    var img := HeatImage(L, S, cover, items);
    forall k | 0 <= k < |buf|
      ensures buf[k] == img[k]
    {
      Index4Decode(L.w, L.h, k);
    }
  }

  /** Batch-order independence of the whole image: rendering any permutation
      of the same lines gives the same heatBuffer. */
  lemma HeatImagePermutation<T>(L: Layout, S: Smoothing, cover: (T, int, int) -> bool, a: seq<T>, b: seq<T>)
    requires L.Valid() && multiset(a) == multiset(b)
    ensures HeatImage(L, S, cover, a) == HeatImage(L, S, cover, b)
  {
    var ia, ib := HeatImage(L, S, cover, a), HeatImage(L, S, cover, b);
    forall k | 0 <= k < |ia|
      ensures ia[k] == ib[k]
    {
      HeatPermutation(L.w, L.h, S, cover, a, b, (k / 4) % L.w, (k / 4) / L.w);
    }
  }
}
