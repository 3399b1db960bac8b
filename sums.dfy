/** Finite sums over integer ranges and over sequences, the arithmetic every
    shader pass of the density pipeline reduces to. */
module Sums {

  /** The sum of f(i) for lo <= i < hi (0 when the range is empty). */
  function Sum(lo: int, hi: int, f: int -> real): real
    decreases hi - lo
  {
    if lo >= hi then 0.0 else f(lo) + Sum(lo + 1, hi, f)
  }

  /** Sums of pointwise-equal terms are equal. */
  lemma {:induction false} SumExt(lo: int, hi: int, f: int -> real, g: int -> real)
    requires forall i :: lo <= i < hi ==> f(i) == g(i)
    ensures Sum(lo, hi, f) == Sum(lo, hi, g)
    decreases hi - lo
  {
    if lo < hi {
      SumExt(lo + 1, hi, f, g);
    }
  }

  /** A range sum splits at any interior point. */
  lemma {:induction false} SumSplit(lo: int, mid: int, hi: int, f: int -> real)
    requires lo <= mid <= hi
    ensures Sum(lo, hi, f) == Sum(lo, mid, f) + Sum(mid, hi, f)
    decreases mid - lo
  {
    if lo < mid {
      SumSplit(lo + 1, mid, hi, f);
    }
  }

  /** Peeling the last term off a non-empty range. */
  lemma SumLast(lo: int, hi: int, f: int -> real)
    requires lo < hi
    ensures Sum(lo, hi, f) == Sum(lo, hi - 1, f) + f(hi - 1)
  {
    SumSplit(lo, hi - 1, hi, f);
  }

  /** Every term zero: the sum is zero. */
  lemma {:induction false} SumZero(lo: int, hi: int, f: int -> real)
    requires forall i :: lo <= i < hi ==> f(i) == 0.0
    ensures Sum(lo, hi, f) == 0.0
    decreases hi - lo
  {
    if lo < hi {
      SumZero(lo + 1, hi, f);
    }
  }

  /** Every term non-negative: the sum is non-negative. */
  lemma {:induction false} SumNonneg(lo: int, hi: int, f: int -> real)
    requires forall i :: lo <= i < hi ==> f(i) >= 0.0
    ensures Sum(lo, hi, f) >= 0.0
    decreases hi - lo
  {
    if lo < hi {
      SumNonneg(lo + 1, hi, f);
    }
  }

  /** The sum of pointwise sums is the sum of the sums. */
  lemma {:induction false} SumAdd(lo: int, hi: int, f: int -> real, g: int -> real, h: int -> real)
    requires forall i :: lo <= i < hi ==> h(i) == f(i) + g(i)
    ensures Sum(lo, hi, h) == Sum(lo, hi, f) + Sum(lo, hi, g)
    decreases hi - lo
  {
    if lo < hi {
      SumAdd(lo + 1, hi, f, g, h);
    }
  }

  /** A constant factor leaves the sum. */
  lemma {:induction false} SumScale(lo: int, hi: int, k: real, f: int -> real, g: int -> real)
    requires forall i :: lo <= i < hi ==> g(i) == f(i) * k
    ensures Sum(lo, hi, g) == Sum(lo, hi, f) * k
    decreases hi - lo
  {
    if lo < hi {
      SumScale(lo + 1, hi, k, f, g);
    }
  }

  /** Dividing every term by a divides the sum. */
  lemma {:induction false} SumDiv(lo: int, hi: int, a: real, f: int -> real, g: int -> real)
    requires a != 0.0 && forall i :: lo <= i < hi ==> g(i) == f(i) / a
    ensures Sum(lo, hi, g) == Sum(lo, hi, f) / a
    decreases hi - lo
  {
    if lo < hi {
      SumDiv(lo + 1, hi, a, f, g);
    }
  }

  /** Re-indexing by a constant shift d. */
  lemma {:induction false} SumShift(lo: int, hi: int, d: int, f: int -> real, g: int -> real)
    requires forall i :: lo <= i < hi ==> g(i) == f(i + d)
    ensures Sum(lo, hi, g) == Sum(lo + d, hi + d, f)
    decreases hi - lo
  {
    if lo < hi {
      SumShift(lo + 1, hi, d, f, g);
    }
  }

  /** Exchanging the order of a double sum over a rectangle: the rows of F
      summed by R, the columns of F (transposed as G) summed by C. */
  lemma {:induction false} SumSwap(n: nat, m: nat, F: int -> int -> real, G: int -> int -> real,
                                   R: int -> real, C: int -> real)
    requires forall i, j :: 0 <= i < n && 0 <= j < m ==> G(j)(i) == F(i)(j)
    requires forall i :: 0 <= i < n ==> R(i) == Sum(0, m, F(i))
    requires forall j :: 0 <= j < m ==> C(j) == Sum(0, n, G(j))
    ensures Sum(0, n, R) == Sum(0, m, C)
    decreases n
  {
    if n > 0 {
      var C' := (j: int) => Sum(0, n - 1, G(j));
      forall j | 0 <= j < m ensures C(j) == C'(j) + F(n - 1)(j) {
        SumLast(0, n, G(j));
      }
      SumSwap(n - 1, m, F, G, R, C');
      SumLast(0, n, R);
      assert R(n - 1) == Sum(0, m, F(n - 1));
      SumAdd(0, m, C', F(n - 1), C);
    } else {
      SumZero(0, m, C);
    }
  }

  /** A sum over n consecutive blocks of length m is one sum over n*m terms. */
  lemma {:induction false} SumBlocks(base: int, n: nat, m: nat, f: int -> real, R: int -> real)
    requires forall i :: 0 <= i < n ==> R(i) == Sum(base + i * m, base + i * m + m, f)
    ensures Sum(0, n, R) == Sum(base, base + n * m, f)
    decreases n
  {
    if n > 0 {
      SumBlocks(base, n - 1, m, f, R);
      SumLast(0, n, R);
      assert (n - 1) * m + m == n * m;
      SumSplit(base, base + (n - 1) * m, base + n * m, f);
    }
  }

  /** A block of n * m consecutive terms summed as m interleaved strides of n:
      term base + t * m + c is summed at (c, t). */
  lemma SumInterleaved(base: int, n: nat, m: nat, f: int -> real, F: int -> int -> real, R: int -> real)
    requires forall c, t :: 0 <= c < m && 0 <= t < n ==> F(c)(t) == f(base + t * m + c)
    requires forall c :: 0 <= c < m ==> R(c) == Sum(0, n, F(c))
    ensures Sum(0, m, R) == Sum(base, base + n * m, f)
  {
    var G := t => c => F(c)(t);
    var C := t => Sum(0, m, G(t));
    SumSwap(m, n, F, G, R, C);
    SumColumnBlocks(base, n, m, f, G, C);
  }

  /** n blocks of m consecutive terms, each block summed on its own. */
  lemma SumColumnBlocks(base: int, n: nat, m: nat, f: int -> real, G: int -> int -> real, C: int -> real)
    requires forall t, c :: 0 <= t < n && 0 <= c < m ==> G(t)(c) == f(base + t * m + c)
    requires forall t :: 0 <= t < n ==> C(t) == Sum(0, m, G(t))
    ensures Sum(0, n, C) == Sum(base, base + n * m, f)
  {
    forall t | 0 <= t < n
      ensures C(t) == Sum(base + t * m, base + t * m + m, f)
    {
      SumShift(0, m, base + t * m, f, G(t));
    }
    SumBlocks(base, n, m, f, C);
  }

  /** The four channels of ry tile rows of 4 * rx consecutive terms each:
      summing channel by channel equals summing all 4 * rx * ry terms in order. */
  lemma SumTileGrid(rx: nat, ry: nat, f: int -> real, F: int -> int -> real, G: int -> int -> real,
                    Chan: int -> real, Row: int -> real)
    requires forall c, i :: 0 <= c < 4 && 0 <= i < ry ==> G(i)(c) == F(c)(i)
    requires forall c :: 0 <= c < 4 ==> Chan(c) == Sum(0, ry, F(c))
    requires forall i :: 0 <= i < ry ==> Row(i) == Sum(0, 4, G(i))
    requires forall i :: 0 <= i < ry ==> Row(i) == Sum(i * (4 * rx), i * (4 * rx) + rx * 4, f)
    ensures Sum(0, 4, Chan) == Sum(0, 4 * rx * ry, f)
  {
    SumSwap(4, ry, F, G, Chan, Row);
    SumBlocks(0, ry, 4 * rx, f, Row);
    assert ry * (4 * rx) == 4 * rx * ry;
  }

  /** The sum of the four channels of a texel. */
  lemma Sum4(f: int -> real)
    ensures Sum(0, 4, f) == f(0) + f(1) + f(2) + f(3)
  {
    SumLast(0, 4, f);
    SumLast(0, 3, f);
    SumLast(0, 2, f);
    SumLast(0, 1, f);
  }

  /** The sum of f over the elements of a sequence, in order. */
  function SeqSum<T>(s: seq<T>, f: T -> real): real
  {
    if |s| == 0 then 0.0 else SeqSum(s[..|s| - 1], f) + f(s[|s| - 1])
  }

  /** SeqSum distributes over concatenation. */
  lemma {:induction false} SeqSumAppend<T>(s: seq<T>, t: seq<T>, f: T -> real)
    ensures SeqSum(s + t, f) == SeqSum(s, f) + SeqSum(t, f)
    decreases |t|
  {
    if |t| == 0 {
      assert s + t == s;
    } else {
      assert (s + t)[..|s + t| - 1] == s + t[..|t| - 1];
      SeqSumAppend(s, t[..|t| - 1], f);
    }
  }

  /** A sequence sum is a range sum over its indices. */
  lemma {:induction false} SeqSumAsSum<T>(s: seq<T>, f: T -> real, g: int -> real)
    requires forall k :: 0 <= k < |s| ==> g(k) == f(s[k])
    ensures SeqSum(s, f) == Sum(0, |s|, g)
    decreases |s|
  {
    if |s| > 0 {
      var s' := s[..|s| - 1];
      SeqSumAsSum(s', f, g);
      SumLast(0, |s|, g);
    }
  }

  /** Taking out the element at index i leaves the other elements. */
  lemma RemoveAtMultiset<T>(t: seq<T>, i: nat)
    requires i < |t|
    ensures multiset(t[..i] + t[i + 1..]) == multiset(t) - multiset([t[i]])
  {
    assert t == t[..i] + [t[i]] + t[i + 1..];
    assert multiset(t) == multiset(t[..i]) + multiset([t[i]]) + multiset(t[i + 1..]);
  }

  /** Taking out the element at index i takes its term out of the sum. */
  lemma RemoveAtSum<T>(t: seq<T>, i: nat, f: T -> real)
    requires i < |t|
    ensures SeqSum(t, f) == SeqSum(t[..i] + t[i + 1..], f) + f(t[i])
  {
    var x, a, b := t[i], t[..i], t[i + 1..];
    assert t == (a + [x]) + b;
    SeqSumAppend(a + [x], b, f);
    assert (a + [x])[..|a + [x]| - 1] == a;
    SeqSumAppend(a, b, f);
  }

  /** Sequences holding the same elements, in any order, have the same sum. */
  lemma {:induction false} SeqSumPermutation<T>(s: seq<T>, t: seq<T>, f: T -> real)
    requires multiset(s) == multiset(t)
    ensures SeqSum(s, f) == SeqSum(t, f)
    decreases |s|
  {
    if |s| == 0 {
      assert |t| == |multiset(t)| == 0;
    } else {
      var x := s[|s| - 1];
      assert x in multiset(t);
      var i :| 0 <= i < |t| && t[i] == x;
      assert s == s[..|s| - 1] + [x];
      assert multiset(s[..|s| - 1]) == multiset(s) - multiset([x]);
      RemoveAtMultiset(t, i);
      SeqSumPermutation(s[..|s| - 1], t[..i] + t[i + 1..], f);
      RemoveAtSum(t, i, f);
    }
  }
}
