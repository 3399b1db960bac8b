/** The index helpers of the utility module: `range`, `rangeDup`, the
    trivial branch of `makePair`, and `float`, which writes a number as a
    GLSL float literal. */
module Utils {
  import opened Wrappers

  /** `range(n)`: the counting loop filling `0, 1, ..., n - 1`. */
  method Range(n: nat) returns (out: array<nat>)
    ensures fresh(out)
    ensures out.Length == n && forall i :: 0 <= i < n ==> out[i] == i
    ensures out[..] == Indexes(n)
  {
    out := new nat[n];
    for i := 0 to n
      invariant forall k :: 0 <= k < i ==> out[k] == k
    {
      out[i] := i;
    }
  }

  /** The contents `range(n)` produces. */
  function Indexes(n: nat): (r: seq<nat>)
    ensures |r| == n && forall i :: 0 <= i < n ==> r[i] == i
  {
    if n == 0 then [] else Indexes(n - 1) + [n - 1]
  }

  /** `rangeDup(n, multi)`: `floor(i / multi)` for every i below `n * multi`.
      A call without `multi` takes the default 4, which is `RangeDup(n, 4)` here. */
  method RangeDup(n: nat, multi: nat) returns (out: array<nat>)
    ensures fresh(out)
    ensures out.Length == n * multi
    ensures forall i :: 0 <= i < n * multi ==> out[i] == i / multi
    ensures multi >= 1 ==> out[..] == Dup(n, multi)
  {
    out := new nat[n * multi];
    for i := 0 to n * multi
      invariant forall k :: 0 <= k < i ==> out[k] == k / multi
    {
      out[i] := i / multi;
    }
  }

  /** The contents `rangeDup(n, multi)` produces, as a sequence. */
  function Dup(n: nat, multi: nat): (r: seq<nat>)
    requires multi >= 1
    ensures |r| == n * multi
  {
    seq(n * multi, i requires 0 <= i < n * multi => i / multi)
  }

  /** The block of `multi` entries that value k should fill. */
  function DupBlock(r: seq<nat>, multi: nat, k: nat): seq<nat>
    requires (k + 1) * multi <= |r|
  {
    r[k * multi..(k + 1) * multi]
  }

  /** The output of `rangeDup` never decreases. */
  lemma DupMonotone(n: nat, multi: nat)
    requires multi >= 1
    ensures var r := Dup(n, multi); forall i, j :: 0 <= i <= j < |r| ==> r[i] <= r[j]
  {
    var r := Dup(n, multi);
    forall i, j | 0 <= i <= j < |r|
      ensures r[i] <= r[j]
    {
      DivMono(i, j, multi);
    }
  }

  /** Position i of the output lies in the block of its value. */
  lemma DupPosition(n: nat, multi: nat)
    requires multi >= 1
    ensures var r := Dup(n, multi); forall i :: 0 <= i < |r| ==> r[i] * multi <= i < (r[i] + 1) * multi
  {
    var r := Dup(n, multi);
    forall i | 0 <= i < |r|
      ensures r[i] * multi <= i < (r[i] + 1) * multi
    {
      DivBlock(i, i / multi, multi);
    }
  }

  /** Every value k below n fills its whole block: each index appears multi
      times, consecutively. */
  lemma DupBlocks(n: nat, multi: nat)
    requires multi >= 1
    ensures var r := Dup(n, multi);
      forall k :: 0 <= k < n ==> (k + 1) * multi <= |r| && DupBlock(r, multi, k) == seq(multi, _ => k)
  {
    var r := Dup(n, multi);
    forall k | 0 <= k < n
      ensures (k + 1) * multi <= |r| && DupBlock(r, multi, k) == seq(multi, _ => k)
    {
      MulLe(multi, k + 1, n);
      var b := DupBlock(r, multi, k);
      forall t | 0 <= t < multi
        ensures b[t] == k
      {
        DivBlock(k * multi + t, k, multi);
      }
    }
  }

  lemma DivMono(i: nat, j: nat, m: nat)
    requires m >= 1 && i <= j
    ensures i / m <= j / m
  {
    if i / m > j / m {
      assert (j / m + 1) * m <= (i / m) * m by {
        MulLe(m, j / m + 1, i / m);
      }
    }
  }

  lemma DivBlock(i: nat, k: nat, m: nat)
    requires m >= 1
    ensures i / m == k <==> k * m <= i < (k + 1) * m
  {
    var q := i / m;
    assert q * m <= i < (q + 1) * m;
    if q < k {
      MulLe(m, q + 1, k);
    } else if q > k {
      MulLe(m, k + 1, q);
    }
  }

  lemma MulLe(m: nat, a: int, b: int)
    requires a <= b
    ensures a * m <= b * m
  {
  }

  /** `makePair(arr)` returns the empty list for an array of at most one
      element; the pairing built for larger arrays (None here) is not part of this model. */
  function MakePairTrivial(arr: seq<real>): (r: Option<seq<real>>)
    ensures r.Some? <==> |arr| <= 1
    ensures r.Some? ==> r.value == []
  {
    if |arr| <= 1 then Some([]) else None
  }

  // ---------------------------------------------------------------- float

  /** What `float(i)` returns: the number itself, or text spliced into the shader source. */
  datatype Literal = Number(value: real) | Text(text: string)

  function DigitChar(d: nat): char
    requires d < 10
  {
    ('0' as int + d) as char
  }

  function DigitValue(c: char): int
  {
    c as int - '0' as int
  }

  /** The decimal digits of n, most significant first, with no leading zero. */
  function Digits(n: nat): (s: string)
    ensures |s| >= 1 && forall i :: 0 <= i < |s| ==> '0' <= s[i] <= '9'
    ensures |s| == 1 || s[0] != '0'
    ensures s[0] == '0' <==> n == 0
  {
    if n < 10 then [DigitChar(n)] else Digits(n / 10) + [DigitChar(n % 10)]
  }

  /** Template-literal text of an integer: a minus sign for negatives, then the digits. */
  function Decimal(n: int): string
  {
    if n < 0 then "-" + Digits(-n) else Digits(n)
  }

  /** Reads a digit string back. */
  function ParseDigits(s: string): int
  {
    if |s| == 0 then 0 else 10 * ParseDigits(s[..|s| - 1]) + DigitValue(s[|s| - 1])
  }

  function ParseDecimal(s: string): int
  {
    if |s| > 0 && s[0] == '-' then -ParseDigits(s[1..]) else ParseDigits(s)
  }

  lemma {:induction false} DigitsRoundTrip(n: nat)
    ensures ParseDigits(Digits(n)) == n
    decreases n
  {
    if n >= 10 {
      DigitsRoundTrip(n / 10);
      var s := Digits(n / 10) + [DigitChar(n % 10)];
      assert s[..|s| - 1] == Digits(n / 10);
    }
  }

  /** The integer text reads back as the integer. */
  lemma DecimalRoundTrip(n: int)
    ensures ParseDecimal(Decimal(n)) == n
  {
    if n < 0 {
      DigitsRoundTrip(-n);
      assert ("-" + Digits(-n))[1..] == Digits(-n);
    } else {
      DigitsRoundTrip(n);
    }
  }

  /** `float(i)`: a number with a fractional part as it is, an integer as its text followed by ".0". */
  function Float(i: real): (r: Literal)
    ensures i - i.Floor as real > 0.0 <==> r == Number(i)
    ensures r.Text? ==>
      |r.text| >= 3 && r.text[|r.text| - 2..] == ".0" &&
      ParseDecimal(r.text[..|r.text| - 2]) == i.Floor && i == i.Floor as real
    ensures r.Text? ==> r.text == Decimal(i.Floor) + ".0"
  {
    if i - i.Floor as real > 0.0 then Number(i)
    else
      var t := Decimal(i.Floor) + ".0";
      DecimalRoundTrip(i.Floor);
      assert t[..|t| - 2] == Decimal(i.Floor);
      Text(t)
  }
}
