/** `findKTop` after the `calWeight` read-back: tag every slot with its weight,
    keep the slots of indexCache, rank them (the stable JavaScript sort), then
    either take the first three or pick up to three diverse ones greedily;
    with `average` / `standardDeviation` on exact reals. */
module Ranking {
  import opened Wrappers
  import opened Sums
  import opened Planner

  // ---------------------------------------------------------------- average and standardDeviation

  function Total(xs: seq<real>): real
  {
    SeqSum(xs, x => x)
  }

  /** `average`: the sum over the length, NaN (None) for an empty array. */
  function Average(xs: seq<real>): (a: Option<real>)
    ensures a.None? <==> |xs| == 0
    ensures a.Some? ==> a.value * |xs| as real == Total(xs)
  {
    if |xs| == 0 then None else Some(Total(xs) / |xs| as real)
  }

  function SquareDiffs(xs: seq<real>, avg: real): (r: seq<real>)
    ensures |r| == |xs| && forall i :: 0 <= i < |xs| ==> r[i] == (xs[i] - avg) * (xs[i] - avg)
  {
    seq(|xs|, i requires 0 <= i < |xs| => (xs[i] - avg) * (xs[i] - avg))
  }

  /** The mean squared deviation that `standardDeviation` takes the square root of. */
  function Variance(xs: seq<real>): Option<real>
  {
    match Average(xs)
    case None => None
    case Some(avg) => Average(SquareDiffs(xs, avg))
  }

  /** `standardDeviation(xs) < d`. Comparing with NaN is false, and
      `Math.sqrt(v) < d` holds exactly when d > 0 and v < d * d. */
  predicate StdDevBelow(xs: seq<real>, d: real)
  {
    match Variance(xs)
    case None => false
    case Some(v) => d > 0.0 && v < d * d
  }

  lemma SquareNonneg(x: real)
    ensures x * x >= 0.0
  {
    if x < 0.0 {
      var y := -x;
      assert x * x == y * y;
    }
  }

  lemma TotalNonneg(xs: seq<real>)
    requires forall i :: 0 <= i < |xs| ==> xs[i] >= 0.0
    ensures Total(xs) >= 0.0
  {
    SeqSumAsSum(xs, x => x, i => if 0 <= i < |xs| then xs[i] else 0.0);
    SumNonneg(0, |xs|, i => if 0 <= i < |xs| then xs[i] else 0.0);
  }

  lemma TotalZero(xs: seq<real>)
    requires forall i :: 0 <= i < |xs| ==> xs[i] == 0.0
    ensures Total(xs) == 0.0
  {
    SeqSumAsSum(xs, x => x, i => if 0 <= i < |xs| then xs[i] else 0.0);
    SumZero(0, |xs|, i => if 0 <= i < |xs| then xs[i] else 0.0);
  }

  /** The variance is defined exactly for non-empty input and never negative. */
  lemma VarianceNonneg(xs: seq<real>)
    ensures Variance(xs).Some? <==> |xs| > 0
    ensures Variance(xs).Some? ==> Variance(xs).value >= 0.0
  {
    if |xs| > 0 {
      var avg := Average(xs).value;
      var sq := SquareDiffs(xs, avg);
      forall i | 0 <= i < |sq|
        ensures sq[i] >= 0.0
      {
        SquareNonneg(xs[i] - avg);
      }
      TotalNonneg(sq);
    }
  }

  lemma SquareMono(s: real, d: real)
    requires s >= 0.0 && d > 0.0
    ensures s < d <==> s * s < d * d
  {
    var ss, sd, dd := s * s, s * d, d * d;
    if s < d {
      assert ss <= sd && sd < dd;
    } else {
      assert dd <= sd && sd <= ss;
    }
  }

  /** StdDevBelow is the comparison of the true square root: for the
      non-negative s with s * s equal to the variance, it holds iff s < d. */
  lemma StdDevBelowIsSqrt(xs: seq<real>, d: real, s: real)
    requires Variance(xs).Some? && s >= 0.0 && s * s == Variance(xs).value
    ensures StdDevBelow(xs, d) <==> s < d
  {
    if d > 0.0 {
      SquareMono(s, d);
    }
  }

  // ---------------------------------------------------------------- the diversity test

  /** The values of series x (`data[x].yValues`). The comparisons of the
      diversity loop reach it only for indexes below n = |values|: an unknown
      index throws before it is read (`ReadsUnknown`). */
  function Line(values: seq<seq<real>>, x: nat): seq<real>
  {
    if x < |values| then values[x] else []
  }

  /** `subArr`: the last `testLength = min(|a|, |b|)` values of a minus those of b, scaled by 1 / maxY. */
  function DiffSeries(a: seq<real>, b: seq<real>, maxY: real): (r: seq<real>)
    requires maxY != 0.0
    ensures |r| == Min(|a|, |b|)
    ensures forall t :: 0 <= t < |r| ==> r[t] == (a[|a| - |r| + t] - b[|b| - |r| + t]) / maxY
  {
    var n := Min(|a|, |b|);
    seq(n, t requires 0 <= t < n => (a[|a| - n + t] - b[|b| - n + t]) / maxY)
  }

  /** A series is never diverse from itself: its difference has deviation 0,
      which is below every positive threshold. */
  lemma SelfNotDiverse(a: seq<real>, maxY: real, d: real)
    requires maxY != 0.0
    ensures StdDevBelow(DiffSeries(a, a, maxY), d) <==> |a| > 0 && d > 0.0
  {
    var r := DiffSeries(a, a, maxY);
    if |a| > 0 {
      TotalZero(r);
      assert Average(r) == Some(0.0);
      var sq := SquareDiffs(r, 0.0);
      TotalZero(sq);
      assert Variance(r) == Some(0.0);
      if d > 0.0 {
        SquareMono(0.0, d);
      }
    }
  }

  /** `standardDeviation(subArr) < diverse` for candidate x against accepted series y. */
  predicate Clashes(values: seq<seq<real>>, maxY: real, diverse: real, x: nat, y: nat)
    requires maxY != 0.0
  {
    StdDevBelow(DiffSeries(Line(values, x), Line(values, y), maxY), diverse)
  }

  function DiversityClash(values: seq<seq<real>>, maxY: real, diverse: real): (nat, nat) -> bool
    requires maxY != 0.0
  {
    (x: nat, y: nat) => Clashes(values, maxY, diverse, x, y)
  }

  /** Candidate x clashes with none of the accepted ones. */
  predicate Compatible(clash: (nat, nat) -> bool, x: nat, accepted: seq<nat>)
  {
    forall j :: 0 <= j < |accepted| ==> !clash(x, accepted[j])
  }

  /** The greedy diversity list over the candidates in rank order: a candidate
      joins while fewer than three are accepted and it clashes with none of them. */
  function Greedy(clash: (nat, nat) -> bool, cands: seq<nat>): (r: seq<nat>)
    ensures |r| <= 3 && |r| <= |cands|
    ensures forall i :: 0 <= i < |r| ==> r[i] in cands
  {
    if |cands| == 0 then []
    else
      var prev := Greedy(clash, cands[..|cands| - 1]);
      var x := cands[|cands| - 1];
      if |prev| < 3 && Compatible(clash, x, prev) then prev + [x] else prev
  }

  /** Once three are accepted, later candidates change nothing. */
  lemma {:induction false} GreedySaturated(clash: (nat, nat) -> bool, cands: seq<nat>, i: nat)
    requires i <= |cands| && |Greedy(clash, cands[..i])| == 3
    ensures Greedy(clash, cands) == Greedy(clash, cands[..i])
    decreases |cands| - i
  {
    if i < |cands| {
      assert cands[..i + 1][..i] == cands[..i];
      GreedySaturated(clash, cands, i + 1);
    } else {
      assert cands[..i] == cands;
    }
  }

  /** Every accepted candidate clashes with none accepted before it. */
  lemma {:induction false} GreedyPairwise(clash: (nat, nat) -> bool, cands: seq<nat>)
    ensures forall i, j :: 0 <= i < j < |Greedy(clash, cands)| ==>
      !clash(Greedy(clash, cands)[j], Greedy(clash, cands)[i])
    decreases |cands|
  {
    if |cands| > 0 {
      var front := cands[..|cands| - 1];
      GreedyPairwise(clash, front);
      var prev := Greedy(clash, front);
      var x := cands[|cands| - 1];
      if |prev| < 3 && Compatible(clash, x, prev) {
        var r := prev + [x];
        assert Greedy(clash, cands) == r;
        forall i, j | 0 <= i < j < |r|
          ensures !clash(r[j], r[i])
        {
          if j == |prev| {
            assert r[j] == x && r[i] == prev[i];
          } else {
            assert r[j] == prev[j] && r[i] == prev[i];
            assert !clash(prev[j], prev[i]);
          }
        }
      } else {
        assert Greedy(clash, cands) == prev;
      }
    }
  }

  /** The best candidate is always accepted. */
  lemma {:induction false} GreedyFirst(clash: (nat, nat) -> bool, cands: seq<nat>)
    requires |cands| > 0
    ensures |Greedy(clash, cands)| > 0 && Greedy(clash, cands)[0] == cands[0]
    decreases |cands|
  {
    var front := cands[..|cands| - 1];
    if |front| > 0 {
      GreedyFirst(clash, front);
      assert front[0] == cands[0];
    } else {
      assert Greedy(clash, front) == [];
    }
  }

  /** A candidate is rejected only when three are already accepted or it
      clashes with an accepted one. */
  lemma {:induction false} GreedyRejects(clash: (nat, nat) -> bool, cands: seq<nat>, t: nat)
    requires t < |cands|
    ensures var prev := Greedy(clash, cands[..t]);
      Greedy(clash, cands[..t + 1]) == if |prev| < 3 && Compatible(clash, cands[t], prev) then prev + [cands[t]] else prev
  {
    assert cands[..t + 1][..t] == cands[..t];
  }

  /** Distinct candidates give distinct picks. */
  lemma {:induction false} GreedyDistinct(clash: (nat, nat) -> bool, cands: seq<nat>)
    requires forall i, j :: 0 <= i < j < |cands| ==> cands[i] != cands[j]
    ensures forall i, j :: 0 <= i < j < |Greedy(clash, cands)| ==> Greedy(clash, cands)[i] != Greedy(clash, cands)[j]
    decreases |cands|
  {
    if |cands| > 0 {
      var front := cands[..|cands| - 1];
      GreedyDistinct(clash, front);
      var prev := Greedy(clash, front);
      var x := cands[|cands| - 1];
      forall i | 0 <= i < |prev|
        ensures prev[i] != x
      {
        var t :| 0 <= t < |front| && front[t] == prev[i];
      }
      if |prev| < 3 && Compatible(clash, x, prev) {
        var r := prev + [x];
        assert Greedy(clash, cands) == r;
        forall i, j | 0 <= i < j < |r|
          ensures r[i] != r[j]
        {
          if j == |prev| {
            assert r[j] == x && r[i] == prev[i];
          } else {
            assert r[j] == prev[j] && r[i] == prev[i];
            assert prev[i] != prev[j];
          }
        }
      } else {
        assert Greedy(clash, cands) == prev;
      }
    }
  }

  lemma CompatibleIsClashes(values: seq<seq<real>>, maxY: real, diverse: real, x: nat, accepted: seq<nat>)
    requires maxY != 0.0
    ensures Compatible(DiversityClash(values, maxY, diverse), x, accepted) <==>
      forall j :: 0 <= j < |accepted| ==> !Clashes(values, maxY, diverse, x, accepted[j])
  {
  }

  /** `findKTop` throws a TypeError in its diversity loop: `KTopError(rank)`
      names the rank of the candidate being compared. */
  datatype KTopError = TypeErrorAtRank(rank: nat)

  /** Comparing candidate x with the accepted list first reads
      `data[x].xValues` and `data[accepted[0]].xValues`; either index naming
      no series (>= n) reads a property of undefined. With nothing accepted
      there is no comparison and nothing is read. */
  predicate ReadsUnknown(n: nat, x: nat, accepted: seq<nat>)
  {
    |accepted| > 0 && (x >= n || accepted[0] >= n)
  }

  /** The loop throws at rank t: it is still running (fewer than three
      accepted) and the comparison of candidate t reads an unknown series. */
  predicate Throws(clash: (nat, nat) -> bool, n: nat, cands: seq<nat>, t: nat)
  {
    t < |cands| &&
    var prev := Greedy(clash, cands[..t]);
    |prev| < 3 && ReadsUnknown(n, cands[t], prev)
  }

  /** The diversity loop with its reads of `data`: the greedy list, or the
      TypeError of the first comparison that reads an unknown series. */
  function GreedyReads(clash: (nat, nat) -> bool, n: nat, cands: seq<nat>): (r: Result<seq<nat>, KTopError>)
  {
    if |cands| == 0 then Success([])
    else
      var prev := GreedyReads(clash, n, cands[..|cands| - 1]);
      var x := cands[|cands| - 1];
      if prev.Failure? then prev
      else if |prev.value| < 3 && ReadsUnknown(n, x, prev.value) then Failure(TypeErrorAtRank(|cands| - 1))
      else if |prev.value| < 3 && Compatible(clash, x, prev.value) then Success(prev.value + [x])
      else prev
  }

  /** The loop succeeds iff no rank throws, and then it returns the greedy
      list, whose entries after the first all name series; otherwise it
      fails at the first rank that throws. */
  lemma {:induction false} GreedyReadsSpec(clash: (nat, nat) -> bool, n: nat, cands: seq<nat>)
    ensures var r := GreedyReads(clash, n, cands);
      (r.Success? <==> forall t :: 0 <= t < |cands| ==> !Throws(clash, n, cands, t)) &&
      (r.Success? ==> r.value == Greedy(clash, cands) && forall j :: 1 <= j < |r.value| ==> r.value[j] < n) &&
      (r.Failure? ==> (Throws(clash, n, cands, r.error.rank) &&
                       forall t :: 0 <= t < r.error.rank ==> !Throws(clash, n, cands, t)))
    decreases |cands|
  {
    if |cands| > 0 {
      var last := |cands| - 1;
      var front := cands[..last];
      GreedyReadsSpec(clash, n, front);
      ThrowsFront(clash, n, cands);
      var prev := GreedyReads(clash, n, front);
      if prev.Success? {
        assert Throws(clash, n, cands, last) <==> |prev.value| < 3 && ReadsUnknown(n, cands[last], prev.value);
        if !Throws(clash, n, cands, last) {
          assert forall t :: 0 <= t < |cands| ==> !Throws(clash, n, cands, t);
        }
      } else {
        assert Throws(clash, n, cands, prev.error.rank);
      }
    }
  }

  /** Ranks before the last throw in cands iff they throw without it. */
  lemma ThrowsFront(clash: (nat, nat) -> bool, n: nat, cands: seq<nat>)
    requires |cands| > 0
    ensures forall t :: 0 <= t < |cands| - 1 ==>
      (Throws(clash, n, cands, t) <==> Throws(clash, n, cands[..|cands| - 1], t))
  {
    var front := cands[..|cands| - 1];
    forall t | 0 <= t < |cands| - 1
      ensures Throws(clash, n, cands, t) <==> Throws(clash, n, front, t)
    {
      assert cands[..t] == front[..t];
    }
  }

  /** When every candidate names a series, the loop never throws. */
  lemma GreedyReadsKnown(clash: (nat, nat) -> bool, n: nat, cands: seq<nat>)
    requires forall t :: 0 <= t < |cands| ==> cands[t] < n
    ensures GreedyReads(clash, n, cands) == Success(Greedy(clash, cands))
  {
    forall t | 0 <= t < |cands|
      ensures !Throws(clash, n, cands, t)
    {
      var prev := Greedy(clash, cands[..t]);
      if |prev| > 0 {
        assert prev[0] in cands[..t];
      }
    }
    GreedyReadsSpec(clash, n, cands);
  }

  /** One more candidate: the step of `GreedyReads` on the prefix. */
  lemma GreedyReadsStep(clash: (nat, nat) -> bool, n: nat, cands: seq<nat>, t: nat)
    requires t < |cands|
    ensures var prev := GreedyReads(clash, n, cands[..t]);
      var x := cands[t];
      GreedyReads(clash, n, cands[..t + 1]) ==
        if prev.Failure? then prev
        else if |prev.value| < 3 && ReadsUnknown(n, x, prev.value) then Failure(TypeErrorAtRank(t))
        else if |prev.value| < 3 && Compatible(clash, x, prev.value) then Success(prev.value + [x])
        else prev
  {
    assert cands[..t + 1][..t] == cands[..t];
  }

  /** Once the loop has thrown or accepted three, later candidates change nothing. */
  lemma {:induction false} GreedyReadsStays(clash: (nat, nat) -> bool, n: nat, cands: seq<nat>, i: nat)
    requires i <= |cands|
    requires var r := GreedyReads(clash, n, cands[..i]); r.Failure? || |r.value| == 3
    ensures GreedyReads(clash, n, cands) == GreedyReads(clash, n, cands[..i])
    decreases |cands| - i
  {
    if i < |cands| {
      GreedyReadsStep(clash, n, cands, i);
      GreedyReadsStays(clash, n, cands, i + 1);
    } else {
      assert cands[..i] == cands;
    }
  }

  /** The inner loop of the diversity selection: its first comparison reads
      the candidate and the first accepted series and throws when either is
      unknown (checked up front here); otherwise the flag stays true unless
      some accepted series is too close to candidate x, then `break`. Entries after the first are known: they
      passed their own comparison. */
  method Accepts(values: seq<seq<real>>, n: nat, maxY: real, diverse: real, x: nat, list: seq<nat>)
    returns (flag: Option<bool>)
    requires maxY != 0.0
    requires forall j :: 1 <= j < |list| ==> list[j] < n
    ensures flag.None? <==> ReadsUnknown(n, x, list)
    ensures flag.Some? ==> flag.value == Compatible(DiversityClash(values, maxY, diverse), x, list)
  {
    if |list| > 0 && (x >= n || list[0] >= n) {
      return None;
    }
    var ok := true;
    var j := 0;
    while j < |list|
      invariant 0 <= j <= |list|
      invariant ok && forall j' :: 0 <= j' < j ==> !Clashes(values, maxY, diverse, x, list[j'])
    {
      var subArr := DiffSeries(Line(values, x), Line(values, list[j]), maxY);
      if StdDevBelow(subArr, diverse) {
        assert Clashes(values, maxY, diverse, x, list[j]);
        ok := false;
        break;
      }
      j := j + 1;
    }
    CompatibleIsClashes(values, maxY, diverse, x, list);
    flag := Some(ok);
  }

  /** The diversity loop of `findKTop`: go through the candidates while fewer than three are accepted. */
  method Diversify(values: seq<seq<real>>, n: nat, maxY: real, diverse: real, cands: seq<nat>)
    returns (r: Result<seq<nat>, KTopError>)
    requires maxY != 0.0
    ensures r == GreedyReads(DiversityClash(values, maxY, diverse), n, cands)
  {
    ghost var clash := DiversityClash(values, maxY, diverse);
    var list := [];
    var i := 0;
    while |list| < 3 && i < |cands|
      invariant 0 <= i <= |cands| && GreedyReads(clash, n, cands[..i]) == Success(list)
      invariant |list| <= 3 && forall j :: 1 <= j < |list| ==> list[j] < n
    {
      var flag := Accepts(values, n, maxY, diverse, cands[i], list);
      GreedyReadsStep(clash, n, cands, i);
      if flag.None? {
        GreedyReadsStays(clash, n, cands, i + 1);
        return Failure(TypeErrorAtRank(i));
      }
      if flag.value {
        list := list + [cands[i]];
      }
      i := i + 1;
    }
    if i < |cands| {
      GreedyReadsStays(clash, n, cands, i);
    } else {
      assert cands[..i] == cands;
    }
    r := Success(list);
  }

  // ---------------------------------------------------------------- weights and their order

  /** `{ w, i }` of the read-back. */
  datatype Weighted = Weighted(w: real, i: nat)

  /** `.map((w, i) => data[i] ? { w, i } : { w: 0, i })`: padding slots (index >= n) weigh 0. */
  function Tagged(weights: seq<real>, n: nat): (r: seq<Weighted>)
    ensures |r| == |weights|
    ensures forall i :: 0 <= i < |r| ==> r[i] == Weighted(if i < n then weights[i] else 0.0, i)
  {
    seq(|weights|, i requires 0 <= i < |weights| => Weighted(if i < n then weights[i] else 0.0, i))
  }

  predicate IncreasingIds(ws: seq<Weighted>)
  {
    forall a, b :: 0 <= a < b < |ws| ==> ws[a].i < ws[b].i
  }

  /** `.filter((o) => indexCache.includes(o.i))`. */
  function Keep(ws: seq<Weighted>, cache: seq<nat>): (r: seq<Weighted>)
    ensures forall x :: x in r <==> x in ws && x.i in cache
    ensures IncreasingIds(ws) ==> IncreasingIds(r)
    ensures IncreasingIds(ws) ==> forall x :: x in r ==> exists k :: 0 <= k < |ws| && ws[k] == x
  {
    if |ws| == 0 then []
    else
      var rest := Keep(ws[1..], cache);
      assert forall x :: x in ws <==> x == ws[0] || x in ws[1..];
      if ws[0].i in cache then [ws[0]] + rest else rest
  }

  /** The order the comparator `b.w - a.w` (highest) or `a.w - b.w` puts on the
      candidates with ties kept in input order; the input is in ascending index
      order, so ties are broken by index. */
  predicate Before(highest: bool, a: Weighted, b: Weighted)
  {
    (if highest then a.w > b.w else a.w < b.w) || (a.w == b.w && a.i < b.i)
  }

  /** The comparator order is irreflexive and asymmetric. */
  lemma BeforeStrict(highest: bool, a: Weighted, b: Weighted)
    ensures !Before(highest, a, a)
    ensures !(Before(highest, a, b) && Before(highest, b, a))
  {
  }

  predicate Ranked(highest: bool, s: seq<Weighted>)
  {
    forall a, b :: 0 <= a < b < |s| ==> Before(highest, s[a], s[b])
  }

  predicate DistinctIds(ws: seq<Weighted>)
  {
    forall a, b :: 0 <= a < b < |ws| ==> ws[a].i != ws[b].i
  }

  function Insert(highest: bool, s: seq<Weighted>, x: Weighted): (r: seq<Weighted>)
    ensures multiset(r) == multiset(s) + multiset{x}
  {
    if |s| == 0 then [x]
    else if Before(highest, x, s[0]) then [x] + s
    else
      assert s == [s[0]] + s[1..];
      [s[0]] + Insert(highest, s[1..], x)
  }

  lemma {:induction false} InsertRanked(highest: bool, s: seq<Weighted>, x: Weighted)
    requires Ranked(highest, s) && forall y :: y in s ==> y.i != x.i
    ensures Ranked(highest, Insert(highest, s, x))
    decreases |s|
  {
    if |s| > 0 && !Before(highest, x, s[0]) {
      assert s[0] in s;
      InsertRanked(highest, s[1..], x);
      var r := Insert(highest, s[1..], x);
      forall y | y in r
        ensures Before(highest, s[0], y)
      {
        assert y in multiset(r);
        if y != x {
          assert y in multiset(s[1..]);
          var k :| 0 <= k < |s[1..]| && s[1..][k] == y;
          assert s[k + 1] == y;
        }
      }
    }
  }

  /** The sorted candidate list: insertion of each candidate in input order. */
  function Rank(highest: bool, ws: seq<Weighted>): (r: seq<Weighted>)
    ensures multiset(r) == multiset(ws)
  {
    if |ws| == 0 then []
    else
      assert ws == ws[..|ws| - 1] + [ws[|ws| - 1]];
      Insert(highest, Rank(highest, ws[..|ws| - 1]), ws[|ws| - 1])
  }

  /** With distinct indexes the ranking is ordered by the comparator. */
  lemma {:induction false} RankRanked(highest: bool, ws: seq<Weighted>)
    requires DistinctIds(ws)
    ensures Ranked(highest, Rank(highest, ws))
    decreases |ws|
  {
    if |ws| > 0 {
      var front := ws[..|ws| - 1];
      var x := ws[|ws| - 1];
      RankRanked(highest, front);
      forall y | y in Rank(highest, front)
        ensures y.i != x.i
      {
        assert y in multiset(Rank(highest, front));
        var k :| 0 <= k < |front| && front[k] == y;
      }
      InsertRanked(highest, Rank(highest, front), x);
    }
  }

  /** A ranked permutation is unique: Rank is the only ordering of the
      candidates that the comparator accepts, which is what a stable sort of
      index-ordered input returns. */
  lemma {:induction false} RankUnique(highest: bool, s: seq<Weighted>, t: seq<Weighted>)
    requires Ranked(highest, s) && Ranked(highest, t) && multiset(s) == multiset(t)
    ensures s == t
    decreases |s|
  {
    if |s| == 0 {
      assert |t| == |multiset(t)| == 0;
    } else {
      RankedHeads(highest, s, t);
      TailMultisets(s, t);
      RankUnique(highest, s[1..], t[1..]);
      assert s == [s[0]] + s[1..] && t == [t[0]] + t[1..];
    }
  }

  /** Two ranked permutations of one multiset start with the same element. */
  lemma RankedHeads(highest: bool, s: seq<Weighted>, t: seq<Weighted>)
    requires Ranked(highest, s) && Ranked(highest, t) && multiset(s) == multiset(t) && |s| > 0
    ensures |t| == |s| && s[0] == t[0]
  {
    assert |t| == |multiset(t)| == |s|;
    assert s[0] in multiset(t) && t[0] in multiset(s);
    var a :| 0 <= a < |t| && t[a] == s[0];
    var b :| 0 <= b < |s| && s[b] == t[0];
    BeforeStrict(highest, s[0], t[0]);
  }

  /** Removing one equal head from two permutations leaves permutations. */
  lemma TailMultisets(s: seq<Weighted>, t: seq<Weighted>)
    requires multiset(s) == multiset(t) && |s| > 0 && |t| > 0 && s[0] == t[0]
    ensures multiset(s[1..]) == multiset(t[1..])
  {
    assert s == [s[0]] + s[1..] && t == [t[0]] + t[1..];
    assert multiset(s) == multiset{s[0]} + multiset(s[1..]);
    assert multiset(t) == multiset{t[0]} + multiset(t[1..]);
    forall y
      ensures multiset(s[1..])[y] == multiset(t[1..])[y]
    {
      assert multiset(s)[y] == multiset(t)[y];
    }
  }

  function Ids(ws: seq<Weighted>): (r: seq<nat>)
    ensures |r| == |ws| && forall k :: 0 <= k < |ws| ==> r[k] == ws[k].i
  {
    seq(|ws|, k requires 0 <= k < |ws| => ws[k].i)
  }

  /** The candidates of `findKTop`, best first. */
  function Candidates(weights: seq<real>, n: nat, cache: seq<nat>, highest: bool): seq<Weighted>
  {
    Rank(highest, Keep(Tagged(weights, n), cache))
  }

  /** What `findKTop(isHighest, diverse)` returns: the greedy diverse list,
      or its TypeError, when isHighest and diverse is truthy (non-zero), else
      the first three candidates. */
  function KTop(weights: seq<real>, n: nat, cache: seq<nat>, highest: bool, diverse: real,
                values: seq<seq<real>>, maxY: real): Result<seq<nat>, KTopError>
    requires maxY != 0.0
  {
    var ranked := Candidates(weights, n, cache, highest);
    if highest && diverse != 0.0 then GreedyReads(DiversityClash(values, maxY, diverse), n, Ids(ranked))
    else Success(Ids(ranked[..Min(3, |ranked|)]))
  }

  /** The kept candidates are exactly the cache's slots, each with its tag. */
  lemma KeptTagged(weights: seq<real>, n: nat, cache: seq<nat>)
    ensures var kept := Keep(Tagged(weights, n), cache);
      IncreasingIds(kept) &&
      (forall k :: 0 <= k < |weights| ==> (k in cache <==> Weighted(if k < n then weights[k] else 0.0, k) in kept)) &&
      (forall x :: x in kept ==> x.i < |weights| && x.i in cache)
  {
    var tagged := Tagged(weights, n);
    assert IncreasingIds(tagged);
    var kept := Keep(tagged, cache);
    forall k | 0 <= k < |weights|
      ensures k in cache <==> Weighted(if k < n then weights[k] else 0.0, k) in kept
    {
      assert tagged[k] in tagged;
    }
    forall x | x in kept
      ensures x.i < |weights|
    {
      var t :| 0 <= t < |tagged| && tagged[t] == x;
    }
  }

  /** The candidates are exactly the slots of the cache, tagged with their
      weight (0 for padding), each once, in comparator order. */
  lemma CandidatesSpec(weights: seq<real>, n: nat, cache: seq<nat>, highest: bool)
    ensures var r := Candidates(weights, n, cache, highest);
      Ranked(highest, r) && DistinctIds(r) &&
      (forall k :: 0 <= k < |weights| ==>
        (k in cache <==> Weighted(if k < n then weights[k] else 0.0, k) in r)) &&
      (forall x :: x in r ==> x.i < |weights| && x.i in cache)
  {
    var kept := Keep(Tagged(weights, n), cache);
    KeptTagged(weights, n, cache);
    var r := Rank(highest, kept);
    assert DistinctIds(kept);
    RankRanked(highest, kept);
    SameMembers(r, kept);
    RankedDistinct(highest, r, kept);
  }

  /** Permutations have the same members. */
  lemma SameMembers(a: seq<Weighted>, b: seq<Weighted>)
    requires multiset(a) == multiset(b)
    ensures forall x :: x in a <==> x in b
  {
    forall x
      ensures x in a <==> x in b
    {
      assert x in a <==> x in multiset(a);
      assert x in b <==> x in multiset(b);
    }
  }

  /** A ranked permutation of a list with distinct indexes repeats no index. */
  lemma RankedDistinct(highest: bool, r: seq<Weighted>, ws: seq<Weighted>)
    requires Ranked(highest, r) && multiset(r) == multiset(ws) && DistinctIds(ws)
    ensures DistinctIds(r)
  {
    SameMembers(r, ws);
    forall a, b | 0 <= a < b < |r|
      ensures r[a].i != r[b].i
    {
      assert r[a] in ws && r[b] in ws;
      var p :| 0 <= p < |ws| && ws[p] == r[a];
      var q :| 0 <= q < |ws| && ws[q] == r[b];
      BeforeStrict(highest, r[a], r[b]);
      assert Before(highest, r[a], r[b]);
    }
  }

  /** The candidate indexes: distinct slots of the cache. */
  lemma CandidateIds(weights: seq<real>, n: nat, cache: seq<nat>, highest: bool)
    ensures var ids := Ids(Candidates(weights, n, cache, highest));
      (forall a, b :: 0 <= a < b < |ids| ==> ids[a] != ids[b]) &&
      (forall a :: 0 <= a < |ids| ==> ids[a] < |weights| && ids[a] in cache)
  {
    var ranked := Candidates(weights, n, cache, highest);
    CandidatesSpec(weights, n, cache, highest);
    forall a | 0 <= a < |ranked|
      ensures ranked[a].i < |weights| && ranked[a].i in cache
    {
      assert ranked[a] in ranked;
    }
  }

  /** Without diversity: the first three candidates, distinct slots of the cache. */
  lemma KTopFirstThree(weights: seq<real>, n: nat, cache: seq<nat>, highest: bool, diverse: real,
                       values: seq<seq<real>>, maxY: real)
    requires maxY != 0.0 && !(highest && diverse != 0.0)
    ensures KTop(weights, n, cache, highest, diverse, values, maxY).Success?
    ensures var r := KTop(weights, n, cache, highest, diverse, values, maxY).value;
      var ranked := Candidates(weights, n, cache, highest);
      |r| == Min(3, |ranked|) && (forall a :: 0 <= a < |r| ==> r[a] == ranked[a].i) &&
      (forall a, b :: 0 <= a < b < |r| ==> r[a] != r[b]) &&
      (forall a :: 0 <= a < |r| ==> r[a] < |weights| && r[a] in cache)
  {
    var ranked := Candidates(weights, n, cache, highest);
    var ids := Ids(ranked);
    CandidateIds(weights, n, cache, highest);
    var r := Ids(ranked[..Min(3, |ranked|)]);
    assert KTop(weights, n, cache, highest, diverse, values, maxY) == Success(r);
    assert forall a :: 0 <= a < |r| ==> r[a] == ids[a];
  }

  /** With diversity: it never throws when every cached index names a
      series; it throws exactly at the first rank whose comparison reads an
      unknown series; otherwise at most three distinct slots of the cache,
      the best candidate first, each pick passing the test against the
      earlier ones. */
  lemma KTopDiverse(weights: seq<real>, n: nat, cache: seq<nat>, highest: bool, diverse: real,
                    values: seq<seq<real>>, maxY: real)
    requires maxY != 0.0 && highest && diverse != 0.0
    ensures var k := KTop(weights, n, cache, highest, diverse, values, maxY);
      var ids := Ids(Candidates(weights, n, cache, highest));
      var clash := DiversityClash(values, maxY, diverse);
      ((forall a :: a in cache ==> a < n) ==> k.Success?) &&
      (k.Success? <==> forall t :: 0 <= t < |ids| ==> !Throws(clash, n, ids, t)) &&
      (k.Failure? ==> (Throws(clash, n, ids, k.error.rank) &&
                       forall t :: 0 <= t < k.error.rank ==> !Throws(clash, n, ids, t)))
    ensures var k := KTop(weights, n, cache, highest, diverse, values, maxY);
      var ranked := Candidates(weights, n, cache, highest);
      k.Success? ==>
      var r := k.value;
      |r| <= 3 &&
      (|ranked| > 0 ==> |r| > 0 && r[0] == ranked[0].i) &&
      (forall a, b :: 0 <= a < b < |r| ==> !Clashes(values, maxY, diverse, r[b], r[a])) &&
      (forall a, b :: 0 <= a < b < |r| ==> r[a] != r[b]) &&
      (forall a :: 0 <= a < |r| ==> r[a] < |weights| && r[a] in cache)
  {
    var ids := Ids(Candidates(weights, n, cache, highest));
    CandidateIds(weights, n, cache, highest);
    var clash := DiversityClash(values, maxY, diverse);
    GreedyPairwise(clash, ids);
    if |ids| > 0 {
      GreedyFirst(clash, ids);
    }
    GreedyDistinct(clash, ids);
    GreedyReadsSpec(clash, n, ids);
    if forall a :: a in cache ==> a < n {
      GreedyReadsKnown(clash, n, ids);
    }
    var r := Greedy(clash, ids);
    forall a, b | 0 <= a < b < |r|
      ensures !Clashes(values, maxY, diverse, r[b], r[a])
    {
      assert !clash(r[b], r[a]);
    }
    forall a | 0 <= a < |r|
      ensures r[a] < |weights| && r[a] in cache
    {
      var t :| 0 <= t < |ids| && ids[t] == r[a];
    }
  }
}
