/** `kmeans` of src/core/clustering.js: a k-medoid-like iteration over a given
    distance matrix. A cluster is a list of series indices; every series is
    assigned to the cluster at the smallest mean distance, and the clusters
    are rebuilt from the assignment until nothing moves or 20 rounds pass. */
module Clustering {
  import opened Wrappers
  import opened Extended

  /** An n x n distance matrix (the output of the distance builder). */
  predicate Square(matrix: seq<seq<real>>)
  {
    forall x :: 0 <= x < |matrix| ==> |matrix[x]| == |matrix|
  }

  /** Every member of every cluster is a series index. */
  predicate InRange(clusters: seq<seq<nat>>, n: nat)
  {
    forall j, t :: 0 <= j < |clusters| && 0 <= t < |clusters[j]| ==> clusters[j][t] < n
  }

  // ---------------------------------------------------------------------------
  // dist2Cluster
  // ---------------------------------------------------------------------------

  /** The sum of `row[m]` over the members m. */
  function MemberSum(row: seq<real>, members: seq<nat>): real
    requires forall t :: 0 <= t < |members| ==> members[t] < |row|
  {
    if |members| == 0 then 0.0 else MemberSum(row, members[..|members| - 1]) + row[members[|members| - 1]]
  }

  /** The mean distance from the series of `row` to the members, `Infinity` for none. */
  function ClusterDist(row: seq<real>, members: seq<nat>): Dist
    requires forall t :: 0 <= t < |members| ==> members[t] < |row|
  {
    if |members| == 0 then Infinite else Finite(MemberSum(row, members) / |members| as real)
  }

  /** `dist2Cluster(x, c)`: the accumulator loop over the cluster's members. */
  method Dist2Cluster(row: seq<real>, members: seq<nat>) returns (d: Dist)
    requires forall t :: 0 <= t < |members| ==> members[t] < |row|
    ensures d == ClusterDist(row, members)
  {
    var sum := 0.0;
    for i := 0 to |members|
      invariant sum == MemberSum(row, members[..i])
    {
      assert members[..i + 1][..i] == members[..i];
      sum := sum + row[members[i]];
    }
    assert members[..|members|] == members;
    if |members| > 0 {
      d := Finite(sum / |members| as real);
    } else {
      d := Infinite;
    }
  }

  /** The distances of the members lie in [lo, hi]: so does their sum over |members| terms. */
  lemma {:induction false} MemberSumBetween(row: seq<real>, members: seq<nat>, lo: real, hi: real)
    requires forall t :: 0 <= t < |members| ==> members[t] < |row| && lo <= row[members[t]] <= hi
    ensures lo * |members| as real <= MemberSum(row, members) <= hi * |members| as real
    decreases |members|
  {
    if |members| > 0 {
      var prefix := members[..|members| - 1];
      MemberSumBetween(row, prefix, lo, hi);
      assert lo * |members| as real == lo * |prefix| as real + lo;
      assert hi * |members| as real == hi * |prefix| as real + hi;
    }
  }

  /** A non-empty cluster's distance is a mean: it lies between the smallest
      and the largest member distance. */
  lemma MeanBetween(row: seq<real>, members: seq<nat>, lo: real, hi: real)
    requires |members| > 0
    requires forall t :: 0 <= t < |members| ==> members[t] < |row| && lo <= row[members[t]] <= hi
    ensures ClusterDist(row, members).Finite? && lo <= ClusterDist(row, members).v <= hi
  {
    MemberSumBetween(row, members, lo, hi);
    var n := |members| as real;
    var s := MemberSum(row, members);
    assert lo * n <= s <= hi * n;
    assert s / n * n == s;
    CancelFactor(lo, s / n, n);
    CancelFactor(s / n, hi, n);
  }

  lemma CancelFactor(a: real, b: real, n: real)
    requires n > 0.0 && a * n <= b * n
    ensures a <= b
  {
  }

  // ---------------------------------------------------------------------------
  // classify
  // ---------------------------------------------------------------------------

  /** The distances from series x to every cluster. */
  function Dists(matrix: seq<seq<real>>, clusters: seq<seq<nat>>, x: nat): (ds: seq<Dist>)
    requires Square(matrix) && InRange(clusters, |matrix|) && x < |matrix|
    ensures |ds| == |clusters|
  {
    seq(|clusters|, c requires 0 <= c < |clusters| => ClusterDist(matrix[x], clusters[c]))
  }

  /** What the `classify` loop selects among ds[0 ..]: the first index, then
      any later index whose distance the current minimum strictly exceeds;
      nothing (`null`) when there are no clusters. */
  function Argmin(ds: seq<Dist>): (r: Option<nat>)
    ensures r.None? <==> |ds| == 0
    ensures r.Some? ==> r.value < |ds|
  {
    if |ds| == 0 then None
    else
      var a := Argmin(ds[..|ds| - 1]);
      if a.None? || Greater(ds[a.value], ds[|ds| - 1]) then Some(|ds| - 1) else a
  }

  /** The selected cluster has the least distance, and is the lowest index that has it. */
  lemma {:induction false} ArgminIsFirstMinimum(ds: seq<Dist>)
    requires |ds| > 0
    ensures var c := Argmin(ds).value;
      (forall i :: 0 <= i < |ds| ==> !Greater(ds[c], ds[i])) &&
      (forall i :: 0 <= i < c ==> Greater(ds[i], ds[c]))
    decreases |ds|
  {
    var last := |ds| - 1;
    var prefix := ds[..last];
    if |prefix| > 0 {
      ArgminIsFirstMinimum(prefix);
      var a := Argmin(prefix).value;
      assert forall i :: 0 <= i < last ==> prefix[i] == ds[i];
    }
  }

  /** `classify(x)`. */
  method Classify(matrix: seq<seq<real>>, clusters: seq<seq<nat>>, x: nat) returns (choice: Option<nat>)
    requires Square(matrix) && InRange(clusters, |matrix|) && x < |matrix|
    ensures choice == Argmin(Dists(matrix, clusters, x))
  {
    ghost var ds := Dists(matrix, clusters, x);
    choice := None;
    var min := Finite(0.0);
    for i := 0 to |clusters|
      invariant choice == Argmin(ds[..i])
      invariant choice.Some? ==> min == ds[choice.value]
    {
      assert ds[..i + 1][..i] == ds[..i];
      var dis := Dist2Cluster(matrix[x], clusters[i]);
      if choice.None? || Greater(min, dis) {
        choice := Some(i);
        min := dis;
      }
    }
    assert ds[..|clusters|] == ds;
  }

  /** The assignment pass: `assignment[i] = classify(i)` for every series. */
  function Assign(matrix: seq<seq<real>>, clusters: seq<seq<nat>>): (a: seq<Option<nat>>)
    requires Square(matrix) && InRange(clusters, |matrix|)
    ensures |a| == |matrix|
  {
    seq(|matrix|, x requires 0 <= x < |matrix| => Argmin(Dists(matrix, clusters, x)))
  }

  // ---------------------------------------------------------------------------
  // The centroid update pass
  // ---------------------------------------------------------------------------

  /** The indices assigned to cluster j, ascending (the `assigned.push(i)` loop). */
  function Members(assign: seq<Option<nat>>, j: nat): (r: seq<nat>)
    ensures forall i :: 0 <= i < |assign| ==> (i in r <==> assign[i] == Some(j))
    ensures forall a, b :: 0 <= a < b < |r| ==> r[a] < r[b]
    ensures forall t :: 0 <= t < |r| ==> r[t] < |assign|
  {
    if |assign| == 0 then []
    else
      var prev := Members(assign[..|assign| - 1], j);
      if assign[|assign| - 1] == Some(j) then prev + [|assign| - 1] else prev
  }

  /** The update loop from cluster j on: rebuild cluster j from the
      assignment; stop right after the first cluster that changed. */
  function PassFrom(assign: seq<Option<nat>>, clusters: seq<seq<nat>>, j: nat): (r: (seq<seq<nat>>, bool))
    requires j <= |clusters|
    decreases |clusters| - j
  {
    if j == |clusters| then (clusters, false)
    else
      var m := Members(assign, j);
      if m != clusters[j] then (clusters[j := m], true) else PassFrom(assign, clusters, j + 1)
  }

  /** Clusters 0 .. j - 1 already equal their assignment lists. */
  ghost predicate SettledBelow(assign: seq<Option<nat>>, clusters: seq<seq<nat>>, j: nat)
  {
    forall j' :: 0 <= j' < j && j' < |clusters| ==> clusters[j'] == Members(assign, j')
  }

  /** The pass keeps the number of clusters, and every member is a point index. */
  lemma {:induction false} PassInRange(assign: seq<Option<nat>>, clusters: seq<seq<nat>>, j0: nat)
    requires j0 <= |clusters| && InRange(clusters, |assign|)
    ensures |PassFrom(assign, clusters, j0).0| == |clusters| && InRange(PassFrom(assign, clusters, j0).0, |assign|)
    decreases |clusters| - j0
  {
    if j0 < |clusters| && Members(assign, j0) == clusters[j0] {
      PassInRange(assign, clusters, j0 + 1);
    }
  }

  /** The pass reports movement iff some cluster from j0 on differs from its
      assignment list. */
  lemma {:induction false} PassMoved(assign: seq<Option<nat>>, clusters: seq<seq<nat>>, j0: nat)
    requires j0 <= |clusters| && SettledBelow(assign, clusters, j0)
    ensures PassFrom(assign, clusters, j0).1 <==> exists j :: 0 <= j < |clusters| && clusters[j] != Members(assign, j)
    decreases |clusters| - j0
  {
    if j0 < |clusters| {
      if Members(assign, j0) == clusters[j0] {
        PassMoved(assign, clusters, j0 + 1);
      }
    }
  }

  /** From j0 on, the pass rebuilds exactly the clusters with no change before them. */
  lemma {:induction false} PassRebuilds(assign: seq<Option<nat>>, clusters: seq<seq<nat>>, j0: nat)
    requires j0 <= |clusters| && SettledBelow(assign, clusters, j0)
    ensures |PassFrom(assign, clusters, j0).0| == |clusters|
    ensures forall j :: 0 <= j < |clusters| ==>
      PassFrom(assign, clusters, j0).0[j] == if SettledBelow(assign, clusters, j) then Members(assign, j) else clusters[j]
    decreases |clusters| - j0
  {
    if j0 < |clusters| {
      var m := Members(assign, j0);
      if m != clusters[j0] {
        forall j | j0 < j < |clusters|
          ensures !SettledBelow(assign, clusters, j)
        {
          assert clusters[j0] != Members(assign, j0);
        }
      } else {
        PassRebuilds(assign, clusters, j0 + 1);
      }
    }
  }

  /** The pass's outcome: a cluster is rebuilt when no earlier one changed,
      and kept otherwise; it reports movement iff some cluster differs from
      its assignment list. */
  lemma PassShape(assign: seq<Option<nat>>, clusters: seq<seq<nat>>)
    ensures var (r, moved) := PassFrom(assign, clusters, 0);
      |r| == |clusters| &&
      (moved <==> exists j :: 0 <= j < |clusters| && clusters[j] != Members(assign, j)) &&
      (forall j :: 0 <= j < |clusters| ==>
        r[j] == if SettledBelow(assign, clusters, j) then Members(assign, j) else clusters[j])
  {
    PassMoved(assign, clusters, 0);
    PassRebuilds(assign, clusters, 0);
  }

  /** The `for (j = 0; j < k && !movement; j++)` loop over the clusters array. */
  method UpdatePass(assignment: array<Option<nat>>, clusters: array<seq<nat>>) returns (movement: bool)
    requires assignment != clusters as object
    modifies clusters
    ensures (clusters[..], movement) == PassFrom(assignment[..], old(clusters[..]), 0)
  {
    ghost var start := clusters[..];
    ghost var assign := assignment[..];
    movement := false;
    var j := 0;
    while j < clusters.Length && !movement
      invariant 0 <= j <= clusters.Length
      invariant movement ==> PassFrom(assign, start, 0) == (clusters[..], true)
      invariant !movement ==> clusters[..] == start && PassFrom(assign, start, 0) == PassFrom(assign, start, j)
    {
      var gathered := Gather(assignment, j);
      movement := Differs(gathered, clusters[j]);
      clusters[j] := gathered;
      j := j + 1;
    }
  }

  /** The length test and then the element-by-element comparison of the
      gathered list with the current cluster. */
  method Differs(gathered: seq<nat>, current: seq<nat>) returns (movement: bool)
    ensures movement <==> gathered != current
  {
    if |gathered| != |current| {
      return true;
    }
    movement := false;
    for i := 0 to |gathered|
      invariant movement <==> gathered[..i] != current[..i]
    {
      if gathered[i] != current[i] {
        movement := true;
      }
      assert gathered[..i + 1] == gathered[..i] + [gathered[i]];
      assert current[..i + 1] == current[..i] + [current[i]];
    }
    assert gathered[..|gathered|] == gathered && current[..|current|] == current;
  }

  /** The `assigned.push(i)` loop. */
  method Gather(assignment: array<Option<nat>>, j: nat) returns (gathered: seq<nat>)
    ensures gathered == Members(assignment[..], j)
  {
    gathered := [];
    for i := 0 to assignment.Length
      invariant gathered == Members(assignment[..i], j)
    {
      assert assignment[..i + 1][..i] == assignment[..i];
      if assignment[i] == Some(j) {
        gathered := gathered + [i];
      }
    }
    assert assignment[..assignment.Length] == assignment[..];
  }

  // ---------------------------------------------------------------------------
  // The main loop
  // ---------------------------------------------------------------------------

  /** `clusters = new Array(k)...map((_, i) => [i, data.length - i - 1])`. */
  function Initial(k: nat, n: nat): (cl: seq<seq<nat>>)
    requires k <= n
    ensures |cl| == k && InRange(cl, n)
  {
    seq(k, i requires 0 <= i < k => [i, n - i - 1])
  }

  /** The `while (movement && iterations > 0)` loop: each round assigns
      every series, then runs the update pass. */
  function Rounds(matrix: seq<seq<real>>, clusters: seq<seq<nat>>, movement: bool, iterations: nat)
    : (r: (seq<seq<nat>>, nat, bool))
    requires Square(matrix) && InRange(clusters, |matrix|)
    ensures |r.0| == |clusters| && InRange(r.0, |matrix|)
    decreases iterations
  {
    if !(movement && iterations > 0) then (clusters, iterations, movement)
    else
      var assign := Assign(matrix, clusters);
      var (next, moved) := PassFrom(assign, clusters, 0);
      PassInRange(assign, clusters, 0);
      Rounds(matrix, next, moved, iterations - 1)
  }

  /** The clusters are a fixed point of assign-then-rebuild: each equals the
      list of series whose nearest cluster it is. */
  ghost predicate Stable(matrix: seq<seq<real>>, clusters: seq<seq<nat>>)
    requires Square(matrix) && InRange(clusters, |matrix|)
  {
    forall j :: 0 <= j < |clusters| ==> clusters[j] == Members(Assign(matrix, clusters), j)
  }

  /** The loop runs at least one round and at most `iterations`; it leaves
      either without movement or with no rounds left; without movement the
      clusters are stable. */
  lemma {:induction false} RoundsOutcome(matrix: seq<seq<real>>, clusters: seq<seq<nat>>, iterations: nat)
    requires Square(matrix) && InRange(clusters, |matrix|) && iterations >= 1
    ensures var (cl, left, movement) := Rounds(matrix, clusters, true, iterations);
      left < iterations && (!movement || left == 0) && (!movement ==> Stable(matrix, cl))
    decreases iterations
  {
    var assign := Assign(matrix, clusters);
    var (next, moved) := PassFrom(assign, clusters, 0);
    PassInRange(assign, clusters, 0);
    PassShape(assign, clusters);
    if moved && iterations > 1 {
      RoundsOutcome(matrix, next, iterations - 1);
    } else if !moved {
      assert next == clusters by {
        forall j | 0 <= j < |clusters|
          ensures next[j] == clusters[j]
        {
        }
      }
    }
  }

  /** The cluster `classify(x)` picks when there is at least one. */
  function Nearest(matrix: seq<seq<real>>, clusters: seq<seq<nat>>, x: nat): (c: nat)
    requires Square(matrix) && InRange(clusters, |matrix|) && x < |matrix| && |clusters| >= 1
    ensures c < |clusters|
  {
    Argmin(Dists(matrix, clusters, x)).value
  }

  /** Stable clusters with k >= 1 partition the series: series x is in its
      nearest cluster and in no other, and every cluster is ascending. */
  lemma StablePartition(matrix: seq<seq<real>>, clusters: seq<seq<nat>>)
    requires Square(matrix) && InRange(clusters, |matrix|) && |clusters| >= 1 && Stable(matrix, clusters)
    ensures forall x :: 0 <= x < |matrix| ==> x in clusters[Nearest(matrix, clusters, x)]
    ensures forall x, j :: 0 <= j < |clusters| && x in clusters[j] ==> x < |matrix| && j == Nearest(matrix, clusters, x)
    ensures forall j, a, b :: 0 <= j < |clusters| && 0 <= a < b < |clusters[j]| ==> clusters[j][a] < clusters[j][b]
  {
    var assign := Assign(matrix, clusters);
    forall x | 0 <= x < |matrix|
      ensures x in clusters[Nearest(matrix, clusters, x)]
    {
      assert x in Members(assign, Nearest(matrix, clusters, x));
    }
    forall x, j | 0 <= j < |clusters| && x in clusters[j]
      ensures x < |matrix| && j == Nearest(matrix, clusters, x)
    {
      assert x in Members(assign, j);
    }
    forall j | 0 <= j < |clusters|
      ensures clusters[j] == Members(assign, j)
    {
    }
  }

  /** What `kmeans` returns: all clusters (`allFlag`) or each cluster's first
      member (`undefined`, None, for an empty one), mapped through `ids`
      when given. */
  datatype Clustering = Groups(groups: seq<seq<nat>>) | Leaders(leaders: seq<Option<nat>>)

  /** `ids ? ids[d] : d`. */
  function Named(ids: Option<seq<nat>>, d: nat): nat
    requires ids.Some? ==> d < |ids.value|
  {
    if ids.Some? then ids.value[d] else d
  }

  /** The return statement of `kmeans`. */
  function Present(clusters: seq<seq<nat>>, n: nat, allFlag: bool, ids: Option<seq<nat>>): (r: Clustering)
    requires InRange(clusters, n) && (ids.Some? ==> |ids.value| >= n)
    ensures allFlag ==> (r.Groups? && |r.groups| == |clusters| &&
                         forall j :: 0 <= j < |clusters| ==> |r.groups[j]| == |clusters[j]|)
    ensures allFlag ==> forall j, t :: 0 <= j < |clusters| && 0 <= t < |clusters[j]| ==>
                          r.groups[j][t] == Named(ids, clusters[j][t])
    ensures !allFlag ==> (r.Leaders? && |r.leaders| == |clusters| &&
                          forall j :: 0 <= j < |clusters| ==>
                            r.leaders[j] == if |clusters[j]| == 0 then None else Some(Named(ids, clusters[j][0])))
  {
    if allFlag then
      Groups(seq(|clusters|, j requires 0 <= j < |clusters| =>
        seq(|clusters[j]|, t requires 0 <= t < |clusters[j]| => Named(ids, clusters[j][t]))))
    else
      Leaders(seq(|clusters|, j requires 0 <= j < |clusters| =>
        if |clusters[j]| == 0 then None else Some(Named(ids, clusters[j][0]))))
  }

  /** The `for (i = 0; i < data.length; i++) assignment[i] = classify(i)` loop. */
  method AssignAll(matrix: seq<seq<real>>, clusters: seq<seq<nat>>, assignment: array<Option<nat>>)
    requires Square(matrix) && InRange(clusters, |matrix|) && assignment.Length == |matrix|
    modifies assignment
    ensures assignment[..] == Assign(matrix, clusters)
  {
    for i := 0 to |matrix|
      invariant forall i' :: 0 <= i' < i ==> assignment[i'] == Argmin(Dists(matrix, clusters, i'))
    {
      assignment[i] := Classify(matrix, clusters, i);
    }
  }

  /** One round of the main loop. */
  method Round(matrix: seq<seq<real>>, assignment: array<Option<nat>>, clusters: array<seq<nat>>)
    returns (movement: bool)
    requires Square(matrix) && InRange(clusters[..], |matrix|) && assignment.Length == |matrix|
    requires assignment != clusters as object
    modifies assignment, clusters
    ensures (clusters[..], movement) == PassFrom(Assign(matrix, old(clusters[..])), old(clusters[..]), 0)
  {
    AssignAll(matrix, clusters[..], assignment);
    movement := UpdatePass(assignment, clusters);
  }

  /** One round advances `Rounds` by one iteration. */
  lemma RoundStep(matrix: seq<seq<real>>, before: seq<seq<nat>>, after: seq<seq<nat>>, movement: bool, iterations: nat)
    requires Square(matrix) && InRange(before, |matrix|)
    requires (after, movement) == PassFrom(Assign(matrix, before), before, 0)
    ensures |after| == |before| && InRange(after, |matrix|)
    ensures Rounds(matrix, before, true, iterations + 1) == Rounds(matrix, after, movement, iterations)
  {
    PassInRange(Assign(matrix, before), before, 0);
  }

  /** `kmeans(data, k, allFlag, ids)` over the distance matrix of `data`. */
  method KMeans(matrix: seq<seq<real>>, k: nat, allFlag: bool, ids: Option<seq<nat>>) returns (out: Clustering)
    requires Square(matrix) && k <= |matrix|
    requires ids.Some? ==> |ids.value| >= |matrix|
    ensures out == Present(Rounds(matrix, Initial(k, |matrix|), true, 20).0, |matrix|, allFlag, ids)
  {
    var n := |matrix|;
    var assignment := new Option<nat>[n](_ => None);
    var clusters := new seq<nat>[k](i requires 0 <= i < k => [i, n - i - 1]);
    assert clusters[..] == Initial(k, n);
    var iterations := 20;
    var movement := true;
    while movement && iterations > 0
      invariant InRange(clusters[..], n) && clusters.Length == k
      invariant Rounds(matrix, clusters[..], movement, iterations) == Rounds(matrix, Initial(k, n), true, 20)
      decreases iterations
    {
      iterations := iterations - 1;
      ghost var before := clusters[..];
      movement := Round(matrix, assignment, clusters);
      RoundStep(matrix, before, clusters[..], movement, iterations);
    }
    out := Present(clusters[..], n, allFlag, ids);
  }
}
