/** The K-Means engine of cluster/kmeans.py: a list of clusters, a random
    initial partition, then rounds of prototype update, nearest-prototype
    reassignment and a convergence flag; `test` turns the final prototypes
    into hit rate and accuracy. */
module Kmeans {
  import opened Vectors

  /** `calcPrototype` sums and divides this many components, whatever the
      dimension of the data. */
  const Components: nat := 200

  /** One cluster: its prototype and the training indices assigned to it in
      the current pass and in the pass before. */
  datatype Cluster = Cluster(prototype: Vector, currentMembers: set<nat>, previousMembers: set<nat>)

  /** A fresh cluster of `Cluster.__init__`: a zero prototype and no members. */
  function EmptyCluster(dim: nat): Cluster {
    Cluster(seq(dim, _ => 0.0), {}, {})
  }

  ghost predicate WellFormed(c: Cluster, dim: nat, count: nat) {
    |c.prototype| == dim &&
    (forall m :: m in c.currentMembers ==> m < count) &&
    (forall m :: m in c.previousMembers ==> m < count)
  }

  ghost predicate AllWellFormed(cs: seq<Cluster>, dim: nat, count: nat) {
    forall k :: 0 <= k < |cs| ==> WellFormed(cs[k], dim, count)
  }

  /** `parts` partitions the indices below `count`: each index lies in exactly
      one part, and no part holds anything else. */
  ghost predicate Partitions(parts: seq<set<nat>>, count: nat) {
    (forall i :: 0 <= i < count ==> Covered(parts, i)) &&
    (forall k, k', i :: 0 <= k < |parts| && 0 <= k' < |parts| && i in parts[k] && i in parts[k'] ==> k == k') &&
    (forall k, i :: 0 <= k < |parts| && i in parts[k] ==> i < count)
  }

  ghost predicate Covered(parts: seq<set<nat>>, i: nat) {
    exists k :: 0 <= k < |parts| && i in parts[k]
  }

  ghost predicate OwnedBy(owner: seq<nat>, i: nat, k: int) {
    i < |owner| && owner[i] == k
  }

  /** Parts that hold exactly the indices their owner names partition those indices. */
  lemma OwnerPartitions(parts: seq<set<nat>>, owner: seq<nat>)
    requires forall i :: 0 <= i < |owner| ==> owner[i] < |parts| && i in parts[owner[i]]
    requires forall k, i :: 0 <= k < |parts| && i in parts[k] ==> OwnedBy(owner, i, k)
    ensures Partitions(parts, |owner|)
  {
    forall i | 0 <= i < |owner| ensures Covered(parts, i) {
      assert i in parts[owner[i]];
    }
  }

  function Current(cs: seq<Cluster>): seq<set<nat>> {
    seq(|cs|, k requires 0 <= k < |cs| => cs[k].currentMembers)
  }

  function Previous(cs: seq<Cluster>): seq<set<nat>> {
    seq(|cs|, k requires 0 <= k < |cs| => cs[k].previousMembers)
  }

  // ---------------------------------------------------------------------
  // calcPrototype

  /** Component `j` summed over the rows below `upto` whose index is in `members`. */
  function MemberSum(data: seq<Vector>, members: set<nat>, j: nat, upto: nat): real
    requires upto <= |data|
    requires forall i :: 0 <= i < |data| ==> j < |data[i]|
  {
    if upto == 0 then 0.0
    else MemberSum(data, members, j, upto - 1) + (if upto - 1 in members then data[upto - 1][j] else 0.0)
  }

  /** Adding one index to the member set adds that row's component to the
      sum, whatever order the members are visited in. */
  lemma {:induction false} MemberSumInsert(data: seq<Vector>, members: set<nat>, m: nat, j: nat, upto: nat)
    requires upto <= |data|
    requires forall i :: 0 <= i < |data| ==> j < |data[i]|
    requires m !in members && m < |data|
    ensures MemberSum(data, members + {m}, j, upto)
         == MemberSum(data, members, j, upto) + (if m < upto then data[m][j] else 0.0)
  {
    if upto > 0 {
      MemberSumInsert(data, members, m, j, upto - 1);
    }
  }

  lemma {:induction false} MemberSumEmpty(data: seq<Vector>, j: nat, upto: nat)
    requires upto <= |data|
    requires forall i :: 0 <= i < |data| ==> j < |data[i]|
    ensures MemberSum(data, {}, j, upto) == 0.0
  {
    if upto > 0 {
      MemberSumEmpty(data, j, upto - 1);
    }
  }

  /** The component-wise mean of the members' rows. */
  function Mean(data: seq<Vector>, members: set<nat>, j: nat): real
    requires forall i :: 0 <= i < |data| ==> j < |data[i]|
    requires |members| > 0
  {
    MemberSum(data, members, j, |data|) / |members| as real
  }

  /** The cluster `calcPrototype` leaves behind: for each component below 200
      of a cluster with m > 0 members, (old value + sum over the members) / m;
      the prototype is not reset first. Previous members become the current
      ones; current members are cleared. */
  function Recomputed(c: Cluster, data: seq<Vector>, dim: nat): (r: Cluster)
    requires Rows(data, dim) && |c.prototype| == dim && Components <= dim
    ensures |r.prototype| == dim
  {
    var size := |c.currentMembers|;
    Cluster(
      seq(dim, j requires 0 <= j < dim =>
        if j < Components && size > 0
        then (c.prototype[j] + MemberSum(data, c.currentMembers, j, |data|)) / size as real
        else c.prototype[j]),
      {},
      c.currentMembers)
  }

  function CalcPrototypes(cs: seq<Cluster>, data: seq<Vector>, dim: nat): (r: seq<Cluster>)
    requires Rows(data, dim) && Components <= dim && AllWellFormed(cs, dim, |data|)
    ensures |r| == |cs| && AllWellFormed(r, dim, |data|)
  {
    seq(|cs|, k requires 0 <= k < |cs| => Recomputed(cs[k], data, dim))
  }

  /** A component below 200 of a non-empty cluster becomes the mean of its
      members exactly when it was zero before: only the update from the zero
      prototype of `Cluster.__init__` yields a mean. */
  lemma RecomputedIsMeanIffZero(c: Cluster, data: seq<Vector>, dim: nat, j: nat)
    requires Rows(data, dim) && |c.prototype| == dim && Components <= dim
    requires j < Components && |c.currentMembers| > 0
    ensures Recomputed(c, data, dim).prototype[j] == Mean(data, c.currentMembers, j)
            <==> c.prototype[j] == 0.0
  {
    var size := |c.currentMembers| as real;
    var s := MemberSum(data, c.currentMembers, j, |data|);
    assert (c.prototype[j] + s) / size == c.prototype[j] / size + s / size;
    assert c.prototype[j] / size == 0.0 <==> c.prototype[j] == 0.0;
  }

  /** The inner loops of `calcPrototype` that add every member's row to the
      prototype, component by component, for the first 200 components. The
      members are visited in an arbitrary order, as a Python set is. */
  method SumMembers(data: seq<Vector>, proto: Vector, members: set<nat>, dim: nat) returns (sum: Vector)
    requires Rows(data, dim) && |proto| == dim && Components <= dim
    requires forall m :: m in members ==> m < |data|
    ensures |sum| == dim
    ensures forall j :: 0 <= j < dim ==>
      sum[j] == if j < Components then proto[j] + MemberSum(data, members, j, |data|) else proto[j]
  {
    sum := proto;
    var remaining := members;
    forall j | 0 <= j < Components ensures MemberSum(data, members - remaining, j, |data|) == 0.0 {
      assert members - remaining == {};
      MemberSumEmpty(data, j, |data|);
    }
    while remaining != {}
      invariant remaining <= members && |sum| == dim
      invariant forall j :: 0 <= j < dim ==>
        sum[j] == if j < Components then proto[j] + MemberSum(data, members - remaining, j, |data|) else proto[j]
      decreases remaining
    {
      var member :| member in remaining;
      ghost var before := sum;
      for j := 0 to Components
        invariant |sum| == dim
        invariant forall j' :: 0 <= j' < dim ==>
          sum[j'] == if j' < j then before[j'] + data[member][j'] else before[j']
      {
        sum := sum[j := sum[j] + data[member][j]];
      }
      forall j | 0 <= j < Components
        ensures MemberSum(data, members - (remaining - {member}), j, |data|)
             == MemberSum(data, members - remaining, j, |data|) + data[member][j]
      {
        assert members - (remaining - {member}) == (members - remaining) + {member};
        MemberSumInsert(data, members - remaining, member, j, |data|);
      }
      remaining := remaining - {member};
    }
    assert members - remaining == members;
  }

  /** The second loop of `calcPrototype`: divide each of the first 200
      components by the member count, when there is at least one member. */
  method DivideBy(sum: Vector, size: nat) returns (proto: Vector)
    requires Components <= |sum|
    ensures |proto| == |sum|
    ensures size == 0 ==> proto == sum
    ensures forall j :: 0 <= j < |sum| ==>
      proto[j] == if j < Components && size > 0 then sum[j] / size as real else sum[j]
  {
    proto := sum;
    for j := 0 to Components
      invariant |proto| == |sum|
      invariant forall j' :: 0 <= j' < |sum| ==>
        proto[j'] == if j' < j && size > 0 then sum[j'] / size as real else sum[j']
    {
      if size > 0 {
        proto := proto[j := proto[j] / size as real];
      }
    }
  }

  // ---------------------------------------------------------------------
  // Reassignment

  function Prototypes(cs: seq<Cluster>): seq<Vector> {
    seq(|cs|, k requires 0 <= k < |cs| => cs[k].prototype)
  }

  /** The reference definition of the nearest prototype among `protos[..upto]`:
      the lowest index at minimum (squared) distance, which is what a scan with
      a strict `<` from +infinity keeps. */
  function FirstNearest(protos: seq<Vector>, x: Vector, dim: nat, upto: nat): (r: nat)
    requires 0 < upto <= |protos| && dim <= |x|
    requires forall k :: 0 <= k < |protos| ==> |protos[k]| == dim
    ensures r < upto
  {
    if upto == 1 then 0
    else
      var best := FirstNearest(protos, x, dim, upto - 1);
      if SqDist(x, protos[upto - 1], dim) < SqDist(x, protos[best], dim) then upto - 1 else best
  }

  /** The scan keeps a prototype at least as near as every one scanned, and
      strictly nearer than every one before it. */
  lemma {:induction false} FirstNearestIsMinimum(protos: seq<Vector>, x: Vector, dim: nat, upto: nat)
    requires 0 < upto <= |protos| && dim <= |x|
    requires forall k :: 0 <= k < |protos| ==> |protos[k]| == dim
    ensures var r := FirstNearest(protos, x, dim, upto);
      (forall k :: 0 <= k < upto ==> SqDist(x, protos[r], dim) <= SqDist(x, protos[k], dim)) &&
      (forall k :: 0 <= k < r ==> SqDist(x, protos[r], dim) < SqDist(x, protos[k], dim))
  {
    if upto > 1 {
      FirstNearestIsMinimum(protos, x, dim, upto - 1);
    }
  }

  function Nearest(cs: seq<Cluster>, x: Vector, dim: nat): (r: nat)
    requires 0 < |cs| && dim <= |x|
    requires forall k :: 0 <= k < |cs| ==> |cs[k].prototype| == dim
    ensures r < |cs|
  {
    FirstNearest(Prototypes(cs), x, dim, |cs|)
  }

  /** The cluster a vector is assigned to has a prototype at least as near
      as every other, and strictly nearer than every cluster before it. */
  lemma NearestIsFirstMinimum(cs: seq<Cluster>, x: Vector, dim: nat)
    requires 0 < |cs| && dim <= |x|
    requires forall k :: 0 <= k < |cs| ==> |cs[k].prototype| == dim
    ensures var r := Nearest(cs, x, dim);
      (forall k :: 0 <= k < |cs| ==> SqDist(x, cs[r].prototype, dim) <= SqDist(x, cs[k].prototype, dim)) &&
      (forall k :: 0 <= k < r ==> SqDist(x, cs[r].prototype, dim) < SqDist(x, cs[k].prototype, dim))
  {
    var protos := Prototypes(cs);
    FirstNearestIsMinimum(protos, x, dim, |cs|);
    assert forall k :: 0 <= k < |cs| ==> protos[k] == cs[k].prototype;
  }

  /** The reassignment loop over the first `upto` training indices: each
      joins the current members of the cluster whose prototype (in `cs`) is
      nearest. Prototypes and previous members stay as they are. */
  function ReassignedUpTo(cs: seq<Cluster>, data: seq<Vector>, dim: nat, upto: nat): (r: seq<Cluster>)
    requires 0 < |cs| && upto <= |data| && Rows(data, dim) && AllWellFormed(cs, dim, |data|)
    ensures |r| == |cs| && Prototypes(r) == Prototypes(cs) && Previous(r) == Previous(cs)
  {
    if upto == 0 then cs
    else
      var r := ReassignedUpTo(cs, data, dim, upto - 1);
      var k := Nearest(cs, data[upto - 1], dim);
      r[k := r[k].(currentMembers := r[k].currentMembers + {upto - 1})]
  }

  function Reassigned(cs: seq<Cluster>, data: seq<Vector>, dim: nat): (r: seq<Cluster>)
    requires 0 < |cs| && Rows(data, dim) && AllWellFormed(cs, dim, |data|)
    ensures |r| == |cs| && AllWellFormed(r, dim, |data|)
  {
    ReassignedStaysWellFormed(cs, data, dim, |data|);
    ReassignedUpTo(cs, data, dim, |data|)
  }

  lemma {:induction false} ReassignedStaysWellFormed(cs: seq<Cluster>, data: seq<Vector>, dim: nat, upto: nat)
    requires 0 < |cs| && upto <= |data| && Rows(data, dim) && AllWellFormed(cs, dim, |data|)
    ensures AllWellFormed(ReassignedUpTo(cs, data, dim, upto), dim, |data|)
  {
    if upto > 0 {
      ReassignedStaysWellFormed(cs, data, dim, upto - 1);
    }
  }

  /** After the reassignment loop a cluster holds what it held before plus
      exactly the indices whose nearest prototype is its own. */
  lemma {:induction false} ReassignedMembers(cs: seq<Cluster>, data: seq<Vector>, dim: nat, upto: nat, k: nat, i: nat)
    requires 0 < |cs| && upto <= |data| && Rows(data, dim) && AllWellFormed(cs, dim, |data|)
    requires k < |cs|
    ensures i in ReassignedUpTo(cs, data, dim, upto)[k].currentMembers
        <==> i in cs[k].currentMembers || (i < upto && Nearest(cs, data[i], dim) == k)
  {
    if upto > 0 {
      ReassignedMembers(cs, data, dim, upto - 1, k, i);
      ReassignedStep(cs, data, dim, upto, k, i);
    }
  }

  /** One step of the reassignment loop adds index `upto - 1` to its nearest
      cluster and nothing else. */
  lemma ReassignedStep(cs: seq<Cluster>, data: seq<Vector>, dim: nat, upto: nat, k: nat, i: nat)
    requires 0 < |cs| && 0 < upto <= |data| && Rows(data, dim) && AllWellFormed(cs, dim, |data|)
    requires k < |cs|
    ensures i in ReassignedUpTo(cs, data, dim, upto)[k].currentMembers
        <==> i in ReassignedUpTo(cs, data, dim, upto - 1)[k].currentMembers
             || (i == upto - 1 && Nearest(cs, data[i], dim) == k)
  {
  }

  /** The convergence flag after the loop of lines 73-77: each iteration
      overwrites it, so only the last cluster decides. */
  predicate LastStable(cs: seq<Cluster>) {
    |cs| > 0 && cs[|cs| - 1].currentMembers == cs[|cs| - 1].previousMembers
  }

  /** Convergence as intended: no cluster changed its members. */
  predicate AllStable(cs: seq<Cluster>) {
    forall k :: 0 <= k < |cs| ==> cs[k].currentMembers == cs[k].previousMembers
  }

  /** One pass of the `while not converged` body. */
  function Iteration(cs: seq<Cluster>, data: seq<Vector>, dim: nat): (r: (seq<Cluster>, bool))
    requires 0 < |cs| && Rows(data, dim) && Components <= dim && AllWellFormed(cs, dim, |data|)
    ensures |r.0| == |cs| && AllWellFormed(r.0, dim, |data|)
    ensures r.1 == LastStable(r.0)
  {
    var next := Reassigned(CalcPrototypes(cs, data, dim), data, dim);
    (next, LastStable(next))
  }

  /** The `while not converged` loop, cut off after `fuel` passes; the flag
      says whether it stopped because it converged. */
  function Run(cs: seq<Cluster>, data: seq<Vector>, dim: nat, fuel: nat): (r: (seq<Cluster>, bool))
    requires 0 < |cs| && Rows(data, dim) && Components <= dim && AllWellFormed(cs, dim, |data|)
    ensures |r.0| == |cs| && AllWellFormed(r.0, dim, |data|)
    decreases fuel
  {
    if fuel == 0 then (cs, false)
    else
      var (next, converged) := Iteration(cs, data, dim);
      if converged then (next, true) else Run(next, data, dim, fuel - 1)
  }

  /** Step 1 of `train` over the first `upto` indices: index i joins the
      cluster `choices[i]` drawn for it. */
  function SeededUpTo(cs: seq<Cluster>, choices: seq<nat>, upto: nat): (r: seq<Cluster>)
    requires upto <= |choices|
    requires forall i :: 0 <= i < |choices| ==> choices[i] < |cs|
    ensures |r| == |cs|
    ensures forall k :: 0 <= k < |r| ==> r[k].prototype == cs[k].prototype && r[k].previousMembers == cs[k].previousMembers
  {
    if upto == 0 then cs
    else
      var r := SeededUpTo(cs, choices, upto - 1);
      var k := choices[upto - 1];
      r[k := r[k].(currentMembers := r[k].currentMembers + {upto - 1})]
  }

  lemma {:induction false} SeededMembers(cs: seq<Cluster>, choices: seq<nat>, upto: nat, k: nat, i: nat)
    requires upto <= |choices|
    requires forall i :: 0 <= i < |choices| ==> choices[i] < |cs|
    requires k < |cs|
    ensures i in SeededUpTo(cs, choices, upto)[k].currentMembers
        <==> i in cs[k].currentMembers || (i < upto && choices[i] == k)
  {
    if upto > 0 {
      SeededMembers(cs, choices, upto - 1, k, i);
    }
  }

  /** The clusters after the initial draw over all training indices. */
  function Seeded(cs: seq<Cluster>, choices: seq<nat>, dim: nat, count: nat): (r: seq<Cluster>)
    requires AllWellFormed(cs, dim, count) && |choices| <= count
    requires forall i :: 0 <= i < |choices| ==> choices[i] < |cs|
    ensures |r| == |cs| && AllWellFormed(r, dim, count)
  {
    SeededStaysWellFormed(cs, choices, dim, count);
    SeededUpTo(cs, choices, |choices|)
  }

  lemma SeededStaysWellFormed(cs: seq<Cluster>, choices: seq<nat>, dim: nat, count: nat)
    requires AllWellFormed(cs, dim, count) && |choices| <= count
    requires forall i :: 0 <= i < |choices| ==> choices[i] < |cs|
    ensures AllWellFormed(SeededUpTo(cs, choices, |choices|), dim, count)
  {
    var r := SeededUpTo(cs, choices, |choices|);
    forall k, m | 0 <= k < |r| && m in r[k].currentMembers ensures m < count {
      SeededMembers(cs, choices, |choices|, k, m);
    }
  }

  // ---------------------------------------------------------------------
  // Properties of training

  /** The initial draw partitions the training indices when the clusters
      start without members, as they do after `__init__`. */
  lemma SeededPartitions(cs: seq<Cluster>, choices: seq<nat>)
    requires forall k :: 0 <= k < |cs| ==> cs[k].currentMembers == {}
    requires forall i :: 0 <= i < |choices| ==> choices[i] < |cs|
    ensures Partitions(Current(SeededUpTo(cs, choices, |choices|)), |choices|)
  {
    var parts := Current(SeededUpTo(cs, choices, |choices|));
    forall k, i | 0 <= k < |parts| && i in parts[k] ensures OwnedBy(choices, i, k) {
      SeededMembers(cs, choices, |choices|, k, i);
    }
    forall i | 0 <= i < |choices| ensures i in parts[choices[i]] {
      SeededMembers(cs, choices, |choices|, choices[i], i);
    }
    OwnerPartitions(parts, choices);
  }

  /** After a pass a cluster's current members are exactly the training
      indices whose nearest updated prototype is its own (lowest index on a
      tie), and its previous members are its members before the pass. */
  lemma IterationMembers(cs: seq<Cluster>, data: seq<Vector>, dim: nat, k: nat, i: nat)
    requires 0 < |cs| && Rows(data, dim) && Components <= dim && AllWellFormed(cs, dim, |data|)
    requires k < |cs|
    ensures var next := Iteration(cs, data, dim).0;
      (i in next[k].currentMembers <==> i < |data| && Nearest(CalcPrototypes(cs, data, dim), data[i], dim) == k) &&
      next[k].previousMembers == cs[k].currentMembers
  {
    var updated := CalcPrototypes(cs, data, dim);
    assert updated[k] == Recomputed(cs[k], data, dim);
    ReassignedMembers(updated, data, dim, |data|, k, i);
    assert Previous(Reassigned(updated, data, dim))[k] == Previous(updated)[k];
  }

  /** After a pass every training index is a current member of exactly one cluster. */
  lemma IterationPartitions(cs: seq<Cluster>, data: seq<Vector>, dim: nat)
    requires 0 < |cs| && Rows(data, dim) && Components <= dim && AllWellFormed(cs, dim, |data|)
    ensures Partitions(Current(Iteration(cs, data, dim).0), |data|)
  {
    var updated := CalcPrototypes(cs, data, dim);
    var parts := Current(Iteration(cs, data, dim).0);
    var owner := seq(|data|, i requires 0 <= i < |data| => Nearest(updated, data[i], dim));
    forall k, i | 0 <= k < |parts| && i in parts[k] ensures OwnedBy(owner, i, k) {
      IterationMembers(cs, data, dim, k, i);
    }
    forall i | 0 <= i < |owner| ensures owner[i] < |parts| && i in parts[owner[i]] {
      IterationMembers(cs, data, dim, owner[i], i);
    }
    OwnerPartitions(parts, owner);
  }

  /** Whatever the fuel, once at least one pass has run the clusters
      partition the training indices. */
  lemma {:induction false} RunPartitions(cs: seq<Cluster>, data: seq<Vector>, dim: nat, fuel: nat)
    requires 0 < |cs| && Rows(data, dim) && Components <= dim && AllWellFormed(cs, dim, |data|)
    requires 0 < fuel
    ensures Partitions(Current(Run(cs, data, dim, fuel).0), |data|)
    decreases fuel
  {
    IterationPartitions(cs, data, dim);
    var (next, converged) := Iteration(cs, data, dim);
    if !converged && fuel > 1 {
      RunPartitions(next, data, dim, fuel - 1);
    }
  }

  /** When training reports convergence, the last cluster's members did not
      change in the final pass (and that is all the flag guarantees). */
  lemma {:induction false} RunConvergedIsLastStable(cs: seq<Cluster>, data: seq<Vector>, dim: nat, fuel: nat)
    requires 0 < |cs| && Rows(data, dim) && Components <= dim && AllWellFormed(cs, dim, |data|)
    requires Run(cs, data, dim, fuel).1
    ensures LastStable(Run(cs, data, dim, fuel).0)
    decreases fuel
  {
    if fuel > 0 {
      var (next, converged) := Iteration(cs, data, dim);
      if !converged {
        RunConvergedIsLastStable(next, data, dim, fuel - 1);
      }
    }
  }

  /** With at most two clusters, when both the current and the previous
      members partition the same indices, the last cluster's flag is enough:
      the other cluster holds the complement in both passes. */
  lemma TwoClustersLastStableSuffices(cs: seq<Cluster>, count: nat)
    requires 0 < |cs| <= 2
    requires Partitions(Current(cs), count) && Partitions(Previous(cs), count)
    requires LastStable(cs)
    ensures AllStable(cs)
  {
    if |cs| == 2 {
      var cur, prev := Current(cs), Previous(cs);
      assert cur[1] == prev[1];
      forall i | i in cur[0] ensures i in prev[0] {
        assert i !in cur[1] && i < count;
        assert Covered(prev, i);
      }
      forall i | i in prev[0] ensures i in cur[0] {
        assert i !in prev[1] && i < count;
        assert Covered(cur, i);
      }
      assert cur[0] == prev[0];
    }
  }

  /** From three clusters on, the flag can report convergence while the
      first two clusters swapped members. */
  lemma FlagIgnoresEarlierClusters()
    ensures var cs := [Cluster([], {0}, {1}), Cluster([], {1}, {0}), Cluster([], {2}, {2})];
      LastStable(cs) && !AllStable(cs) &&
      Partitions(Current(cs), 3) && Partitions(Previous(cs), 3)
  {
    var cs := [Cluster([], {0}, {1}), Cluster([], {1}, {0}), Cluster([], {2}, {2})];
    assert 0 in cs[0].currentMembers && 0 !in cs[0].previousMembers;
    var cur, prev := Current(cs), Previous(cs);
    assert cur == [{0}, {1}, {2}] && prev == [{1}, {0}, {2}];
    forall i | 0 <= i < 3 ensures Covered(cur, i) {
      assert i in cur[i];
    }
    forall i | 0 <= i < 3 ensures Covered(prev, i) {
      assert i in prev[[1, 0, 2][i]];
    }
  }

  // ---------------------------------------------------------------------
  // test

  /** The counts of `test` for one cluster: each member below `upto` against
      its own test row. */
  function MembersTally(proto: Vector, members: set<nat>, test: seq<Vector>, dim: nat, upto: nat): (t: Tally)
    requires upto <= |test| && Rows(test, dim) && dim <= |proto|
    ensures t.Consistent()
  {
    var rows := RowTallies(proto, test, dim);
    SetTallyConsistent(members, rows, upto);
    SetTally(members, rows, upto)
  }

  /** What each test row adds when evaluated against `proto`. */
  function RowTallies(proto: Vector, test: seq<Vector>, dim: nat): (rows: seq<Tally>)
    requires Rows(test, dim) && dim <= |proto|
    ensures |rows| == |test| && forall i :: 0 <= i < |rows| ==> rows[i].Consistent()
  {
    seq(|test|, i requires 0 <= i < |test| => VectorTally(proto, test[i], dim))
  }

  /** The sum of `rows[i]` over the indices `i` below `upto` in `members`. */
  function SetTally(members: set<nat>, rows: seq<Tally>, upto: nat): Tally
    requires upto <= |rows|
  {
    if upto == 0 then NoTally()
    else SetTally(members, rows, upto - 1).Plus(if upto - 1 in members then rows[upto - 1] else NoTally())
  }

  /** Consistent rows add up to consistent counts. */
  lemma {:induction false} SetTallyConsistent(members: set<nat>, rows: seq<Tally>, upto: nat)
    requires upto <= |rows| && forall i :: 0 <= i < |rows| ==> rows[i].Consistent()
    ensures SetTally(members, rows, upto).Consistent()
  {
    if upto > 0 {
      SetTallyConsistent(members, rows, upto - 1);
    }
  }

  lemma {:induction false} SetTallyEmpty(rows: seq<Tally>, upto: nat)
    requires upto <= |rows|
    ensures SetTally({}, rows, upto) == NoTally()
  {
    if upto > 0 {
      SetTallyEmpty(rows, upto - 1);
    }
  }

  /** Adding an index to the set adds its row, once, if it is below `upto`. */
  lemma {:induction false} SetTallyInsert(members: set<nat>, m: nat, rows: seq<Tally>, upto: nat)
    requires upto <= |rows|
    requires m !in members && m < |rows|
    ensures SetTally(members + {m}, rows, upto)
         == SetTally(members, rows, upto).Plus(if m < upto then rows[m] else NoTally())
  {
    if upto > 0 {
      SetTallyInsert(members, m, rows, upto - 1);
    }
  }

  lemma MembersTallyEmpty(proto: Vector, test: seq<Vector>, dim: nat, upto: nat)
    requires upto <= |test| && Rows(test, dim) && dim <= |proto|
    ensures MembersTally(proto, {}, test, dim, upto) == NoTally()
  {
    SetTallyEmpty(RowTallies(proto, test, dim), upto);
  }

  lemma MembersTallyInsert(proto: Vector, members: set<nat>, m: nat, test: seq<Vector>, dim: nat, upto: nat)
    requires upto <= |test| && Rows(test, dim) && dim <= |proto|
    requires m !in members && m < |test|
    ensures MembersTally(proto, members + {m}, test, dim, upto)
         == MembersTally(proto, members, test, dim, upto).Plus(
              if m < upto then VectorTally(proto, test[m], dim) else NoTally())
  {
    SetTallyInsert(members, m, RowTallies(proto, test, dim), upto);
  }

  /** The counts of `test` over the clusters below `upto`. */
  function ClustersTally(cs: seq<Cluster>, test: seq<Vector>, dim: nat, upto: nat): (t: Tally)
    requires upto <= |cs| && Rows(test, dim)
    requires forall k :: 0 <= k < |cs| ==> |cs[k].prototype| == dim
    ensures t.Consistent()
  {
    if upto == 0 then NoTally()
    else ClustersTally(cs, test, dim, upto - 1).Plus(
      MembersTally(cs[upto - 1].prototype, cs[upto - 1].currentMembers, test, dim, |test|))
  }

  /** The member loop of `test` for one cluster, in set order, added to `acc`. */
  method CountMembers(proto: Vector, members: set<nat>, test: seq<Vector>, dim: nat, acc: Tally) returns (t: Tally)
    requires Rows(test, dim) && dim <= |proto|
    requires forall m :: m in members ==> m < |test|
    ensures t == acc.Plus(MembersTally(proto, members, test, dim, |test|))
  {
    t := acc;
    var remaining := members;
    assert members - remaining == {};
    MembersTallyEmpty(proto, test, dim, |test|);
    while remaining != {}
      invariant remaining <= members
      invariant t == acc.Plus(MembersTally(proto, members - remaining, test, dim, |test|))
      decreases remaining
    {
      var member :| member in remaining;
      t := CountVector(proto, test[member], dim, t);
      assert members - (remaining - {member}) == (members - remaining) + {member};
      MembersTallyInsert(proto, members - remaining, member, test, dim, |test|);
      remaining := remaining - {member};
    }
    assert members - remaining == members;
  }

  // ---------------------------------------------------------------------
  // The engine

  class KMeans {
    const traindata: seq<Vector>
    const testdata: seq<Vector>
    const dim: nat
    var clusters: seq<Cluster>
    var accuracy: real
    var hitrate: real

    ghost predicate Valid()
      reads this
    {
      Rows(traindata, dim) && Rows(testdata, dim) && AllWellFormed(clusters, dim, |traindata|)
    }

    /** `k` clusters with zero prototypes and no members; both rates zero. */
    constructor (k: nat, traindata: seq<Vector>, testdata: seq<Vector>, dim: nat)
      requires Rows(traindata, dim) && Rows(testdata, dim)
      ensures Valid()
      ensures this.traindata == traindata && this.testdata == testdata && this.dim == dim
      ensures clusters == seq(k, _ => EmptyCluster(dim))
      ensures accuracy == 0.0 && hitrate == 0.0
    {
      this.traindata := traindata;
      this.testdata := testdata;
      this.dim := dim;
      clusters := seq(k, _ => EmptyCluster(dim));
      accuracy := 0.0;
      hitrate := 0.0;
    }

    /** Recompute every prototype from its current members, then move the
        current members to the previous ones. */
    method CalcPrototype()
      requires Valid() && Components <= dim
      modifies this`clusters
      ensures Valid()
      ensures clusters == CalcPrototypes(old(clusters), traindata, dim)
      ensures forall k :: 0 <= k < |clusters| ==>
        clusters[k].previousMembers == old(clusters[k].currentMembers) && clusters[k].currentMembers == {}
      ensures forall k :: 0 <= k < |clusters| && old(clusters[k].currentMembers) == {} ==>
        clusters[k].prototype == old(clusters[k].prototype)
    {
      ghost var start := clusters;
      var k := 0;
      while k < |clusters|
        invariant 0 <= k <= |clusters| == |start|
        invariant forall t :: 0 <= t < k ==> clusters[t] == Recomputed(start[t], traindata, dim)
        invariant forall t :: k <= t < |clusters| ==> clusters[t] == start[t]
      {
        var c := clusters[k];
        var sum := SumMembers(traindata, c.prototype, c.currentMembers, dim);
        var proto := DivideBy(sum, |c.currentMembers|);
        ghost var r := Recomputed(c, traindata, dim);
        forall j | 0 <= j < dim ensures proto[j] == r.prototype[j] {
          if j < Components && c.currentMembers == {} {
            MemberSumEmpty(traindata, j, |traindata|);
          }
        }
        assert proto == r.prototype;
        clusters := clusters[k := Cluster(proto, {}, c.currentMembers)];
        k := k + 1;
      }
    }

    /** The scan over the clusters for one training vector: the squared
        distance to each prototype, kept when strictly below the best so far
        (which starts at +infinity). */
    method NearestCluster(x: Vector) returns (minCluster: nat)
      requires Valid() && 0 < |clusters| && |x| == dim
      ensures minCluster == Nearest(clusters, x, dim)
    {
      var protos := Prototypes(clusters);
      var minDistance: Option<real> := None;
      minCluster := 0;
      for k := 0 to |clusters|
        invariant k == 0 ==> minDistance == None && minCluster == 0
        invariant 0 < k ==> minCluster == FirstNearest(protos, x, dim, k)
        invariant 0 < k ==> minDistance == Some(SqDist(x, protos[minCluster], dim))
      {
        var distance := 0.0;
        for j := 0 to dim
          invariant distance == SqDist(x, protos[k], j)
        {
          var d := x[j] - clusters[k].prototype[j];
          distance := distance + d * d;
        }
        if minDistance == None || distance < minDistance.value {
          minCluster := k;
          minDistance := Some(distance);
        }
      }
    }

    /** Every training index joins the current members of its nearest cluster. */
    method Reassign()
      requires Valid() && 0 < |clusters|
      modifies this`clusters
      ensures Valid()
      ensures clusters == Reassigned(old(clusters), traindata, dim)
    {
      ghost var start := clusters;
      for i := 0 to |traindata|
        invariant clusters == ReassignedUpTo(start, traindata, dim, i)
        invariant Valid()
      {
        var nearest := NearestCluster(traindata[i]);
        clusters := clusters[nearest := clusters[nearest].(currentMembers := clusters[nearest].currentMembers + {i})];
      }
    }

    /** One pass of the `while not converged` body: update, reassign, and set
        the flag cluster by cluster, so that the last cluster decides. */
    method Step() returns (converged: bool)
      requires Valid() && 0 < |clusters| && Components <= dim
      modifies this`clusters
      ensures Valid()
      ensures (clusters, converged) == Iteration(old(clusters), traindata, dim)
      ensures converged == LastStable(clusters)
    {
      CalcPrototype();
      Reassign();
      converged := false;
      for k := 0 to |clusters|
        invariant converged == (0 < k && clusters[k - 1].currentMembers == clusters[k - 1].previousMembers)
      {
        if clusters[k].currentMembers == clusters[k].previousMembers {
          converged := true;
        } else {
          converged := false;
        }
      }
    }

    /** Step 1 of `train`: index i joins cluster `choices[i]`, the random draw. */
    method Seed(choices: seq<nat>)
      requires Valid() && |choices| == |traindata|
      requires forall i :: 0 <= i < |choices| ==> choices[i] < |clusters|
      modifies this`clusters
      ensures Valid()
      ensures clusters == Seeded(old(clusters), choices, dim, |traindata|)
    {
      ghost var start := clusters;
      for i := 0 to |traindata|
        invariant clusters == SeededUpTo(start, choices, i)
      {
        clusters := clusters[choices[i] := clusters[choices[i]].(currentMembers := clusters[choices[i]].currentMembers + {i})];
      }
      SeededStaysWellFormed(start, choices, dim, |traindata|);
    }

    /** `train`: the random draw `choices`, then passes until the flag is set
        or `fuel` passes have run. */
    method Train(choices: seq<nat>, fuel: nat) returns (converged: bool)
      requires Valid() && 0 < |clusters| && Components <= dim
      requires |choices| == |traindata|
      requires forall i :: 0 <= i < |choices| ==> choices[i] < |clusters|
      modifies this`clusters
      ensures Valid()
      ensures (clusters, converged) == Run(Seeded(old(clusters), choices, dim, |traindata|), traindata, dim, fuel)
      ensures converged ==> LastStable(clusters)
      ensures 0 < fuel ==> Partitions(Current(clusters), |traindata|)
    {
      Seed(choices);
      ghost var seeded := clusters;
      converged := false;
      var left := fuel;
      while !converged && 0 < left
        invariant Valid() && 0 < |clusters|
        invariant Run(seeded, traindata, dim, fuel)
               == if converged then (clusters, true) else Run(clusters, traindata, dim, left)
        decreases left
      {
        converged := Step();
        left := left - 1;
      }
      if converged {
        RunConvergedIsLastStable(seeded, traindata, dim, fuel);
      }
      if 0 < fuel {
        RunPartitions(seeded, traindata, dim, fuel);
      }
    }

    /** The counting loops of `test`: every cluster, every current member,
        every component. */
    method CountHits() returns (t: Tally)
      requires Valid()
      requires forall k, m :: 0 <= k < |clusters| && m in clusters[k].currentMembers ==> m < |testdata|
      ensures t == ClustersTally(clusters, testdata, dim, |clusters|)
      ensures t.Consistent()
    {
      t := NoTally();
      for k := 0 to |clusters|
        invariant t == ClustersTally(clusters, testdata, dim, k)
      {
        t := CountMembers(clusters[k].prototype, clusters[k].currentMembers, testdata, dim, t);
      }
    }

    /** `test`: accuracy = hits / prefetch, then hitrate = hits / requests. */
    method Test() returns (o: Outcome)
      requires Valid()
      requires forall k, m :: 0 <= k < |clusters| && m in clusters[k].currentMembers ==> m < |testdata|
      modifies this`accuracy, this`hitrate
      ensures o == Evaluate(ClustersTally(clusters, testdata, dim, |clusters|))
      ensures o.Rates? ==> accuracy == o.accuracy && hitrate == o.hitrate
      ensures o.ZeroRequests? ==> accuracy == o.accuracy && hitrate == old(hitrate)
      ensures o.ZeroPrefetch? ==> accuracy == old(accuracy) && hitrate == old(hitrate)
    {
      var t := CountHits();
      if t.prefetch == 0 {
        return ZeroPrefetch;
      }
      accuracy := t.hits as real / t.prefetch as real;
      if t.requests == 0 {
        return ZeroRequests(accuracy);
      }
      hitrate := t.hits as real / t.requests as real;
      o := Rates(accuracy, hitrate);
    }
  }
}
