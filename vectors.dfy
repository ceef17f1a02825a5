/** Vocabulary shared by the two clustering engines: access-pattern vectors,
    the squared Euclidean distance, and the hit / request / prefetch tally
    that both `test` methods accumulate before computing their two rates. */
module Vectors {

  datatype Option<T> = None | Some(value: T)

  /** One client's access pattern: one component per resource, in [0, 1]. */
  type Vector = seq<real>

  /** Both engines prefetch (and count as requested) a component strictly above this. */
  const PrefetchThreshold: real := 0.5

  /** Every row of `data` has exactly `width` components. */
  ghost predicate Rows(data: seq<Vector>, width: nat) {
    forall i :: 0 <= i < |data| ==> |data[i]| == width
  }

  /** Every component of `v` lies in the unit interval. */
  ghost predicate InUnitCube(v: Vector) {
    forall j :: 0 <= j < |v| ==> 0.0 <= v[j] <= 1.0
  }

  /** Sum over the first `dim` components of `(a[j] - b[j])^2`: the Euclidean
      distance before its square root. */
  function SqDist(a: Vector, b: Vector, dim: nat): (r: real)
    requires dim <= |a| && dim <= |b|
    ensures 0.0 <= r
  {
    if dim == 0 then 0.0
    else
      var d := a[dim - 1] - b[dim - 1];
      SqDist(a, b, dim - 1) + d * d
  }

  /** The three counters of `test`. */
  datatype Tally = Tally(hits: nat, requests: nat, prefetch: nat)
  {
    function Plus(other: Tally): Tally {
      Tally(hits + other.hits, requests + other.requests, prefetch + other.prefetch)
    }

    /** A hit is both a request and a prefetch. */
    predicate Consistent() {
      hits <= requests && hits <= prefetch
    }
  }

  function NoTally(): Tally { Tally(0, 0, 0) }

  /** What one (prototype, test vector) pair adds over its first `dim`
      components: a request where the test value is above the threshold, a
      prefetch where the prototype value is, a hit where both are. Each
      component adds at most one to each counter. */
  function VectorTally(proto: Vector, test: Vector, dim: nat): (t: Tally)
    requires dim <= |proto| && dim <= |test|
    ensures t.Consistent()
    ensures t.requests <= dim && t.prefetch <= dim
  {
    if dim == 0 then NoTally()
    else
      var p, x := proto[dim - 1], test[dim - 1];
      VectorTally(proto, test, dim - 1).Plus(
        Tally(if p > PrefetchThreshold && x > PrefetchThreshold then 1 else 0,
              if x > PrefetchThreshold then 1 else 0,
              if p > PrefetchThreshold then 1 else 0))
  }

  /** No request is counted exactly when no test component is above the
      threshold, and no prefetch exactly when no prototype component is. */
  lemma {:induction false} VectorTallyZero(proto: Vector, test: Vector, dim: nat)
    requires dim <= |proto| && dim <= |test|
    ensures VectorTally(proto, test, dim).requests == 0 <==>
      forall j :: 0 <= j < dim ==> test[j] <= PrefetchThreshold
    ensures VectorTally(proto, test, dim).prefetch == 0 <==>
      forall j :: 0 <= j < dim ==> proto[j] <= PrefetchThreshold
  {
    if dim > 0 {
      VectorTallyZero(proto, test, dim - 1);
    }
  }

  /** The innermost loop of both `test` methods: add one client's counts to `acc`. */
  method CountVector(proto: Vector, test: Vector, dim: nat, acc: Tally) returns (t: Tally)
    requires dim <= |proto| && dim <= |test|
    ensures t == acc.Plus(VectorTally(proto, test, dim))
    ensures acc.Consistent() ==> t.Consistent()
  {
    t := acc;
    for i := 0 to dim
      invariant t == acc.Plus(VectorTally(proto, test, i))
    {
      if proto[i] > PrefetchThreshold && test[i] > PrefetchThreshold {
        t := t.(hits := t.hits + 1);
      }
      if test[i] > PrefetchThreshold {
        t := t.(requests := t.requests + 1);
      }
      if proto[i] > PrefetchThreshold {
        t := t.(prefetch := t.prefetch + 1);
      }
    }
  }

  /** How `test` ends: both rates assigned, or the exception that stopped it. */
  datatype Outcome =
    | Rates(accuracy: real, hitrate: real)
      /** `owner` was read before the client scan ever assigned it. */
    | Unowned
      /** `hits / prefetch` divided by zero before either rate was assigned. */
    | ZeroPrefetch
      /** `accuracy` was assigned, then `hits / requests` divided by zero. */
    | ZeroRequests(accuracy: real)

  /** The last two statements of `test`: accuracy = hits / prefetch, then
      hitrate = hits / requests, each raising on a zero denominator. */
  function Evaluate(t: Tally): (o: Outcome)
    ensures o.ZeroPrefetch? <==> t.prefetch == 0
    ensures o.ZeroRequests? <==> t.prefetch > 0 && t.requests == 0
    ensures o.Rates? <==> t.prefetch > 0 && t.requests > 0
    ensures o.Rates? || o.ZeroRequests? ==> o.accuracy * t.prefetch as real == t.hits as real
    ensures o.Rates? ==> o.hitrate * t.requests as real == t.hits as real
    ensures o.Rates? && t.Consistent() ==>
              0.0 <= o.accuracy <= 1.0 && 0.0 <= o.hitrate <= 1.0
  {
    if t.prefetch == 0 then ZeroPrefetch
    else
      var accuracy := t.hits as real / t.prefetch as real;
      if t.requests == 0 then ZeroRequests(accuracy)
      else Rates(accuracy, t.hits as real / t.requests as real)
  }
}
