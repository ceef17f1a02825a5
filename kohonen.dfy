/** The self-organising map of cluster/kohonen.py: an n x n grid of cells
    seeded with training vectors; each epoch clears the memberships, presents
    all training vectors but the last, moves a square neighbourhood of the
    best-matching cell towards each one, and records the vector in that cell;
    `test` evaluates each client against the cell that holds it, or against
    the owner found for an earlier client when no cell holds it, and fails
    when `owner` is read before any assignment. */
module SelfOrganisingMap {
  import opened Vectors

  /** The learning rate of the first epoch. */
  const InitialLearningRate: real := 0.8

  /** One cell of the map: a prototype and the training indices it won in
      the current epoch. */
  datatype Cell = Cell(prototype: Vector, currentMembers: set<nat>)

  /** `clusters[a][b]` is the cell in row a, column b. */
  type Grid = seq<seq<Cell>>

  /** An n x n grid. */
  ghost predicate Shape(g: Grid, n: nat) {
    |g| == n && forall a :: 0 <= a < n ==> |g[a]| == n
  }

  /** An n x n grid whose prototypes all have `dim` components. */
  ghost predicate Square(g: Grid, n: nat, dim: nat) {
    Shape(g, n) && forall a, b :: 0 <= a < n && 0 <= b < n ==> |g[a][b].prototype| == dim
  }

  /** Every component of every prototype lies in [0, 1]. */
  ghost predicate GridInUnitCube(g: Grid, n: nat)
    requires Shape(g, n)
  {
    forall a, b :: 0 <= a < n && 0 <= b < n ==> InUnitCube(g[a][b].prototype)
  }

  ghost predicate ValidSeeds(seeds: seq<seq<nat>>, n: nat, count: nat) {
    |seeds| == n && (forall a :: 0 <= a < n ==> |seeds[a]| == n) &&
    (forall a, b :: 0 <= a < n && 0 <= b < n ==> seeds[a][b] < count)
  }

  /** The grid after `__init__`: cell (a, b) holds training row
      `seeds[a][b]` (the random draw) and no members. */
  function SeededGrid(data: seq<Vector>, seeds: seq<seq<nat>>, n: nat): (g: Grid)
    requires ValidSeeds(seeds, n, |data|)
    ensures Shape(g, n)
    ensures forall a, b :: 0 <= a < n && 0 <= b < n ==> g[a][b] == Cell(data[seeds[a][b]], {})
  {
    seq(n, a requires 0 <= a < n => seq(n, b requires 0 <= b < n => Cell(data[seeds[a][b]], {})))
  }

  // ---------------------------------------------------------------------
  // The schedule

  /** The learning rate of epoch `epoch`: 0.8 * (1 - epoch / epochs). */
  function LearningRate(epoch: nat, epochs: nat): real
    requires epoch < epochs
  {
    InitialLearningRate * (1.0 - epoch as real / epochs as real)
  }

  /** The neighbourhood radius of epoch `epoch`: n / 2 * (1 - epoch / epochs). */
  function Radius(n: nat, epoch: nat, epochs: nat): real
    requires epoch < epochs
  {
    n as real / 2.0 * (1.0 - epoch as real / epochs as real)
  }

  /** Python's `int` on a real: truncation toward zero. */
  function Trunc(r: real): (i: int)
    ensures 0.0 <= r ==> 0 <= i && i as real <= r < i as real + 1.0
    ensures r <= 0.0 ==> i <= 0 && i as real - 1.0 < r <= i as real
  {
    if 0.0 <= r then r.Floor else -((-r).Floor)
  }

  /** `int(radius)`: how many rows and columns the neighbourhood reaches. */
  function Reach(n: nat, epoch: nat, epochs: nat): int
    requires epoch < epochs
  {
    Trunc(Radius(n, epoch, epochs))
  }

  /** The learning rate lies in (0, 0.8] in every epoch. */
  lemma LearningRateBounds(epoch: nat, epochs: nat)
    requires epoch < epochs
    ensures 0.0 < LearningRate(epoch, epochs) <= InitialLearningRate
  {
  }

  /** The learning rate strictly decreases from epoch to epoch. */
  lemma LearningRateDecreases(e: nat, f: nat, epochs: nat)
    requires e < f < epochs
    ensures LearningRate(f, epochs) < LearningRate(e, epochs)
  {
  }

  /** The radius lies in (0, n / 2] in every epoch of a non-empty map, and
      the reach in [0, n / 2]. */
  lemma RadiusBounds(n: nat, epoch: nat, epochs: nat)
    requires epoch < epochs && 0 < n
    ensures 0.0 < Radius(n, epoch, epochs) <= n as real / 2.0
    ensures 0 <= Reach(n, epoch, epochs) && 2 * Reach(n, epoch, epochs) <= n
  {
    var half := n as real / 2.0;
    var left := 1.0 - epoch as real / epochs as real;
    assert 0.0 < left <= 1.0 by {
      LearningRateBounds(epoch, epochs);
    }
    assert half * left <= half * 1.0;
  }

  /** The radius strictly decreases from epoch to epoch. */
  lemma RadiusDecreases(n: nat, e: nat, f: nat, epochs: nat)
    requires e < f < epochs && 0 < n
    ensures Radius(n, f, epochs) < Radius(n, e, epochs)
  {
  }

  // ---------------------------------------------------------------------
  // The neighbourhood

  function Min(x: int, y: int): int { if x <= y then x else y }
  function Max(x: int, y: int): int { if x <= y then y else x }

  /** The cells `range(lo1, hi1) x range(lo2, hi2)`, upper bounds excluded. */
  datatype Region = Region(lo1: int, hi1: int, lo2: int, hi2: int)
  {
    predicate Contains(a: int, b: int) {
      lo1 <= a < hi1 && lo2 <= b < hi2
    }
  }

  /** The bounds computed around the best-matching cell (b1, b2), clipped to
      0 below and to n - 1 above. */
  function Neighbourhood(n: nat, b1: nat, b2: nat, reach: int): Region {
    Region(Max(0, b1 - reach), Min(n - 1, b1 + reach), Max(0, b2 - reach), Min(n - 1, b2 + reach))
  }

  /** The updated cells are those within `reach` of the best-matching cell
      below it and strictly less than `reach` above it, never in the last
      row or column; with a zero reach none is updated. */
  lemma NeighbourhoodCells(n: nat, b1: nat, b2: nat, reach: int, a: int, b: int)
    ensures Neighbourhood(n, b1, b2, reach).Contains(a, b) <==>
      0 <= a < n - 1 && b1 - reach <= a < b1 + reach &&
      0 <= b < n - 1 && b2 - reach <= b < b2 + reach
    ensures !Neighbourhood(n, b1, b2, reach).Contains(n - 1, b)
    ensures !Neighbourhood(n, b1, b2, reach).Contains(a, n - 1)
    ensures reach <= 0 ==> !Neighbourhood(n, b1, b2, reach).Contains(a, b)
  {
  }

  /** The new prototype `(1 - lr) * p + lr * x`, component by component. */
  function Blend(p: Vector, x: Vector, lr: real, dim: nat): (r: Vector)
    requires dim <= |p| && dim <= |x|
    ensures |r| == dim
  {
    seq(dim, j requires 0 <= j < dim => (1.0 - lr) * p[j] + lr * x[j])
  }

  /** With a learning rate in (0, 1] every blended component lies between the
      old component and the input's. */
  lemma BlendBetween(p: Vector, x: Vector, lr: real, dim: nat)
    requires dim <= |p| && dim <= |x| && 0.0 < lr <= 1.0
    ensures forall j :: 0 <= j < dim ==>
      (p[j] <= x[j] ==> p[j] <= Blend(p, x, lr, dim)[j] <= x[j]) &&
      (x[j] <= p[j] ==> x[j] <= Blend(p, x, lr, dim)[j] <= p[j])
  {
    forall j | 0 <= j < dim
      ensures p[j] <= x[j] ==> p[j] <= Blend(p, x, lr, dim)[j] <= x[j]
      ensures x[j] <= p[j] ==> x[j] <= Blend(p, x, lr, dim)[j] <= p[j]
    {
      Between(p[j], x[j], lr, Blend(p, x, lr, dim)[j]);
    }
  }

  lemma Between(p: real, x: real, lr: real, r: real)
    requires 0.0 < lr <= 1.0 && r == (1.0 - lr) * p + lr * x
    ensures p <= x ==> p <= r <= x
    ensures x <= p ==> x <= r <= p
  {
    var step := lr * (x - p);
    assert r == p + step;
    Scaled(lr, x - p, step);
  }

  /** A step `s` of a fraction `lr` of `d` stays between 0 and `d`. */
  lemma Scaled(lr: real, d: real, s: real)
    requires 0.0 < lr <= 1.0 && s == lr * d
    ensures 0.0 <= d ==> 0.0 <= s <= d
    ensures d <= 0.0 ==> d <= s <= 0.0
  {
    var rest := (1.0 - lr) * d;
    assert d - s == rest;
    if 0.0 <= d {
      assert 0.0 <= rest;
    } else {
      assert rest <= 0.0;
    }
  }

  /** Prototypes and inputs in the unit cube blend into the unit cube. */
  lemma BlendInUnitCube(p: Vector, x: Vector, lr: real, dim: nat)
    requires |p| == dim && |x| == dim && 0.0 < lr <= 1.0
    requires InUnitCube(p) && InUnitCube(x)
    ensures InUnitCube(Blend(p, x, lr, dim))
  {
    BlendBetween(p, x, lr, dim);
  }

  // ---------------------------------------------------------------------
  // Grid updates

  /** The first `rows` rows of the grid after moving every cell of `region`
      towards `x`. */
  function Moved(g: Grid, n: nat, dim: nat, region: Region, x: Vector, lr: real, rows: nat): (r: Grid)
    requires Square(g, n, dim) && |x| == dim && rows <= n
    ensures |r| == rows && forall a :: 0 <= a < rows ==> |r[a]| == n
    ensures forall a, b :: 0 <= a < rows && 0 <= b < n ==> |r[a][b].prototype| == dim
  {
    if rows == 0 then []
    else Moved(g, n, dim, region, x, lr, rows - 1) + [MovedRow(g[rows - 1], rows - 1, dim, region, x, lr)]
  }

  /** Row a of `Moved`. */
  function MovedRow(row: seq<Cell>, a: nat, dim: nat, region: Region, x: Vector, lr: real): (r: seq<Cell>)
    requires (forall b :: 0 <= b < |row| ==> |row[b].prototype| == dim) && |x| == dim
    ensures |r| == |row| && forall b :: 0 <= b < |row| ==> |r[b].prototype| == dim
  {
    seq(|row|, b requires 0 <= b < |row| =>
      if region.Contains(a, b) then row[b].(prototype := Blend(row[b].prototype, x, lr, dim)) else row[b])
  }

  /** Moving a region blends exactly the cells inside it and leaves every
      membership alone. */
  lemma {:induction false} MovedCell(g: Grid, n: nat, dim: nat, region: Region, x: Vector, lr: real, rows: nat, a: nat, b: nat)
    requires Square(g, n, dim) && |x| == dim && rows <= n && a < rows && b < n
    ensures Moved(g, n, dim, region, x, lr, rows)[a][b] ==
      if region.Contains(a, b) then g[a][b].(prototype := Blend(g[a][b].prototype, x, lr, dim)) else g[a][b]
  {
    if a < rows - 1 {
      MovedCell(g, n, dim, region, x, lr, rows - 1, a, b);
    }
  }

  /** The grid with every membership cleared. */
  function Cleared(g: Grid, n: nat, dim: nat): (r: Grid)
    requires Square(g, n, dim)
    ensures Square(r, n, dim)
  {
    seq(n, a requires 0 <= a < n => seq(n, b requires 0 <= b < n => g[a][b].(currentMembers := {})))
  }

  /** The grid with `idx` added to the members of cell (a, b). */
  function Joined(g: Grid, n: nat, dim: nat, a: nat, b: nat, idx: nat): (r: Grid)
    requires Square(g, n, dim) && a < n && b < n
    ensures Square(r, n, dim)
  {
    g[a := g[a][b := g[a][b].(currentMembers := g[a][b].currentMembers + {idx})]]
  }

  // ---------------------------------------------------------------------
  // The best-matching cell

  /** The scan variables of `train`: the running `distance`, `min_dist`
      (None while it is still +infinity) and the cell (`min_d1`, `min_d2`)
      that holds it (None while unassigned). */
  datatype Scan = Scan(distance: real, minDist: Option<real>, best: Option<(nat, nat)>)

  const Unscanned: Scan := Scan(0.0, None, None)

  /** Visiting cell (a, b): the squared distance is added to the running
      value, which is never reset, its square root becomes the new running
      value, and the cell wins when that value is at most the minimum so far. */
  function Probe(s: Scan, cell: Cell, x: Vector, dim: nat, sqrt: real -> real, a: nat, b: nat): Scan
    requires dim <= |cell.prototype| && dim <= |x|
  {
    var distance := sqrt(s.distance + SqDist(cell.prototype, x, dim));
    if s.minDist.None? || distance <= s.minDist.value
    then Scan(distance, Some(distance), Some((a, b)))
    else s.(distance := distance)
  }

  /** The scan state after rows 0 .. a - 1 and the first `upto` cells of
      row a. */
  function ScanRow(g: Grid, n: nat, dim: nat, sqrt: real -> real, x: Vector, a: nat, upto: nat): Scan
    requires Square(g, n, dim) && |x| == dim && a < n && upto <= n
    decreases a, 1, upto
  {
    if upto == 0 then ScanRows(g, n, dim, sqrt, x, a)
    else Probe(ScanRow(g, n, dim, sqrt, x, a, upto - 1), g[a][upto - 1], x, dim, sqrt, a, upto - 1)
  }

  /** The scan state after the first `rows` rows, in row-major order. */
  function ScanRows(g: Grid, n: nat, dim: nat, sqrt: real -> real, x: Vector, rows: nat): Scan
    requires Square(g, n, dim) && |x| == dim && rows <= n
    decreases rows, 0, 0
  {
    if rows == 0 then Unscanned
    else ScanRow(g, n, dim, sqrt, x, rows - 1, n)
  }

  /** The running value right after visiting cell (a, b). */
  function RunningValue(g: Grid, n: nat, dim: nat, sqrt: real -> real, x: Vector, a: nat, b: nat): real
    requires Square(g, n, dim) && |x| == dim && a < n && b < n
  {
    ScanRow(g, n, dim, sqrt, x, a, b + 1).distance
  }

  /** Cell (a', b') is visited before position (a, b) in row-major order. */
  predicate Before(a': int, b': int, a: int, b: int) {
    a' < a || (a' == a && b' < b)
  }

  /** `s` is the scan state once every cell before position (a, b) has been
      visited: it holds the last cell whose running value was at most the
      minimum so far, and that value. */
  ghost predicate Summarises(s: Scan, g: Grid, n: nat, dim: nat, sqrt: real -> real, x: Vector, a: nat, b: nat)
    requires Square(g, n, dim) && |x| == dim
  {
    (s.best.None? <==> a == 0 && b == 0) && (s.minDist.None? <==> s.best.None?) &&
    (s.best.Some? ==>
      s.best.value.0 < n && s.best.value.1 < n && Before(s.best.value.0, s.best.value.1, a, b) &&
      s.minDist.value == RunningValue(g, n, dim, sqrt, x, s.best.value.0, s.best.value.1) &&
      (forall a', b' :: 0 <= a' < n && 0 <= b' < n && Before(a', b', a, b) ==>
        s.minDist.value <= RunningValue(g, n, dim, sqrt, x, a', b')) &&
      (forall a', b' ::
        (0 <= a' < n && 0 <= b' < n && Before(a', b', a, b) && Before(s.best.value.0, s.best.value.1, a', b')) ==>
        s.minDist.value < RunningValue(g, n, dim, sqrt, x, a', b')))
  }

  /** One probe keeps the summary: visiting cell (a, b) moves it to the next position. */
  lemma ProbeSummarises(s: Scan, r: Scan, g: Grid, n: nat, dim: nat, sqrt: real -> real, x: Vector, a: nat, b: nat)
    requires Square(g, n, dim) && |x| == dim && a < n && b < n
    requires Summarises(s, g, n, dim, sqrt, x, a, b)
    requires r == Probe(s, g[a][b], x, dim, sqrt, a, b)
    requires r.distance == RunningValue(g, n, dim, sqrt, x, a, b)
    ensures Summarises(r, g, n, dim, sqrt, x, a, b + 1)
  {
    var d := r.distance;
    forall a': int, b': int ensures Before(a', b', a, b + 1) <==> Before(a', b', a, b) || (a' == a && b' == b) { }
    if s.minDist.None? || d <= s.minDist.value {
      assert r.best == Some((a, b)) && r.minDist == Some(d);
    } else {
      assert r.best == s.best && r.minDist == s.minDist;
      assert s.minDist.value < d;
    }
  }

  lemma {:induction false} ScanRowSummarises(g: Grid, n: nat, dim: nat, sqrt: real -> real, x: Vector, a: nat, b: nat)
    requires Square(g, n, dim) && |x| == dim && a < n && b <= n
    requires Summarises(ScanRows(g, n, dim, sqrt, x, a), g, n, dim, sqrt, x, a, 0)
    ensures Summarises(ScanRow(g, n, dim, sqrt, x, a, b), g, n, dim, sqrt, x, a, b)
    decreases b
  {
    if b > 0 {
      ScanRowSummarises(g, n, dim, sqrt, x, a, b - 1);
      ProbeSummarises(ScanRow(g, n, dim, sqrt, x, a, b - 1), ScanRow(g, n, dim, sqrt, x, a, b),
        g, n, dim, sqrt, x, a, b - 1);
    }
  }

  lemma {:induction false} ScanRowsSummarises(g: Grid, n: nat, dim: nat, sqrt: real -> real, x: Vector, rows: nat)
    requires Square(g, n, dim) && |x| == dim && rows <= n
    ensures Summarises(ScanRows(g, n, dim, sqrt, x, rows), g, n, dim, sqrt, x, rows, 0)
  {
    if rows > 0 {
      ScanRowsSummarises(g, n, dim, sqrt, x, rows - 1);
      ScanRowSummarises(g, n, dim, sqrt, x, rows - 1, n);
      var s := ScanRows(g, n, dim, sqrt, x, rows);
      assert s == ScanRow(g, n, dim, sqrt, x, rows - 1, n);
      assert forall a', b' :: 0 <= b' < n ==> (Before(a', b', rows - 1, n) <==> Before(a', b', rows, 0));
    }
  }

  /** The best-matching cell: the cell the scan holds after visiting all
      n x n cells. */
  function Bmu(g: Grid, n: nat, dim: nat, sqrt: real -> real, x: Vector): (r: (nat, nat))
    requires Square(g, n, dim) && |x| == dim && 0 < n
    ensures r.0 < n && r.1 < n
  {
    ScanRowsSummarises(g, n, dim, sqrt, x, n);
    ScanRows(g, n, dim, sqrt, x, n).best.value
  }

  /** The best-matching cell has the least running value of all cells, and
      every cell after it in row-major order has a strictly greater one: with
      `<=`, the last minimum wins. */
  lemma BmuIsLastMinimum(g: Grid, n: nat, dim: nat, sqrt: real -> real, x: Vector)
    requires Square(g, n, dim) && |x| == dim && 0 < n
    ensures var (b1, b2) := Bmu(g, n, dim, sqrt, x);
      (forall a, b :: 0 <= a < n && 0 <= b < n ==>
        RunningValue(g, n, dim, sqrt, x, b1, b2) <= RunningValue(g, n, dim, sqrt, x, a, b)) &&
      (forall a, b :: 0 <= a < n && 0 <= b < n && Before(b1, b2, a, b) ==>
        RunningValue(g, n, dim, sqrt, x, b1, b2) < RunningValue(g, n, dim, sqrt, x, a, b))
  {
    ScanRowsSummarises(g, n, dim, sqrt, x, n);
  }

  /** Properties every square root has: sqrt(1) = 1 and strict monotonicity
      on the non-negative reals. */
  ghost predicate RootLike(sqrt: real -> real) {
    sqrt(1.0) == 1.0 && forall u, v :: 0.0 <= u < v ==> sqrt(u) < sqrt(v)
  }

  /** Because the running value is never reset, the best-matching cell need
      not be the nearest: in this 2 x 2 map cell (1, 0) is nearer to the
      input than cell (0, 0), yet (0, 0) wins. */
  lemma BmuNeedNotBeNearest(sqrt: real -> real)
    requires RootLike(sqrt)
    ensures var g: Grid := [[Cell([1.0], {}), Cell([1.0], {})], [Cell([0.5], {}), Cell([1.0], {})]];
      Square(g, 2, 1) &&
      Bmu(g, 2, 1, sqrt, [0.0]) == (0, 0) &&
      SqDist(g[1][0].prototype, [0.0], 1) < SqDist(g[0][0].prototype, [0.0], 1)
  {
    var g: Grid := [[Cell([1.0], {}), Cell([1.0], {})], [Cell([0.5], {}), Cell([1.0], {})]];
    var x: Vector := [0.0];
    assert SqDist(g[0][0].prototype, x, 1) == 1.0;
    assert SqDist(g[0][1].prototype, x, 1) == 1.0;
    assert SqDist(g[1][0].prototype, x, 1) == 0.25;
    assert SqDist(g[1][1].prototype, x, 1) == 1.0;
    var s1 := Probe(Unscanned, g[0][0], x, 1, sqrt, 0, 0);
    assert s1.distance == sqrt(0.0 + 1.0) == 1.0;
    assert s1 == Scan(1.0, Some(1.0), Some((0, 0)));
    var s2 := Probe(s1, g[0][1], x, 1, sqrt, 0, 1);
    assert s2.distance == sqrt(1.0 + 1.0) > 1.0;
    var row0 := ScanRow(g, 2, 1, sqrt, x, 0, 2);
    assert row0 == s2;
    assert ScanRows(g, 2, 1, sqrt, x, 1) == row0;
    var s3 := Probe(s2, g[1][0], x, 1, sqrt, 1, 0);
    assert s3.distance == sqrt(s2.distance + 0.25) > 1.0;
    var s4 := Probe(s3, g[1][1], x, 1, sqrt, 1, 1);
    assert s4.distance == sqrt(s3.distance + 1.0) > 1.0;
    assert ScanRow(g, 2, 1, sqrt, x, 1, 1) == s3;
    assert ScanRow(g, 2, 1, sqrt, x, 1, 2) == s4;
    assert ScanRows(g, 2, 1, sqrt, x, 2) == s4;
    assert s4.best == Some((0, 0));
  }

  // ---------------------------------------------------------------------
  // Training

  /** Presenting training vector `idx`: the best-matching cell is found, the
      cells of its neighbourhood move towards the vector, and the index joins
      the best-matching cell's members. */
  function Present(g: Grid, n: nat, dim: nat, sqrt: real -> real, x: Vector, idx: nat, lr: real, reach: int): (r: Grid)
    requires Square(g, n, dim) && |x| == dim && 0 < n
    ensures Square(r, n, dim)
  {
    var (b1, b2) := Bmu(g, n, dim, sqrt, x);
    Joined(Moved(g, n, dim, Neighbourhood(n, b1, b2, reach), x, lr, n), n, dim, b1, b2, idx)
  }

  /** One presentation moves the cells of the best-matching cell's
      neighbourhood, and only those, towards `x`. */
  lemma PresentPrototype(g: Grid, n: nat, dim: nat, sqrt: real -> real, x: Vector, idx: nat, lr: real, reach: int, a: nat, b: nat)
    requires Square(g, n, dim) && |x| == dim && 0 < n && a < n && b < n
    ensures var best := Bmu(g, n, dim, sqrt, x);
      Present(g, n, dim, sqrt, x, idx, lr, reach)[a][b].prototype ==
        if Neighbourhood(n, best.0, best.1, reach).Contains(a, b) then Blend(g[a][b].prototype, x, lr, dim) else g[a][b].prototype
  {
    var best := Bmu(g, n, dim, sqrt, x);
    MovedCell(g, n, dim, Neighbourhood(n, best.0, best.1, reach), x, lr, n, a, b);
  }

  /** One presentation adds `idx` to the best-matching cell, and to no other. */
  lemma PresentMembers(g: Grid, n: nat, dim: nat, sqrt: real -> real, x: Vector, idx: nat, lr: real, reach: int, a: nat, b: nat)
    requires Square(g, n, dim) && |x| == dim && 0 < n && a < n && b < n
    ensures Present(g, n, dim, sqrt, x, idx, lr, reach)[a][b].currentMembers ==
      if (a, b) == Bmu(g, n, dim, sqrt, x) then g[a][b].currentMembers + {idx} else g[a][b].currentMembers
  {
    var best := Bmu(g, n, dim, sqrt, x);
    MovedCell(g, n, dim, Neighbourhood(n, best.0, best.1, reach), x, lr, n, a, b);
  }

  /** How many vectors one epoch presents: `range(len(traindata) - 1)`
      leaves out the last training vector. */
  function Presented(count: nat): nat {
    if count == 0 then 0 else count - 1
  }

  /** The grid after presenting training vectors 0 .. upto - 1 in order. */
  function PresentUpTo(g: Grid, n: nat, dim: nat, sqrt: real -> real, data: seq<Vector>, lr: real, reach: int, upto: nat): (r: Grid)
    requires Square(g, n, dim) && Rows(data, dim) && upto <= |data| && (0 < n || upto == 0)
    ensures Square(r, n, dim)
  {
    if upto == 0 then g
    else Present(PresentUpTo(g, n, dim, sqrt, data, lr, reach, upto - 1), n, dim, sqrt, data[upto - 1], upto - 1, lr, reach)
  }

  /** One epoch: clear the memberships, then present the training vectors
      with this epoch's learning rate and reach. */
  function Epoch(g: Grid, n: nat, dim: nat, sqrt: real -> real, data: seq<Vector>, epoch: nat, epochs: nat): (r: Grid)
    requires Square(g, n, dim) && Rows(data, dim) && epoch < epochs && (0 < n || |data| <= 1)
    ensures Square(r, n, dim)
  {
    PresentUpTo(Cleared(g, n, dim), n, dim, sqrt, data, LearningRate(epoch, epochs), Reach(n, epoch, epochs), Presented(|data|))
  }

  /** The grid after the first `upto` epochs of `train`. */
  function TrainedUpTo(g: Grid, n: nat, dim: nat, sqrt: real -> real, data: seq<Vector>, epochs: nat, upto: nat): (r: Grid)
    requires Square(g, n, dim) && Rows(data, dim) && upto <= epochs && (0 < n || |data| <= 1 || epochs == 0)
    ensures Square(r, n, dim)
  {
    if upto == 0 then g
    else Epoch(TrainedUpTo(g, n, dim, sqrt, data, epochs, upto - 1), n, dim, sqrt, data, upto - 1, epochs)
  }

  /** The best-matching cell of each presented vector, at the moment it was
      presented. */
  function Winners(g: Grid, n: nat, dim: nat, sqrt: real -> real, data: seq<Vector>, lr: real, reach: int, upto: nat): (w: seq<(nat, nat)>)
    requires Square(g, n, dim) && Rows(data, dim) && upto <= |data| && 0 < n
    ensures |w| == upto && forall i :: 0 <= i < upto ==> w[i].0 < n && w[i].1 < n
  {
    if upto == 0 then []
    else
      var before := PresentUpTo(g, n, dim, sqrt, data, lr, reach, upto - 1);
      Winners(g, n, dim, sqrt, data, lr, reach, upto - 1) + [Bmu(before, n, dim, sqrt, data[upto - 1])]
  }

  /** Index i is held by cell (a, b), as recorded in `owner`. */
  ghost predicate HeldBy(owner: seq<(nat, nat)>, i: nat, a: int, b: int) {
    i < |owner| && owner[i] == (a, b)
  }

  /** Membership after presenting vectors 0 .. upto - 1: a cell holds index i
      exactly when it held it before, or i was presented and the cell was the
      best match for vector i at that moment. */
  lemma {:induction false} PresentUpToMembers(g: Grid, n: nat, dim: nat, sqrt: real -> real, data: seq<Vector>,
                                              lr: real, reach: int, upto: nat, a: nat, b: nat, i: nat)
    requires Square(g, n, dim) && Rows(data, dim) && upto <= |data| && 0 < n && a < n && b < n
    ensures i in PresentUpTo(g, n, dim, sqrt, data, lr, reach, upto)[a][b].currentMembers <==>
      i in g[a][b].currentMembers || HeldBy(Winners(g, n, dim, sqrt, data, lr, reach, upto), i, a, b)
  {
    if upto > 0 {
      PresentUpToMembers(g, n, dim, sqrt, data, lr, reach, upto - 1, a, b, i);
      var before: Grid := PresentUpTo(g, n, dim, sqrt, data, lr, reach, upto - 1);
      var x := data[upto - 1];
      PresentMembers(before, n, dim, sqrt, x, upto - 1, lr, reach, a, b);
      var w := Winners(g, n, dim, sqrt, data, lr, reach, upto - 1);
      assert Winners(g, n, dim, sqrt, data, lr, reach, upto) == w + [Bmu(before, n, dim, sqrt, x)];
    }
  }

  /** Some cell of the grid holds index i. */
  ghost predicate Held(g: Grid, n: nat, i: nat)
    requires Shape(g, n)
  {
    exists a, b :: 0 <= a < n && 0 <= b < n && i in g[a][b].currentMembers
  }

  /** The memberships split the indices 0 .. count - 1 over the cells: each
      is held by exactly one cell, and no other index is held at all. */
  ghost predicate GridPartition(g: Grid, n: nat, count: nat)
    requires Shape(g, n)
  {
    (forall i :: 0 <= i < count ==> Held(g, n, i)) &&
    (forall a, b, a', b', i ::
      (0 <= a < n && 0 <= b < n && 0 <= a' < n && 0 <= b' < n &&
       i in g[a][b].currentMembers && i in g[a'][b'].currentMembers) ==> a == a' && b == b') &&
    (forall a, b, i :: 0 <= a < n && 0 <= b < n && i in g[a][b].currentMembers ==> i < count)
  }

  /** Memberships that agree with an owner table form a partition. */
  lemma OwnerTablePartitions(g: Grid, n: nat, owner: seq<(nat, nat)>)
    requires Shape(g, n)
    requires forall i :: 0 <= i < |owner| ==> owner[i].0 < n && owner[i].1 < n && i in g[owner[i].0][owner[i].1].currentMembers
    requires forall a, b, i :: 0 <= a < n && 0 <= b < n && i in g[a][b].currentMembers ==> HeldBy(owner, i, a, b)
    ensures GridPartition(g, n, |owner|)
  {
    forall i | 0 <= i < |owner|
      ensures Held(g, n, i)
    {
      assert i in g[owner[i].0][owner[i].1].currentMembers;
    }
  }

  /** After an epoch the cells partition the presented indices
      0 .. len(traindata) - 2: each lies in exactly one cell, and the last
      training index lies in none. */
  lemma EpochPartitions(g: Grid, n: nat, dim: nat, sqrt: real -> real, data: seq<Vector>, epoch: nat, epochs: nat)
    requires Square(g, n, dim) && Rows(data, dim) && epoch < epochs && (0 < n || |data| <= 1)
    ensures GridPartition(Epoch(g, n, dim, sqrt, data, epoch, epochs), n, Presented(|data|))
  {
    var r: Grid := Epoch(g, n, dim, sqrt, data, epoch, epochs);
    var start: Grid := Cleared(g, n, dim);
    var lr, reach, count := LearningRate(epoch, epochs), Reach(n, epoch, epochs), Presented(|data|);
    if n == 0 {
      assert count == 0;
      OwnerTablePartitions(r, n, []);
    } else {
      var owner := Winners(start, n, dim, sqrt, data, lr, reach, count);
      forall i | 0 <= i < |owner|
        ensures owner[i].0 < n && owner[i].1 < n && i in r[owner[i].0][owner[i].1].currentMembers
      {
        PresentUpToMembers(start, n, dim, sqrt, data, lr, reach, count, owner[i].0, owner[i].1, i);
      }
      forall a, b, i | 0 <= a < n && 0 <= b < n && i in r[a][b].currentMembers
        ensures HeldBy(owner, i, a, b)
      {
        PresentUpToMembers(start, n, dim, sqrt, data, lr, reach, count, a, b, i);
      }
      OwnerTablePartitions(r, n, owner);
    }
  }

  /** Once at least one epoch has run, the memberships partition the
      presented indices. */
  lemma TrainedPartitions(g: Grid, n: nat, dim: nat, sqrt: real -> real, data: seq<Vector>, epochs: nat, upto: nat)
    requires Square(g, n, dim) && Rows(data, dim) && 0 < upto <= epochs && (0 < n || |data| <= 1)
    ensures GridPartition(TrainedUpTo(g, n, dim, sqrt, data, epochs, upto), n, Presented(|data|))
  {
    EpochPartitions(TrainedUpTo(g, n, dim, sqrt, data, epochs, upto - 1), n, dim, sqrt, data, upto - 1, epochs);
  }

  /** The prototypes of the last row and of the last column. */
  ghost function Edges(g: Grid, n: nat): (e: (seq<Vector>, seq<Vector>))
    requires Shape(g, n) && 0 < n
  {
    (seq(n, c requires 0 <= c < n => g[n - 1][c].prototype), seq(n, c requires 0 <= c < n => g[c][n - 1].prototype))
  }

  /** A presentation never changes the last row or the last column: the
      neighbourhood's upper bounds are clipped to n - 1 and excluded. */
  lemma PresentKeepsEdges(g: Grid, n: nat, dim: nat, sqrt: real -> real, x: Vector, idx: nat, lr: real, reach: int)
    requires Square(g, n, dim) && |x| == dim && 0 < n
    ensures Edges(Present(g, n, dim, sqrt, x, idx, lr, reach), n) == Edges(g, n)
  {
    var r: Grid := Present(g, n, dim, sqrt, x, idx, lr, reach);
    var best := Bmu(g, n, dim, sqrt, x);
    forall c | 0 <= c < n
      ensures r[n - 1][c].prototype == g[n - 1][c].prototype && r[c][n - 1].prototype == g[c][n - 1].prototype
    {
      NeighbourhoodCells(n, best.0, best.1, reach, c, c);
      PresentPrototype(g, n, dim, sqrt, x, idx, lr, reach, n - 1, c);
      PresentPrototype(g, n, dim, sqrt, x, idx, lr, reach, c, n - 1);
    }
    assert Edges(r, n).0 == Edges(g, n).0;
    assert Edges(r, n).1 == Edges(g, n).1;
  }

  lemma {:induction false} PresentUpToKeepsEdges(g: Grid, n: nat, dim: nat, sqrt: real -> real, data: seq<Vector>,
                                                 lr: real, reach: int, upto: nat)
    requires Square(g, n, dim) && Rows(data, dim) && upto <= |data| && 0 < n
    ensures Edges(PresentUpTo(g, n, dim, sqrt, data, lr, reach, upto), n) == Edges(g, n)
  {
    if upto > 0 {
      PresentUpToKeepsEdges(g, n, dim, sqrt, data, lr, reach, upto - 1);
      PresentKeepsEdges(PresentUpTo(g, n, dim, sqrt, data, lr, reach, upto - 1), n, dim, sqrt, data[upto - 1], upto - 1, lr, reach);
    }
  }

  /** An epoch never changes the last row or the last column. */
  lemma EpochKeepsEdges(g: Grid, n: nat, dim: nat, sqrt: real -> real, data: seq<Vector>, epoch: nat, epochs: nat)
    requires Square(g, n, dim) && Rows(data, dim) && epoch < epochs && 0 < n
    ensures Edges(Epoch(g, n, dim, sqrt, data, epoch, epochs), n) == Edges(g, n)
  {
    var cleared: Grid := Cleared(g, n, dim);
    assert Edges(cleared, n).0 == Edges(g, n).0;
    assert Edges(cleared, n).1 == Edges(g, n).1;
    PresentUpToKeepsEdges(cleared, n, dim, sqrt, data, LearningRate(epoch, epochs), Reach(n, epoch, epochs), Presented(|data|));
  }

  /** Training never changes the last row or the last column: they keep the
      training vectors drawn by `__init__`. */
  lemma {:induction false} TrainedKeepsEdges(g: Grid, n: nat, dim: nat, sqrt: real -> real, data: seq<Vector>, epochs: nat, upto: nat)
    requires Square(g, n, dim) && Rows(data, dim) && upto <= epochs && 0 < n
    ensures Edges(TrainedUpTo(g, n, dim, sqrt, data, epochs, upto), n) == Edges(g, n)
  {
    if upto > 0 {
      TrainedKeepsEdges(g, n, dim, sqrt, data, epochs, upto - 1);
      EpochKeepsEdges(TrainedUpTo(g, n, dim, sqrt, data, epochs, upto - 1), n, dim, sqrt, data, upto - 1, epochs);
    }
  }

  /** A presentation keeps every prototype in the unit cube when the
      presented vector lies in it and the learning rate is in (0, 1]. */
  lemma PresentInUnitCube(g: Grid, n: nat, dim: nat, sqrt: real -> real, x: Vector, idx: nat, lr: real, reach: int)
    requires Square(g, n, dim) && |x| == dim && 0 < n && 0.0 < lr <= 1.0
    requires GridInUnitCube(g, n) && InUnitCube(x)
    ensures GridInUnitCube(Present(g, n, dim, sqrt, x, idx, lr, reach), n)
  {
    var r: Grid := Present(g, n, dim, sqrt, x, idx, lr, reach);
    forall a, b | 0 <= a < n && 0 <= b < n
      ensures InUnitCube(r[a][b].prototype)
    {
      BlendInUnitCube(g[a][b].prototype, x, lr, dim);
      PresentPrototype(g, n, dim, sqrt, x, idx, lr, reach, a, b);
    }
  }

  lemma {:induction false} PresentUpToInUnitCube(g: Grid, n: nat, dim: nat, sqrt: real -> real, data: seq<Vector>,
                                                 lr: real, reach: int, upto: nat)
    requires Square(g, n, dim) && Rows(data, dim) && upto <= |data| && 0 < n && 0.0 < lr <= 1.0
    requires GridInUnitCube(g, n) && forall i :: 0 <= i < |data| ==> InUnitCube(data[i])
    ensures GridInUnitCube(PresentUpTo(g, n, dim, sqrt, data, lr, reach, upto), n)
  {
    if upto > 0 {
      PresentUpToInUnitCube(g, n, dim, sqrt, data, lr, reach, upto - 1);
      PresentInUnitCube(PresentUpTo(g, n, dim, sqrt, data, lr, reach, upto - 1), n, dim, sqrt, data[upto - 1], upto - 1, lr, reach);
    }
  }

  /** An epoch keeps every prototype in the unit cube when the training
      vectors lie in it. */
  lemma EpochInUnitCube(g: Grid, n: nat, dim: nat, sqrt: real -> real, data: seq<Vector>, epoch: nat, epochs: nat)
    requires Square(g, n, dim) && Rows(data, dim) && epoch < epochs && 0 < n
    requires GridInUnitCube(g, n) && forall i :: 0 <= i < |data| ==> InUnitCube(data[i])
    ensures GridInUnitCube(Epoch(g, n, dim, sqrt, data, epoch, epochs), n)
  {
    LearningRateBounds(epoch, epochs);
    PresentUpToInUnitCube(Cleared(g, n, dim), n, dim, sqrt, data, LearningRate(epoch, epochs), Reach(n, epoch, epochs), Presented(|data|));
  }

  /** Training keeps every prototype in the unit cube when the training
      vectors (and so the seeded prototypes) lie in it. */
  lemma {:induction false} TrainedInUnitCube(g: Grid, n: nat, dim: nat, sqrt: real -> real, data: seq<Vector>, epochs: nat, upto: nat)
    requires Square(g, n, dim) && Rows(data, dim) && upto <= epochs && 0 < n
    requires GridInUnitCube(g, n) && forall i :: 0 <= i < |data| ==> InUnitCube(data[i])
    ensures GridInUnitCube(TrainedUpTo(g, n, dim, sqrt, data, epochs, upto), n)
  {
    if upto > 0 {
      TrainedInUnitCube(g, n, dim, sqrt, data, epochs, upto - 1);
      EpochInUnitCube(TrainedUpTo(g, n, dim, sqrt, data, epochs, upto - 1), n, dim, sqrt, data, upto - 1, epochs);
    }
  }

  // ---------------------------------------------------------------------
  // Testing

  /** The owner scan of `test` over the first `upto` cells of row a: the
      variable `owner` becomes every cell that holds `client`, so the last
      such cell wins; with none it keeps its value `start`. */
  function OwnerRow(g: Grid, n: nat, client: nat, a: nat, start: Option<Cell>, upto: nat): Option<Cell>
    requires Shape(g, n) && a < n && upto <= n
  {
    if upto == 0 then start
    else if client in g[a][upto - 1].currentMembers then Some(g[a][upto - 1])
    else OwnerRow(g, n, client, a, start, upto - 1)
  }

  /** The owner scan over the first `rows` rows. */
  function OwnerRows(g: Grid, n: nat, client: nat, start: Option<Cell>, rows: nat): Option<Cell>
    requires Shape(g, n) && rows <= n
  {
    if rows == 0 then start
    else OwnerRow(g, n, client, rows - 1, OwnerRows(g, n, client, start, rows - 1), n)
  }

  /** The owner after scanning the whole grid for `client`; `prev` is the
      owner left over from the previous client (the variable is never reset). */
  function FindOwner(g: Grid, n: nat, dim: nat, client: nat, prev: Option<Cell>): (r: Option<Cell>)
    requires Square(g, n, dim)
    ensures (prev.None? || |prev.value.prototype| == dim) ==> (r.None? || |r.value.prototype| == dim)
  {
    OwnerRowsShape(g, n, dim, client, prev, n);
    OwnerRows(g, n, client, prev, n)
  }

  lemma {:induction false} OwnerRowsShape(g: Grid, n: nat, dim: nat, client: nat, start: Option<Cell>, rows: nat)
    requires Square(g, n, dim) && rows <= n
    ensures var r := OwnerRows(g, n, client, start, rows);
      (start.None? || |start.value.prototype| == dim) ==> (r.None? || |r.value.prototype| == dim)
  {
    if rows > 0 {
      OwnerRowsShape(g, n, dim, client, start, rows - 1);
      OwnerRowShape(g, n, dim, client, rows - 1, OwnerRows(g, n, client, start, rows - 1), n);
    }
  }

  lemma {:induction false} OwnerRowShape(g: Grid, n: nat, dim: nat, client: nat, a: nat, start: Option<Cell>, upto: nat)
    requires Square(g, n, dim) && a < n && upto <= n
    ensures var r := OwnerRow(g, n, client, a, start, upto);
      (start.None? || |start.value.prototype| == dim) ==> (r.None? || |r.value.prototype| == dim)
  {
    if upto > 0 {
      OwnerRowShape(g, n, dim, client, a, start, upto - 1);
    }
  }

  /** A row without `client` leaves the scan at `start`. */
  lemma {:induction false} OwnerRowNone(g: Grid, n: nat, client: nat, a: nat, start: Option<Cell>, upto: nat)
    requires Shape(g, n) && a < n && upto <= n
    requires forall b :: 0 <= b < upto ==> client !in g[a][b].currentMembers
    ensures OwnerRow(g, n, client, a, start, upto) == start
  {
    if upto > 0 {
      OwnerRowNone(g, n, client, a, start, upto - 1);
    }
  }

  /** The last cell of the row holding `client` is the one the scan yields. */
  lemma {:induction false} OwnerRowLast(g: Grid, n: nat, client: nat, a: nat, start: Option<Cell>, upto: nat, b0: nat)
    requires Shape(g, n) && a < n && upto <= n && b0 < upto && client in g[a][b0].currentMembers
    requires forall b :: b0 < b < upto ==> client !in g[a][b].currentMembers
    ensures OwnerRow(g, n, client, a, start, upto) == Some(g[a][b0])
  {
    if b0 < upto - 1 {
      OwnerRowLast(g, n, client, a, start, upto - 1, b0);
    }
  }

  /** With `client` in no cell of row a the row scan keeps `start`; otherwise
      the scan yields the last cell b0 of the row that holds it. */
  lemma OwnerRowCases(g: Grid, n: nat, client: nat, a: nat, start: Option<Cell>, upto: nat)
    requires Shape(g, n) && a < n && upto <= n
    ensures (forall b :: 0 <= b < upto ==> client !in g[a][b].currentMembers) ==>
      OwnerRow(g, n, client, a, start, upto) == start
    ensures forall b0 ::
      (0 <= b0 < upto && client in g[a][b0].currentMembers &&
       forall b :: b0 < b < upto ==> client !in g[a][b].currentMembers) ==>
      OwnerRow(g, n, client, a, start, upto) == Some(g[a][b0])
  {
    if forall b :: 0 <= b < upto ==> client !in g[a][b].currentMembers {
      OwnerRowNone(g, n, client, a, start, upto);
    }
    forall b0 | 0 <= b0 < upto && client in g[a][b0].currentMembers &&
                (forall b :: b0 < b < upto ==> client !in g[a][b].currentMembers)
      ensures OwnerRow(g, n, client, a, start, upto) == Some(g[a][b0])
    {
      OwnerRowLast(g, n, client, a, start, upto, b0);
    }
  }

  /** Rows without `client` leave the scan at `start`. */
  lemma {:induction false} OwnerRowsNone(g: Grid, n: nat, client: nat, start: Option<Cell>, rows: nat)
    requires Shape(g, n) && rows <= n
    requires forall a, b :: 0 <= a < rows && 0 <= b < n ==> client !in g[a][b].currentMembers
    ensures OwnerRows(g, n, client, start, rows) == start
  {
    if rows > 0 {
      OwnerRowsNone(g, n, client, start, rows - 1);
      OwnerRowNone(g, n, client, rows - 1, start, n);
    }
  }

  /** The last cell in row-major order holding `client` is the one the scan yields. */
  lemma {:induction false} OwnerRowsLast(g: Grid, n: nat, client: nat, start: Option<Cell>, rows: nat, a0: nat, b0: nat)
    requires Shape(g, n) && rows <= n && a0 < rows && b0 < n && client in g[a0][b0].currentMembers
    requires forall a, b :: 0 <= a < rows && 0 <= b < n && Before(a0, b0, a, b) ==> client !in g[a][b].currentMembers
    ensures OwnerRows(g, n, client, start, rows) == Some(g[a0][b0])
  {
    var mid := OwnerRows(g, n, client, start, rows - 1);
    if a0 == rows - 1 {
      forall b | b0 < b < n ensures client !in g[a0][b].currentMembers {
        assert Before(a0, b0, a0, b);
      }
      OwnerRowLast(g, n, client, a0, mid, n, b0);
    } else {
      var last := g[rows - 1];
      forall b | 0 <= b < n ensures client !in last[b].currentMembers {
        assert Before(a0, b0, rows - 1, b);
      }
      OwnerRowNone(g, n, client, rows - 1, mid, n);
      OwnerRowsLast(g, n, client, start, rows - 1, a0, b0);
    }
  }

  /** With `client` in no cell the scan keeps `start`; otherwise it yields the
      last cell in row-major order that holds it. */
  lemma OwnerRowsCases(g: Grid, n: nat, client: nat, start: Option<Cell>, rows: nat)
    requires Shape(g, n) && rows <= n
    ensures (forall a, b :: 0 <= a < rows && 0 <= b < n ==> client !in g[a][b].currentMembers) ==>
      OwnerRows(g, n, client, start, rows) == start
    ensures forall a0, b0 ::
      (0 <= a0 < rows && 0 <= b0 < n && client in g[a0][b0].currentMembers &&
       forall a, b :: 0 <= a < rows && 0 <= b < n && Before(a0, b0, a, b) ==> client !in g[a][b].currentMembers) ==>
      OwnerRows(g, n, client, start, rows) == Some(g[a0][b0])
  {
    if forall a, b :: 0 <= a < rows && 0 <= b < n ==> client !in g[a][b].currentMembers {
      OwnerRowsNone(g, n, client, start, rows);
    }
    forall a0, b0 | 0 <= a0 < rows && 0 <= b0 < n && client in g[a0][b0].currentMembers &&
                    (forall a, b :: 0 <= a < rows && 0 <= b < n && Before(a0, b0, a, b) ==> client !in g[a][b].currentMembers)
      ensures OwnerRows(g, n, client, start, rows) == Some(g[a0][b0])
    {
      OwnerRowsLast(g, n, client, start, rows, a0, b0);
    }
  }

  /** In a partitioned grid the owner scan finds the one cell holding a
      client below `count`, and leaves the previous owner in place for any
      other client. */
  lemma FindOwnerInPartition(g: Grid, n: nat, dim: nat, count: nat, client: nat, prev: Option<Cell>)
    requires Square(g, n, dim) && GridPartition(g, n, count)
    ensures client < count ==>
      exists a, b :: 0 <= a < n && 0 <= b < n && client in g[a][b].currentMembers && FindOwner(g, n, dim, client, prev) == Some(g[a][b])
    ensures count <= client ==> FindOwner(g, n, dim, client, prev) == prev
  {
    OwnerRowsCases(g, n, client, prev, n);
    if client < count {
      assert Held(g, n, client);
      var a, b :| 0 <= a < n && 0 <= b < n && client in g[a][b].currentMembers;
      assert OwnerRows(g, n, client, prev, n) == Some(g[a][b]);
    }
  }

  /** The state `test` carries from one client to the next: the owner
      variable and the counters. */
  datatype Probing = Probing(owner: Option<Cell>, tally: Tally)

  /** `test` over clients 0 .. clients - 1: None once a client is evaluated
      while `owner` has never been assigned (reading `owner.prototype` raises;
      with dim = 0 it is never read). */
  function TestUpTo(g: Grid, n: nat, dim: nat, test: seq<Vector>, clients: nat): (r: Option<Probing>)
    requires Square(g, n, dim) && Rows(test, dim) && clients <= |test|
    ensures r.Some? ==> r.value.tally.Consistent()
    ensures r.Some? ==> r.value.owner.None? || |r.value.owner.value.prototype| == dim
  {
    if clients == 0 then Some(Probing(None, NoTally()))
    else match TestUpTo(g, n, dim, test, clients - 1)
      case None => None
      case Some(st) =>
        var owner := FindOwner(g, n, dim, clients - 1, st.owner);
        if owner.None? then (if dim == 0 then Some(Probing(owner, st.tally)) else None)
        else Some(Probing(owner, st.tally.Plus(VectorTally(owner.value.prototype, test[clients - 1], dim))))
  }

  /** One client more: its owner is looked up from the previous one and,
      when there is one, its counts are added. */
  lemma TestUpToStep(g: Grid, n: nat, dim: nat, test: seq<Vector>, client: nat, prev: Option<Cell>, t: Tally)
    requires Square(g, n, dim) && Rows(test, dim) && client < |test|
    requires TestUpTo(g, n, dim, test, client) == Some(Probing(prev, t))
    ensures var owner := FindOwner(g, n, dim, client, prev);
      TestUpTo(g, n, dim, test, client + 1) ==
        if owner.None? then (if dim == 0 then Some(Probing(owner, t)) else None)
        else Some(Probing(owner, t.Plus(VectorTally(owner.value.prototype, test[client], dim))))
  {
  }

  /** How `test` ends on a grid. */
  function TestOutcome(g: Grid, n: nat, dim: nat, test: seq<Vector>, clients: nat): (o: Outcome)
    requires Square(g, n, dim) && Rows(test, dim) && clients <= |test|
    ensures o.Unowned? <==> TestUpTo(g, n, dim, test, clients).None?
  {
    match TestUpTo(g, n, dim, test, clients)
    case None => Unowned
    case Some(st) => Evaluate(st.tally)
  }

  /** With a partition of 0 .. count - 1 (count > 0) every client is evaluated
      against a cell: client c < count against the cell holding it, every
      later client against the cell holding count - 1. */
  lemma {:induction false} TestOwners(g: Grid, n: nat, dim: nat, test: seq<Vector>, count: nat, clients: nat)
    requires Square(g, n, dim) && Rows(test, dim) && clients <= |test| && GridPartition(g, n, count) && 0 < count
    ensures TestUpTo(g, n, dim, test, clients).Some?
    ensures 0 < clients ==>
      var owner := TestUpTo(g, n, dim, test, clients).value.owner;
      owner.Some? && Min(clients, count) - 1 in owner.value.currentMembers
  {
    if 0 < clients {
      TestOwners(g, n, dim, test, count, clients - 1);
      var st := TestUpTo(g, n, dim, test, clients - 1).value;
      FindOwnerInPartition(g, n, dim, count, clients - 1, st.owner);
    }
  }

  /** With no memberships at all and dim > 0, `test` fails on the first
      client: `owner` is read before it is ever assigned. */
  lemma {:induction false} TestUnowned(g: Grid, n: nat, dim: nat, test: seq<Vector>, clients: nat)
    requires Square(g, n, dim) && Rows(test, dim) && clients <= |test| && GridPartition(g, n, 0)
    requires 0 < dim && 0 < clients
    ensures TestUpTo(g, n, dim, test, clients).None?
  {
    if clients == 1 {
      FindOwnerInPartition(g, n, dim, 0, 0, None);
    } else {
      TestUnowned(g, n, dim, test, clients - 1);
    }
  }

  /** The seeded grid holds no members. */
  lemma SeededGridPartition(data: seq<Vector>, seeds: seq<seq<nat>>, n: nat)
    requires ValidSeeds(seeds, n, |data|)
    ensures GridPartition(SeededGrid(data, seeds, n), n, 0)
  {
  }

  /** Once a client fails, `test` has stopped: every longer run fails too. */
  lemma {:induction false} TestUpToStaysNone(g: Grid, n: nat, dim: nat, test: seq<Vector>, clients: nat, more: nat)
    requires Square(g, n, dim) && Rows(test, dim) && clients <= more <= |test|
    requires TestUpTo(g, n, dim, test, clients).None?
    ensures TestUpTo(g, n, dim, test, more).None?
    decreases more - clients
  {
    if clients < more {
      TestUpToStaysNone(g, n, dim, test, clients + 1, more);
    }
  }

  /** Prototype (a, b) is blended exactly when it lies in `region` and was
      visited before position (a, b): the state of `train`'s update loops. */
  ghost predicate MovedBefore(g: Grid, g0: Grid, n: nat, dim: nat, region: Region, x: Vector, lr: real, a: int, b: int)
    requires Square(g0, n, dim) && |x| == dim
  {
    Shape(g, n) &&
    forall a', b' :: 0 <= a' < n && 0 <= b' < n ==>
      g[a'][b'] == if region.Contains(a', b') && Before(a', b', a, b)
                   then g0[a'][b'].(prototype := Blend(g0[a'][b'].prototype, x, lr, dim)) else g0[a'][b']
  }

  /** The new prototype `new_prot`, built one component at a time. */
  method BlendVector(p: Vector, x: Vector, lr: real, dim: nat) returns (r: Vector)
    requires dim <= |p| && dim <= |x|
    ensures r == Blend(p, x, lr, dim)
  {
    r := [];
    for j := 0 to dim
      invariant r == Blend(p, x, lr, j)
    {
      r := r + [(1.0 - lr) * p[j] + lr * x[j]];
      assert forall k :: 0 <= k <= j ==> r[k] == Blend(p, x, lr, j + 1)[k];
    }
  }

  /** The Kohonen map of cluster/kohonen.py. */
  class Kohonen {
    const n: nat
    const epochs: nat
    const traindata: seq<Vector>
    const testdata: seq<Vector>
    const dim: nat
    /** The square root used by the best-matching-cell scan. */
    const sqrt: real -> real
    var clusters: Grid
    var accuracy: real
    var hitrate: real

    ghost predicate Valid()
      reads this
    {
      Square(clusters, n, dim) && Rows(traindata, dim) && Rows(testdata, dim)
    }

    /** The grid is n x n; cell (a, b) starts from training vector
        `seeds[a][b]` (the random draw) and no members. */
    constructor (n: nat, epochs: nat, traindata: seq<Vector>, testdata: seq<Vector>, dim: nat,
                 seeds: seq<seq<nat>>, sqrt: real -> real)
      requires Rows(traindata, dim) && Rows(testdata, dim) && ValidSeeds(seeds, n, |traindata|)
      ensures Valid()
      ensures this.n == n && this.epochs == epochs && this.traindata == traindata &&
              this.testdata == testdata && this.dim == dim && this.sqrt == sqrt
      ensures clusters == SeededGrid(traindata, seeds, n)
      ensures accuracy == 0.0 && hitrate == 0.0
    {
      this.n, this.epochs, this.traindata, this.testdata, this.dim, this.sqrt := n, epochs, traindata, testdata, dim, sqrt;
      var zero := seq(dim, _ => 0.0);
      clusters := seq(n, _ => seq(n, _ => Cell(zero, {})));
      new;
      for a := 0 to n
        invariant Shape(clusters, n)
        invariant forall a', b' :: 0 <= a' < n && 0 <= b' < n ==>
          clusters[a'][b'] == if a' < a then Cell(traindata[seeds[a'][b']], {}) else Cell(zero, {})
      {
        for b := 0 to n
          invariant Shape(clusters, n)
          invariant forall a', b' :: 0 <= a' < n && 0 <= b' < n ==>
            clusters[a'][b'] == if Before(a', b', a, b) then Cell(traindata[seeds[a'][b']], {}) else Cell(zero, {})
        {
          clusters := clusters[a := clusters[a][b := clusters[a][b].(prototype := traindata[seeds[a][b]])]];
        }
      }
      assert forall a :: 0 <= a < n ==> clusters[a] == SeededGrid(traindata, seeds, n)[a];
      accuracy, hitrate := 0.0, 0.0;
    }

    /** The scan of lines 50-60 for one training vector. */
    method BestMatchingCell(x: Vector) returns (minD1: nat, minD2: nat)
      requires Valid() && |x| == dim && 0 < n
      ensures (minD1, minD2) == Bmu(clusters, n, dim, sqrt, x)
    {
      var distance := 0.0;
      var minDist: Option<real> := None;
      var best: Option<(nat, nat)> := None;
      for a := 0 to n
        invariant Scan(distance, minDist, best) == ScanRows(clusters, n, dim, sqrt, x, a)
      {
        for b := 0 to n
          invariant Scan(distance, minDist, best) == ScanRow(clusters, n, dim, sqrt, x, a, b)
        {
          var proto := clusters[a][b].prototype;
          ghost var running := distance;
          for j := 0 to dim
            invariant distance == running + SqDist(proto, x, j)
          {
            distance := distance + (proto[j] - x[j]) * (proto[j] - x[j]);
          }
          distance := sqrt(distance);
          if minDist.None? || distance <= minDist.value {
            best := Some((a, b));
            minDist := Some(distance);
          }
        }
      }
      ScanRowsSummarises(clusters, n, dim, sqrt, x, n);
      minD1, minD2 := best.value.0, best.value.1;
    }

    /** The update loops of lines 67-73: every cell of `region` moves
        towards `x`. */
    method UpdateNeighbourhood(region: Region, x: Vector, lr: real)
      requires Valid() && |x| == dim
      requires 0 <= region.lo1 && region.hi1 <= n && 0 <= region.lo2 && region.hi2 <= n
      modifies this`clusters
      ensures Valid()
      ensures clusters == Moved(old(clusters), n, dim, region, x, lr, n)
    {
      ghost var g0: Grid := clusters;
      var a := region.lo1;
      while a < region.hi1
        invariant region.lo1 <= a && (a <= region.hi1 || a == region.lo1)
        invariant Square(clusters, n, dim)
        invariant MovedBefore(clusters, g0, n, dim, region, x, lr, a, 0)
        decreases region.hi1 - a
      {
        var b := region.lo2;
        while b < region.hi2
          invariant region.lo2 <= b && (b <= region.hi2 || b == region.lo2)
          invariant Square(clusters, n, dim)
          invariant MovedBefore(clusters, g0, n, dim, region, x, lr, a, b)
          decreases region.hi2 - b
        {
          var newProt := BlendVector(clusters[a][b].prototype, x, lr, dim);
          clusters := clusters[a := clusters[a][b := clusters[a][b].(prototype := newProt)]];
          b := b + 1;
        }
        a := a + 1;
      }
      MovedIsMovedBefore(clusters, g0, n, dim, region, x, lr, a);
    }

    /** Lines 45-47: every membership is cleared. */
    method ClearMembers()
      requires Valid()
      modifies this`clusters
      ensures Valid()
      ensures clusters == Cleared(old(clusters), n, dim)
    {
      ghost var g0: Grid := clusters;
      for a := 0 to n
        invariant Square(clusters, n, dim)
        invariant forall a', b' :: 0 <= a' < n && 0 <= b' < n ==>
          clusters[a'][b'] == if a' < a then g0[a'][b'].(currentMembers := {}) else g0[a'][b']
      {
        for b := 0 to n
          invariant Square(clusters, n, dim)
          invariant forall a', b' :: 0 <= a' < n && 0 <= b' < n ==>
            clusters[a'][b'] == if Before(a', b', a, b) then g0[a'][b'].(currentMembers := {}) else g0[a'][b']
        {
          clusters := clusters[a := clusters[a][b := clusters[a][b].(currentMembers := {})]];
        }
      }
      assert forall a :: 0 <= a < n ==> clusters[a] == Cleared(g0, n, dim)[a];
    }

    /** Lines 50-74: present training vector `idx`. */
    method PresentVector(idx: nat, lr: real, reach: int)
      requires Valid() && idx < |traindata| && 0 < n
      modifies this`clusters
      ensures Valid()
      ensures clusters == Present(old(clusters), n, dim, sqrt, traindata[idx], idx, lr, reach)
    {
      var x := traindata[idx];
      var d1, d2 := BestMatchingCell(x);
      var region := Neighbourhood(n, d1, d2, reach);
      UpdateNeighbourhood(region, x, lr);
      clusters := clusters[d1 := clusters[d1][d2 := clusters[d1][d2].(currentMembers := clusters[d1][d2].currentMembers + {idx})]];
    }

    /** `train`: `epochs` epochs, each clearing the memberships and
        presenting every training vector but the last. */
    method Train()
      requires Valid() && (0 < n || |traindata| <= 1 || epochs == 0)
      modifies this`clusters
      ensures Valid()
      ensures clusters == TrainedUpTo(old(clusters), n, dim, sqrt, traindata, epochs, epochs)
    {
      ghost var g0: Grid := clusters;
      for epoch := 0 to epochs
        invariant Valid()
        invariant clusters == TrainedUpTo(g0, n, dim, sqrt, traindata, epochs, epoch)
      {
        RunEpoch(epoch);
      }
    }

    /** One pass of the epoch loop of `train` (lines 42-74). */
    method RunEpoch(epoch: nat)
      requires Valid() && (0 < n || |traindata| <= 1) && epoch < epochs
      modifies this`clusters
      ensures Valid()
      ensures clusters == Epoch(old(clusters), n, dim, sqrt, traindata, epoch, epochs)
    {
      var learningRate := LearningRate(epoch, epochs);
      var radius := Radius(n, epoch, epochs);
      ClearMembers();
      PresentAll(learningRate, Trunc(radius));
    }

    /** Lines 49-74: present every training vector but the last, in order. */
    method PresentAll(learningRate: real, reach: int)
      requires Valid() && (0 < n || |traindata| <= 1)
      modifies this`clusters
      ensures Valid()
      ensures clusters == PresentUpTo(old(clusters), n, dim, sqrt, traindata, learningRate, reach, Presented(|traindata|))
    {
      ghost var start: Grid := clusters;
      for idx := 0 to Presented(|traindata|)
        invariant clusters == PresentUpTo(start, n, dim, sqrt, traindata, learningRate, reach, idx)
      {
        PresentVector(idx, learningRate, reach);
      }
    }

    /** Lines 84-87: the cell holding `client`, the last one in row-major
        order, or `prev` when none does. */
    method FindOwnerOf(client: nat, prev: Option<Cell>) returns (owner: Option<Cell>)
      requires Valid()
      ensures owner == FindOwner(clusters, n, dim, client, prev)
    {
      owner := prev;
      for a := 0 to n
        invariant owner == OwnerRows(clusters, n, client, prev, a)
      {
        ghost var rowStart := owner;
        for b := 0 to n
          invariant owner == OwnerRow(clusters, n, client, a, rowStart, b)
        {
          if client in clusters[a][b].currentMembers {
            owner := Some(clusters[a][b]);
          }
        }
      }
    }

    /** The client loop of `test` (lines 83-98): false when a client is
        evaluated before `owner` was ever assigned, else the counters. */
    method CountClients() returns (owned: bool, t: Tally)
      requires Valid() && |traindata| <= |testdata|
      ensures owned <==> TestUpTo(clusters, n, dim, testdata, |traindata|).Some?
      ensures owned ==> t == TestUpTo(clusters, n, dim, testdata, |traindata|).value.tally
    {
      var owner: Option<Cell> := None;
      t := NoTally();
      for client := 0 to |traindata|
        invariant TestUpTo(clusters, n, dim, testdata, client) == Some(Probing(owner, t))
      {
        ghost var prev := owner;
        owner := FindOwnerOf(client, owner);
        TestUpToStep(clusters, n, dim, testdata, client, prev, t);
        if owner.None? && 0 < dim {
          TestUpToStaysNone(clusters, n, dim, testdata, client + 1, |traindata|);
          return false, t;
        }
        if owner.Some? {
          t := CountVector(owner.value.prototype, testdata[client], dim, t);
        }
      }
      owned := true;
    }

    /** `test`: evaluate every client against its owner, then set the two
        rates; the exceptions of the source are the other outcomes. */
    method Test() returns (o: Outcome)
      requires Valid() && |traindata| <= |testdata|
      modifies this`accuracy, this`hitrate
      ensures o == TestOutcome(clusters, n, dim, testdata, |traindata|)
      ensures o.Rates? ==> accuracy == o.accuracy && hitrate == o.hitrate
      ensures o.ZeroRequests? ==> accuracy == o.accuracy && hitrate == old(hitrate)
      ensures o.Unowned? || o.ZeroPrefetch? ==> accuracy == old(accuracy) && hitrate == old(hitrate)
    {
      var owned, t := CountClients();
      if !owned {
        return Unowned;
      }
      if t.prefetch == 0 {
        return ZeroPrefetch;
      }
      accuracy := t.hits as real / t.prefetch as real;
      if t.requests == 0 {
        return ZeroRequests(accuracy);
      }
      hitrate := t.hits as real / t.requests as real;
      o := Rates(accuracy, hitrate);
    }
  }

  /** After the update loops every cell of `region` (which lies before row
      `a`) is blended and no other cell changes. */
  lemma MovedIsMovedBefore(g: Grid, g0: Grid, n: nat, dim: nat, region: Region, x: Vector, lr: real, a: int)
    requires Square(g0, n, dim) && |x| == dim && region.hi1 <= a
    requires MovedBefore(g, g0, n, dim, region, x, lr, a, 0)
    ensures g == Moved(g0, n, dim, region, x, lr, n)
  {
    var m := Moved(g0, n, dim, region, x, lr, n);
    forall a', b' | 0 <= a' < n && 0 <= b' < n
      ensures g[a'][b'] == m[a'][b']
    {
      MovedCell(g0, n, dim, region, x, lr, n, a', b');
    }
    assert forall a' :: 0 <= a' < n ==> g[a'] == m[a'];
  }
}
