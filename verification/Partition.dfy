/** The geographic client partition: farthest-point seeding and Lloyd iterations
    (benchmarks/privacy_real_subjects.py, partition_geographic). Distances are
    squared, which changes no comparison. */
module Partition {
  import opened Common

  datatype Point = Point(x: real, y: real)

  const ITERATIONS: nat := 50

  function Sq(a: real): real {
    a * a
  }

  function SqDist(p: Point, q: Point): real {
    Sq(p.x - q.x) + Sq(p.y - q.y)
  }

  // ----- The pieces of an iteration -----

  function Distances(p: Point, centers: seq<Point>): (d: seq<real>)
    ensures |d| == |centers|
  {
    seq(|centers|, j requires 0 <= j < |centers| => SqDist(p, centers[j]))
  }

  function Nearest(p: Point, centers: seq<Point>): (k: nat)
    requires |centers| > 0
    ensures k < |centers|
  {
    ArgMin(Distances(p, centers))
  }

  lemma NearestIsNearest(p: Point, centers: seq<Point>, j: nat)
    requires j < |centers|
    ensures SqDist(p, centers[Nearest(p, centers)]) <= SqDist(p, centers[j])
  {
    hide SqDist;
    var d := Distances(p, centers);
    assert d[Nearest(p, centers)] <= d[j];
  }

  function Assign(points: seq<Point>, centers: seq<Point>): (a: seq<nat>)
    requires |centers| > 0
    ensures |a| == |points| && forall i :: 0 <= i < |a| ==> a[i] == Nearest(points[i], centers)
  {
    seq(|points|, i requires 0 <= i < |points| => Nearest(points[i], centers))
  }

  /** How many points cell `k` holds, and the sums of their coordinates. */
  datatype Tally = Tally(n: nat, x: real, y: real)

  function TallyOf(points: seq<Point>, assign: seq<nat>, k: nat): Tally
    requires |points| == |assign|
  {
    if points == [] then Tally(0, 0.0, 0.0)
    else
      var n := |points| - 1;
      var t := TallyOf(points[..n], assign[..n], k);
      if assign[n] == k then Tally(t.n + 1, t.x + points[n].x, t.y + points[n].y) else t
  }

  /** The mean of a cell; an empty cell keeps its centre. */
  function MeanOrKeep(t: Tally, center: Point): Point {
    if t.n == 0 then center else Point(t.x / t.n as real, t.y / t.n as real)
  }

  function Recentred(points: seq<Point>, assign: seq<nat>, centers: seq<Point>): (c: seq<Point>)
    requires |points| == |assign|
    ensures |c| == |centers|
    ensures forall k :: 0 <= k < |c| ==> c[k] == MeanOrKeep(TallyOf(points, assign, k), centers[k])
  {
    seq(|centers|, k requires 0 <= k < |centers| => MeanOrKeep(TallyOf(points, assign, k), centers[k]))
  }

  /** numpy's allclose with its default tolerances. */
  predicate AllClose(a: seq<Point>, b: seq<Point>)
    requires |a| == |b|
  {
    forall k :: 0 <= k < |a| ==>
      && Abs(a[k].x - b[k].x) <= 0.00000001 + 0.00001 * Abs(b[k].x)
      && Abs(a[k].y - b[k].y) <= 0.00000001 + 0.00001 * Abs(b[k].y)
  }

  /** The distance to the nearest of the centres chosen so far. */
  function Remoteness(p: Point, centers: seq<Point>): real
    requires |centers| > 0
  {
    SqDist(p, centers[Nearest(p, centers)])
  }

  function Farthest(points: seq<Point>, centers: seq<Point>): (i: nat)
    requires |points| > 0 && |centers| > 0
    ensures i < |points|
  {
    ArgMax(seq(|points|, j requires 0 <= j < |points| => Remoteness(points[j], centers)))
  }

  /** The seeding really picks a point that is farthest from the centres so far. */
  lemma FarthestIsFarthest(points: seq<Point>, centers: seq<Point>, j: nat)
    requires j < |points| && |centers| > 0
    ensures Remoteness(points[j], centers) <= Remoteness(points[Farthest(points, centers)], centers)
  {
    hide Remoteness;
    var far := seq(|points|, m requires 0 <= m < |points| => Remoteness(points[m], centers));
    assert far[j] <= far[Farthest(points, centers)];
  }

  function Seeds(points: seq<Point>, first: nat, n: nat): (c: seq<Point>)
    requires first < |points| && n >= 1
    ensures |c| == n
  {
    if n == 1 then [points[first]]
    else
      var before := Seeds(points, first, n - 1);
      before + [points[Farthest(points, before)]]
  }

  /** The assignment a run of at most `budget` iterations ends with. */
  function Lloyd(points: seq<Point>, centers: seq<Point>, budget: nat): (a: seq<nat>)
    requires |centers| > 0 && budget > 0
    ensures |a| == |points|
    decreases budget
  {
    var assign := Assign(points, centers);
    var next := Recentred(points, assign, centers);
    if budget == 1 || AllClose(next, centers) then assign else Lloyd(points, next, budget - 1)
  }

  function Cells(assign: seq<nat>, n: nat): (parts: seq<seq<nat>>)
    ensures |parts| == n
    ensures forall k :: 0 <= k < n ==> parts[k] == Flatnonzero(seq(|assign|, i requires 0 <= i < |assign| => assign[i] == k))
  {
    seq(n, k requires 0 <= k < n => Flatnonzero(seq(|assign|, i requires 0 <= i < |assign| => assign[i] == k)))
  }

  /** The partition method; an impossible number of sites raises. */
  method PartitionGeographic(points: seq<Point>, sites: int, first: nat) returns (r: Result<seq<seq<nat>>>)
    requires points != [] ==> first < |points|
    ensures r.Ok? <==> 1 <= sites <= |points|
    ensures r.Ok? ==> r.value == Cells(Lloyd(points, Seeds(points, first, sites), ITERATIONS), sites)
  {
    hide SqDist, Nearest, MeanOrKeep, AllClose;
    if sites < 1 || sites > |points| {
      return Err("n_sites must be between 1 and the receiver count");
    }
    var centers := [points[first]];
    for n := 1 to sites
      invariant centers == Seeds(points, first, n)
    {
      centers := centers + [points[Farthest(points, centers)]];
    }
    var assign: seq<nat> := seq(|points|, _ => 0);
    var iteration := 0;
    ghost var end := Lloyd(points, centers, ITERATIONS);
    while iteration < ITERATIONS
      invariant 0 <= iteration <= ITERATIONS && |centers| == sites
      invariant iteration < ITERATIONS ==> Lloyd(points, centers, ITERATIONS - iteration) == end
      invariant iteration == ITERATIONS ==> assign == end
    {
      assign := Assign(points, centers);
      var next := Recentred(points, assign, centers);
      if AllClose(next, centers) {
        centers := next;
        break;
      }
      centers := next;
      iteration := iteration + 1;
    }
    r := Ok(Cells(assign, sites));
  }

  // ----- Every receiver belongs to exactly one site -----

  /** The index sets are ordered, and index `i` is in set `k` exactly when `i` is assigned to `k`. */
  lemma CellsPartition(assign: seq<nat>, n: nat)
    ensures forall k :: 0 <= k < n ==> Increasing(Cells(assign, n)[k])
    ensures forall k, i: nat :: 0 <= k < n ==> (i in Cells(assign, n)[k] <==> (i < |assign| && assign[i] == k))
  {
    forall k | 0 <= k < n
      ensures Increasing(Cells(assign, n)[k])
    {
      FlatnonzeroIncreasing(seq(|assign|, i requires 0 <= i < |assign| => assign[i] == k));
    }
  }

  /** A run's assignment is the nearest-centre assignment of some centres, so its
      index sets partition the receivers among the sites. */
  lemma {:induction false} LloydIsNearest(points: seq<Point>, centers: seq<Point>, budget: nat) returns (final: seq<Point>)
    requires |centers| > 0 && budget > 0
    ensures |final| == |centers| && Lloyd(points, centers, budget) == Assign(points, final)
    ensures Cost(points, Assign(points, final), final) <= Cost(points, Assign(points, centers), centers)
    decreases budget
  {
    hide AllClose, MeanOrKeep, SqDist, Cost;
    var assign := Assign(points, centers);
    var next := Recentred(points, assign, centers);
    if budget == 1 || AllClose(next, centers) {
      final := centers;
    } else {
      final := LloydIsNearest(points, next, budget - 1);
      LloydDescends(points, assign, centers);
    }
  }

  /** One iteration: every centre moves to the mean of the receivers it is nearest to. */
  ghost predicate IsIteration(points: seq<Point>, c: seq<Point>, d: seq<Point>) {
    |c| == |d| > 0 && d == Recentred(points, Assign(points, c), c)
  }

  ghost predicate Moves(c: seq<Point>, d: seq<Point>) {
    |c| == |d| && !AllClose(d, c)
  }

  /** The centres m + 1 iterations go through, the first m of which still moved them. */
  ghost predicate IsTrajectory(points: seq<Point>, cs: seq<seq<Point>>, m: nat) {
    && |cs| == m + 2
    && (forall j :: 0 <= j <= m ==> IsIteration(points, cs[j], cs[j + 1]))
    && forall j :: 0 <= j < m ==> Moves(cs[j], cs[j + 1])
  }

  lemma Prepended(points: seq<Point>, c: seq<Point>, rest: seq<seq<Point>>, k: nat)
    requires IsTrajectory(points, rest, k) && IsIteration(points, c, rest[0]) && Moves(c, rest[0])
    ensures IsTrajectory(points, [c] + rest, k + 1)
  {
    hide IsIteration, Moves;
    var cs := [c] + rest;
    forall j | 0 <= j <= k + 1
      ensures IsIteration(points, cs[j], cs[j + 1])
      ensures Moves(cs[j], cs[j + 1]) || j == k + 1
    {
      if j > 0 {
        assert cs[j] == rest[j - 1] && cs[j + 1] == rest[j];
      }
    }
  }

  /** A run starts from the given centres, goes on exactly while they move and iterations are left,
      and answers with the assignment to the centres its last iteration started from. */
  lemma {:induction false} LloydTrajectory(points: seq<Point>, centers: seq<Point>, budget: nat) returns (cs: seq<seq<Point>>, m: nat)
    requires |centers| > 0 && budget > 0
    ensures m < budget && IsTrajectory(points, cs, m) && cs[0] == centers
    ensures |cs[m]| > 0 && Lloyd(points, centers, budget) == Assign(points, cs[m])
    ensures m == budget - 1 || !Moves(cs[m], cs[m + 1])
    decreases budget
  {
    hide AllClose, MeanOrKeep, SqDist;
    var next := Recentred(points, Assign(points, centers), centers);
    if budget == 1 || AllClose(next, centers) {
      cs, m := [centers, next], 0;
    } else {
      var rest, k := LloydTrajectory(points, next, budget - 1);
      Prepended(points, centers, rest, k);
      cs, m := [centers] + rest, k + 1;
    }
  }

  /** The partition stops after at most 50 iterations. */
  lemma PartitionTrajectory(points: seq<Point>, sites: nat, first: nat, budget: nat) returns (cs: seq<seq<Point>>, m: nat)
    requires 1 <= sites <= |points| && first < |points| && budget == ITERATIONS
    ensures m < 50 && IsTrajectory(points, cs, m) && cs[0] == Seeds(points, first, sites)
    ensures |cs[m]| > 0 && Lloyd(points, Seeds(points, first, sites), budget) == Assign(points, cs[m])
    ensures m == 49 || !Moves(cs[m], cs[m + 1])
  {
    hide Seeds, Assign, IsTrajectory, Moves;
    cs, m := LloydTrajectory(points, Seeds(points, first, sites), budget);
  }

  /** The centres have settled when every coordinate is within 1e-8 and 1e-5 of the old one's size. */
  lemma AllCloseExactly(next: seq<Point>, prior: seq<Point>)
    requires |next| == |prior|
    ensures AllClose(next, prior) <==>
              forall k :: 0 <= k < |prior| ==>
                && WithinTolerance(next[k].x, prior[k].x) && WithinTolerance(next[k].y, prior[k].y)
  {
  }

  predicate WithinTolerance(x: real, prior: real) {
    var slack := 0.00000001 + 0.00001 * MaxReal(prior, -prior);
    prior - slack <= x <= prior + slack
  }

  /** A cell without receivers keeps its centre. */
  lemma {:induction false} EmptyCellKeepsItsCentre(points: seq<Point>, assign: seq<nat>, centers: seq<Point>, k: nat)
    requires |points| == |assign| && k < |centers| && k !in assign
    ensures Recentred(points, assign, centers)[k] == centers[k]
  {
    NoTally(points, assign, k);
  }

  lemma {:induction false} NoTally(points: seq<Point>, assign: seq<nat>, k: nat)
    requires |points| == |assign| && k !in assign
    ensures TallyOf(points, assign, k).n == 0
  {
    if points != [] {
      NoTally(points[..|points| - 1], assign[..|points| - 1], k);
    }
  }

  // ----- The seeds -----

  /** Some earlier seed is closer to p than any of them is to q. */
  ghost predicate CloserToTheSeeds(p: Point, q: Point, seeds: seq<Point>) {
    exists e :: 0 <= e < |seeds| && ReachedFrom(p, q, seeds, e)
  }

  ghost predicate ReachedFrom(p: Point, q: Point, seeds: seq<Point>, e: nat)
    requires e < |seeds|
  {
    forall e' :: 0 <= e' < |seeds| ==> SqDist(p, seeds[e]) <= SqDist(q, seeds[e'])
  }

  lemma {:induction false} SeedsGrow(points: seq<Point>, first: nat, m: nat, n: nat)
    requires first < |points| && 1 <= m <= n
    ensures Seeds(points, first, n)[..m] == Seeds(points, first, m)
    decreases n
  {
    hide Farthest;
    if m < n {
      SeedsGrow(points, first, m, n - 1);
    }
  }

  /** The first seed is the drawn receiver; every further one is a receiver at least as remote from
      the seeds before it as any other receiver. */
  lemma SeedsAreFarthest(points: seq<Point>, first: nat, n: nat, m: nat)
    requires first < |points| && m < n
    ensures var seeds := Seeds(points, first, n);
            && (m == 0 ==> seeds[m] == points[first])
            && (m > 0 ==> exists i :: 0 <= i < |points| && seeds[m] == points[i])
            && (m > 0 ==> forall j :: 0 <= j < |points| ==> CloserToTheSeeds(points[j], seeds[m], seeds[..m]))
  {
    hide Farthest, SqDist, CloserToTheSeeds;
    SeedsGrow(points, first, m + 1, n);
    var seeds := Seeds(points, first, n);
    assert seeds[m] == seeds[..m + 1][m];
    if m > 0 {
      SeedsGrow(points, first, m, n);
      var before := seeds[..m];
      forall j | 0 <= j < |points|
        ensures CloserToTheSeeds(points[j], seeds[m], before)
      {
        FarthestIsFarthest(points, before, j);
        FartherFromEvery(points[j], points[Farthest(points, before)], before);
      }
    }
  }

  lemma FartherFromEvery(p: Point, q: Point, seeds: seq<Point>)
    requires |seeds| > 0 && Remoteness(p, seeds) <= Remoteness(q, seeds)
    ensures CloserToTheSeeds(p, q, seeds)
  {
    hide SqDist, Nearest;
    var e := Nearest(p, seeds);
    forall e' | 0 <= e' < |seeds|
      ensures SqDist(p, seeds[e]) <= SqDist(q, seeds[e'])
    {
      NearestIsNearest(q, seeds, e');
    }
    assert ReachedFrom(p, q, seeds, e);
  }

  lemma EveryReceiverHasOneSite(points: seq<Point>, centers: seq<Point>, budget: nat, i: nat)
    requires |centers| > 0 && budget > 0 && i < |points|
    ensures var parts := Cells(Lloyd(points, centers, budget), |centers|);
            exists k :: 0 <= k < |centers| && i in parts[k] && forall j :: 0 <= j < |centers| && i in parts[j] ==> j == k
  {
    var assign := Lloyd(points, centers, budget);
    var final := LloydIsNearest(points, centers, budget);
    CellsPartition(assign, |centers|);
    var k := assign[i];
    assert i in Cells(assign, |centers|)[k];
  }

  // ----- Descent -----

  /** Total squared distance of the points to the centres they are assigned to. */
  function Cost(points: seq<Point>, assign: seq<nat>, centers: seq<Point>): real
    requires |points| == |assign| && forall i :: 0 <= i < |assign| ==> assign[i] < |centers|
  {
    if points == [] then 0.0
    else
      var n := |points| - 1;
      Cost(points[..n], assign[..n], centers) + SqDist(points[n], centers[assign[n]])
  }

  /** No assignment to the same centres costs less than the nearest-centre one. */
  lemma {:induction false} ReassignmentIsOptimal(points: seq<Point>, assign: seq<nat>, centers: seq<Point>)
    requires |centers| > 0 && |points| == |assign| && forall i :: 0 <= i < |assign| ==> assign[i] < |centers|
    ensures Cost(points, Assign(points, centers), centers) <= Cost(points, assign, centers)
  {
    hide SqDist;
    if points != [] {
      var n := |points| - 1;
      ReassignmentIsOptimal(points[..n], assign[..n], centers);
      assert Assign(points, centers)[..n] == Assign(points[..n], centers);
      NearestIsNearest(points[n], centers, assign[n]);
    }
  }

  /** What cell `k` contributes when its centre is `c`. */
  function CellCost(points: seq<Point>, assign: seq<nat>, k: nat, c: Point): real
    requires |points| == |assign|
  {
    if points == [] then 0.0
    else
      var n := |points| - 1;
      CellCost(points[..n], assign[..n], k, c) + if assign[n] == k then SqDist(points[n], c) else 0.0
  }

  /** On one axis: how the cost of `n` points with sum `s` changes when the centre moves from `c` to `d`. */
  function Shift(n: nat, s: real, c: real, d: real): real {
    (n as real) * (Sq(c) - Sq(d)) - 2.0 * s * (c - d)
  }

  /** Moving one cell's centre changes its cost by what the tally says. */
  lemma {:induction false} CellCostDifference(points: seq<Point>, assign: seq<nat>, k: nat, c: Point, d: Point)
    requires |points| == |assign|
    ensures var t := TallyOf(points, assign, k);
            CellCost(points, assign, k, c) - CellCost(points, assign, k, d) == Shift(t.n, t.x, c.x, d.x) + Shift(t.n, t.y, c.y, d.y)
  {
    hide Shift, Sq;
    if points == [] {
      NoShift(c.x, d.x);
      NoShift(c.y, d.y);
    } else {
      var n := |points| - 1;
      CellCostDifference(points[..n], assign[..n], k, c, d);
      var t := TallyOf(points[..n], assign[..n], k);
      ShiftStep(t.n, t.x, points[n].x, c.x, d.x);
      ShiftStep(t.n, t.y, points[n].y, c.y, d.y);
    }
  }

  lemma NoShift(c: real, d: real)
    ensures Shift(0, 0.0, c, d) == 0.0
  {
  }

  lemma ShiftStep(n: nat, s: real, p: real, c: real, d: real)
    ensures Shift(n + 1, s + p, c, d) == Shift(n, s, c, d) + (Sq(p - c) - Sq(p - d))
  {
    hide Sq;
    OneMoreTerm(n, Sq(c) - Sq(d), s, p, c - d);
    TwoSquares(p, c, d);
  }

  lemma OneMoreTerm(n: nat, squares: real, s: real, p: real, gap: real)
    ensures ((n + 1) as real) * squares - 2.0 * (s + p) * gap
            == ((n as real) * squares - 2.0 * s * gap) + (squares - 2.0 * p * gap)
  {
    assert (n + 1) as real == n as real + 1.0;
  }

  lemma TwoSquares(p: real, c: real, d: real)
    ensures Sq(p - c) - Sq(p - d) == Sq(c) - Sq(d) - 2.0 * p * (c - d)
  {
    assert (p - c) * (p - c) == p * p - 2.0 * p * c + c * c;
    assert (p - d) * (p - d) == p * p - 2.0 * p * d + d * d;
  }

  /** From the mean no move is profitable. */
  lemma ShiftFromMean(n: nat, s: real, c: real)
    requires n > 0
    ensures Shift(n, s, c, s / n as real) >= 0.0
  {
    var r, m := n as real, s / n as real;
    assert s == r * m;
    assert r * (c * c - m * m) - 2.0 * (r * m) * (c - m) == r * ((c - m) * (c - m));
    assert (c - m) * (c - m) >= 0.0;
  }

  /** The mean of a nonempty cell is its cheapest centre. */
  lemma MeanIsCheapest(points: seq<Point>, assign: seq<nat>, k: nat, keep: Point, c: Point)
    requires |points| == |assign|
    ensures var t := TallyOf(points, assign, k);
            CellCost(points, assign, k, MeanOrKeep(t, keep)) <= CellCost(points, assign, k, c)
  {
    hide Shift, Sq, CellCost;
    var t := TallyOf(points, assign, k);
    CellCostDifference(points, assign, k, c, MeanOrKeep(t, keep));
    if t.n > 0 {
      ShiftFromMean(t.n, t.x, c.x);
      ShiftFromMean(t.n, t.y, c.y);
    } else {
      EmptyCell(points, assign, k, c, keep);
    }
  }

  lemma {:induction false} EmptyCell(points: seq<Point>, assign: seq<nat>, k: nat, c: Point, d: Point)
    requires |points| == |assign| && TallyOf(points, assign, k).n == 0
    ensures CellCost(points, assign, k, c) == CellCost(points, assign, k, d)
  {
    if points != [] {
      EmptyCell(points[..|points| - 1], assign[..|points| - 1], k, c, d);
    }
  }

  /** The cost, cell by cell. */
  function CellCosts(points: seq<Point>, assign: seq<nat>, centers: seq<Point>, n: nat): real
    requires |points| == |assign| && n <= |centers|
  {
    if n == 0 then 0.0
    else CellCosts(points, assign, centers, n - 1) + CellCost(points, assign, n - 1, centers[n - 1])
  }

  lemma {:induction false} OnePointMore(points: seq<Point>, assign: seq<nat>, centers: seq<Point>, n: nat)
    requires 0 < |points| == |assign| && n <= |centers|
    requires assign[|points| - 1] < |centers|
    ensures var m := |points| - 1;
            CellCosts(points, assign, centers, n)
            == CellCosts(points[..m], assign[..m], centers, n)
               + if assign[m] < n then SqDist(points[m], centers[assign[m]]) else 0.0
  {
    hide SqDist;
    if n > 0 {
      OnePointMore(points, assign, centers, n - 1);
    }
  }

  lemma {:induction false} CostByCells(points: seq<Point>, assign: seq<nat>, centers: seq<Point>)
    requires |points| == |assign| && forall i :: 0 <= i < |assign| ==> assign[i] < |centers|
    ensures Cost(points, assign, centers) == CellCosts(points, assign, centers, |centers|)
  {
    hide SqDist;
    if points == [] {
      NoPointsNoCost(assign, centers, |centers|);
    } else {
      var m := |points| - 1;
      CostByCells(points[..m], assign[..m], centers);
      OnePointMore(points, assign, centers, |centers|);
    }
  }

  lemma {:induction false} NoPointsNoCost(assign: seq<nat>, centers: seq<Point>, n: nat)
    requires assign == [] && n <= |centers|
    ensures CellCosts([], assign, centers, n) == 0.0
  {
    if n > 0 {
      NoPointsNoCost(assign, centers, n - 1);
    }
  }

  lemma {:induction false} CheaperCells(points: seq<Point>, assign: seq<nat>, centers: seq<Point>, others: seq<Point>, n: nat)
    requires |points| == |assign| && n <= |centers| == |others|
    ensures CellCosts(points, assign, Recentred(points, assign, centers), n) <= CellCosts(points, assign, others, n)
  {
    hide MeanOrKeep;
    if n > 0 {
      CheaperCells(points, assign, centers, others, n - 1);
      MeanIsCheapest(points, assign, n - 1, centers[n - 1], others[n - 1]);
    }
  }

  /** No centres cost less than the recentred ones for the same assignment. */
  lemma RecentringIsOptimal(points: seq<Point>, assign: seq<nat>, centers: seq<Point>, others: seq<Point>)
    requires |points| == |assign| && |centers| == |others| && forall i :: 0 <= i < |assign| ==> assign[i] < |centers|
    ensures Cost(points, assign, Recentred(points, assign, centers)) <= Cost(points, assign, others)
  {
    CostByCells(points, assign, Recentred(points, assign, centers));
    CostByCells(points, assign, others);
    CheaperCells(points, assign, centers, others, |centers|);
  }

  /** Lloyd descent: neither half of an iteration raises the total squared distance. */
  lemma LloydDescends(points: seq<Point>, assign: seq<nat>, centers: seq<Point>)
    requires |centers| > 0 && assign == Assign(points, centers)
    ensures var next := Recentred(points, assign, centers);
            Cost(points, Assign(points, next), next) <= Cost(points, assign, next) <= Cost(points, assign, centers)
  {
    var next := Recentred(points, assign, centers);
    RecentringIsOptimal(points, assign, centers, centers);
    ReassignmentIsOptimal(points, assign, next);
  }
}
