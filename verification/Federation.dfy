/** Warm-started federated rounds driven by cached statistics, and the two aggregators
    (benchmarks/subject_erasure_suite.py, src/horizon_ric/federated/robust.py). */
module Federation {
  import opened Common
  import opened LinearAlgebra
  import opened SuffStats
  import opened LocalSolve

  type Aggregator = seq<Mat> -> Result<Mat>

  predicate IsMats(ups: seq<Mat>, p: nat, s: nat) {
    forall k :: 0 <= k < |ups| ==> IsMat(ups[k], p, s)
  }

  ghost predicate KeepsShape(agg: Aggregator, p: nat, s: nat, ups: seq<Mat>) {
    agg(ups).Ok? ==> IsMat(agg(ups).value, p, s)
  }

  /** A deterministic aggregator; it may refuse, as an unknown method or an empty list does. */
  ghost predicate IsAggregator(agg: Aggregator, p: nat, s: nat) {
    forall ups :: IsMats(ups, p, s) ==> KeepsShape(agg, p, s, ups)
  }

  /** What happens to the uploads before they are aggregated. */
  type Adjustment = seq<Mat> -> seq<Mat>

  ghost predicate KeepsShapes(adjust: Adjustment, p: nat, s: nat, ups: seq<Mat>) {
    |adjust(ups)| == |ups| && IsMats(adjust(ups), p, s)
  }

  ghost predicate IsAdjustment(adjust: Adjustment, p: nat, s: nat) {
    forall ups :: IsMats(ups, p, s) ==> KeepsShapes(adjust, p, s, ups)
  }

  function AsUploaded(ups: seq<Mat>): seq<Mat> {
    ups
  }

  datatype Learner = Learner(p: nat, s: nat, solve: Solver, agg: Aggregator, adjust: Adjustment) {
    ghost predicate Valid() {
      IsSolver(solve, p, s) && IsAggregator(agg, p, s) && IsAdjustment(adjust, p, s)
    }
  }

  predicate IsStats(stats: seq<Stat>, p: nat, s: nat) {
    forall k :: 0 <= k < |stats| ==> IsStat(stats[k], p, s)
  }

  /** A model and the uploads of every round that produced it. */
  datatype Run = Run(w: Mat, trace: seq<seq<Mat>>)

  predicate IsRun(run: Run, p: nat, s: nat, clients: nat) {
    IsMat(run.w, p, s) &&
    forall r :: 0 <= r < |run.trace| ==> |run.trace[r]| == clients && IsMats(run.trace[r], p, s)
  }

  /** Every client's local step from the same global model; the first failure wins. */
  function Uploads(l: Learner, w: Mat, stats: seq<Stat>): (r: Result<seq<Mat>>)
    requires l.Valid() && IsMat(w, l.p, l.s) && IsStats(stats, l.p, l.s)
    ensures r.Ok? ==> |r.value| == |stats| && IsMats(r.value, l.p, l.s)
    decreases |stats|
  {
    if stats == [] then Ok([])
    else
      var n := |stats| - 1;
      match Uploads(l, w, stats[..n])
      case Err(e) => Err(e)
      case Ok(ups) =>
        match ProxUpdate(w, stats[n], l.solve, l.p, l.s)
        case Err(e) => Err(e)
        case Ok(u) => Ok(ups + [u])
  }

  function Close(l: Learner, run: Run, ups: seq<Mat>): (r: Result<Run>)
    requires l.Valid() && IsRun(run, l.p, l.s, |ups|) && IsMats(ups, l.p, l.s)
    ensures r.Ok? ==> IsRun(r.value, l.p, l.s, |ups|) && |r.value.trace| == |run.trace| + 1
  {
    assert KeepsShapes(l.adjust, l.p, l.s, ups);
    var sent := l.adjust(ups);
    assert KeepsShape(l.agg, l.p, l.s, sent);
    match l.agg(sent)
    case Err(e) => Err(e)
    case Ok(step) => Ok(Run(MatAdd(run.w, step, l.p, l.s), run.trace + [sent]))
  }

  function Round(l: Learner, stats: seq<Stat>, run: Run): (r: Result<Run>)
    requires l.Valid() && IsStats(stats, l.p, l.s) && IsRun(run, l.p, l.s, |stats|)
    ensures r.Ok? ==> IsRun(r.value, l.p, l.s, |stats|) && |r.value.trace| == |run.trace| + 1
  {
    match Uploads(l, run.w, stats)
    case Err(e) => Err(e)
    case Ok(ups) => Close(l, run, ups)
  }

  function Trained(l: Learner, stats: seq<Stat>, rounds: nat): (r: Result<Run>)
    requires l.Valid() && IsStats(stats, l.p, l.s)
    ensures r.Ok? ==> IsRun(r.value, l.p, l.s, |stats|) && |r.value.trace| == rounds
    decreases rounds
  {
    if rounds == 0 then Ok(Run(ZeroMat(l.p, l.s), []))
    else
      match Trained(l, stats, rounds - 1)
      case Err(e) => Err(e)
      case Ok(run) => Round(l, stats, run)
  }

  /** A round that fails ends the run with that failure. */
  lemma {:induction false} FailureIsFinal(l: Learner, stats: seq<Stat>, r: nat, rounds: nat)
    requires l.Valid() && IsStats(stats, l.p, l.s) && r <= rounds
    requires Trained(l, stats, r).Err?
    ensures Trained(l, stats, rounds) == Trained(l, stats, r)
    decreases rounds
  {
    hide Round;
    if r < rounds {
      FailureIsFinal(l, stats, r, rounds - 1);
    }
  }

  lemma {:induction false} FailedUploadIsFinal(l: Learner, w: Mat, stats: seq<Stat>, k: nat, n: nat)
    requires l.Valid() && IsMat(w, l.p, l.s) && IsStats(stats, l.p, l.s) && k <= n <= |stats|
    requires Uploads(l, w, stats[..k]).Err?
    ensures Uploads(l, w, stats[..n]) == Uploads(l, w, stats[..k])
    decreases n
  {
    hide ProxUpdate, IsMat, IsStat, IsSolver, IsAggregator, IsAdjustment;
    if k < n {
      assert stats[..n][..n - 1] == stats[..n - 1];
      FailedUploadIsFinal(l, w, stats, k, n - 1);
    }
  }

  /** One turn of the loop over the clients. */
  lemma NextUpload(l: Learner, w: Mat, stats: seq<Stat>, k: nat, ups: seq<Mat>)
    requires l.Valid() && IsMat(w, l.p, l.s) && IsStats(stats, l.p, l.s) && k < |stats|
    requires Uploads(l, w, stats[..k]) == Ok(ups)
    ensures var u := ProxUpdate(w, stats[k], l.solve, l.p, l.s);
            && (u.Ok? ==> Uploads(l, w, stats[..k + 1]) == Ok(ups + [u.value]))
            && (u.Err? ==> Uploads(l, w, stats) == Err(u.error))
  {
    hide ProxUpdate, IsSolver, IsAggregator, IsAdjustment, IsMat, IsStat;
    assert stats[..k + 1][..k] == stats[..k];
    if ProxUpdate(w, stats[k], l.solve, l.p, l.s).Err? {
      FailedUploadIsFinal(l, w, stats, k + 1, |stats|);
      assert stats[..|stats|] == stats;
    }
  }

  /** Training from cached statistics, as the two nested loops of the source. */
  method TrainFromStats(l: Learner, stats: seq<Stat>, rounds: nat) returns (r: Result<Run>)
    requires l.Valid() && IsStats(stats, l.p, l.s)
    ensures r == Trained(l, stats, rounds)
  {
    var run := Run(ZeroMat(l.p, l.s), []);
    for i := 0 to rounds
      invariant Trained(l, stats, i) == Ok(run)
      invariant IsRun(run, l.p, l.s, |stats|)
    {
      var ups := UploadsFromStats(l, run.w, stats);
      if ups.Err? {
        FailureIsFinal(l, stats, i + 1, rounds);
        return Err(ups.error);
      }
      var next := Close(l, run, ups.value);
      if next.Err? {
        FailureIsFinal(l, stats, i + 1, rounds);
        return next;
      }
      run := next.value;
    }
    return Ok(run);
  }

  method UploadsFromStats(l: Learner, w: Mat, stats: seq<Stat>) returns (r: Result<seq<Mat>>)
    requires l.Valid() && IsMat(w, l.p, l.s) && IsStats(stats, l.p, l.s)
    ensures r == Uploads(l, w, stats)
  {
    hide ProxUpdate, IsSolver, IsAggregator, IsAdjustment, IsMat;
    var ups := [];
    for k := 0 to |stats|
      invariant IsMats(ups, l.p, l.s) && |ups| == k
      invariant Uploads(l, w, stats[..k]) == Ok(ups)
    {
      NextUpload(l, w, stats, k, ups);
      var u := ProxUpdate(w, stats[k], l.solve, l.p, l.s);
      if u.Err? {
        return Err(u.error);
      }
      ups := ups + [u.value];
    }
    assert stats[..|stats|] == stats;
    return Ok(ups);
  }

  /** Upload k is the local step of client k alone. */
  lemma {:induction false} UploadIsLocal(l: Learner, w: Mat, stats: seq<Stat>, k: nat)
    requires l.Valid() && IsMat(w, l.p, l.s) && IsStats(stats, l.p, l.s) && k < |stats|
    requires Uploads(l, w, stats).Ok?
    ensures ProxUpdate(w, stats[k], l.solve, l.p, l.s) == Ok(Uploads(l, w, stats).value[k])
    decreases |stats|
  {
    hide ProxUpdate;
    var n := |stats| - 1;
    if k < n {
      UploadIsLocal(l, w, stats[..n], k);
    }
  }

  /** Uploads succeed together or not at all, and each is its own client's local step. */
  lemma {:induction false} UploadsAre(l: Learner, w: Mat, stats: seq<Stat>, ups: seq<Mat>)
    requires l.Valid() && IsMat(w, l.p, l.s) && IsStats(stats, l.p, l.s) && |ups| == |stats|
    requires forall k :: 0 <= k < |stats| ==> ProxUpdate(w, stats[k], l.solve, l.p, l.s) == Ok(ups[k])
    ensures Uploads(l, w, stats) == Ok(ups)
    decreases |stats|
  {
    hide ProxUpdate;
    if stats != [] {
      var n := |stats| - 1;
      UploadsAre(l, w, stats[..n], ups[..n]);
      assert ups == ups[..n] + [ups[n]];
    }
  }

  // ----- Aggregators -----

  const RAGGED := "all client updates must have the same length"

  /** The values the clients send for one entry of the model. */
  function Entries(ups: seq<Mat>, p: nat, s: nat, i: nat, c: nat): (es: seq<real>)
    requires IsMats(ups, p, s) && i < p && c < s
    ensures |es| == |ups|
  {
    seq(|ups|, k requires 0 <= k < |ups| => ups[k][i][c])
  }

  function Entrywise(ups: seq<Mat>, p: nat, s: nat, summary: seq<real> -> real): (m: Mat)
    requires IsMats(ups, p, s)
    ensures IsMat(m, p, s)
  {
    seq(p, i requires 0 <= i < p => seq(s, c requires 0 <= c < s => summary(Entries(ups, p, s, i, c))))
  }

  function Aggregate(p: nat, s: nat, summary: seq<real> -> real): (agg: Aggregator)
  {
    ups => if ups != [] && IsMats(ups, p, s) then Ok(Entrywise(ups, p, s, summary)) else Err(RAGGED)
  }

  function Average(es: seq<real>): real {
    if es == [] then 0.0 else Mean(es)
  }

  function Insert(x: real, s: seq<real>): (r: seq<real>)
    ensures |r| == |s| + 1
  {
    if s == [] then [x]
    else if x <= s[0] then [x] + s
    else [s[0]] + Insert(x, s[1..])
  }

  function Sorted(s: seq<real>): (r: seq<real>)
    ensures |r| == |s|
  {
    if s == [] then [] else Insert(s[0], Sorted(s[1..]))
  }

  ghost predicate Ascending(s: seq<real>) {
    forall i, j :: 0 <= i < j < |s| ==> s[i] <= s[j]
  }

  lemma {:induction false} InsertKeepsValues(x: real, s: seq<real>)
    ensures multiset(Insert(x, s)) == multiset(s) + multiset{x}
  {
    if s != [] && x > s[0] {
      InsertKeepsValues(x, s[1..]);
      assert s == [s[0]] + s[1..];
    }
  }

  lemma {:induction false} InsertKeepsOrder(x: real, s: seq<real>)
    requires Ascending(s)
    ensures Ascending(Insert(x, s))
    ensures forall i :: 0 <= i < |s| + 1 ==> x <= Insert(x, s)[i] || (s != [] && s[0] <= Insert(x, s)[i])
  {
    if s != [] && x > s[0] {
      InsertKeepsOrder(x, s[1..]);
    }
  }

  /** What the median is taken of: the same values in ascending order. */
  lemma {:induction false} SortedIsOrdered(s: seq<real>)
    ensures Ascending(Sorted(s)) && multiset(Sorted(s)) == multiset(s)
  {
    if s != [] {
      SortedIsOrdered(s[1..]);
      InsertKeepsOrder(s[0], Sorted(s[1..]));
      InsertKeepsValues(s[0], Sorted(s[1..]));
      assert s == [s[0]] + s[1..];
    }
  }

  function Median(es: seq<real>): real {
    if es == [] then 0.0
    else
      var o := Sorted(es);
      if |o| % 2 == 1 then o[|o| / 2] else (o[|o| / 2 - 1] + o[|o| / 2]) / 2.0
  }

  function MeanOf(ups: seq<Mat>, p: nat, s: nat): (m: Mat)
    requires IsMats(ups, p, s)
    ensures IsMat(m, p, s)
  {
    Entrywise(ups, p, s, Average)
  }

  lemma MeanOfAt(ups: seq<Mat>, p: nat, s: nat, i: nat, c: nat)
    requires IsMats(ups, p, s) && ups != [] && i < p && c < s
    ensures MeanOf(ups, p, s)[i][c] == Sum(Entries(ups, p, s, i, c)) / (|ups| as real)
  {
    hide Sum;
    assert MeanOf(ups, p, s)[i][c] == Average(Entries(ups, p, s, i, c));
  }

  function FedAvg(p: nat, s: nat): Aggregator {
    Aggregate(p, s, Average)
  }

  function CoordinateMedian(p: nat, s: nat): Aggregator {
    Aggregate(p, s, Median)
  }

  /** The learner aggregates entry by entry. */
  ghost predicate Entrywisely(l: Learner, summary: seq<real> -> real) {
    l.Valid() && l.agg == Aggregate(l.p, l.s, summary)
  }

  /** Both refuse exactly the empty federation. */
  lemma AggregateIsAggregator(p: nat, s: nat, summary: seq<real> -> real)
    ensures IsAggregator(Aggregate(p, s, summary), p, s)
    ensures forall ups :: IsMats(ups, p, s) ==> (Aggregate(p, s, summary)(ups).Ok? <==> ups != [])
  {
    forall ups | IsMats(ups, p, s)
      ensures KeepsShape(Aggregate(p, s, summary), p, s, ups)
    {
    }
  }
}
