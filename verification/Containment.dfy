/** How far a falsified subband reaches (benchmarks/federated_unlearning_suite.py:77-122): under an
    entrywise aggregator the trained model keeps every other subband, at every round, unless the
    uploads are rescaled to the honest norm. */
module Containment {
  import opened Common
  import opened LinearAlgebra
  import opened SuffStats
  import opened LocalSolve
  import opened Federation
  import opened Erasure
  import opened MeanOfSteps
  import opened InterceptFederation
  import opened LinearPatch
  import opened Unlearning
  import opened FalseReport
  import opened ReplayExactness

  /** Two models agree on subband c. */
  ghost predicate Agree(a: Mat, b: Mat, p: nat, s: nat, c: nat)
    requires IsMat(a, p, s) && IsMat(b, p, s) && c < s
  {
    Column(a, p, s, c) == Column(b, p, s, c)
  }

  /** Two statistics agree on everything subband c is fitted from. */
  ghost predicate AgreeStats(a: Stat, b: Stat, p: nat, s: nat, c: nat)
    requires IsStat(a, p, s) && IsStat(b, p, s) && c < s
  {
    a.gram == b.gram && a.n == b.n && Agree(a.cross, b.cross, p, s, c)
  }

  lemma AgreeEntry(a: Mat, b: Mat, p: nat, s: nat, c: nat, i: nat)
    requires IsMat(a, p, s) && IsMat(b, p, s) && c < s && i < p && Agree(a, b, p, s, c)
    ensures a[i][c] == b[i][c]
  {
    assert Column(a, p, s, c)[i] == Column(b, p, s, c)[i];
  }

  /** The statistics of the lie differ from the truth in one column of D'T only. */
  lemma LieKeepsOtherStats(rows: seq<Row>, attack: Attack, p: nat, s: nat, c: nat)
    requires IsRows(rows, p, s) && s > TARGET_SUBBAND && attack.scale != 0.0
    requires c < s && c != TARGET_SUBBAND
    ensures AgreeStats(StatOf(Falsified(rows, attack, p, s), p, s), StatOf(rows, p, s), p, s, c)
  {
    hide Gram, Cross, Falsified;
    var lie := Falsified(rows, attack, p, s);
    LieKeepsGram(rows, attack, p, s);
    forall i | 0 <= i < p
      ensures Column(Cross(lie, p, s), p, s, c)[i] == Column(Cross(rows, p, s), p, s, c)[i]
    {
      LieKeepsOtherColumns(rows, attack, p, s, i);
    }
  }

  /** Subband c of a client's upload depends on subband c of the global model and of its targets only. */
  lemma StepBySubband(w: Mat, w': Mat, st: Stat, st': Stat, solve: Solver, p: nat, s: nat, c: nat)
    requires IsMat(w, p, s) && IsMat(w', p, s) && IsStat(st, p, s) && IsStat(st', p, s)
    requires IsSolver(solve, p, s) && c < s && st.n > 0 && Nonsingular(Hessian(st, p, s), p)
    requires Agree(w, w', p, s, c) && AgreeStats(st, st', p, s, c)
    ensures var r, r' := ProxUpdate(w, st, solve, p, s), ProxUpdate(w', st', solve, p, s);
            r.Ok? && r'.Ok? && Agree(r.value, r'.value, p, s, c)
  {
    var h, g, g' := Hessian(st, p, s), Gradient(w, st, p, s), Gradient(w', st', p, s);
    assert Hessian(st', p, s) == h;
    assert SolvesOne(solve, p, s, h, g) && SolvesOne(solve, p, s, h, g');
    var x, x' := solve(h, g).value, solve(h, g').value;
    GradientColumn(st, p, s, w, c);
    GradientColumn(st', p, s, w', c);
    ColumnOfProduct(h, x, p, s, c);
    ColumnOfProduct(h, x', p, s, c);
    hide Hessian, Gradient, Nonsingular, IsSolver, MatMul, MatVec, Scale, Minus, Share;
    UniqueSolution(h, p, Column(x, p, s, c), Column(x', p, s, c));
    ScaledColumns(-PROX_ETA, x, x', p, s, c);
  }

  lemma ScaledColumns(q: real, x: Mat, x': Mat, p: nat, s: nat, c: nat)
    requires IsMat(x, p, s) && IsMat(x', p, s) && c < s && Agree(x, x', p, s, c)
    ensures Agree(MatScale(q, x, p, s), MatScale(q, x', p, s), p, s, c)
  {
    hide Times;
    forall i | 0 <= i < p
      ensures x[i][c] == x'[i][c]
    {
      AgreeEntry(x, x', p, s, c, i);
    }
  }

  /** What the reported and the true statistics have in common, client by client. */
  ghost predicate AllAgree(stats: seq<Stat>, stats': seq<Stat>, p: nat, s: nat, c: nat)
    requires IsStats(stats, p, s) && IsStats(stats', p, s) && |stats| == |stats'| && c < s
  {
    forall k :: 0 <= k < |stats| ==> ClientAgrees(stats[k], stats'[k], p, s, c)
  }

  ghost predicate ClientAgrees(st: Stat, st': Stat, p: nat, s: nat, c: nat)
    requires IsStat(st, p, s) && IsStat(st', p, s) && c < s
  {
    AgreeStats(st, st', p, s, c) && st.n > 0 && Nonsingular(Hessian(st, p, s), p)
  }

  ghost predicate UploadsAgree(ups: seq<Mat>, ups': seq<Mat>, p: nat, s: nat, c: nat)
    requires IsMats(ups, p, s) && IsMats(ups', p, s) && c < s
  {
    |ups| == |ups'| && forall k :: 0 <= k < |ups| ==> Agree(ups[k], ups'[k], p, s, c)
  }

  lemma UploadsBySubband(l: Learner, w: Mat, w': Mat, stats: seq<Stat>, stats': seq<Stat>, c: nat)
    requires l.Valid() && IsMat(w, l.p, l.s) && IsMat(w', l.p, l.s) && c < l.s && Agree(w, w', l.p, l.s, c)
    requires IsStats(stats, l.p, l.s) && IsStats(stats', l.p, l.s) && |stats| == |stats'|
    requires AllAgree(stats, stats', l.p, l.s, c)
    requires Uploads(l, w, stats).Ok? && Uploads(l, w', stats').Ok?
    ensures UploadsAgree(Uploads(l, w, stats).value, Uploads(l, w', stats').value, l.p, l.s, c)
  {
    hide ProxUpdate, Uploads, Agree, AgreeStats, Nonsingular, Hessian, IsSolver, IsAggregator, IsAdjustment;
    var ups, ups' := Uploads(l, w, stats).value, Uploads(l, w', stats').value;
    forall k | 0 <= k < |stats|
      ensures Agree(ups[k], ups'[k], l.p, l.s, c)
    {
      UploadIsLocal(l, w, stats, k);
      UploadIsLocal(l, w', stats', k);
      assert ClientAgrees(stats[k], stats'[k], l.p, l.s, c);
      StepBySubband(w, w', stats[k], stats'[k], l.solve, l.p, l.s, c);
    }
  }

  /** An entrywise summary of agreeing uploads agrees. */
  lemma AggregateBySubband(ups: seq<Mat>, ups': seq<Mat>, p: nat, s: nat, c: nat, summary: seq<real> -> real)
    requires IsMats(ups, p, s) && IsMats(ups', p, s) && c < s && UploadsAgree(ups, ups', p, s, c)
    ensures Agree(Entrywise(ups, p, s, summary), Entrywise(ups', p, s, summary), p, s, c)
  {
    forall i | 0 <= i < p
      ensures Entries(ups, p, s, i, c) == Entries(ups', p, s, i, c)
    {
      forall k | 0 <= k < |ups|
        ensures ups[k][i][c] == ups'[k][i][c]
      {
        AgreeEntry(ups[k], ups'[k], p, s, c, i);
      }
    }
  }

  lemma SumsBySubband(a: Mat, b: Mat, a': Mat, b': Mat, p: nat, s: nat, c: nat)
    requires IsMat(a, p, s) && IsMat(b, p, s) && IsMat(a', p, s) && IsMat(b', p, s) && c < s
    requires Agree(a, a', p, s, c) && Agree(b, b', p, s, c)
    ensures Agree(MatAdd(a, b, p, s), MatAdd(a', b', p, s), p, s, c)
  {
    forall i | 0 <= i < p
      ensures a[i][c] == a'[i][c] && b[i][c] == b'[i][c]
    {
      AgreeEntry(a, a', p, s, c, i);
      AgreeEntry(b, b', p, s, c, i);
    }
  }

  /** What is done to the uploads before they are aggregated does not mix other subbands into c. */
  ghost predicate PreservesSubband(l: Learner, c: nat)
    requires IsAdjustment(l.adjust, l.p, l.s) && c < l.s
  {
    forall ups, ups' :: IsMats(ups, l.p, l.s) && IsMats(ups', l.p, l.s) && UploadsAgree(ups, ups', l.p, l.s, c) ==>
      SentAgree(l, ups, ups', c)
  }

  ghost predicate SentAgree(l: Learner, ups: seq<Mat>, ups': seq<Mat>, c: nat)
    requires IsAdjustment(l.adjust, l.p, l.s) && c < l.s && IsMats(ups, l.p, l.s) && IsMats(ups', l.p, l.s)
  {
    assert KeepsShapes(l.adjust, l.p, l.s, ups) && KeepsShapes(l.adjust, l.p, l.s, ups');
    UploadsAgree(l.adjust(ups), l.adjust(ups'), l.p, l.s, c)
  }

  /** Without stealth nothing is done to them. */
  lemma AsUploadedPreserves(l: Learner, c: nat)
    requires l.Valid() && l.adjust == AsUploaded && c < l.s
    ensures PreservesSubband(l, c)
  {
    hide UploadsAgree, IsSolver, IsAggregator;
  }

  lemma CloseBySubband(l: Learner, summary: seq<real> -> real, run: Run, run': Run, ups: seq<Mat>, ups': seq<Mat>, c: nat)
    requires Entrywisely(l, summary) && c < l.s && PreservesSubband(l, c)
    requires IsMats(ups, l.p, l.s) && IsMats(ups', l.p, l.s) && UploadsAgree(ups, ups', l.p, l.s, c)
    requires IsRun(run, l.p, l.s, |ups|) && IsRun(run', l.p, l.s, |ups'|) && Agree(run.w, run'.w, l.p, l.s, c)
    requires Close(l, run, ups).Ok? && Close(l, run', ups').Ok?
    ensures Agree(Close(l, run, ups).value.w, Close(l, run', ups').value.w, l.p, l.s, c)
  {
    hide UploadsAgree, Agree, Entrywise, MatAdd, IsMat, IsSolver, IsAggregator;
    assert SentAgree(l, ups, ups', c);
    assert KeepsShapes(l.adjust, l.p, l.s, ups) && KeepsShapes(l.adjust, l.p, l.s, ups');
    var sent, sent' := l.adjust(ups), l.adjust(ups');
    AggregateBySubband(sent, sent', l.p, l.s, c, summary);
    SumsBySubband(run.w, Entrywise(sent, l.p, l.s, summary), run'.w, Entrywise(sent', l.p, l.s, summary), l.p, l.s, c);
  }

  /** Round by round: runs on statistics that agree on subband c agree on subband c. */
  lemma {:induction false} RunsBySubband(l: Learner, summary: seq<real> -> real, stats: seq<Stat>, stats': seq<Stat>, rounds: nat, c: nat)
    requires Entrywisely(l, summary) && c < l.s && PreservesSubband(l, c)
    requires IsStats(stats, l.p, l.s) && IsStats(stats', l.p, l.s) && |stats| == |stats'|
    requires AllAgree(stats, stats', l.p, l.s, c)
    requires Trained(l, stats, rounds).Ok? && Trained(l, stats', rounds).Ok?
    ensures Agree(Trained(l, stats, rounds).value.w, Trained(l, stats', rounds).value.w, l.p, l.s, c)
    decreases rounds
  {
    hide Uploads, Close, Agree, AllAgree, PreservesSubband, IsMat, IsSolver, IsAggregator, IsAdjustment;
    if rounds == 0 {
      SameModelAgrees(ZeroMat(l.p, l.s), l.p, l.s, c);
    } else {
      RunsBySubband(l, summary, stats, stats', rounds - 1, c);
      var run, run' := Trained(l, stats, rounds - 1).value, Trained(l, stats', rounds - 1).value;
      UploadsBySubband(l, run.w, run'.w, stats, stats', c);
      CloseBySubband(l, summary, run, run', Uploads(l, run.w, stats).value, Uploads(l, run'.w, stats').value, c);
    }
  }

  lemma SameModelAgrees(m: Mat, p: nat, s: nat, c: nat)
    requires IsMat(m, p, s) && c < s
    ensures Agree(m, m, p, s, c)
  {
  }

  /** Containment over whole runs: under the mean, the median or any other entrywise summary, and
      whatever happens to the uploads on the way as long as it does not mix other subbands into c,
      whoever lies and however much: after any number of warm-started rounds subband c is exactly
      what the honest federation learns. */
  lemma AttackStaysInItsSubband(l: Learner, summary: seq<real> -> real, pop: seq<Row>, clients: seq<seq<nat>>,
                                attack: Attack, rounds: nat, c: nat)
    requires Entrywisely(l, summary) && IsRows(pop, l.p, l.s) && IsFederation(clients, |pop|)
    requires clients != [] && EveryoneHoldsData(clients) && attack.scale != 0.0
    requires c < l.s && c != TARGET_SUBBAND && PreservesSubband(l, c)
    ensures Trained(l, ReportedStats(pop, clients, attack, l.p, l.s), rounds).Ok?
    ensures Trained(l, StatsOf(pop, clients, l.p, l.s), rounds).Ok?
    ensures Agree(Trained(l, ReportedStats(pop, clients, attack, l.p, l.s), rounds).value.w,
                  Trained(l, StatsOf(pop, clients, l.p, l.s), rounds).value.w, l.p, l.s, c)
  {
    var stats, stats' := ReportedStats(pop, clients, attack, l.p, l.s), StatsOf(pop, clients, l.p, l.s);
    hide Trained, StatOf, Falsified, AgreeStats, Nonsingular, Hessian, PreservesSubband, IsSolver, IsAggregator, IsAdjustment;
    BothTrain(l, summary, pop, clients, attack, rounds);
    ReportsAgree(pop, clients, attack, l.p, l.s, c);
    hide ReportedStats, StatsOf, ClientAgrees, IsMat;
    RunsBySubband(l, summary, stats, stats', rounds, c);
  }

  lemma BothTrain(l: Learner, summary: seq<real> -> real, pop: seq<Row>, clients: seq<seq<nat>>, attack: Attack, rounds: nat)
    requires Entrywisely(l, summary) && IsRows(pop, l.p, l.s) && IsFederation(clients, |pop|) && l.s > TARGET_SUBBAND
    requires clients != [] && EveryoneHoldsData(clients) && attack.scale != 0.0
    ensures Trained(l, ReportedStats(pop, clients, attack, l.p, l.s), rounds).Ok?
    ensures Trained(l, StatsOf(pop, clients, l.p, l.s), rounds).Ok?
  {
    ReportsAreClients(pop, clients, attack, l.p, l.s);
    AllRowsAreClients(pop, clients, l.p, l.s);
    hide Trained, ReportedStats, StatsOf, StatsOfRows, Reported, AreClients;
    RowsTrain(l, summary, ReportedRows(pop, clients, attack, l.p, l.s), rounds);
    RowsTrain(l, summary, AllRows(pop, clients), rounds);
  }

  lemma ReportsAgree(pop: seq<Row>, clients: seq<seq<nat>>, attack: Attack, p: nat, s: nat, c: nat)
    requires IsRows(pop, p, s) && IsFederation(clients, |pop|) && EveryoneHoldsData(clients)
    requires s > TARGET_SUBBAND && attack.scale != 0.0 && c < s && c != TARGET_SUBBAND
    ensures AllAgree(ReportedStats(pop, clients, attack, p, s), StatsOf(pop, clients, p, s), p, s, c)
  {
    hide StatOf, Reported, ClientAgrees;
    var stats, stats' := ReportedStats(pop, clients, attack, p, s), StatsOf(pop, clients, p, s);
    forall k | 0 <= k < |stats|
      ensures ClientAgrees(stats[k], stats'[k], p, s, c)
    {
      ReportAgrees(pop, clients, attack, k, p, s, c);
    }
  }

  lemma ReportAgrees(pop: seq<Row>, clients: seq<seq<nat>>, attack: Attack, k: nat, p: nat, s: nat, c: nat)
    requires IsRows(pop, p, s) && IsFederation(clients, |pop|) && EveryoneHoldsData(clients)
    requires s > TARGET_SUBBAND && attack.scale != 0.0 && k < |clients| && c < s && c != TARGET_SUBBAND
    ensures ClientAgrees(StatOf(Reported(pop, clients, attack, k, p, s), p, s),
                         StatOf(RowsOf(pop, clients[k]), p, s), p, s, c)
  {
    var rows, told := RowsOf(pop, clients[k]), Reported(pop, clients, attack, k, p, s);
    LieKeepsOtherStats(rows, attack, p, s, c);
    assert told != [];
    SystemIsWellPosed(told, p, s);
    hide StatOf, Falsified, Nonsingular, Hessian, Symmetric;
    SameModelAgrees(StatOf(rows, p, s).cross, p, s, c);
  }
}
