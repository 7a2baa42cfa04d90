/** The last model of the cheap replay, at any number of rounds: it is the honest-only retrain exactly
    when the mean of the attacked models and the mean of the honest ones, over all rounds, predict
    every subject of the kept clients alike. */
module ReplayEnd {
  import opened Common
  import opened LinearAlgebra
  import opened SuffStats
  import opened LocalSolve
  import opened Federation
  import opened Erasure
  import opened MeanOfSteps
  import opened LinearPatch
  import opened Unlearning
  import opened ReplayExactness
  import opened AffineSteps

  /** The global models the first `n` rounds start from. */
  ghost function ModelsOf(l: Learner, stats: seq<Stat>, n: nat): (ws: seq<Mat>)
    requires l.Valid() && IsStats(stats, l.p, l.s) && NeverFails(l, stats)
    ensures |ws| == n && IsMats(ws, l.p, l.s)
  {
    if n == 0 then []
    else
      assert Trained(l, stats, n - 1).Ok?;
      ModelsOf(l, stats, n - 1) + [Trained(l, stats, n - 1).value.w]
  }

  lemma GoldNeverFails(l: Learner, kept: seq<seq<Row>>)
    requires Summarises(l, Average) && AreClients(kept, l.p, l.s) && kept != []
    ensures NeverFails(l, StatsOfRows(kept, l.p, l.s))
  {
    forall r: nat
      ensures Trained(l, StatsOfRows(kept, l.p, l.s), r).Ok?
    {
      RowsTrain(l, Average, kept, r);
    }
  }

  /** One more model, one more step. */
  lemma NextTotal(l: Learner, kept: seq<seq<Row>>, ws: seq<Mat>, w: Mat)
    requires l.Valid() && AreClients(kept, l.p, l.s) && IsMats(ws, l.p, l.s) && IsMat(w, l.p, l.s)
    ensures TotalStep(l, kept, ws + [w]) == MatAdd(TotalStep(l, kept, ws), MeanStep(l, kept, w), l.p, l.s)
  {
    hide MatAdd, MeanStep, IsMat, IsSolver, IsAggregator, IsAdjustment;
    assert (ws + [w])[..|ws|] == ws;
  }

  /** The replay is what the attacked models ask of the kept clients. */
  lemma {:induction false} ReplayIsTotal(l: Learner, stats: seq<Stat>, removed: set<nat>, kept: seq<seq<Row>>, n: nat)
    requires Unlearnable(l, stats, removed, kept)
    ensures Trained(l, stats, n).Ok?
    ensures Replayed(l, Trained(l, stats, n).value.trace, removed)
            == Ok(TotalStep(Plain(l), kept, ModelsOf(l, stats, n)))
    decreases n
  {
    assert l.Valid() && Trained(l, stats, n).Ok?;
    hide AveragesKept, StatsOfRows, AreClients, Others, Round, MatAdd, ZeroMat, MeanStep, NeverFails, IsStats, IsMat, IsMats,
         IsSolver, IsAggregator, IsAdjustment;
    if n == 0 {
      OneRound(l, stats);
    } else {
      ReplayIsTotal(l, stats, removed, kept, n - 1);
      NextReplay(l, stats, removed, kept, n - 1);
    }
  }

  lemma NextReplay(l: Learner, stats: seq<Stat>, removed: set<nat>, kept: seq<seq<Row>>, n: nat)
    requires Unlearnable(l, stats, removed, kept) && Trained(l, stats, n).Ok?
    requires Replayed(l, Trained(l, stats, n).value.trace, removed)
             == Ok(TotalStep(Plain(l), kept, ModelsOf(l, stats, n)))
    ensures Trained(l, stats, n + 1).Ok?
    ensures Replayed(l, Trained(l, stats, n + 1).value.trace, removed)
            == Ok(TotalStep(Plain(l), kept, ModelsOf(l, stats, n + 1)))
  {
    assert Trained(l, stats, n + 1).Ok?;
    ReplayOfRound(l, stats, removed, n);
    var w := Trained(l, stats, n).value.w;
    NextTotal(Plain(l), kept, ModelsOf(l, stats, n), w);
    hide AveragesKept, StatsOfRows, Others, Uploads, Round, Entrywise, MatAdd, TotalStep, Replayed, IsMat, IsStats,
         IsSolver, IsAggregator, IsAdjustment;
    assert ModelsOf(l, stats, n + 1) == ModelsOf(l, stats, n) + [w];
  }

  /** The retrain is what its own models ask of them. */
  lemma {:induction false} GoldIsTotal(l: Learner, kept: seq<seq<Row>>, stats: seq<Stat>, n: nat)
    requires Summarises(l, Average) && AreClients(kept, l.p, l.s) && kept != []
    requires stats == StatsOfRows(kept, l.p, l.s) && NeverFails(l, stats)
    ensures Trained(l, stats, n).Ok? && Trained(l, stats, n).value.w == TotalStep(l, kept, ModelsOf(l, stats, n))
    decreases n
  {
    assert l.Valid();
    hide Summarises, StatsOfRows, AreClients, MeanStep, Round, MatAdd, ZeroMat, NeverFails, IsStats, IsMat, IsMats,
         IsSolver, IsAggregator, IsAdjustment;
    if n == 0 {
      OneRound(l, stats);
    } else {
      GoldIsTotal(l, kept, stats, n - 1);
      NextGold(l, kept, stats, n - 1);
    }
  }

  lemma NextGold(l: Learner, kept: seq<seq<Row>>, stats: seq<Stat>, n: nat)
    requires Summarises(l, Average) && AreClients(kept, l.p, l.s) && kept != []
    requires stats == StatsOfRows(kept, l.p, l.s) && NeverFails(l, stats)
    requires Trained(l, stats, n).Ok? && Trained(l, stats, n).value.w == TotalStep(l, kept, ModelsOf(l, stats, n))
    ensures Trained(l, stats, n + 1).Ok?
    ensures Trained(l, stats, n + 1).value.w == TotalStep(l, kept, ModelsOf(l, stats, n + 1))
  {
    assert l.Valid();
    hide NeverFails, Summarises, StatsOfRows, AreClients, MeanStep, Round, MatAdd, IsMat, IsStats, IsMats, IsSolver, IsAggregator, IsAdjustment;
    GoldStep(l, kept, stats, n);
    NextTotal(l, kept, ModelsOf(l, stats, n), Trained(l, stats, n).value.w);
    assert ModelsOf(l, stats, n + 1) == ModelsOf(l, stats, n) + [Trained(l, stats, n).value.w];
  }

  lemma GoldStep(l: Learner, kept: seq<seq<Row>>, stats: seq<Stat>, n: nat)
    requires Summarises(l, Average) && AreClients(kept, l.p, l.s) && kept != []
    requires stats == StatsOfRows(kept, l.p, l.s) && Trained(l, stats, n).Ok?
    ensures Trained(l, stats, n + 1).Ok?
    ensures var w := Trained(l, stats, n).value.w;
            Trained(l, stats, n + 1).value.w == MatAdd(w, MeanStep(l, kept, w), l.p, l.s)
  {
    hide Uploads, StatsOfRows, AreClients, Entrywise, MatAdd, IsMat, IsSolver, IsAggregator, IsAdjustment;
    GoldRound(l, kept, n);
  }

  /** The exact condition on the last model, under the mean, at any number of rounds, stealthy or not. */
  lemma ReplayEndsExactly(l: Learner, pop: seq<Row>, clients: seq<seq<nat>>, attack: Attack, rounds: nat)
    requires Falsifiable(l, pop, clients, attack) && rounds > 0
    ensures var stats, kept := ReportedStats(pop, clients, attack, l.p, l.s), HonestRows(pop, clients, attack);
            && Unlearnable(l, stats, attack.malicious, kept) && NeverFails(Plain(l), StatsOfRows(kept, l.p, l.s))
            && (Faithful(l, stats, attack.malicious, kept, rounds)
                <==> Indistinguishable(kept, MeanOf(ModelsOf(l, stats, rounds), l.p, l.s),
                                       MeanOf(ModelsOf(Plain(l), StatsOfRows(kept, l.p, l.s), rounds), l.p, l.s), l.p, l.s))
  {
    FalsifiableIsUnlearnable(l, pop, clients, attack);
    EndsExactly(l, ReportedStats(pop, clients, attack, l.p, l.s), attack.malicious, HonestRows(pop, clients, attack), rounds);
  }

  lemma EndsExactly(l: Learner, stats: seq<Stat>, removed: set<nat>, kept: seq<seq<Row>>, rounds: nat)
    requires Unlearnable(l, stats, removed, kept) && rounds > 0
    ensures NeverFails(Plain(l), StatsOfRows(kept, l.p, l.s))
    ensures Faithful(l, stats, removed, kept, rounds)
            <==> Indistinguishable(kept, MeanOf(ModelsOf(l, stats, rounds), l.p, l.s),
                                   MeanOf(ModelsOf(Plain(l), StatsOfRows(kept, l.p, l.s), rounds), l.p, l.s), l.p, l.s)
  {
    GoldNeverFails(Plain(l), kept);
    var honest := StatsOfRows(kept, l.p, l.s);
    ReplayIsTotal(l, stats, removed, kept, rounds);
    GoldIsTotal(Plain(l), kept, honest, rounds);
    hide MeanOf, Indistinguishable, Round, IsMat, LeavesHonestUploads, IsSolver, IsAggregator, IsAdjustment;
    EndsAlike(Plain(l), kept, ModelsOf(l, stats, rounds), ModelsOf(Plain(l), honest, rounds),
              Replayed(l, Trained(l, stats, rounds).value.trace, removed), Gold(l, kept, rounds));
  }

  lemma EndsAlike(l: Learner, kept: seq<seq<Row>>, ws: seq<Mat>, ws': seq<Mat>, replayed: Result<Mat>, gold: Result<Run>)
    requires l.Valid() && AreClients(kept, l.p, l.s) && kept != [] && IsMats(ws, l.p, l.s) && IsMats(ws', l.p, l.s)
    requires |ws| == |ws'| > 0 && gold.Ok?
    requires replayed == Ok(TotalStep(l, kept, ws)) && gold.value.w == TotalStep(l, kept, ws')
    ensures replayed == Ok(gold.value.w) <==> Indistinguishable(kept, MeanOf(ws, l.p, l.s), MeanOf(ws', l.p, l.s), l.p, l.s)
  {
    hide MeanOf, Indistinguishable, IsMat, IsSolver, IsAggregator, IsAdjustment;
    TotalsAgreeExactly(l, kept, ws, ws');
  }
}
