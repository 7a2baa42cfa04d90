/** When the cheap replay of federated unlearning is the honest-only retrain under the mean
    (benchmarks/federated_unlearning_suite.py:125-133): exactly as long as no kept subject tells
    the attacked models from the honest ones. */
module ReplayExactness {
  import opened Common
  import opened LinearAlgebra
  import opened SuffStats
  import opened LocalSolve
  import opened Federation
  import opened Erasure
  import opened StepResponse
  import opened MeanOfSteps
  import opened InterceptFederation
  import opened LinearPatch
  import opened Unlearning

  // ----- Nothing fails -----

  function ReportedRows(pop: seq<Row>, clients: seq<seq<nat>>, attack: Attack, p: nat, s: nat): (rows: seq<seq<Row>>)
    requires IsRows(pop, p, s) && IsFederation(clients, |pop|) && s > TARGET_SUBBAND && attack.scale != 0.0
    ensures |rows| == |clients|
  {
    seq(|clients|, k requires 0 <= k < |clients| => Reported(pop, clients, attack, k, p, s))
  }

  lemma ReportsAreClients(pop: seq<Row>, clients: seq<seq<nat>>, attack: Attack, p: nat, s: nat)
    requires IsRows(pop, p, s) && IsFederation(clients, |pop|) && s > TARGET_SUBBAND && attack.scale != 0.0
    requires EveryoneHoldsData(clients)
    ensures AreClients(ReportedRows(pop, clients, attack, p, s), p, s)
    ensures StatsOfRows(ReportedRows(pop, clients, attack, p, s), p, s) == ReportedStats(pop, clients, attack, p, s)
  {
    hide StatOf, Reported;
    var rows := ReportedRows(pop, clients, attack, p, s);
    forall k | 0 <= k < |rows|
      ensures IsRows(rows[k], p, s) && rows[k] != []
    {
      assert |Reported(pop, clients, attack, k, p, s)| == |clients[k]|;
    }
  }

  /** Under an entrywise aggregator a federation whose clients hold data trains, rescaled or not. */
  lemma {:induction false} RowsTrain(l: Learner, summary: seq<real> -> real, rows: seq<seq<Row>>, rounds: nat)
    requires Entrywisely(l, summary) && AreClients(rows, l.p, l.s) && rows != []
    ensures Trained(l, StatsOfRows(rows, l.p, l.s), rounds).Ok?
    decreases rounds
  {
    hide Round, StatsOfRows, AreClients, Entrywise, IsSolver, IsAggregator, IsAdjustment;
    if rounds > 0 {
      RowsTrain(l, summary, rows, rounds - 1);
      RowsRound(l, summary, rows, Trained(l, StatsOfRows(rows, l.p, l.s), rounds - 1).value);
    }
  }

  lemma RowsRound(l: Learner, summary: seq<real> -> real, rows: seq<seq<Row>>, run: Run)
    requires Entrywisely(l, summary) && AreClients(rows, l.p, l.s) && rows != [] && IsRun(run, l.p, l.s, |rows|)
    ensures Round(l, StatsOfRows(rows, l.p, l.s), run).Ok?
  {
    hide Uploads, StatsOfRows, Round, Entrywise, AreClients, IsMat, IsSolver, IsAggregator, IsAdjustment;
    ClientsUpload(l, rows, run.w);
    RoundOf(l, StatsOfRows(rows, l.p, l.s), run);
  }

  // ----- One more round -----

  /** A learner under the mean whose uploads are left alone unless they are malicious. */
  ghost predicate AveragesKept(l: Learner, removed: set<nat>) {
    Entrywisely(l, Average) && Plain(l).Valid() && LeavesHonestUploads(l, removed)
  }

  /** A round of the attacked run, replayed on the kept uploads. */
  lemma ReplayOfRound(l: Learner, stats: seq<Stat>, removed: set<nat>, r: nat)
    requires AveragesKept(l, removed) && IsStats(stats, l.p, l.s) && Others(stats, removed) != []
    requires Trained(l, stats, r + 1).Ok? && Trained(l, stats, r).Ok?
    requires Replayed(l, Trained(l, stats, r).value.trace, removed).Ok?
    ensures IsStats(Others(stats, removed), l.p, l.s)
    ensures var w := Trained(l, stats, r).value.w;
            && Uploads(Plain(l), w, Others(stats, removed)).Ok?
            && Replayed(l, Trained(l, stats, r + 1).value.trace, removed)
               == Ok(MatAdd(Replayed(l, Trained(l, stats, r).value.trace, removed).value,
                            MeanOf(Uploads(Plain(l), w, Others(stats, removed)).value, l.p, l.s), l.p, l.s))
  {
    var run := Trained(l, stats, r).value;
    hide Uploads, Entrywise, MatAdd, Others, IsMat, IsStat, IsSolver, IsAggregator, IsAdjustment;
    assert Uploads(l, run.w, stats).Ok?;
    RoundOf(l, stats, run);
    var ups := Uploads(l, run.w, stats).value;
    assert HonestUnchanged(ups, l.adjust(ups), removed);
    OthersOfSent(ups, l.adjust(ups), removed);
    OtherUploads(l, run.w, stats, removed);
    var longer := Trained(l, stats, r + 1).value.trace;
    assert longer == run.trace + [l.adjust(ups)];
    assert longer[..r] == run.trace && longer[r] == l.adjust(ups);
    assert l.agg(Others(ups, removed)) == Ok(MeanOf(Others(ups, removed), l.p, l.s));
  }

  /** An attacked run that never fails, and the rows of the clients it keeps. */
  ghost predicate Unlearnable(l: Learner, stats: seq<Stat>, removed: set<nat>, kept: seq<seq<Row>>) {
    && AveragesKept(l, removed) && IsStats(stats, l.p, l.s) && AreClients(kept, l.p, l.s) && kept != []
    && StatsOfRows(kept, l.p, l.s) == Others(stats, removed)
    && NeverFails(l, stats)
  }

  ghost predicate NeverFails(l: Learner, stats: seq<Stat>)
    requires l.Valid() && IsStats(stats, l.p, l.s)
  {
    forall r: nat :: Trained(l, stats, r).Ok?
  }

  function Gold(l: Learner, kept: seq<seq<Row>>, r: nat): Result<Run>
    requires Plain(l).Valid() && AreClients(kept, l.p, l.s)
  {
    Trained(Plain(l), StatsOfRows(kept, l.p, l.s), r)
  }

  /** The replay of r rounds is the retrain of r rounds. */
  ghost predicate Faithful(l: Learner, stats: seq<Stat>, removed: set<nat>, kept: seq<seq<Row>>, r: nat)
    requires Unlearnable(l, stats, removed, kept)
  {
    Gold(l, kept, r).Ok? && Replayed(l, Trained(l, stats, r).value.trace, removed) == Ok(Gold(l, kept, r).value.w)
  }

  /** The attacked model and the replay, r rounds in, look the same to the kept clients. Both can be
      read off the trace. */
  ghost predicate NobodyCanTell(l: Learner, stats: seq<Stat>, removed: set<nat>, kept: seq<seq<Row>>, r: nat)
    requires Unlearnable(l, stats, removed, kept)
  {
    var run := Trained(l, stats, r).value;
    var replayed := Replayed(l, run.trace, removed);
    replayed.Ok? && Indistinguishable(kept, run.w, replayed.value, l.p, l.s)
  }

  /** One more round keeps a faithful replay faithful exactly when nobody can tell. */
  lemma OneMoreRound(l: Learner, stats: seq<Stat>, removed: set<nat>, kept: seq<seq<Row>>, r: nat)
    requires Unlearnable(l, stats, removed, kept) && Faithful(l, stats, removed, kept, r)
    ensures Faithful(l, stats, removed, kept, r + 1) <==> NobodyCanTell(l, stats, removed, kept, r)
  {
    assert Trained(l, stats, r).Ok? && Trained(l, stats, r + 1).Ok?;
    ReplayOfRound(l, stats, removed, r);
    hide AveragesKept, Uploads, StatsOfRows, Indistinguishable, Entrywise, MatAdd, IsMat, IsStat,
         IsSolver, IsAggregator, IsAdjustment;
    RoundsCompared(l, stats, removed, kept, r, Trained(l, stats, r).value.w);
  }

  /** A replayed and a retrained round, from the retrained model. */
  lemma RoundsCompared(l: Learner, stats: seq<Stat>, removed: set<nat>, kept: seq<seq<Row>>, r: nat, w: Mat)
    requires Unlearnable(l, stats, removed, kept) && Gold(l, kept, r).Ok? && IsMat(w, l.p, l.s)
    ensures Uploads(Plain(l), w, StatsOfRows(kept, l.p, l.s)).Ok? && Gold(l, kept, r + 1).Ok?
    ensures MatAdd(Gold(l, kept, r).value.w, MeanOf(Uploads(Plain(l), w, StatsOfRows(kept, l.p, l.s)).value, l.p, l.s), l.p, l.s)
            == Gold(l, kept, r + 1).value.w
            <==> Indistinguishable(kept, w, Gold(l, kept, r).value.w, l.p, l.s)
  {
    assert AveragesKept(l, removed);
    hide Unlearnable, Trained, Uploads, StatsOfRows, Indistinguishable, Entrywise, MatAdd, MeanOf, IsMat,
         IsSolver, IsAggregator, IsAdjustment, LeavesHonestUploads;
    var w', honest := Gold(l, kept, r).value.w, StatsOfRows(kept, l.p, l.s);
    GoldRound(Plain(l), kept, r);
    ClientsUpload(Plain(l), kept, w);
    MeansAgreeExactly(Plain(l), kept, w, w');
    CancelModel(w', MeanOf(Uploads(Plain(l), w, honest).value, l.p, l.s),
                MeanOf(Uploads(Plain(l), w', honest).value, l.p, l.s), l.p, l.s);
  }

  /** A round of the retrain. */
  lemma GoldRound(l: Learner, rows: seq<seq<Row>>, r: nat)
    requires Summarises(l, Average) && AreClients(rows, l.p, l.s) && rows != []
    requires Trained(l, StatsOfRows(rows, l.p, l.s), r).Ok?
    ensures var stats := StatsOfRows(rows, l.p, l.s);
            var w := Trained(l, stats, r).value.w;
            && Uploads(l, w, stats).Ok? && Trained(l, stats, r + 1).Ok?
            && Trained(l, stats, r + 1).value.w == MatAdd(w, MeanOf(Uploads(l, w, stats).value, l.p, l.s), l.p, l.s)
  {
    hide Uploads, StatsOfRows, Entrywise, MatAdd, IsMat, IsSolver, IsAggregator, IsAdjustment, Round;
    var stats := StatsOfRows(rows, l.p, l.s);
    var run := Trained(l, stats, r).value;
    ClientsUpload(l, rows, run.w);
    RoundSummarises(l, Average, stats, run, Uploads(l, run.w, stats).value);
  }

  lemma FaithfulAtFirst(l: Learner, stats: seq<Stat>, removed: set<nat>, kept: seq<seq<Row>>)
    requires Unlearnable(l, stats, removed, kept)
    ensures Faithful(l, stats, removed, kept, 0)
  {
  }

  /** Round after round: the replay follows the retrain as long as nobody can tell. */
  lemma {:induction false} FaithfulExactly(l: Learner, stats: seq<Stat>, removed: set<nat>, kept: seq<seq<Row>>, rounds: nat)
    requires Unlearnable(l, stats, removed, kept)
    ensures (forall r :: 0 <= r <= rounds ==> Faithful(l, stats, removed, kept, r))
            <==> (forall r :: 0 <= r < rounds ==> NobodyCanTell(l, stats, removed, kept, r))
    decreases rounds
  {
    hide Unlearnable, Faithful, NobodyCanTell;
    if rounds == 0 {
      FaithfulAtFirst(l, stats, removed, kept);
    } else {
      FaithfulExactly(l, stats, removed, kept, rounds - 1);
      if Faithful(l, stats, removed, kept, rounds - 1) {
        OneMoreRound(l, stats, removed, kept, rounds - 1);
      }
    }
  }

  // ----- The suite's federation -----

  /** A falsified federation with an honest client left, under the mean, stealthy or not. */
  ghost predicate Falsifiable(l: Learner, pop: seq<Row>, clients: seq<seq<nat>>, attack: Attack) {
    && Entrywisely(l, Average) && LeavesHonestUploads(l, attack.malicious)
    && IsRows(pop, l.p, l.s) && IsFederation(clients, |pop|) && EveryoneHoldsData(clients)
    && l.s > TARGET_SUBBAND && attack.scale != 0.0 && Others(clients, attack.malicious) != []
  }

  lemma {:induction false} OthersHoldData(clients: seq<seq<nat>>, removed: set<nat>)
    requires EveryoneHoldsData(clients)
    ensures EveryoneHoldsData(Others(clients, removed))
  {
    if clients != [] {
      OthersHoldData(clients[..|clients| - 1], removed);
    }
  }

  /** The rows of the clients that are kept. */
  function HonestRows(pop: seq<Row>, clients: seq<seq<nat>>, attack: Attack): (rows: seq<seq<Row>>)
    requires IsFederation(clients, |pop|)
  {
    OthersAreFederation(clients, attack.malicious, |pop|);
    AllRows(pop, Others(clients, attack.malicious))
  }

  lemma FalsifiableIsUnlearnable(l: Learner, pop: seq<Row>, clients: seq<seq<nat>>, attack: Attack)
    requires Falsifiable(l, pop, clients, attack)
    ensures Unlearnable(l, ReportedStats(pop, clients, attack, l.p, l.s), attack.malicious, HonestRows(pop, clients, attack))
    ensures IsFederation(Others(clients, attack.malicious), |pop|)
    ensures StatsOfRows(HonestRows(pop, clients, attack), l.p, l.s)
            == StatsOf(pop, Others(clients, attack.malicious), l.p, l.s)
  {
    PlainIsValid(l);
    HonestStats(pop, clients, attack, l.p, l.s);
    OthersHoldData(clients, attack.malicious);
    AllRowsAreClients(pop, Others(clients, attack.malicious), l.p, l.s);
    ReportsAreClients(pop, clients, attack, l.p, l.s);
    hide StatsOf, StatsOfRows, ReportedStats, Reported, Trained, AreClients, IsSolver, IsAggregator, IsAdjustment;
    forall r: nat
      ensures Trained(l, ReportedStats(pop, clients, attack, l.p, l.s), r).Ok?
    {
      RowsTrain(l, Average, ReportedRows(pop, clients, attack, l.p, l.s), r);
    }
  }

  /** The exact condition under the mean, at any number of rounds, stealthy attack or not: the
      cheap replay is the honest-only retrain after every round if and only if, before every round
      replayed, no subject of a kept client tells the attacked model from the replay. */
  lemma ReplayExactly(l: Learner, pop: seq<Row>, clients: seq<seq<nat>>, attack: Attack, rounds: nat)
    requires Falsifiable(l, pop, clients, attack)
    ensures var stats, kept := ReportedStats(pop, clients, attack, l.p, l.s), HonestRows(pop, clients, attack);
            && Unlearnable(l, stats, attack.malicious, kept)
            && ((forall r :: 0 <= r <= rounds ==> Faithful(l, stats, attack.malicious, kept, r))
                <==> (forall r :: 0 <= r < rounds ==> NobodyCanTell(l, stats, attack.malicious, kept, r)))
  {
    FalsifiableIsUnlearnable(l, pop, clients, attack);
    FaithfulExactly(l, ReportedStats(pop, clients, attack, l.p, l.s), attack.malicious, HonestRows(pop, clients, attack), rounds);
  }

  /** A model is not told from itself. */
  lemma SameModelUntold(kept: seq<seq<Row>>, w: Mat, p: nat, s: nat)
    requires AreClients(kept, p, s) && IsMat(w, p, s)
    ensures Indistinguishable(kept, w, w, p, s)
  {
    hide Gap;
    forall k, c | 0 <= k < |kept| && 0 <= c < s
      ensures Unseen(kept[k], p, s, Gap(w, w, p, s, c))
    {
      GapIsZero(w, w, p, s, c);
      UnseenZeros(kept[k], p, s);
    }
  }

  lemma FaithfulAtOne(l: Learner, stats: seq<Stat>, removed: set<nat>, kept: seq<seq<Row>>)
    requires Unlearnable(l, stats, removed, kept)
    ensures Faithful(l, stats, removed, kept, 1)
  {
    FaithfulAtFirst(l, stats, removed, kept);
    OneMoreRound(l, stats, removed, kept, 0);
    SameModelUntold(kept, ZeroMat(l.p, l.s), l.p, l.s);
    hide Indistinguishable, AveragesKept, AreClients, StatsOfRows, IsStats;
  }

  /** After one round both models can be read off the first cached uploads. */
  lemma ModelsAfterOneRound(l: Learner, stats: seq<Stat>, removed: set<nat>, kept: seq<seq<Row>>)
    requires Unlearnable(l, stats, removed, kept)
    ensures Gold(l, kept, 1).Ok?
    ensures var trace := Trained(l, stats, 2).value.trace;
            && |trace| == 2 && IsMats(trace[0], l.p, l.s) && IsMats(Others(trace[0], removed), l.p, l.s)
            && Trained(l, stats, 1).value.w == MeanOf(trace[0], l.p, l.s)
            && Gold(l, kept, 1).value.w == MeanOf(Others(trace[0], removed), l.p, l.s)
  {
    FaithfulAtOne(l, stats, removed, kept);
    assert Trained(l, stats, 1).Ok? && Trained(l, stats, 2).Ok?;
    FirstUploads(l, stats, removed);
    hide Entrywise, StatsOfRows, ZeroMat, Others, MatAdd, IsSolver, IsAggregator, IsAdjustment;
  }

  lemma FirstUploads(l: Learner, stats: seq<Stat>, removed: set<nat>)
    requires AveragesKept(l, removed) && IsStats(stats, l.p, l.s) && Others(stats, removed) != []
    requires Trained(l, stats, 1).Ok? && Trained(l, stats, 2).Ok?
    ensures var trace := Trained(l, stats, 2).value.trace;
            && |trace| == 2 && IsMats(trace[0], l.p, l.s) && IsMats(Others(trace[0], removed), l.p, l.s)
            && Trained(l, stats, 1).value.w == MeanOf(trace[0], l.p, l.s)
            && Replayed(l, Trained(l, stats, 1).value.trace, removed) == Ok(MeanOf(Others(trace[0], removed), l.p, l.s))
  {
    hide Entrywise, MeanOf, Others, Replayed, Trained, IsMat, IsStat, IsStats, ZeroMat, Round, IsSolver, IsAggregator, IsAdjustment;
    FirstRound(l, stats);
    TraceGrows(l, stats, 1);
    var sent := Trained(l, stats, 1).value.trace[0];
    assert Trained(l, stats, 2).value.trace[..1][0] == sent;
    FirstReplay(l, stats, removed);
    ReplayOfFirst(l, Trained(l, stats, 1).value.trace, removed);
  }

  lemma TraceGrows(l: Learner, stats: seq<Stat>, r: nat)
    requires l.Valid() && IsStats(stats, l.p, l.s) && Trained(l, stats, r + 1).Ok?
    ensures Trained(l, stats, r).Ok? && Trained(l, stats, r + 1).value.trace[..r] == Trained(l, stats, r).value.trace
  {
    hide Uploads, MatAdd, IsMat, IsStat, IsSolver, IsAggregator, IsAdjustment;
  }

  lemma FirstReplay(l: Learner, stats: seq<Stat>, removed: set<nat>)
    requires AveragesKept(l, removed) && IsStats(stats, l.p, l.s) && Others(stats, removed) != []
    requires Trained(l, stats, 1).Ok?
    ensures Replayed(l, Trained(l, stats, 1).value.trace, removed).Ok?
  {
    hide Entrywise, Others, MatAdd, IsMat, IsStat, Uploads, ZeroMat, IsSolver, IsAggregator, IsAdjustment;
    assert Trained(l, stats, 0) == Ok(Run(ZeroMat(l.p, l.s), []));
    ReplayOfRound(l, stats, removed, 0);
  }

  lemma FirstRound(l: Learner, stats: seq<Stat>)
    requires Entrywisely(l, Average) && IsStats(stats, l.p, l.s) && stats != [] && Trained(l, stats, 1).Ok?
    ensures var run := Trained(l, stats, 1).value;
            && |run.trace| == 1 && IsMats(run.trace[0], l.p, l.s) && run.w == MeanOf(run.trace[0], l.p, l.s)
  {
    var zero := ZeroMat(l.p, l.s);
    OneRound(l, stats);
    hide Entrywise, MatAdd, IsMat, IsStat, Uploads, ZeroMat, Round, IsSolver, IsAggregator, IsAdjustment;
    RoundOfNothing(l, stats, Run(zero, []));
    RoundOf(l, stats, Run(zero, []));
    var sent := l.adjust(Uploads(l, zero, stats).value);
    FromZero(MeanOf(sent, l.p, l.s), l.p, l.s);
  }

  lemma ReplayOfFirst(l: Learner, trace: seq<seq<Mat>>, removed: set<nat>)
    requires Entrywisely(l, Average) && IsTrace(trace, l.p, l.s) && |trace| == 1
    requires Replayed(l, trace, removed).Ok?
    ensures IsMats(Others(trace[0], removed), l.p, l.s)
    ensures Replayed(l, trace, removed) == Ok(MeanOf(Others(trace[0], removed), l.p, l.s))
  {
    hide Entrywise, Others, ZeroMat, MatAdd, IsSolver, IsAdjustment;
    OthersKeepShape(trace[0], removed, l.p, l.s);
    assert Replayed(l, trace[..0], removed) == Ok(ZeroMat(l.p, l.s));
    FromZero(MeanOf(Others(trace[0], removed), l.p, l.s), l.p, l.s);
  }

  /** At two rounds the condition can be read off the first cached uploads: the mean of all of them
      and the mean of the kept ones predict every subject of the kept clients alike. */
  lemma ReplayExactlyAtTwoRounds(l: Learner, pop: seq<Row>, clients: seq<seq<nat>>, attack: Attack)
    requires Falsifiable(l, pop, clients, attack)
    ensures var stats, kept := ReportedStats(pop, clients, attack, l.p, l.s), HonestRows(pop, clients, attack);
            && Trained(l, stats, 2).Ok?
            && var honest, trace := Others(clients, attack.malicious), Trained(l, stats, 2).value.trace;
            && AreClients(kept, l.p, l.s) && IsFederation(honest, |pop|) && Plain(l).Valid()
            && |trace| == 2 && IsMats(trace[0], l.p, l.s) && IsMats(Others(trace[0], attack.malicious), l.p, l.s)
            && (Replayed(l, trace, attack.malicious) == ModelOf(Trained(Plain(l), StatsOf(pop, honest, l.p, l.s), 2))
                <==> Indistinguishable(kept, MeanOf(trace[0], l.p, l.s),
                                       MeanOf(Others(trace[0], attack.malicious), l.p, l.s), l.p, l.s))
  {
    FalsifiableIsUnlearnable(l, pop, clients, attack);
    var stats, kept := ReportedStats(pop, clients, attack, l.p, l.s), HonestRows(pop, clients, attack);
    assert Trained(l, stats, 2).Ok?;
    FaithfulAtOne(l, stats, attack.malicious, kept);
    OneMoreRound(l, stats, attack.malicious, kept, 1);
    ModelsAfterOneRound(l, stats, attack.malicious, kept);
    hide Indistinguishable, MeanOf, ReportedStats, StatsOfRows, StatsOf, Others, HonestRows, IsStats,
         IsSolver, IsAggregator, IsAdjustment, LeavesHonestUploads;
    GoldSucceeds(l, stats, attack.malicious, kept, 2);
  }

  lemma GoldSucceeds(l: Learner, stats: seq<Stat>, removed: set<nat>, kept: seq<seq<Row>>, r: nat)
    requires Unlearnable(l, stats, removed, kept)
    ensures Gold(l, kept, r).Ok?
  {
    RowsTrain(Plain(l), Average, kept, r);
  }

  // ----- An instance at the shipped size -----

  /** Two clients of one subject each, all gains at the public centre; the second reports 20 dB more. */
  ghost predicate OneLiar(l: Learner, pop: seq<Row>, clients: seq<seq<nat>>, attack: Attack) {
    && AveragesUploads(l) && IsShipped(l)
    && pop == [FirstSubband(0.0), FirstSubband(0.0)] && clients == [[0], [1]] && attack == Attack({1}, 20.0, 2.0)
  }

  lemma OthersOfTwo<T>(xs: seq<T>)
    requires |xs| == 2
    ensures Others(xs, {1}) == [xs[0]]
  {
    assert xs[..1] == [xs[0]] && xs[..1][..0] == [];
    assert Others(xs[..1], {1}) == [xs[0]];
  }

  lemma OneLiarIsFalsifiable(l: Learner, pop: seq<Row>, clients: seq<seq<nat>>, attack: Attack)
    requires OneLiar(l, pop, clients, attack)
    ensures Falsifiable(l, pop, clients, attack) && HonestRows(pop, clients, attack) == [[FirstSubband(0.0)]]
    ensures ReportedStats(pop, clients, attack, l.p, l.s)
            == [StatOf([FirstSubband(0.0)], l.p, l.s), StatOf([FirstSubband(10.0)], l.p, l.s)]
  {
    hide StatOf, IsSolver, IsAggregator, IsAdjustment, Entrywisely;
    OthersOfTwo(clients);
    assert RowsOf(pop, [0]) == [pop[0]] && RowsOf(pop, [1]) == [pop[1]];
    var lie := Falsified([pop[1]], attack, l.p, l.s)[0];
    assert lie.t == FirstSubband(10.0).t;
    assert Falsified([pop[1]], attack, l.p, l.s) == [FirstSubband(10.0)];
    assert Reported(pop, clients, attack, 0, l.p, l.s) == [pop[0]];
    assert Reported(pop, clients, attack, 1, l.p, l.s) == [FirstSubband(10.0)];
    assert HonestRows(pop, clients, attack) == AllRows(pop, [[0]]) == [[pop[0]]];
    forall ups | IsMats(ups, l.p, l.s)
      ensures HonestUnchanged(ups, l.adjust(ups), attack.malicious)
    {
    }
  }

  /** Warm starting keeps the attack: at two rounds, even under the mean, the cached honest uploads
      have answered the falsified model, and the replay is not the retrain. */
  lemma WarmStartKeepsTheAttack(l: Learner, pop: seq<Row>, clients: seq<seq<nat>>, attack: Attack)
    requires OneLiar(l, pop, clients, attack)
    ensures Falsifiable(l, pop, clients, attack)
    ensures var stats, honest := ReportedStats(pop, clients, attack, l.p, l.s), Others(clients, attack.malicious);
            && IsFederation(honest, |pop|) && Plain(l).Valid() && Trained(l, stats, 2).Ok?
            && Replayed(l, Trained(l, stats, 2).value.trace, attack.malicious)
               != ModelOf(Trained(Plain(l), StatsOf(pop, honest, l.p, l.s), 2))
  {
    OneLiarIsFalsifiable(l, pop, clients, attack);
    ReplayExactlyAtTwoRounds(l, pop, clients, attack);
    var stats := ReportedStats(pop, clients, attack, l.p, l.s);
    LiarsUploads(l, stats);
    var first := Trained(l, stats, 2).value.trace[0];
    LiarTold(first, [[FirstSubband(0.0)]], l.p, l.s);
  }

  lemma LiarsUploads(l: Learner, stats: seq<Stat>)
    requires AveragesUploads(l) && IsShipped(l)
    requires stats == [StatOf([FirstSubband(0.0)], l.p, l.s), StatOf([FirstSubband(10.0)], l.p, l.s)]
    requires Trained(l, stats, 2).Ok?
    ensures var trace := Trained(l, stats, 2).value.trace;
            |trace| == 2 && |trace[0]| == 2 && IsMats(trace[0], l.p, l.s) && trace[0][0][5][0] == 0.0 && trace[0][1][5][0] == 2.0
  {
    FirstUpload(l, 0.0, 0.0);
    FirstUpload(l, 10.0, 0.0);
    TraceGrows(l, stats, 1);
    OneRound(l, stats);
    var zero := ZeroMat(l.p, l.s);
    hide Trained, ProxUpdate, StatOf, ZeroMat, IsSolver, IsAggregator, IsAdjustment;
    RoundOfNothing(l, stats, Run(zero, []));
    RoundOf(l, stats, Run(zero, []));
    UploadIsLocal(l, zero, stats, 0);
    UploadIsLocal(l, zero, stats, 1);
    assert Trained(l, stats, 2).value.trace[..1][0] == Uploads(l, zero, stats).value;
  }

  lemma LiarTold(ups: seq<Mat>, kept: seq<seq<Row>>, p: nat, s: nat)
    requires IsMats(ups, p, s) && |ups| == 2 && p == N_FEATURES && s == N_SUBBANDS && kept == [[FirstSubband(0.0)]]
    requires ups[0][5][0] == 0.0 && ups[1][5][0] == 2.0
    ensures IsMats(Others(ups, {1}), p, s) && AreClients(kept, p, s)
    ensures !Indistinguishable(kept, MeanOf(ups, p, s), MeanOf(Others(ups, {1}), p, s), p, s)
  {
    OthersOfTwo(ups);
    var all, honest := MeanOf(ups, p, s), MeanOf([ups[0]], p, s);
    MeanOfAt(ups, p, s, 5, 0);
    MeanOfAt([ups[0]], p, s, 5, 0);
    assert Entries(ups, p, s, 5, 0) == [0.0, 2.0] && Entries([ups[0]], p, s, 5, 0) == [0.0];
    SumsOfFew(0.0, 2.0, 0.0);
    hide MeanOf, Sum, Entries, Dot, Others;
    var gap := Gap(all, honest, p, s, 0);
    assert gap[5] == 1.0;
    DotUnit(gap, 5);
    DotCommutes(Unit(p, 5), gap);
    assert kept[0][0].d == Unit(p, 5);
    assert Dot(kept[0][0].d, gap) == 1.0;
    assert !Unseen(kept[0], p, s, gap);
  }
}
