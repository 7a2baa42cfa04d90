/** Erasing one subject from a trained federation (benchmarks/subject_erasure_suite.py):
    replaying the rounds from downdated statistics, against retraining without the row. */
module Erasure {
  import opened Common
  import opened LinearAlgebra
  import opened SuffStats
  import opened LocalSolve
  import opened Federation

  /** A client holds receivers, given by their row numbers in the population. */
  predicate IsClient(client: seq<nat>, population: nat) {
    forall i :: 0 <= i < |client| ==> client[i] < population
  }

  predicate IsFederation(clients: seq<seq<nat>>, population: nat) {
    forall k :: 0 <= k < |clients| ==> IsClient(clients[k], population)
  }

  function RowsOf(pop: seq<Row>, client: seq<nat>): (rows: seq<Row>)
    requires IsClient(client, |pop|)
    ensures |rows| == |client|
  {
    seq(|client|, i requires 0 <= i < |client| => pop[client[i]])
  }

  function StatsOf(pop: seq<Row>, clients: seq<seq<nat>>, p: nat, s: nat): (stats: seq<Stat>)
    requires IsRows(pop, p, s) && IsFederation(clients, |pop|)
    ensures |stats| == |clients| && IsStats(stats, p, s)
  {
    seq(|clients|, k requires 0 <= k < |clients| => StatOf(RowsOf(pop, clients[k]), p, s))
  }

  /** The client's row numbers other than the erased one. */
  function Without(client: seq<nat>, subject: nat): (kept: seq<nat>)
    ensures subject !in kept
    ensures forall x :: x in kept ==> x in client
  {
    if client == [] then []
    else
      var n := |client| - 1;
      Without(client[..n], subject) + if client[n] == subject then [] else [client[n]]
  }

  function Multiplicity(client: seq<nat>, subject: nat): (m: nat)
    ensures m <= |client|
  {
    if client == [] then 0
    else
      var n := |client| - 1;
      Multiplicity(client[..n], subject) + if client[n] == subject then 1 else 0
  }

  lemma {:induction false} WithoutLength(client: seq<nat>, subject: nat)
    ensures |Without(client, subject)| == |client| - Multiplicity(client, subject)
  {
    if client != [] {
      WithoutLength(client[..|client| - 1], subject);
    }
  }

  lemma {:induction false} NeverHeld(client: seq<nat>, subject: nat)
    requires Multiplicity(client, subject) == 0
    ensures Without(client, subject) == client
  {
    if client != [] {
      NeverHeld(client[..|client| - 1], subject);
    }
  }

  /** A subject held once sits at one position, and dropping it removes that position only. */
  lemma {:induction false} HeldOnce(client: seq<nat>, subject: nat) returns (k: nat)
    requires Multiplicity(client, subject) == 1
    ensures k < |client| && client[k] == subject
    ensures Without(client, subject) == RemoveAt(client, k)
  {
    var n := |client| - 1;
    if client[n] == subject {
      NeverHeld(client[..n], subject);
      k := n;
    } else {
      k := HeldOnce(client[..n], subject);
      assert RemoveAt(client, k) == RemoveAt(client[..n], k) + [client[n]];
    }
  }

  lemma {:induction false} HeldNever(client: seq<nat>, subject: nat)
    ensures Multiplicity(client, subject) == 0 <==> subject !in client
  {
    if client != [] {
      var n := |client| - 1;
      HeldNever(client[..n], subject);
      assert client == client[..n] + [client[n]];
    }
  }

  /** A client built from a cell of the partition: receiver numbers looked up in the private pool. */
  function ClientOf(pool: seq<nat>, cell: seq<nat>): (client: seq<nat>)
    requires IsClient(cell, |pool|)
  {
    seq(|cell|, i requires 0 <= i < |cell| => pool[cell[i]])
  }

  /** The pool and the cells are listed in increasing order, so no client holds a subject twice. */
  lemma ClientsHoldSubjectsOnce(pool: seq<nat>, cell: seq<nat>, subject: nat)
    requires Increasing(pool) && Increasing(cell) && IsClient(cell, |pool|)
    ensures Multiplicity(ClientOf(pool, cell), subject) == if subject in ClientOf(pool, cell) then 1 else 0
  {
    IncreasingHoldsOnce(ClientOf(pool, cell), subject);
  }

  lemma {:induction false} IncreasingHoldsOnce(client: seq<nat>, subject: nat)
    requires Increasing(client)
    ensures Multiplicity(client, subject) == if subject in client then 1 else 0
  {
    if client != [] {
      var n := |client| - 1;
      IncreasingHoldsOnce(client[..n], subject);
      assert client == client[..n] + [client[n]];
      assert client[n] !in client[..n];
    }
  }

  /** The erased statistics are those of the client without the subject exactly when
      the client holds the subject once. */
  lemma ErasureExactly(pop: seq<Row>, client: seq<nat>, subject: nat, p: nat, s: nat)
    requires IsRows(pop, p, s) && IsClient(client, |pop|) && subject < |pop| && |client| > 1
    ensures IsClient(Without(client, subject), |pop|)
    ensures Multiplicity(client, subject) == 1
            <==> Downdate(StatOf(RowsOf(pop, client), p, s), pop[subject], p, s)
                 == Ok(StatOf(RowsOf(pop, Without(client, subject)), p, s))
  {
    WithoutLength(client, subject);
    assert forall x :: x in client ==> x < |pop|;
    if Multiplicity(client, subject) == 1 {
      var k := HeldOnce(client, subject);
      var rows := RowsOf(pop, client);
      assert RowsOf(pop, Without(client, subject)) == RemoveAt(rows, k);
      DowndateIsDeletion(rows, k, p, s);
    }
  }

  /** kept_clients: the federation without the subject's row. */
  function KeptClients(clients: seq<seq<nat>>, target: nat, subject: nat): (kept: seq<seq<nat>>)
    requires target < |clients|
    ensures |kept| == |clients|
  {
    clients[target := Without(clients[target], subject)]
  }

  lemma KeptIsFederation(clients: seq<seq<nat>>, target: nat, subject: nat, population: nat)
    requires IsFederation(clients, population) && target < |clients|
    ensures IsFederation(KeptClients(clients, target, subject), population)
  {
    var kept := Without(clients[target], subject);
    assert forall x :: x in clients[target] ==> x < population;
    assert forall i :: 0 <= i < |kept| ==> kept[i] in kept;
  }

  /** The two computations agree: from the statistics with one subject taken out, any number
      of warm-started rounds under any aggregator gives the model, the uploads and the
      failures of a retrain that never saw the row. */
  lemma ReplayIsRetrain(l: Learner, pop: seq<Row>, clients: seq<seq<nat>>, target: nat, subject: nat, rounds: nat)
    requires l.Valid() && IsRows(pop, l.p, l.s) && IsFederation(clients, |pop|)
    requires target < |clients| && subject < |pop|
    requires |clients[target]| > 1 && Multiplicity(clients[target], subject) == 1
    ensures IsFederation(KeptClients(clients, target, subject), |pop|)
    ensures var stats := StatsOf(pop, clients, l.p, l.s);
            var erased := Downdate(stats[target], pop[subject], l.p, l.s);
            && erased.Ok?
            && stats[target := erased.value] == StatsOf(pop, KeptClients(clients, target, subject), l.p, l.s)
            && Trained(l, stats[target := erased.value], rounds)
               == Trained(l, StatsOf(pop, KeptClients(clients, target, subject), l.p, l.s), rounds)
  {
    KeptIsFederation(clients, target, subject, |pop|);
    ErasureExactly(pop, clients[target], subject, l.p, l.s);
    hide Trained, Without, Downdate;
    var stats := StatsOf(pop, clients, l.p, l.s);
    var erased := Downdate(stats[target], pop[subject], l.p, l.s);
    assert stats[target := erased.value] == StatsOf(pop, KeptClients(clients, target, subject), l.p, l.s);
  }

  /** The retained data alone decides the uploads of the replay: each is aimed at the
      minimiser of its client's objective over the rows that were kept. */
  lemma NothingOfTheSubjectRemains(l: Learner, pop: seq<Row>, client: seq<nat>, subject: nat, w: Mat, c: nat, v: Vec)
    requires l.Valid() && IsRows(pop, l.p, l.s) && IsClient(client, |pop|) && subject < |pop|
    requires |client| > 1 && Multiplicity(client, subject) == 1
    requires IsMat(w, l.p, l.s) && c < l.s && |v| == l.p
    ensures IsClient(Without(client, subject), |pop|) && Without(client, subject) != []
    ensures var kept := RowsOf(pop, Without(client, subject));
            var erased := Downdate(StatOf(RowsOf(pop, client), l.p, l.s), pop[subject], l.p, l.s);
            erased.Ok? &&
            var r := ProxUpdate(w, erased.value, l.solve, l.p, l.s);
            r.Ok? &&
            var wc, best := Column(w, l.p, l.s, c), Aim(w, r.value, l.p, l.s, c);
            Objective(kept, l.p, l.s, wc, v, c)
            >= Objective(kept, l.p, l.s, wc, best, c) + Half(Times(PROX_LAMBDA, Dot(Minus(v, best), Minus(v, best))))
  {
    WithoutLength(client, subject);
    ErasureExactly(pop, client, subject, l.p, l.s);
    hide Without, ProxUpdate, Objective, Downdate, StatOf;
    var kept := RowsOf(pop, Without(client, subject));
    StepAimsAtTheMinimiser(w, kept, l.solve, l.p, l.s, c, v);
  }

  /** The local system stays well posed after an erasure. */
  lemma ErasedSystemIsWellPosed(pop: seq<Row>, client: seq<nat>, subject: nat, p: nat, s: nat)
    requires IsRows(pop, p, s) && IsClient(client, |pop|) && subject < |pop|
    requires |client| > 1 && Multiplicity(client, subject) == 1
    ensures var erased := Downdate(StatOf(RowsOf(pop, client), p, s), pop[subject], p, s);
            erased.Ok? && erased.value.n > 0 &&
            var h := Hessian(erased.value, p, s);
            && Symmetric(h, p)
            && Nonsingular(h, p)
            && forall z: Vec :: |z| == p ==> Dot(z, MatVec(h, p, z)) >= Times(PROX_LAMBDA, Dot(z, z))
  {
    WithoutLength(client, subject);
    ErasureExactly(pop, client, subject, p, s);
    hide Without, Downdate, Hessian, StatOf, Symmetric, Nonsingular, Dot, Times, MatVec;
    SystemIsWellPosed(RowsOf(pop, Without(client, subject)), p, s);
  }

  /** An aggregator that refuses nothing but the empty list, as the mean and the median are. */
  ghost predicate TotalOnUploads(l: Learner) {
    forall ups :: IsMats(ups, l.p, l.s) && ups != [] ==> l.agg(ups).Ok?
  }

  predicate EveryoneHoldsData(clients: seq<seq<nat>>) {
    forall k :: 0 <= k < |clients| ==> clients[k] != []
  }

  /** A federation whose clients all hold subjects trains without failure. */
  lemma {:induction false} TrainingSucceeds(l: Learner, pop: seq<Row>, clients: seq<seq<nat>>, rounds: nat)
    requires l.Valid() && IsRows(pop, l.p, l.s) && IsFederation(clients, |pop|) && clients != []
    requires TotalOnUploads(l) && EveryoneHoldsData(clients)
    ensures Trained(l, StatsOf(pop, clients, l.p, l.s), rounds).Ok?
    decreases rounds
  {
    hide Round, StatsOf, TotalOnUploads;
    if rounds > 0 {
      TrainingSucceeds(l, pop, clients, rounds - 1);
      RoundSucceeds(l, pop, clients, Trained(l, StatsOf(pop, clients, l.p, l.s), rounds - 1).value);
    }
  }

  lemma RoundSucceeds(l: Learner, pop: seq<Row>, clients: seq<seq<nat>>, run: Run)
    requires l.Valid() && IsRows(pop, l.p, l.s) && IsFederation(clients, |pop|) && clients != []
    requires TotalOnUploads(l) && EveryoneHoldsData(clients) && IsRun(run, l.p, l.s, |clients|)
    ensures Round(l, StatsOf(pop, clients, l.p, l.s), run).Ok?
  {
    hide ProxUpdate, StatOf;
    var stats := StatsOf(pop, clients, l.p, l.s);
    forall k | 0 <= k < |stats|
      ensures ProxUpdate(run.w, stats[k], l.solve, l.p, l.s).Ok?
    {
      assert RowsOf(pop, clients[k]) != [];
      LocalStepSucceeds(run.w, RowsOf(pop, clients[k]), l.solve, l.p, l.s);
    }
    UploadsSucceed(l, run.w, stats);
    var ups := Uploads(l, run.w, stats).value;
    hide Uploads, IsStats;
    assert KeepsShapes(l.adjust, l.p, l.s, ups);
  }

  lemma {:induction false} UploadsSucceed(l: Learner, w: Mat, stats: seq<Stat>)
    requires l.Valid() && IsMat(w, l.p, l.s) && IsStats(stats, l.p, l.s)
    requires forall k :: 0 <= k < |stats| ==> ProxUpdate(w, stats[k], l.solve, l.p, l.s).Ok?
    ensures Uploads(l, w, stats).Ok?
    decreases |stats|
  {
    hide ProxUpdate;
    if stats != [] {
      UploadsSucceed(l, w, stats[..|stats| - 1]);
    }
  }

  /** local_prox_update: the step of one client from its raw rows. */
  method LocalProxUpdate(l: Learner, w: Mat, rows: seq<Row>) returns (r: Result<Mat>)
    requires l.Valid() && IsMat(w, l.p, l.s) && IsRows(rows, l.p, l.s)
    ensures r == ProxUpdate(w, StatOf(rows, l.p, l.s), l.solve, l.p, l.s)
    ensures r.Ok? <==> rows != []
  {
    LocalStepSucceeds(w, rows, l.solve, l.p, l.s);
    var st := StatOf(rows, l.p, l.s);
    r := ProxUpdate(w, st, l.solve, l.p, l.s);
  }

  /** Training straight from the raw rows of every client. */
  method TrainFromRows(l: Learner, pop: seq<Row>, clients: seq<seq<nat>>, rounds: nat) returns (r: Result<Run>)
    requires l.Valid() && IsRows(pop, l.p, l.s) && IsFederation(clients, |pop|)
    ensures r == Trained(l, StatsOf(pop, clients, l.p, l.s), rounds)
  {
    ghost var stats := StatsOf(pop, clients, l.p, l.s);
    var run := Run(ZeroMat(l.p, l.s), []);
    for i := 0 to rounds
      invariant Trained(l, stats, i) == Ok(run)
      invariant IsRun(run, l.p, l.s, |clients|)
    {
      var ups := UploadsFromRows(l, run.w, pop, clients);
      if ups.Err? {
        FailureIsFinal(l, stats, i + 1, rounds);
        return Err(ups.error);
      }
      var next := Close(l, run, ups.value);
      if next.Err? {
        FailureIsFinal(l, stats, i + 1, rounds);
        return next;
      }
      run := next.value;
    }
    return Ok(run);
  }

  method UploadsFromRows(l: Learner, w: Mat, pop: seq<Row>, clients: seq<seq<nat>>) returns (r: Result<seq<Mat>>)
    requires l.Valid() && IsMat(w, l.p, l.s) && IsRows(pop, l.p, l.s) && IsFederation(clients, |pop|)
    ensures r == Uploads(l, w, StatsOf(pop, clients, l.p, l.s))
  {
    hide ProxUpdate, StatOf, IsSolver, IsAggregator, IsAdjustment, IsMat;
    ghost var stats := StatsOf(pop, clients, l.p, l.s);
    var ups := [];
    for k := 0 to |clients|
      invariant Uploads(l, w, stats[..k]) == Ok(ups)
    {
      NextUpload(l, w, stats, k, ups);
      var u := LocalProxUpdate(l, w, RowsOf(pop, clients[k]));
      if u.Err? {
        return Err(u.error);
      }
      ups := ups + [u.value];
    }
    assert stats[..|stats|] == stats;
    return Ok(ups);
  }

  // ----- One audited erasure -----

  const NO_ROUNDS := "list index out of range"

  /** The models of one erasure: as shipped, replayed, retrained, and linearly patched. */
  datatype Audit = Audit(before: Mat, after: Mat, gold: Mat, cheap: Mat)

  /** The operator's shortcut: correct the shipped model by the target's last upload alone. */
  function Patch(l: Learner, run: Run, erased: Stat, target: nat, clients: nat): (r: Result<Mat>)
    requires l.Valid() && IsRun(run, l.p, l.s, clients) && run.trace != [] && target < clients
    requires IsStat(erased, l.p, l.s)
    ensures r.Ok? ==> IsMat(r.value, l.p, l.s)
  {
    var last := run.trace[|run.trace| - 1];
    assert KeepsShape(l.agg, l.p, l.s, last);
    match l.agg(last)
    case Err(e) => Err(e)
    case Ok(step) =>
      match ProxUpdate(MatMinus(run.w, step, l.p, l.s), erased, l.solve, l.p, l.s)
      case Err(e) => Err(e)
      case Ok(u) =>
        Ok(MatAdd(run.w, MatScale(Share(clients), MatMinus(u, last[target], l.p, l.s), l.p, l.s), l.p, l.s))
  }

  /** An erasure the suite can carry out: every client holds subjects, the target more than one,
      and the subject among them once. */
  ghost predicate Erasable(l: Learner, clients: seq<seq<nat>>, target: nat, subject: nat, rounds: nat)
    requires target < |clients|
  {
    && TotalOnUploads(l) && EveryoneHoldsData(clients) && rounds > 0
    && |clients[target]| > 1 && Multiplicity(clients[target], subject) == 1
  }

  lemma ErasureSucceeds(l: Learner, pop: seq<Row>, clients: seq<seq<nat>>, target: nat, subject: nat, rounds: nat)
    requires l.Valid() && IsRows(pop, l.p, l.s) && IsFederation(clients, |pop|)
    requires target < |clients| && subject < |pop| && Erasable(l, clients, target, subject, rounds)
    ensures IsFederation(KeptClients(clients, target, subject), |pop|)
    ensures var stats := StatsOf(pop, clients, l.p, l.s);
            var erased := Downdate(stats[target], pop[subject], l.p, l.s);
            && Trained(l, stats, rounds).Ok? && erased.Ok?
            && Trained(l, stats[target := erased.value], rounds).Ok?
            && Trained(l, StatsOf(pop, KeptClients(clients, target, subject), l.p, l.s), rounds).Ok?
            && Patch(l, Trained(l, stats, rounds).value, erased.value, target, |clients|).Ok?
  {
    hide Trained, Patch, StatOf, Without, Downdate, TotalOnUploads;
    ReplayIsRetrain(l, pop, clients, target, subject, rounds);
    WithoutLength(clients[target], subject);
    TrainingSucceeds(l, pop, clients, rounds);
    TrainingSucceeds(l, pop, KeptClients(clients, target, subject), rounds);
    var stats := StatsOf(pop, clients, l.p, l.s);
    ErasureExactly(pop, clients[target], subject, l.p, l.s);
    PatchSucceeds(l, Trained(l, stats, rounds).value, RowsOf(pop, Without(clients[target], subject)), target, |clients|);
  }

  lemma PatchSucceeds(l: Learner, run: Run, kept: seq<Row>, target: nat, clients: nat)
    requires l.Valid() && TotalOnUploads(l) && IsRun(run, l.p, l.s, clients) && run.trace != [] && target < clients
    requires IsRows(kept, l.p, l.s) && kept != []
    ensures Patch(l, run, StatOf(kept, l.p, l.s), target, clients).Ok?
  {
    var last := run.trace[|run.trace| - 1];
    assert KeepsShape(l.agg, l.p, l.s, last);
    hide ProxUpdate, StatOf;
    LocalStepSucceeds(MatMinus(run.w, l.agg(last).value, l.p, l.s), kept, l.solve, l.p, l.s);
  }

  /** run_once. The replay it certifies is the retrain, for a subject its client holds once. */
  method RunOnce(l: Learner, pop: seq<Row>, clients: seq<seq<nat>>, target: nat, subject: nat, rounds: nat)
    returns (r: Result<Audit>)
    requires l.Valid() && IsRows(pop, l.p, l.s) && IsFederation(clients, |pop|)
    requires target < |clients| && subject < |pop|
    ensures r.Ok? ==>
              var stats := StatsOf(pop, clients, l.p, l.s);
              && rounds > 0 && |clients[target]| > 1
              && IsFederation(KeptClients(clients, target, subject), |pop|)
              && Trained(l, stats, rounds).Ok?
              && r.value.before == Trained(l, stats, rounds).value.w
              && Trained(l, StatsOf(pop, KeptClients(clients, target, subject), l.p, l.s), rounds).Ok?
              && r.value.gold == Trained(l, StatsOf(pop, KeptClients(clients, target, subject), l.p, l.s), rounds).value.w
              && var erased := Downdate(stats[target], pop[subject], l.p, l.s);
              && erased.Ok?
              && Patch(l, Trained(l, stats, rounds).value, erased.value, target, |clients|) == Ok(r.value.cheap)
    ensures r.Ok? && Multiplicity(clients[target], subject) == 1 ==> r.value.after == r.value.gold
    ensures |clients[target]| <= 1 || rounds == 0 ==> r.Err?
    ensures Erasable(l, clients, target, subject, rounds) ==> r.Ok?
  {
    hide Trained, Patch, StatsOf, Without, Multiplicity, EveryoneHoldsData, TotalOnUploads, IsMat, IsStat;
    KeptIsFederation(clients, target, subject, |pop|);
    if Erasable(l, clients, target, subject, rounds) {
      ErasureSucceeds(l, pop, clients, target, subject, rounds);
    }
    var stats := StatsOf(pop, clients, l.p, l.s);
    var shipped := TrainFromStats(l, stats, rounds);
    if shipped.Err? {
      return Err(shipped.error);
    }
    assert stats[target].n == |clients[target]| by {
      StatNumber(pop, clients, target, l.p, l.s);
    }
    var erased := Downdate(stats[target], pop[subject], l.p, l.s);
    if erased.Err? {
      return Err(erased.error);
    }
    var replayed := TrainFromStats(l, stats[target := erased.value], rounds);
    if replayed.Err? {
      return Err(replayed.error);
    }
    var retrained := TrainFromRows(l, pop, KeptClients(clients, target, subject), rounds);
    if retrained.Err? {
      return Err(retrained.error);
    }
    if shipped.value.trace == [] {
      return Err(NO_ROUNDS);
    }
    var cheap := Patch(l, shipped.value, erased.value, target, |clients|);
    if cheap.Err? {
      return Err(cheap.error);
    }
    if Multiplicity(clients[target], subject) == 1 {
      ReplayIsRetrain(l, pop, clients, target, subject, rounds);
    }
    return Ok(Audit(shipped.value.w, replayed.value.w, retrained.value.w, cheap.value));
  }

  lemma StatNumber(pop: seq<Row>, clients: seq<seq<nat>>, target: nat, p: nat, s: nat)
    requires IsRows(pop, p, s) && IsFederation(clients, |pop|) && target < |clients|
    ensures StatsOf(pop, clients, p, s)[target].n == |clients[target]|
  {
  }
}
