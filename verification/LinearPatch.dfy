/** The linear shortcut priced by the erasure suite (benchmarks/subject_erasure_suite.py:227-236):
    when exactly it is the retrain. */
module LinearPatch {
  import opened Common
  import opened LinearAlgebra
  import opened SuffStats
  import opened LocalSolve
  import opened Federation
  import opened Erasure
  import opened StepResponse
  import opened MeanOfSteps
  import opened InterceptFederation

  /** Replacing one value moves the mean by its share of the change. */
  lemma AverageOfReplaced(es: seq<real>, k: nat, x: real)
    requires k < |es|
    ensures Average(es[k := x]) == Average(es) + Times(Share(|es|), x - es[k])
  {
    SumReplaced(es, k, x);
    var n := |es| as real;
    assert (Sum(es) + (x - es[k])) / n == Sum(es) / n + (1.0 / n) * (x - es[k]);
  }

  lemma SumReplaced(es: seq<real>, k: nat, x: real)
    requires k < |es|
    ensures Sum(es[k := x]) == Sum(es) + (x - es[k])
  {
    SumRemove(es, k);
    SumRemove(es[k := x], k);
    assert es[k := x][..k] + es[k := x][k + 1..] == es[..k] + es[k + 1..];
  }

  lemma MeanOfReplaced(ups: seq<Mat>, k: nat, u: Mat, p: nat, s: nat)
    requires IsMats(ups, p, s) && k < |ups| && IsMat(u, p, s)
    ensures Entrywise(ups[k := u], p, s, Average)
            == MatAdd(Entrywise(ups, p, s, Average), MatScale(Share(|ups|), MatMinus(u, ups[k], p, s), p, s), p, s)
  {
    hide Times, Share, Average;
    var left := Entrywise(ups[k := u], p, s, Average);
    var right := MatAdd(Entrywise(ups, p, s, Average), MatScale(Share(|ups|), MatMinus(u, ups[k], p, s), p, s), p, s);
    forall i, c | 0 <= i < p && 0 <= c < s
      ensures left[i][c] == right[i][c]
    {
      var es := Entries(ups, p, s, i, c);
      assert Entries(ups[k := u], p, s, i, c) == es[k := u[i][c]];
      AverageOfReplaced(es, k, u[i][c]);
    }
    SameMat(left, right, p, s);
  }

  /** Changing one client's statistics changes that client's upload only. */
  lemma UploadsOfReplaced(l: Learner, w: Mat, stats: seq<Stat>, k: nat, st: Stat)
    requires l.Valid() && IsMat(w, l.p, l.s) && IsStats(stats, l.p, l.s) && IsStat(st, l.p, l.s) && k < |stats|
    requires Uploads(l, w, stats).Ok? && ProxUpdate(w, st, l.solve, l.p, l.s).Ok?
    ensures Uploads(l, w, stats[k := st])
            == Ok(Uploads(l, w, stats).value[k := ProxUpdate(w, st, l.solve, l.p, l.s).value])
  {
    hide ProxUpdate, Uploads;
    var ups := Uploads(l, w, stats).value[k := ProxUpdate(w, st, l.solve, l.p, l.s).value];
    forall j | 0 <= j < |stats|
      ensures ProxUpdate(w, stats[k := st][j], l.solve, l.p, l.s) == Ok(ups[j])
    {
      UploadIsLocal(l, w, stats, j);
    }
    UploadsAre(l, w, stats[k := st], ups);
  }

  /** The learner of the suite's linear claim: the mean, of uploads sent as computed. */
  ghost predicate AveragesUploads(l: Learner) {
    Summarises(l, Average)
  }

  /** An entrywise aggregator of uploads sent as computed. */
  ghost predicate Summarises(l: Learner, summary: seq<real> -> real) {
    Entrywisely(l, summary) && l.adjust == AsUploaded
  }

  lemma AggregatesTo(l: Learner, summary: seq<real> -> real, ups: seq<Mat>)
    requires Summarises(l, summary) && IsMats(ups, l.p, l.s) && ups != []
    ensures l.adjust(ups) == ups && l.agg(ups) == Ok(Entrywise(ups, l.p, l.s, summary))
  {
    hide Entrywise, IsSolver, IsAggregator, IsAdjustment;
  }

  lemma SummarisingIsTotal(l: Learner, summary: seq<real> -> real)
    requires Summarises(l, summary)
    ensures TotalOnUploads(l)
  {
    forall ups | IsMats(ups, l.p, l.s) && ups != []
      ensures l.agg(ups).Ok?
    {
      AggregatesTo(l, summary, ups);
    }
  }

  /** One round from any model. */
  lemma RoundSummarises(l: Learner, summary: seq<real> -> real, stats: seq<Stat>, run: Run, ups: seq<Mat>)
    requires Summarises(l, summary) && IsStats(stats, l.p, l.s) && stats != [] && IsRun(run, l.p, l.s, |stats|)
    requires Uploads(l, run.w, stats) == Ok(ups)
    ensures Round(l, stats, run)
            == Ok(Run(MatAdd(run.w, Entrywise(ups, l.p, l.s, summary), l.p, l.s), run.trace + [ups]))
  {
    hide ProxUpdate, Entrywise, IsMat, IsStat, MatAdd, IsSolver, IsAggregator, IsAdjustment;
    AggregatesTo(l, summary, ups);
  }

  lemma BackOneRound(w: Mat, m: Mat, p: nat, s: nat)
    requires IsMat(w, p, s) && IsMat(m, p, s)
    ensures MatMinus(MatAdd(w, m, p, s), m, p, s) == w
  {
    SameMat(MatMinus(MatAdd(w, m, p, s), m, p, s), w, p, s);
  }

  lemma AddReassociates(a: Mat, b: Mat, d: Mat, p: nat, s: nat)
    requires IsMat(a, p, s) && IsMat(b, p, s) && IsMat(d, p, s)
    ensures MatAdd(MatAdd(a, b, p, s), d, p, s) == MatAdd(a, MatAdd(b, d, p, s), p, s)
  {
    SameMat(MatAdd(MatAdd(a, b, p, s), d, p, s), MatAdd(a, MatAdd(b, d, p, s), p, s), p, s);
  }

  /** The model and uploads a run of at least one round ends with. */
  lemma LastRound(l: Learner, summary: seq<real> -> real, stats: seq<Stat>, rounds: nat)
    requires Summarises(l, summary) && IsStats(stats, l.p, l.s) && stats != [] && rounds > 0
    requires Trained(l, stats, rounds).Ok?
    ensures Trained(l, stats, rounds - 1).Ok?
    ensures var before := Trained(l, stats, rounds - 1).value;
            && Uploads(l, before.w, stats).Ok?
            && var ups := Uploads(l, before.w, stats).value;
            Trained(l, stats, rounds).value
            == Run(MatAdd(before.w, Entrywise(ups, l.p, l.s, summary), l.p, l.s), before.trace + [ups])
  {
    hide ProxUpdate, Uploads, Entrywise, IsMat, IsStat, MatAdd, Close, IsSolver, IsAggregator, IsAdjustment;
    var before := Trained(l, stats, rounds - 1).value;
    RoundSummarises(l, summary, stats, before, Uploads(l, before.w, stats).value);
  }

  /** The patch of any run under an entrywise aggregator: the shipped model moved by the target's share. */
  lemma PatchOfRun(l: Learner, summary: seq<real> -> real, w: Mat, ups: seq<Mat>, trace: seq<seq<Mat>>,
                   erased: Stat, target: nat, u: Mat)
    requires Summarises(l, summary) && IsMat(w, l.p, l.s) && IsMats(ups, l.p, l.s) && target < |ups|
    requires IsStat(erased, l.p, l.s) && ProxUpdate(w, erased, l.solve, l.p, l.s) == Ok(u)
    requires IsRun(Run(MatAdd(w, Entrywise(ups, l.p, l.s, summary), l.p, l.s), trace + [ups]), l.p, l.s, |ups|)
    ensures Patch(l, Run(MatAdd(w, Entrywise(ups, l.p, l.s, summary), l.p, l.s), trace + [ups]), erased, target, |ups|)
            == Ok(MatAdd(MatAdd(w, Entrywise(ups, l.p, l.s, summary), l.p, l.s),
                         MatScale(Share(|ups|), MatMinus(u, ups[target], l.p, l.s), l.p, l.s), l.p, l.s))
  {
    AggregatesTo(l, summary, ups);
    BackOneRound(w, Entrywise(ups, l.p, l.s, summary), l.p, l.s);
    hide ProxUpdate, Entrywise, IsMat, IsStat, MatAdd, MatMinus, MatScale, Share, Summarises, IsSolver, IsAggregator, IsAdjustment;
    assert (trace + [ups])[|trace|] == ups;
  }

  /** With the mean the patch is one round of the erased federation, started from the penultimate
      shipped model: right in the round it redoes, wrong in everything that model remembers. */
  lemma PatchIsOneRound(l: Learner, stats: seq<Stat>, target: nat, erased: Stat, rounds: nat)
    requires AveragesUploads(l) && IsStats(stats, l.p, l.s) && IsStat(erased, l.p, l.s) && target < |stats| && rounds > 0
    requires Trained(l, stats, rounds).Ok?
    requires Trained(l, stats, rounds - 1).Ok? ==>
               ProxUpdate(Trained(l, stats, rounds - 1).value.w, erased, l.solve, l.p, l.s).Ok?
    ensures Trained(l, stats, rounds - 1).Ok?
    ensures var w := Trained(l, stats, rounds - 1).value.w;
            && Uploads(l, w, stats[target := erased]).Ok?
            && Patch(l, Trained(l, stats, rounds).value, erased, target, |stats|)
               == Ok(MatAdd(w, MeanOf(Uploads(l, w, stats[target := erased]).value, l.p, l.s), l.p, l.s))
  {
    LastRound(l, Average, stats, rounds);
    var before := Trained(l, stats, rounds - 1).value;
    var ups, u := Uploads(l, before.w, stats).value, ProxUpdate(before.w, erased, l.solve, l.p, l.s).value;
    hide ProxUpdate, Patch, Trained, Entrywise, IsMat, IsStat, MatAdd, MatMinus, MatScale, Share, Summarises;
    PatchOfRun(l, Average, before.w, ups, before.trace, erased, target, u);
    UploadsOfReplaced(l, before.w, stats, target, erased);
    MeanOfReplaced(ups, target, u, l.p, l.s);
    AddReassociates(before.w, Entrywise(ups, l.p, l.s, Average),
                    MatScale(Share(|ups|), MatMinus(u, ups[target], l.p, l.s), l.p, l.s), l.p, l.s);
  }

  lemma OneRound(l: Learner, stats: seq<Stat>)
    requires l.Valid() && IsStats(stats, l.p, l.s)
    ensures Trained(l, stats, 0) == Ok(Run(ZeroMat(l.p, l.s), []))
    ensures Trained(l, stats, 1) == Round(l, stats, Run(ZeroMat(l.p, l.s), []))
  {
    assert Trained(l, stats, 0) == Ok(Run(ZeroMat(l.p, l.s), []));
  }

  /** With the mean and one round, the patch is the replay from the erased statistics, whatever they are. */
  lemma PatchIsReplay(l: Learner, stats: seq<Stat>, target: nat, erased: Stat)
    requires AveragesUploads(l)
    requires IsStats(stats, l.p, l.s) && IsStat(erased, l.p, l.s) && target < |stats|
    requires Trained(l, stats, 1).Ok?
    requires ProxUpdate(ZeroMat(l.p, l.s), erased, l.solve, l.p, l.s).Ok?
    ensures Trained(l, stats[target := erased], 1).Ok?
    ensures Patch(l, Trained(l, stats, 1).value, erased, target, |stats|)
            == Ok(Trained(l, stats[target := erased], 1).value.w)
  {
    var zero := ZeroMat(l.p, l.s);
    OneRound(l, stats);
    OneRound(l, stats[target := erased]);
    PatchIsOneRound(l, stats, target, erased, 1);
    hide ProxUpdate, Patch, Entrywise, IsMat, MatAdd, Round, Summarises;
    RoundSummarises(l, Average, stats[target := erased], Run(zero, []), Uploads(l, zero, stats[target := erased]).value);
  }

  // ----- When the patch is the retrain -----

  /** The rows of every client. */
  function AllRows(pop: seq<Row>, clients: seq<seq<nat>>): (rows: seq<seq<Row>>)
    requires IsFederation(clients, |pop|)
    ensures |rows| == |clients|
  {
    seq(|clients|, k requires 0 <= k < |clients| => RowsOf(pop, clients[k]))
  }

  lemma AllRowsAreClients(pop: seq<Row>, clients: seq<seq<nat>>, p: nat, s: nat)
    requires IsRows(pop, p, s) && IsFederation(clients, |pop|) && EveryoneHoldsData(clients)
    ensures AreClients(AllRows(pop, clients), p, s)
    ensures StatsOfRows(AllRows(pop, clients), p, s) == StatsOf(pop, clients, p, s)
  {
    hide StatOf;
    var rows := AllRows(pop, clients);
    forall k | 0 <= k < |rows|
      ensures IsRows(rows[k], p, s) && rows[k] != []
    {
      assert |RowsOf(pop, clients[k])| == |clients[k]|;
    }
  }

  lemma ClientsUpload(l: Learner, clients: seq<seq<Row>>, w: Mat)
    requires l.Valid() && AreClients(clients, l.p, l.s) && IsMat(w, l.p, l.s)
    ensures Uploads(l, w, StatsOfRows(clients, l.p, l.s)).Ok?
  {
    hide ProxUpdate, StatOf;
    var stats := StatsOfRows(clients, l.p, l.s);
    forall k | 0 <= k < |stats|
      ensures ProxUpdate(w, stats[k], l.solve, l.p, l.s).Ok?
    {
      LocalStepSucceeds(w, clients[k], l.solve, l.p, l.s);
    }
    UploadsSucceed(l, w, stats);
  }

  /** Rounds of one federation under the mean, from two models: they end alike only if they start alike. */
  lemma RoundsEndAlike(l: Learner, clients: seq<seq<Row>>, w: Mat, w': Mat)
    requires l.Valid() && AreClients(clients, l.p, l.s) && clients != [] && IsMat(w, l.p, l.s) && IsMat(w', l.p, l.s)
    ensures var stats := StatsOfRows(clients, l.p, l.s);
            && Uploads(l, w, stats).Ok? && Uploads(l, w', stats).Ok?
            && (MatAdd(w, MeanOf(Uploads(l, w, stats).value, l.p, l.s), l.p, l.s)
                == MatAdd(w', MeanOf(Uploads(l, w', stats).value, l.p, l.s), l.p, l.s)
                <==> w == w')
  {
    hide MeanOf, MatAdd, StatsOfRows;
    ClientsUpload(l, clients, w);
    ClientsUpload(l, clients, w');
    var stats := StatsOfRows(clients, l.p, l.s);
    if MatAdd(w, MeanOf(Uploads(l, w, stats).value, l.p, l.s), l.p, l.s)
       == MatAdd(w', MeanOf(Uploads(l, w', stats).value, l.p, l.s), l.p, l.s) {
      RoundIsInjective(l, clients, w, w');
    }
  }

  /** An erasure whose patch can be computed. */
  ghost predicate Patchable(l: Learner, pop: seq<Row>, clients: seq<seq<nat>>, target: nat, subject: nat) {
    && IsRows(pop, l.p, l.s) && IsFederation(clients, |pop|) && EveryoneHoldsData(clients)
    && target < |clients| && subject < |pop|
    && |clients[target]| > 1 && Multiplicity(clients[target], subject) == 1
  }

  /** The federation without the subject's row. */
  function Kept(pop: seq<Row>, clients: seq<seq<nat>>, target: nat, subject: nat, p: nat, s: nat): (stats: seq<Stat>)
    requires IsRows(pop, p, s) && IsFederation(clients, |pop|) && target < |clients|
    ensures |stats| == |clients| && IsStats(stats, p, s)
  {
    KeptIsFederation(clients, target, subject, |pop|);
    StatsOf(pop, KeptClients(clients, target, subject), p, s)
  }

  /** The statistics the patch and the replay are computed from: nothing in an erasure fails. */
  lemma ErasureSetup(l: Learner, summary: seq<real> -> real, pop: seq<Row>, clients: seq<seq<nat>>, target: nat, subject: nat, rounds: nat)
    requires Summarises(l, summary) && Patchable(l, pop, clients, target, subject)
    ensures var stats, kept := StatsOf(pop, clients, l.p, l.s), Kept(pop, clients, target, subject, l.p, l.s);
            var erased := Downdate(stats[target], pop[subject], l.p, l.s);
            && erased.Ok? && IsStat(erased.value, l.p, l.s) && kept == stats[target := erased.value]
            && Trained(l, stats, rounds).Ok? && Trained(l, kept, rounds).Ok?
  {
    assert l.Valid();
    hide Trained, Downdate, StatOf, Summarises, IsMat, IsStat, Without, TotalOnUploads, IsSolver, IsAggregator, IsAdjustment;
    ReplayIsRetrain(l, pop, clients, target, subject, 0);
    SummarisingIsTotal(l, summary);
    KeptHoldData(clients, target, subject);
    TrainingSucceeds(l, pop, clients, rounds);
    TrainingSucceeds(l, pop, KeptClients(clients, target, subject), rounds);
  }

  lemma KeptHoldData(clients: seq<seq<nat>>, target: nat, subject: nat)
    requires EveryoneHoldsData(clients) && target < |clients|
    requires |clients[target]| > 1 && Multiplicity(clients[target], subject) == 1
    ensures EveryoneHoldsData(KeptClients(clients, target, subject))
  {
    WithoutLength(clients[target], subject);
    hide Without, Multiplicity;
  }

  lemma KeptRows(pop: seq<Row>, clients: seq<seq<nat>>, target: nat, subject: nat, p: nat, s: nat) returns (rows: seq<seq<Row>>)
    requires IsRows(pop, p, s) && IsFederation(clients, |pop|) && target < |clients|
    requires EveryoneHoldsData(KeptClients(clients, target, subject))
    ensures AreClients(rows, p, s) && StatsOfRows(rows, p, s) == Kept(pop, clients, target, subject, p, s)
  {
    hide StatOf, Without, KeptClients;
    KeptIsFederation(clients, target, subject, |pop|);
    rows := AllRows(pop, KeptClients(clients, target, subject));
    AllRowsAreClients(pop, KeptClients(clients, target, subject), p, s);
  }

  /** The exact condition on statistics. */
  lemma PatchExactlyOnStats(l: Learner, stats: seq<Stat>, target: nat, erased: Stat, rows: seq<seq<Row>>, rounds: nat)
    requires AveragesUploads(l) && IsStats(stats, l.p, l.s) && IsStat(erased, l.p, l.s) && target < |stats| && rounds > 0
    requires AreClients(rows, l.p, l.s) && StatsOfRows(rows, l.p, l.s) == stats[target := erased]
    requires Trained(l, stats, rounds).Ok? && Trained(l, stats[target := erased], rounds).Ok?
    ensures Trained(l, stats, rounds - 1).Ok? && Trained(l, stats[target := erased], rounds - 1).Ok?
    ensures Patch(l, Trained(l, stats, rounds).value, erased, target, |stats|)
            == Ok(Trained(l, stats[target := erased], rounds).value.w)
            <==> Trained(l, stats, rounds - 1).value.w == Trained(l, stats[target := erased], rounds - 1).value.w
  {
    assert l.Valid();
    hide ProxUpdate, Patch, StatOf, IsMat, IsStat, MatAdd, Entrywise, Summarises, Round, IsSolver, IsAggregator, IsAdjustment;
    assert erased == StatsOfRows(rows, l.p, l.s)[target] == StatOf(rows[target], l.p, l.s);
    var kept := stats[target := erased];
    LastRound(l, Average, stats, rounds);
    LastRound(l, Average, kept, rounds);
    var w, w' := Trained(l, stats, rounds - 1).value.w, Trained(l, kept, rounds - 1).value.w;
    LocalStepSucceeds(w, rows[target], l.solve, l.p, l.s);
    PatchIsOneRound(l, stats, target, erased, rounds);
    RoundsEndAlike(l, rows, w, w');
  }

  /** The exact condition under the mean, at any number of rounds: the patch is the retrain if and
      only if the models before the last round, with and without the subject, are the same. At one
      round they always are. */
  lemma PatchExactly(l: Learner, pop: seq<Row>, clients: seq<seq<nat>>, target: nat, subject: nat, rounds: nat)
    requires AveragesUploads(l) && Patchable(l, pop, clients, target, subject) && rounds > 0
    ensures var stats, kept := StatsOf(pop, clients, l.p, l.s), Kept(pop, clients, target, subject, l.p, l.s);
            var erased := Downdate(stats[target], pop[subject], l.p, l.s);
            && Trained(l, stats, rounds).Ok? && Trained(l, stats, rounds - 1).Ok?
            && Trained(l, kept, rounds).Ok? && Trained(l, kept, rounds - 1).Ok? && erased.Ok?
            && (Patch(l, Trained(l, stats, rounds).value, erased.value, target, |clients|)
                == Ok(Trained(l, kept, rounds).value.w)
                <==> Trained(l, stats, rounds - 1).value.w == Trained(l, kept, rounds - 1).value.w)
  {
    ErasureSetup(l, Average, pop, clients, target, subject, rounds);
    KeptHoldData(clients, target, subject);
    var rows := KeptRows(pop, clients, target, subject, l.p, l.s);
    hide Trained, Patch, Downdate, StatsOf, StatsOfRows, Kept, Summarises, IsMat, IsStat, IsSolver, IsAggregator, IsAdjustment;
    var stats := StatsOf(pop, clients, l.p, l.s);
    PatchExactlyOnStats(l, stats, target, Downdate(stats[target], pop[subject], l.p, l.s).value, rows, rounds);
  }

  /** Under the mean at one round the patch is algebraically the retrain. */
  lemma PatchIsRetrain(l: Learner, pop: seq<Row>, clients: seq<seq<nat>>, target: nat, subject: nat)
    requires AveragesUploads(l) && Patchable(l, pop, clients, target, subject)
    ensures var stats := StatsOf(pop, clients, l.p, l.s);
            var erased := Downdate(stats[target], pop[subject], l.p, l.s);
            var gold := Trained(l, Kept(pop, clients, target, subject, l.p, l.s), 1);
            && Trained(l, stats, 1).Ok? && erased.Ok? && gold.Ok?
            && Patch(l, Trained(l, stats, 1).value, erased.value, target, |clients|) == Ok(gold.value.w)
  {
    PatchExactly(l, pop, clients, target, subject, 1);
    hide Patch, Downdate, Round, StatsOf, Kept, Summarises;
    OneRound(l, StatsOf(pop, clients, l.p, l.s));
    OneRound(l, Kept(pop, clients, target, subject, l.p, l.s));
  }

  /** Replacing one upload leaves the mean where it was only if it is the same upload. */
  lemma MeanUnmoved(ups: seq<Mat>, k: nat, u: Mat, p: nat, s: nat)
    requires IsMats(ups, p, s) && k < |ups| && IsMat(u, p, s)
    ensures MeanOf(ups[k := u], p, s) == MeanOf(ups, p, s) <==> u == ups[k]
  {
    hide Times, Share, Average;
    if MeanOf(ups[k := u], p, s) == MeanOf(ups, p, s) {
      MeanOfReplaced(ups, k, u, p, s);
      forall i, c | 0 <= i < p && 0 <= c < s
        ensures u[i][c] == ups[k][i][c]
      {
        assert MeanOf(ups[k := u], p, s)[i][c]
            == MeanOf(ups, p, s)[i][c] + Times(Share(|ups|), u[i][c] - ups[k][i][c]);
        NoShareOfNothing(|ups|, u[i][c] - ups[k][i][c]);
      }
      SameMat(u, ups[k], p, s);
    }
    assert ups[k := ups[k]] == ups;
  }

  lemma NoShareOfNothing(n: nat, x: real)
    requires n > 0
    ensures Times(Share(n), x) == 0.0 ==> x == 0.0
  {
    if x > 0.0 {
      PositiveProduct(Share(n), x);
    } else if x < 0.0 {
      PositiveProduct(Share(n), -x);
      assert Times(Share(n), -x) == -Times(Share(n), x);
    }
  }

  /** At two rounds the condition can be read off one client before anything is patched: the subject
      did not move its own client's very first upload. */
  lemma PatchExactlyAtTwoRounds(l: Learner, pop: seq<Row>, clients: seq<seq<nat>>, target: nat, subject: nat)
    requires AveragesUploads(l) && Patchable(l, pop, clients, target, subject)
    ensures var stats, kept := StatsOf(pop, clients, l.p, l.s), Kept(pop, clients, target, subject, l.p, l.s);
            var erased, zero := Downdate(stats[target], pop[subject], l.p, l.s), ZeroMat(l.p, l.s);
            && Trained(l, stats, 2).Ok? && Trained(l, kept, 2).Ok? && erased.Ok?
            && (Patch(l, Trained(l, stats, 2).value, erased.value, target, |clients|) == Ok(Trained(l, kept, 2).value.w)
                <==> ProxUpdate(zero, stats[target], l.solve, l.p, l.s) == ProxUpdate(zero, erased.value, l.solve, l.p, l.s))
  {
    PatchExactly(l, pop, clients, target, subject, 2);
    ErasureSetup(l, Average, pop, clients, target, subject, 1);
    ErasedStepSucceeds(l, ZeroMat(l.p, l.s), pop, clients[target], subject);
    var stats := StatsOf(pop, clients, l.p, l.s);
    OneRound(l, stats);
    OneRound(l, Kept(pop, clients, target, subject, l.p, l.s));
    hide Patch, Downdate, StatsOf, Kept, Round, Summarises, IsMat, IsStat, ProxUpdate, ZeroMat, IsSolver, IsAggregator, IsAdjustment;
    NextModels(l, stats, target, Downdate(stats[target], pop[subject], l.p, l.s).value, 0);
  }

  lemma ErasedStepSucceeds(l: Learner, w: Mat, pop: seq<Row>, client: seq<nat>, subject: nat)
    requires l.Valid() && IsMat(w, l.p, l.s) && IsRows(pop, l.p, l.s) && IsClient(client, |pop|) && subject < |pop|
    requires |client| > 1 && Multiplicity(client, subject) == 1
    ensures var erased := Downdate(StatOf(RowsOf(pop, client), l.p, l.s), pop[subject], l.p, l.s);
            erased.Ok? && ProxUpdate(w, erased.value, l.solve, l.p, l.s).Ok?
  {
    WithoutLength(client, subject);
    ErasureExactly(pop, client, subject, l.p, l.s);
    hide Without, ProxUpdate, Downdate, StatOf;
    LocalStepSucceeds(w, RowsOf(pop, Without(client, subject)), l.solve, l.p, l.s);
  }

  /** One round from equal models, with a client's statistics and with others in their place: the
      models stay equal exactly when that client uploads the same from both. */
  lemma NextModels(l: Learner, stats: seq<Stat>, target: nat, erased: Stat, r: nat)
    requires AveragesUploads(l) && IsStats(stats, l.p, l.s) && IsStat(erased, l.p, l.s) && target < |stats|
    requires Trained(l, stats, r + 1).Ok? && Trained(l, stats[target := erased], r + 1).Ok?
    requires Trained(l, stats, r).Ok? && Trained(l, stats[target := erased], r).Ok?
    requires Trained(l, stats, r).value.w == Trained(l, stats[target := erased], r).value.w
    requires ProxUpdate(Trained(l, stats, r).value.w, erased, l.solve, l.p, l.s).Ok?
    ensures var w := Trained(l, stats, r).value.w;
            Trained(l, stats, r + 1).value.w == Trained(l, stats[target := erased], r + 1).value.w
            <==> ProxUpdate(w, stats[target], l.solve, l.p, l.s) == ProxUpdate(w, erased, l.solve, l.p, l.s)
  {
    var w := Trained(l, stats, r).value.w;
    LastRound(l, Average, stats, r + 1);
    LastRound(l, Average, stats[target := erased], r + 1);
    hide ProxUpdate, Round, Trained, Entrywise, IsMat, IsStat, MatAdd, Summarises;
    UploadsOfReplaced(l, w, stats, target, erased);
    UploadIsLocal(l, w, stats, target);
    var ups, u := Uploads(l, w, stats).value, ProxUpdate(w, erased, l.solve, l.p, l.s).value;
    MeanUnmoved(ups, target, u, l.p, l.s);
    CancelModel(w, MeanOf(ups[target := u], l.p, l.s), MeanOf(ups, l.p, l.s), l.p, l.s);
  }

  lemma CancelModel(w: Mat, a: Mat, b: Mat, p: nat, s: nat)
    requires IsMat(w, p, s) && IsMat(a, p, s) && IsMat(b, p, s)
    ensures MatAdd(w, a, p, s) == MatAdd(w, b, p, s) <==> a == b
  {
    if MatAdd(w, a, p, s) == MatAdd(w, b, p, s) {
      forall i, c | 0 <= i < p && 0 <= c < s
        ensures a[i][c] == b[i][c]
      {
        assert MatAdd(w, a, p, s)[i][c] == MatAdd(w, b, p, s)[i][c];
      }
      SameMat(a, b, p, s);
    }
  }

  // ----- Read off the shipped run -----

  /** The models of r rounds, with and without the subject, are the same. */
  ghost predicate SameModels(l: Learner, pop: seq<Row>, clients: seq<seq<nat>>, target: nat, subject: nat, r: nat)
    requires AveragesUploads(l) && Patchable(l, pop, clients, target, subject)
  {
    var full, kept := Trained(l, StatsOf(pop, clients, l.p, l.s), r), Trained(l, Kept(pop, clients, target, subject, l.p, l.s), r);
    full.Ok? && kept.Ok? && full.value.w == kept.value.w
  }

  /** From the shipped model of r rounds the target uploads the same with and without the subject. */
  ghost predicate SameUpload(l: Learner, pop: seq<Row>, clients: seq<seq<nat>>, target: nat, subject: nat, r: nat)
    requires AveragesUploads(l) && Patchable(l, pop, clients, target, subject)
  {
    var stats := StatsOf(pop, clients, l.p, l.s);
    var full, erased := Trained(l, stats, r), Downdate(stats[target], pop[subject], l.p, l.s);
    full.Ok? && erased.Ok?
    && ProxUpdate(full.value.w, stats[target], l.solve, l.p, l.s) == ProxUpdate(full.value.w, erased.value, l.solve, l.p, l.s)
  }

  /** The patch of the federation trained for r rounds is the retrain. */
  ghost predicate PatchIsRight(l: Learner, pop: seq<Row>, clients: seq<seq<nat>>, target: nat, subject: nat, r: nat)
    requires AveragesUploads(l) && Patchable(l, pop, clients, target, subject)
  {
    var stats := StatsOf(pop, clients, l.p, l.s);
    var full, gold := Trained(l, stats, r), Trained(l, Kept(pop, clients, target, subject, l.p, l.s), r);
    var erased := Downdate(stats[target], pop[subject], l.p, l.s);
    r > 0 && full.Ok? && gold.Ok? && erased.Ok?
    && Patch(l, full.value, erased.value, target, |clients|) == Ok(gold.value.w)
  }

  lemma NextSameModels(l: Learner, pop: seq<Row>, clients: seq<seq<nat>>, target: nat, subject: nat, r: nat)
    requires AveragesUploads(l) && Patchable(l, pop, clients, target, subject) && SameModels(l, pop, clients, target, subject, r)
    ensures SameModels(l, pop, clients, target, subject, r + 1) <==> SameUpload(l, pop, clients, target, subject, r)
  {
    ErasureSetup(l, Average, pop, clients, target, subject, r);
    ErasureSetup(l, Average, pop, clients, target, subject, r + 1);
    var stats := StatsOf(pop, clients, l.p, l.s);
    ErasedStepSucceeds(l, Trained(l, stats, r).value.w, pop, clients[target], subject);
    hide Trained, Downdate, StatsOf, Kept, Summarises, IsMat, IsStat, ProxUpdate, IsSolver, IsAggregator, IsAdjustment;
    NextModels(l, stats, target, Downdate(stats[target], pop[subject], l.p, l.s).value, r);
  }

  lemma PatchAfter(l: Learner, pop: seq<Row>, clients: seq<seq<nat>>, target: nat, subject: nat, r: nat)
    requires AveragesUploads(l) && Patchable(l, pop, clients, target, subject)
    ensures SameModels(l, pop, clients, target, subject, 0)
    ensures PatchIsRight(l, pop, clients, target, subject, r + 1) <==> SameModels(l, pop, clients, target, subject, r)
  {
    OneRound(l, StatsOf(pop, clients, l.p, l.s));
    OneRound(l, Kept(pop, clients, target, subject, l.p, l.s));
    PatchExactly(l, pop, clients, target, subject, r + 1);
    hide Patch, Downdate, StatsOf, Kept, Summarises, Round, IsMat, IsStat, IsSolver, IsAggregator, IsAdjustment;
  }

  /** Under the mean, read off the shipped run alone: the patch is the retrain at every number of
      rounds up to `rounds` if and only if, at every shipped model but the last two,
      the target uploads the same from its full and from its downdated statistics. */
  lemma {:induction false} PatchExactlyUpTo(l: Learner, pop: seq<Row>, clients: seq<seq<nat>>, target: nat, subject: nat, rounds: nat)
    requires AveragesUploads(l) && Patchable(l, pop, clients, target, subject) && rounds > 0
    ensures (forall r :: 1 <= r <= rounds ==> PatchIsRight(l, pop, clients, target, subject, r))
            <==> (forall r :: 0 <= r < rounds - 1 ==> SameUpload(l, pop, clients, target, subject, r))
    decreases rounds
  {
    hide AveragesUploads, Patchable, SameModels, SameUpload, PatchIsRight;
    PatchAfter(l, pop, clients, target, subject, rounds - 1);
    if rounds > 1 {
      PatchExactlyUpTo(l, pop, clients, target, subject, rounds - 1);
      PatchAfter(l, pop, clients, target, subject, rounds - 2);
      if SameModels(l, pop, clients, target, subject, rounds - 2) {
        NextSameModels(l, pop, clients, target, subject, rounds - 2);
      }
    }
  }

  lemma FromZero(m: Mat, p: nat, s: nat)
    requires IsMat(m, p, s)
    ensures MatAdd(ZeroMat(p, s), m, p, s) == m
  {
    SameMat(MatAdd(ZeroMat(p, s), m, p, s), m, p, s);
  }

  // ----- Other aggregators -----

  /** The summary of one entry moves by the share of the change, as the mean does. */
  ghost predicate RespondsLinearly(summary: seq<real> -> real, es: seq<real>, k: nat, x: real)
    requires k < |es|
  {
    summary(es[k := x]) == summary(es) + Times(Share(|es|), x - es[k])
  }

  /** At one round, for any entrywise aggregator: the patch is the retrain if and only if the summary
      responds linearly to the target's new upload in every entry of the model. */
  lemma EntrywisePatchExactly(l: Learner, summary: seq<real> -> real, pop: seq<Row>, clients: seq<seq<nat>>, target: nat, subject: nat)
    requires Summarises(l, summary) && Patchable(l, pop, clients, target, subject)
    ensures var stats, kept := StatsOf(pop, clients, l.p, l.s), Kept(pop, clients, target, subject, l.p, l.s);
            var erased, zero := Downdate(stats[target], pop[subject], l.p, l.s), ZeroMat(l.p, l.s);
            && Trained(l, stats, 1).Ok? && Trained(l, kept, 1).Ok? && erased.Ok?
            && Uploads(l, zero, stats).Ok? && ProxUpdate(zero, erased.value, l.solve, l.p, l.s).Ok?
            && var ups, u := Uploads(l, zero, stats).value, ProxUpdate(zero, erased.value, l.solve, l.p, l.s).value;
            (Patch(l, Trained(l, stats, 1).value, erased.value, target, |clients|) == Ok(Trained(l, kept, 1).value.w)
             <==> forall i, c :: 0 <= i < l.p && 0 <= c < l.s ==>
                    RespondsLinearly(summary, Entries(ups, l.p, l.s, i, c), target, u[i][c]))
  {
    ErasureSetup(l, summary, pop, clients, target, subject, 1);
    ErasedStepSucceeds(l, ZeroMat(l.p, l.s), pop, clients[target], subject);
    hide Trained, Patch, Downdate, StatsOf, Kept, Summarises, IsMat, IsStat, ProxUpdate, ZeroMat, RespondsLinearly, Entries,
         IsSolver, IsAggregator, IsAdjustment;
    var stats := StatsOf(pop, clients, l.p, l.s);
    EntrywiseReplay(l, summary, stats, target, Downdate(stats[target], pop[subject], l.p, l.s).value);
  }

  lemma EntrywiseReplay(l: Learner, summary: seq<real> -> real, stats: seq<Stat>, target: nat, erased: Stat)
    requires Summarises(l, summary) && IsStats(stats, l.p, l.s) && IsStat(erased, l.p, l.s) && target < |stats|
    requires Trained(l, stats, 1).Ok? && Trained(l, stats[target := erased], 1).Ok?
    requires ProxUpdate(ZeroMat(l.p, l.s), erased, l.solve, l.p, l.s).Ok?
    ensures var zero := ZeroMat(l.p, l.s);
            && Uploads(l, zero, stats).Ok?
            && var ups, u := Uploads(l, zero, stats).value, ProxUpdate(zero, erased, l.solve, l.p, l.s).value;
            (Patch(l, Trained(l, stats, 1).value, erased, target, |stats|) == Ok(Trained(l, stats[target := erased], 1).value.w)
             <==> forall i, c :: 0 <= i < l.p && 0 <= c < l.s ==>
                    RespondsLinearly(summary, Entries(ups, l.p, l.s, i, c), target, u[i][c]))
  {
    var zero := ZeroMat(l.p, l.s);
    OneRound(l, stats);
    OneRound(l, stats[target := erased]);
    LastRound(l, summary, stats, 1);
    LastRound(l, summary, stats[target := erased], 1);
    var ups, u := Uploads(l, zero, stats).value, ProxUpdate(zero, erased, l.solve, l.p, l.s).value;
    hide ProxUpdate, Round, Patch, Trained, Entrywise, IsMat, IsStat, MatAdd, MatMinus, MatScale, Share, Summarises, ZeroMat,
         RespondsLinearly, Entries;
    UploadsOfReplaced(l, zero, stats, target, erased);
    PatchOfRun(l, summary, zero, ups, [], erased, target, u);
    FromZero(Entrywise(ups, l.p, l.s, summary), l.p, l.s);
    FromZero(Entrywise(ups[target := u], l.p, l.s, summary), l.p, l.s);
    LinearInEveryEntry(ups, target, u, l.p, l.s, summary);
  }

  lemma LinearInEveryEntry(ups: seq<Mat>, k: nat, u: Mat, p: nat, s: nat, summary: seq<real> -> real)
    requires IsMats(ups, p, s) && k < |ups| && IsMat(u, p, s)
    ensures MatAdd(Entrywise(ups, p, s, summary), MatScale(Share(|ups|), MatMinus(u, ups[k], p, s), p, s), p, s)
            == Entrywise(ups[k := u], p, s, summary)
            <==> forall i, c :: 0 <= i < p && 0 <= c < s ==>
                   RespondsLinearly(summary, Entries(ups, p, s, i, c), k, u[i][c])
  {
    hide Times, Share, RespondsLinearly;
    var left := MatAdd(Entrywise(ups, p, s, summary), MatScale(Share(|ups|), MatMinus(u, ups[k], p, s), p, s), p, s);
    var right := Entrywise(ups[k := u], p, s, summary);
    forall i, c | 0 <= i < p && 0 <= c < s
      ensures left[i][c] == right[i][c] <==> RespondsLinearly(summary, Entries(ups, p, s, i, c), k, u[i][c])
    {
      LinearInEntry(ups, k, u, p, s, i, c, summary);
    }
    if forall i, c :: 0 <= i < p && 0 <= c < s ==> RespondsLinearly(summary, Entries(ups, p, s, i, c), k, u[i][c]) {
      SameMat(left, right, p, s);
    }
  }

  lemma LinearInEntry(ups: seq<Mat>, k: nat, u: Mat, p: nat, s: nat, i: nat, c: nat, summary: seq<real> -> real)
    requires IsMats(ups, p, s) && k < |ups| && IsMat(u, p, s) && i < p && c < s
    ensures var left := MatAdd(Entrywise(ups, p, s, summary), MatScale(Share(|ups|), MatMinus(u, ups[k], p, s), p, s), p, s);
            left[i][c] == Entrywise(ups[k := u], p, s, summary)[i][c]
            <==> RespondsLinearly(summary, Entries(ups, p, s, i, c), k, u[i][c])
  {
    hide Times, Share;
    var es := Entries(ups, p, s, i, c);
    assert Entries(ups[k := u], p, s, i, c) == es[k := u[i][c]];
  }

  // ----- Instances at the shipped size -----

  /** A learner of the shipped size: six features, six subbands. */
  ghost predicate IsShipped(l: Learner) {
    l.p == N_FEATURES && l.s == N_SUBBANDS
  }

  /** A subject whose gain is `x` in the first subband and at the public centre in the others. */
  function FirstSubband(x: real): Row {
    Subject(N_FEATURES, Zeros(N_SUBBANDS)[0 := x])
  }

  lemma OneOfTwoErased(a: nat, b: nat)
    requires a != b
    ensures Without([a, b], b) == [a] && Multiplicity([a, b], b) == 1
  {
    assert [a, b][..1] == [a] && [a][..0] == [];
    assert Without([a], b) == [a] && Multiplicity([a], b) == 0;
    assert Without([a, b], b) == Without([a], b) + [];
  }

  /** From the zero model: what a client of one or two such subjects uploads for the first subband. */
  lemma FirstUpload(l: Learner, x: real, y: real)
    requires l.Valid() && IsShipped(l)
    ensures IsRows([FirstSubband(x)], l.p, l.s) && IsRows([FirstSubband(x), FirstSubband(y)], l.p, l.s)
    ensures var r := ProxUpdate(ZeroMat(l.p, l.s), StatOf([FirstSubband(x)], l.p, l.s), l.solve, l.p, l.s);
            r.Ok? && r.value[5][0] == x / 5.0
    ensures var r := ProxUpdate(ZeroMat(l.p, l.s), StatOf([FirstSubband(x), FirstSubband(y)], l.p, l.s), l.solve, l.p, l.s);
            r.Ok? && r.value[5][0] == (x + y) / 10.0
  {
    hide ProxUpdate, StatOf, ZeroMat, IsSolver, IsAggregator, IsAdjustment;
    StepOfOne(l.p, l.s, Zeros(l.s)[0 := x], 0);
    StepOfTwo(l.p, l.s, Zeros(l.s)[0 := x], Zeros(l.s)[0 := y], 0);
    UploadAt([FirstSubband(x)], l.p, l.s, l.solve, 0);
    UploadAt([FirstSubband(x), FirstSubband(y)], l.p, l.s, l.solve, 0);
  }

  /** Warm starting breaks the patch, even under the mean: one client with gains 0 and 10 in the first
      subband, two rounds, the second subject erased, for every solver. */
  lemma WarmStartBreaksThePatch(l: Learner, pop: seq<Row>, clients: seq<seq<nat>>)
    requires AveragesUploads(l) && IsShipped(l)
    requires pop == [FirstSubband(0.0), FirstSubband(10.0)] && clients == [[0, 1]]
    ensures Patchable(l, pop, clients, 0, 1)
    ensures var stats, kept := StatsOf(pop, clients, l.p, l.s), Kept(pop, clients, 0, 1, l.p, l.s);
            var erased := Downdate(stats[0], pop[1], l.p, l.s);
            && Trained(l, stats, 2).Ok? && Trained(l, kept, 2).Ok? && erased.Ok?
            && Patch(l, Trained(l, stats, 2).value, erased.value, 0, 1) != Ok(Trained(l, kept, 2).value.w)
  {
    OneOfTwoErased(0, 1);
    FirstUpload(l, 0.0, 10.0);
    hide Trained, Patch, Downdate, StatOf, ProxUpdate, Without, Multiplicity, Summarises, IsSolver, IsAggregator, IsAdjustment;
    assert RowsOf(pop, [0, 1]) == pop && RowsOf(pop, [0]) == [FirstSubband(0.0)];
    PatchExactlyAtTwoRounds(l, pop, clients, 0, 1);
    ErasureSetup(l, Average, pop, clients, 0, 1, 1);
    var kept := Kept(pop, clients, 0, 1, l.p, l.s);
    assert KeptClients(clients, 0, 1)[0] == [0];
    assert kept[0] == StatOf([FirstSubband(0.0)], l.p, l.s);
  }
}
