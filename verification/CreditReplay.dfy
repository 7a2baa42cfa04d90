/** Rebuilding a regime's tables from the shared evidence chain
    (benchmarks/credit_assignment_loop.py, _rebuild_from_chain and its caller). */
module CreditReplay {
  import opened Common
  import opened ShieldedEnv
  import opened CreditTables
  import opened CreditTraining

  /** One online update: the proposed bin and the step it led to. */
  datatype Entry = Entry(proposed: nat, res: StepResult)

  ghost predicate IsLog(log: seq<Entry>) {
    forall e :: e in log ==> e.proposed < N_BINS
  }

  /** The online tables after a log of updates. */
  function Online(name: Regime, log: seq<Entry>): (r: Result<Tables>)
    requires IsLog(log)
    ensures r.Ok? ==> IsTables(r.value)
  {
    if log == [] then Ok(EmptyTables())
    else
      var n := |log| - 1;
      match Online(name, log[..n])
      case Err(e) => Err(e)
      case Ok(t) => Updated(name, t, log[n].proposed, log[n].res)
  }

  // ----- The tables are arithmetic means -----

  /** The rewards credited to bin `b`, oldest first. */
  function Credits(name: Regime, log: seq<Entry>, b: nat): seq<real> {
    if log == [] then []
    else
      var n := |log| - 1;
      var e := log[n];
      var executed := BinOf(e.res.executed.EirpDbm());
      var bin := if name.ProjectionAware? || name.CorrectionAware? then executed else Ok(e.proposed);
      var x := if name.UnconstrainedOracle? then e.res.counterfactual.GetOr(0.0) else e.res.reward;
      Credits(name, log[..n], b) + if bin == Ok(b) then [x] else []
  }

  /** What the behaviour tables average, by proposed bin: the reward, or whether the step was projected. */
  datatype Signal = RewardSignal | ProjectionSignal {
    function Of(res: StepResult): real {
      if RewardSignal? then res.reward else Indicator(res.projected)
    }
  }

  function Behaviour(log: seq<Entry>, b: nat, f: Signal): seq<real> {
    if log == [] then []
    else
      var n := |log| - 1;
      Behaviour(log[..n], b, f) + if log[n].proposed == b then [f.Of(log[n].res)] else []
  }

  function MeanOrNaN(s: seq<real>): Option<real> {
    if s == [] then None else Some(Mean(s))
  }

  /** The incremental update is the arithmetic mean, one entry longer. */
  lemma MeanStepIsMean(s: seq<real>, x: real)
    ensures MeanStep(MeanOrNaN(s), |s| + 1, x) == MeanOrNaN(s + [x])
  {
    assert (s + [x])[..|s|] == s;
    assert Sum(s + [x]) == Sum(s) + x;
    if s == [] {
      assert Sum(s) == 0.0;
    } else {
      hide Sum;
      NextMean(Sum(s), |s|, x);
    }
  }

  lemma NextMean(sum: real, n: nat, x: real)
    requires n > 0
    ensures sum / (n as real) + (x - sum / (n as real)) / ((n + 1) as real) == (sum + x) / ((n + 1) as real)
  {
    Recentre(sum, n as real, sum / (n as real), x);
  }

  lemma Recentre(sum: real, n: real, m: real, x: real)
    requires n > 0.0 && m == sum / n
    ensures m + (x - m) / (n + 1.0) == (sum + x) / (n + 1.0)
  {
    assert sum == m * n;
    assert (sum + x) / (n + 1.0) == (m * (n + 1.0) + (x - m)) / (n + 1.0);
  }

  ghost predicate Averages(table: seq<Option<real>>, counts: seq<nat>, b: nat, credits: seq<real>)
    requires b < |table| && b < |counts|
  {
    counts[b] == |credits| && table[b] == MeanOrNaN(credits)
  }

  lemma AveragesStep(table: seq<Option<real>>, counts: seq<nat>, k: nat, x: real, b: nat, credits: seq<real>)
    requires |table| == |counts| && k < |table| && b < |table| && Averages(table, counts, b, credits)
    ensures Averages(table[k := MeanStep(table[k], counts[k] + 1, x)], counts[k := counts[k] + 1], b,
                     if k == b then credits + [x] else credits)
  {
    MeanStepIsMean(credits, x);
  }

  /** After any log of updates, each entry of the value table is the arithmetic
      mean of the rewards credited to its bin, NaN exactly while there are none;
      the correction-aware tables average the reward and the projection rate by proposed bin. */
  lemma {:induction false} TablesAreMeans(name: Regime, log: seq<Entry>, b: nat)
    requires IsLog(log) && Online(name, log).Ok? && b < N_BINS
    ensures var t := Online(name, log).value;
            && Averages(t.q, t.visits, b, Credits(name, log, b))
            && (name.CorrectionAware? ==>
                  && Averages(t.rHat, t.bVisits, b, Behaviour(log, b, RewardSignal))
                  && Averages(t.pHat, t.bVisits, b, Behaviour(log, b, ProjectionSignal)))
  {
    if log != [] {
      var n := |log| - 1;
      TablesAreMeans(name, log[..n], b);
      MeansUpdate(name, Online(name, log[..n]).value, log[n], b,
                  Credits(name, log[..n], b), Behaviour(log[..n], b, RewardSignal), Behaviour(log[..n], b, ProjectionSignal));
    }
  }

  lemma MeansUpdate(name: Regime, t: Tables, e: Entry, b: nat, credits: seq<real>, rewards: seq<real>, flags: seq<real>)
    requires IsTables(t) && e.proposed < N_BINS && b < N_BINS && Updated(name, t, e.proposed, e.res).Ok?
    requires Averages(t.q, t.visits, b, credits)
    requires name.CorrectionAware? ==> Averages(t.rHat, t.bVisits, b, rewards) && Averages(t.pHat, t.bVisits, b, flags)
    ensures var t' := Updated(name, t, e.proposed, e.res).value;
            var bin := if name.ProjectionAware? || name.CorrectionAware? then BinOf(e.res.executed.EirpDbm()) else Ok(e.proposed);
            var x := if name.UnconstrainedOracle? then e.res.counterfactual.GetOr(0.0) else e.res.reward;
            && Averages(t'.q, t'.visits, b, credits + if bin == Ok(b) then [x] else [])
            && (name.CorrectionAware? ==>
                  && Averages(t'.rHat, t'.bVisits, b, rewards + if e.proposed == b then [e.res.reward] else [])
                  && Averages(t'.pHat, t'.bVisits, b, flags + if e.proposed == b then [Indicator(e.res.projected)] else []))
  {
    hide BinOf, Averages;
    var executed := BinOf(e.res.executed.EirpDbm()).value;
    var k := if name.ProjectionAware? || name.CorrectionAware? then executed else e.proposed;
    var x := if name.UnconstrainedOracle? then e.res.counterfactual.GetOr(0.0) else e.res.reward;
    AveragesStep(t.q, t.visits, k, x, b, credits);
    assert credits + [] == credits && rewards + [] == rewards && flags + [] == flags;
    if name.CorrectionAware? {
      AveragesStep(t.rHat, t.bVisits, e.proposed, e.res.reward, b, rewards);
      AveragesStep(t.pHat, t.bVisits, e.proposed, Indicator(e.res.projected), b, flags);
    }
  }

  // ----- The shared evidence chain -----

  /** A training run, known on the chain by its arm and regime. */
  datatype RunId = RunId(arm: string, name: Regime)

  function NameOf(name: Regime): string {
    match name
    case NaiveProposedCredit => "naive_proposed_credit"
    case ProjectionAware => "projection_aware"
    case CorrectionAware => "correction_aware"
    case UnconstrainedOracle => "unconstrained_oracle"
  }

  function Prefix(run: RunId): string {
    "credit-" + (run.arm + ("-" + (NameOf(run.name) + "-")))
  }

  /** What the replay recovers of one record. */
  datatype Transition = Transition(
    decisionId: string, proposedEirpDbm: real, executedEirpDbm: real, reward: real, projected: bool)

  /** One step of one run, with the round as it is formatted in the decision id. */
  datatype Record = Record(run: RunId, round: string, entry: Entry)

  function TransitionOf(r: Record): Transition {
    Transition(Prefix(r.run) + r.round, r.entry.res.proposed.EirpDbm(), r.entry.res.executed.EirpDbm(),
               r.entry.res.reward, r.entry.res.projected)
  }

  function Chain(journal: seq<Record>): seq<Transition> {
    if journal == [] then []
    else Chain(journal[..|journal| - 1]) + [TransitionOf(journal[|journal| - 1])]
  }

  /** The records whose decision id starts with `prefix`, in chain order. */
  function Subset(chain: seq<Transition>, prefix: string): seq<Transition> {
    if chain == [] then []
    else
      var n := |chain| - 1;
      Subset(chain[..n], prefix) + if prefix <= chain[n].decisionId then [chain[n]] else []
  }

  /** The updates one run made, in the order it made them. */
  function Own(journal: seq<Record>, run: RunId): seq<Entry> {
    if journal == [] then []
    else
      var n := |journal| - 1;
      Own(journal[..n], run) + if journal[n].run == run then [journal[n].entry] else []
  }

  /** One replayed update; a bin off the grid raises, and so does the oracle
      regime, whose counterfactual signal is not recorded evidence. */
  function Replayed(name: Regime, t: Tables, tr: Transition): (r: Result<Tables>)
    requires IsTables(t)
    ensures r.Ok? ==> IsTables(r.value)
  {
    match BinOf(tr.proposedEirpDbm)
    case Err(e) => Err(e)
    case Ok(pb) =>
      match BinOf(tr.executedEirpDbm)
      case Err(e) => Err(e)
      case Ok(eb) =>
        match name
        case NaiveProposedCredit => Ok(CreditQ(t, pb, tr.reward))
        case ProjectionAware => Ok(CreditQ(t, eb, tr.reward))
        case CorrectionAware => Ok(CreditBehaviour(CreditQ(t, eb, tr.reward), pb, tr.reward, Indicator(tr.projected)))
        case UnconstrainedOracle => Err("regime is not rebuildable from the chain")
  }

  function Rebuilt(name: Regime, transitions: seq<Transition>): (r: Result<Tables>)
    ensures r.Ok? ==> IsTables(r.value)
  {
    if transitions == [] then Ok(EmptyTables())
    else
      var n := |transitions| - 1;
      match Rebuilt(name, transitions[..n])
      case Err(e) => Err(e)
      case Ok(t) => Replayed(name, t, transitions[n])
  }

  /** The replay loop, on a regime object of its own. */
  method RebuildFromChain(name: Regime, transitions: seq<Transition>, proposable: seq<bool>)
    returns (r: Result<TabularRegime>)
    requires |proposable| == N_BINS
    ensures r.Ok? <==> true in proposable && Rebuilt(name, transitions).Ok?
    ensures r.Ok? ==> r.value.Valid() && fresh(r.value.Repr()) && r.value.Contents() == Rebuilt(name, transitions).value
  {
    hide BinOf, CreditQ, CreditBehaviour;
    var created := TabularRegime.Create(name, proposable, 0.0);
    if created.Err? {
      return created;
    }
    var regime := created.value;
    for i := 0 to |transitions|
      invariant regime.Valid() && fresh(regime.Repr())
      invariant Rebuilt(name, transitions[..i]) == Ok(regime.Contents())
    {
      var tr := transitions[i];
      ghost var before := regime.Contents();
      assert transitions[..i + 1][..i] == transitions[..i];
      RebuiltAtLeast(name, transitions, i + 1);
      var pb, eb := BinOf(tr.proposedEirpDbm), BinOf(tr.executedEirpDbm);
      if pb.Err? {
        return Err(pb.error);
      } else if eb.Err? {
        return Err(eb.error);
      }
      match name {
        case NaiveProposedCredit =>
          regime.UpdateQ(pb.value, tr.reward);
        case ProjectionAware =>
          regime.UpdateQ(eb.value, tr.reward);
        case CorrectionAware =>
          regime.UpdateQ(eb.value, tr.reward);
          regime.UpdateBehaviour(pb.value, tr.reward, tr.projected);
        case UnconstrainedOracle =>
          return Err("regime is not rebuildable from the chain");
      }
      assert Replayed(name, before, tr) == Ok(regime.Contents());
    }
    assert transitions[..|transitions|] == transitions;
    r := Ok(regime);
  }

  /** Once a prefix of the chain raises, the whole replay raises. */
  lemma {:induction false} RebuiltAtLeast(name: Regime, transitions: seq<Transition>, n: nat)
    requires n <= |transitions|
    ensures Rebuilt(name, transitions[..n]).Err? ==> Rebuilt(name, transitions).Err?
  {
    if n < |transitions| {
      var m := |transitions| - 1;
      assert transitions[..m][..n] == transitions[..n];
      RebuiltAtLeast(name, transitions[..m], n);
    } else {
      assert transitions[..n] == transitions;
    }
  }

  // ----- The prefix of a decision id identifies the run -----

  ghost predicate NoDash(s: string) {
    '-' !in s
  }

  /** A dash-free field followed by a dash is read back from the front of a string in one way. */
  lemma DashEndsTheField(a: string, b: string, x: string, y: string)
    requires NoDash(a) && NoDash(b)
    requires a + ("-" + x) <= b + ("-" + y)
    ensures a == b && x <= y
  {
    var s, t := a + ("-" + x), b + ("-" + y);
    assert s[|a|] == '-' && t[|b|] == '-';
    assert forall i :: 0 <= i < |b| ==> t[i] == b[i];
    assert forall i :: 0 <= i < |a| ==> s[i] == a[i];
    assert |a| == |b|;
    assert a == s[..|a|] && b == t[..|b|];
    assert "-" + x == s[|a|..] && "-" + y == t[|b|..];
    assert x == ("-" + x)[1..] && y == ("-" + y)[1..];
  }

  lemma NamesAreDistinct(n1: Regime, n2: Regime)
    ensures NoDash(NameOf(n1))
    ensures NameOf(n1) == NameOf(n2) ==> n1 == n2
  {
    assert NameOf(NaiveProposedCredit)[0] == 'n' && NameOf(ProjectionAware)[0] == 'p';
    assert NameOf(CorrectionAware)[0] == 'c' && NameOf(UnconstrainedOracle)[0] == 'u';
  }

  /** A record carries a run's prefix exactly when it is that run's record. */
  lemma PrefixIdentifiesTheRun(run: RunId, other: RunId, round: string)
    requires NoDash(run.arm) && NoDash(other.arm)
    ensures Prefix(run) <= Prefix(other) + round <==> run == other
  {
    if Prefix(run) <= Prefix(other) + round {
      var inner := NameOf(run.name) + ("-" + "");
      var inner' := NameOf(other.name) + ("-" + round);
      assert Prefix(run) == "credit-" + (run.arm + ("-" + inner));
      assert Prefix(other) + round == "credit-" + (other.arm + ("-" + inner'));
      DropCommonPrefix("credit-", run.arm + ("-" + inner), other.arm + ("-" + inner'));
      DashEndsTheField(run.arm, other.arm, inner, inner');
      NamesAreDistinct(run.name, other.name);
      NamesAreDistinct(other.name, run.name);
      DashEndsTheField(NameOf(run.name), NameOf(other.name), "", round);
    }
  }

  lemma DropCommonPrefix(p: string, x: string, y: string)
    requires p + x <= p + y
    ensures x <= y
  {
    assert x == (p + x)[|p|..] && y == (p + y)[|p|..];
  }

  // ----- Replay identity -----

  /** Every record was made on the grid by a run of a dash-free arm. */
  ghost predicate IsJournal(journal: seq<Record>) {
    forall r :: r in journal ==> NoDash(r.run.arm) && BinOf(r.entry.res.proposed.EirpDbm()) == Ok(r.entry.proposed)
  }

  lemma {:induction false} OwnIsALog(journal: seq<Record>, run: RunId)
    requires IsJournal(journal)
    ensures IsLog(Own(journal, run))
  {
    if journal != [] {
      OwnIsALog(journal[..|journal| - 1], run);
    }
  }

  /** A record carries everything the credit rules of the rebuildable regimes use. */
  lemma ReplayedIsUpdated(name: Regime, t: Tables, r: Record)
    requires IsTables(t) && r.entry.proposed < N_BINS && !name.UnconstrainedOracle?
    requires BinOf(r.entry.res.proposed.EirpDbm()) == Ok(r.entry.proposed)
    ensures Replayed(name, t, TransitionOf(r)) == Updated(name, t, r.entry.proposed, r.entry.res)
  {
  }

  lemma SubsetAppend(chain: seq<Transition>, tr: Transition, prefix: string)
    ensures Subset(chain + [tr], prefix) == if prefix <= tr.decisionId then Subset(chain, prefix) + [tr] else Subset(chain, prefix)
  {
    assert (chain + [tr])[..|chain|] == chain;
  }

  lemma RebuiltAppend(name: Regime, chain: seq<Transition>, tr: Transition)
    ensures var before := Rebuilt(name, chain);
            Rebuilt(name, chain + [tr]) == if before.Err? then before else Replayed(name, before.value, tr)
  {
    assert (chain + [tr])[..|chain|] == chain;
  }

  lemma OnlineAppend(name: Regime, log: seq<Entry>, e: Entry)
    requires IsLog(log + [e])
    ensures IsLog(log)
    ensures e in log + [e]
    ensures var before := Online(name, log);
            Online(name, log + [e]) == if before.Err? then before else Updated(name, before.value, e.proposed, e.res)
  {
    assert (log + [e])[..|log|] == log;
    assert forall x :: x in log ==> x in log + [e];
    assert (log + [e])[|log|] == e;
  }

  /** Replay identity: however the runs' records interleave on the chain, filtering
      by a run's prefix and replaying gives that run's online tables, errors included. */
  lemma {:induction false} ReplayIdentity(journal: seq<Record>, run: RunId)
    requires IsJournal(journal) && NoDash(run.arm) && !run.name.UnconstrainedOracle?
    ensures IsLog(Own(journal, run))
    ensures Rebuilt(run.name, Subset(Chain(journal), Prefix(run))) == Online(run.name, Own(journal, run))
  {
    hide BinOf, Updated, Replayed, Prefix, Rebuilt, Online, Subset;
    OwnIsALog(journal, run);
    if journal == [] {
      EmptyReplay(run);
    } else {
      var n := |journal| - 1;
      var last := journal[n];
      ReplayIdentity(journal[..n], run);
      PrefixIdentifiesTheRun(run, last.run, last.round);
      var chain, own := Chain(journal[..n]), Own(journal[..n], run);
      var subset := Subset(chain, Prefix(run));
      SubsetAppend(chain, TransitionOf(last), Prefix(run));
      if last.run == run {
        RebuiltAppend(run.name, subset, TransitionOf(last));
        OnlineAppend(run.name, own, last.entry);
        if Online(run.name, own).Ok? {
          ReplayedIsUpdated(run.name, Online(run.name, own).value, last);
        }
      } else {
        assert Own(journal, run) == own;
      }
    }
  }

  lemma EmptyReplay(run: RunId)
    ensures Rebuilt(run.name, Subset([], Prefix(run))) == Online(run.name, [])
  {
  }

  /** What the chain of a training run is worth: every rebuilt table entry, the
      behaviour tables included, is the mean over that run's own records, and nothing
      another run logged leaks into it. */
  lemma RebuiltTablesAreMeans(journal: seq<Record>, run: RunId, b: nat)
    requires IsJournal(journal) && NoDash(run.arm) && !run.name.UnconstrainedOracle? && b < N_BINS
    requires Rebuilt(run.name, Subset(Chain(journal), Prefix(run))).Ok?
    ensures var t := Rebuilt(run.name, Subset(Chain(journal), Prefix(run))).value;
            var own := Own(journal, run);
            && IsLog(own)
            && Averages(t.q, t.visits, b, Credits(run.name, own, b))
            && (run.name.CorrectionAware? ==>
                  && Averages(t.rHat, t.bVisits, b, Behaviour(own, b, RewardSignal))
                  && Averages(t.pHat, t.bVisits, b, Behaviour(own, b, ProjectionSignal)))
  {
    hide Online, Rebuilt, Averages, Credits, Behaviour, Chain, Subset, Own, Prefix;
    ReplayIdentity(journal, run);
    TablesAreMeans(run.name, Own(journal, run), b);
  }

  /** The log a training run leaves. */
  function LogOf(proposals: seq<nat>, steps: seq<StepResult>): seq<Entry>
    requires |proposals| == |steps|
  {
    seq(|steps|, i requires 0 <= i < |steps| => Entry(proposals[i], steps[i]))
  }

  /** Every outcome of the grid executes the clamped bin. */
  ghost predicate ExecutesTheClamp(a: Arm) {
    |a.outcomes| == N_BINS &&
    forall b :: 0 <= b < N_BINS ==> BinOf(a.outcomes[b].executed.EirpDbm()) == Ok(Min(b, CAP_BIN))
  }

  /** The tables a training run ends with are the online tables of its own log. */
  lemma {:induction false} TrainingIsItsLog(a: Arm, name: Regime, penalty: real, t: nat)
    requires IsArm(a) && ExecutesTheClamp(a) && true in a.mask
    ensures var r := After(a, name, penalty, t);
            IsLog(LogOf(r.proposals, r.steps)) && Online(name, LogOf(r.proposals, r.steps)) == Ok(r.tables)
  {
    hide Propose, BinOf, CreditStep, Updated;
    if t > 0 {
      TrainingIsItsLog(a, name, penalty, t - 1);
      var b := Round(a, name, penalty, t);
      var r, r0 := After(a, name, penalty, t), After(a, name, penalty, t - 1);
      var log, log0 := LogOf(r.proposals, r.steps), LogOf(r0.proposals, r0.steps);
      assert log == log0 + [Entry(b, a.outcomes[b])];
      assert log[..t - 1] == log0;
      UpdatedOnGrid(name, r0.tables, b, Min(b, CAP_BIN), a.outcomes[b]);
    }
  }

  /** The whole claim, from the environment to the replay: train a regime in the Shielded environment,
      let its records interleave with any others on the chain, filter by its prefix and replay; the
      rebuilt tables are the ones the run ended with. */
  lemma ChainRebuildsTheRun(env: Env, frequencyHz: real, a: Arm, run: RunId, penalty: real, t: nat, journal: seq<Record>)
    requires IsEnv(env) && InBand(frequencyHz) && a.outcomes == GridOutcomes(env, frequencyHz)
    requires |a.mask| == N_BINS && true in a.mask
    requires IsJournal(journal) && NoDash(run.arm) && !run.name.UnconstrainedOracle?
    ensures IsArm(a)
    ensures var end := After(a, run.name, penalty, t);
            Own(journal, run) == LogOf(end.proposals, end.steps) ==>
              Rebuilt(run.name, Subset(Chain(journal), Prefix(run))) == Ok(end.tables)
  {
    forall b | 0 <= b < N_BINS
      ensures BinOf(a.outcomes[b].executed.EirpDbm()) == Ok(Min(b, CAP_BIN))
    {
      ShieldOnGrid(frequencyHz, b);
    }
    assert ExecutesTheClamp(a);
    hide GridOutcomes, IsGrid, Rebuilt, Online, Chain, Subset, Own, Prefix, BinOf, LogOf, IsJournal, ExecutesTheClamp;
    EnvironmentIsAGrid(env, frequencyHz);
    TrainingIsItsLog(a, run.name, penalty, t);
    ReplayIdentity(journal, run);
  }
}
