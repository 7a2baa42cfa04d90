/** The training loop of the credit-assignment benchmark and what its regimes
    learn (benchmarks/credit_assignment_loop.py, _train_regime). */
module CreditTraining {
  import opened Common
  import opened Shield
  import opened ShieldedEnv
  import opened CreditTables

  const EPS_START: real := 0.5
  const EPS_FLOOR: real := 0.04

  /** Everything the regimes of one arm share. The environment is deterministic,
      so it enters as the step result of each of the grid's proposals. */
  datatype Arm = Arm(outcomes: seq<StepResult>, mask: seq<bool>, draws: Draws, rounds: nat)

  ghost predicate IsArm(a: Arm) {
    |a.mask| == N_BINS && IsGrid(a.outcomes)
  }

  /** The Shield-masked arm: nothing the Shield would have to correct is proposable. */
  ghost predicate OnlyFeasible(a: Arm)
    requires |a.mask| <= |a.outcomes|
  {
    forall b :: 0 <= b < |a.mask| && a.mask[b] ==> b <= CAP_BIN && !a.outcomes[b].projected
  }

  /** The unconstrained reward of bin `b`. */
  function R(a: Arm, b: nat): real
    requires b < |a.outcomes|
  {
    a.outcomes[b].counterfactual.GetOr(0.0)
  }

  /** Through the Shield a proposal earns the reward of the bin clamped to the cap, and power never hurts. */
  ghost predicate IsGrid(outcomes: seq<StepResult>) {
    && |outcomes| == N_BINS
    && (forall b :: 0 <= b < N_BINS ==>
          var res := outcomes[b];
          res.counterfactual.Some? && outcomes[Min(b, CAP_BIN)].counterfactual == Some(res.reward))
    && (forall b, c :: 0 <= b <= c < N_BINS ==>
          outcomes[b].counterfactual.GetOr(0.0) <= outcomes[c].counterfactual.GetOr(0.0))
  }

  /** Both flags of a step say exactly "above the cap". */
  ghost predicate FlagsTheCap(outcomes: seq<StepResult>) {
    forall b :: 0 <= b < |outcomes| ==>
      (outcomes[b].projected <==> b > CAP_BIN) && (outcomes[b].guardRefused <==> b > CAP_BIN)
  }

  // ----- The environment behind the grid -----

  predicate InBand(frequencyHz: real) {
    BAND_LO_HZ <= frequencyHz <= BAND_HI_HZ
  }

  /** A centre frequency at which the carrier fits the band. */
  predicate Interior(frequencyHz: real) {
    BAND_LO_HZ + BANDWIDTH_HZ / 2.0 <= frequencyHz <= BAND_HI_HZ - BANDWIDTH_HZ / 2.0
  }

  /** The centre the Shield places the carrier at. */
  function Carrier(frequencyHz: real): (f: real)
    ensures Interior(f)
    ensures f == frequencyHz <==> Interior(frequencyHz)
  {
    Clip(frequencyHz, BAND_LO_HZ + BANDWIDTH_HZ / 2.0, BAND_HI_HZ - BANDWIDTH_HZ / 2.0)
  }

  function ActionOf(frequencyHz: real, b: nat): SpectrumAction {
    SpectrumAction(frequencyHz, BinEirp(b) - ANTENNA_GAIN_DBI)
  }

  ghost function GridOutcomes(env: Env, frequencyHz: real): seq<StepResult>
    requires IsEnv(env) && InBand(frequencyHz)
  {
    seq(N_BINS, b requires 0 <= b < N_BINS => StepOf(env, ActionOf(frequencyHz, b)))
  }

  lemma ActionOnGrid(frequencyHz: real, b: nat)
    requires b < N_BINS
    ensures ActionOf(frequencyHz, b).EirpDbm() == BinEirp(b) && BinOf(ActionOf(frequencyHz, b).EirpDbm()) == Ok(b)
    ensures BinEirp(CAP_BIN) == MAX_EIRP_DBM
  {
    BinOfBinEirp(b);
  }

  lemma ClampOnGrid(frequencyHz: real, b: nat)
    requires b < N_BINS
    ensures Project(ActionOf(frequencyHz, b)) == ActionOf(Carrier(frequencyHz), Min(b, CAP_BIN))
    ensures Project(ActionOf(frequencyHz, b)) == ActionOf(frequencyHz, b) <==> b <= CAP_BIN && Interior(frequencyHz)
  {
  }

  lemma FlagOnGrid(frequencyHz: real, b: nat)
    requires b < N_BINS
    ensures ReportedProjected(ActionOf(frequencyHz, b), ActionOf(Carrier(frequencyHz), Min(b, CAP_BIN)))
            <==> b > CAP_BIN || Abs(Carrier(frequencyHz) - frequencyHz) > 1.0
  {
    hide Carrier;
  }

  /** On the grid the Shield is the clamp to the carrier's place and to the cap bin; at interior
      frequencies the reported flag and infeasibility both mean "above the cap". */
  lemma ShieldOnGrid(frequencyHz: real, b: nat)
    requires b < N_BINS
    ensures var e := Min(b, CAP_BIN);
            && Project(ActionOf(frequencyHz, b)) == ActionOf(Carrier(frequencyHz), e)
            && BinOf(ActionOf(Carrier(frequencyHz), e).EirpDbm()) == Ok(e)
            && (ReportedProjected(ActionOf(frequencyHz, b), ActionOf(Carrier(frequencyHz), e))
                <==> b > CAP_BIN || Abs(Carrier(frequencyHz) - frequencyHz) > 1.0)
            && (IsFeasible(ActionOf(frequencyHz, b)) <==> b <= CAP_BIN && Interior(frequencyHz))
  {
    assert Min(b, CAP_BIN) < N_BINS;
    hide *;
    ActionOnGrid(Carrier(frequencyHz), Min(b, CAP_BIN));
    ClampOnGrid(frequencyHz, b);
    FlagOnGrid(frequencyHz, b);
    ProjectIsTheShield(ActionOf(frequencyHz, b));
  }

  /** Moving an in-band carrier inside the band never changes its subband. */
  lemma CarrierKeepsSubband(frequencyHz: real)
    requires InBand(frequencyHz)
    ensures SubbandFor(Carrier(frequencyHz)) == SubbandFor(frequencyHz)
  {
    var carrier := Carrier(frequencyHz);
    if frequencyHz < carrier {
      NearTheLowEdge(frequencyHz);
      NearTheLowEdge(carrier);
    } else if frequencyHz > carrier {
      NearTheHighEdge(frequencyHz);
      NearTheHighEdge(carrier);
    }
  }

  lemma CentreAt(b: nat)
    ensures SubbandCenterHz(b) == 3450000000.0 + (b as real + 0.5) * (100000000.0 / 6.0)
  {
  }

  lemma NearTheLowEdge(frequencyHz: real)
    requires BAND_LO_HZ <= frequencyHz <= BAND_LO_HZ + BANDWIDTH_HZ / 2.0
    ensures SubbandFor(frequencyHz) == Some(0)
  {
    forall b: nat | 0 < b < N_SUBBANDS
      ensures Misses(0, frequencyHz) < Misses(b, frequencyHz)
    {
      CentreAt(0);
      CentreAt(b);
    }
  }

  lemma NearTheHighEdge(frequencyHz: real)
    requires BAND_HI_HZ - BANDWIDTH_HZ / 2.0 <= frequencyHz <= BAND_HI_HZ
    ensures SubbandFor(frequencyHz) == Some(N_SUBBANDS - 1)
  {
    forall b: nat | b < N_SUBBANDS - 1
      ensures Misses(N_SUBBANDS - 1, frequencyHz) < Misses(b, frequencyHz)
    {
      CentreAt(N_SUBBANDS - 1);
      CentreAt(b);
    }
  }

  /** An execution is feasible, within the cap, and earns at most `capReward`. */
  ghost predicate IsSafeStep(res: StepResult, capReward: real) {
    IsFeasible(res.executed) && res.executed.EirpDbm() <= MAX_EIRP_DBM && res.reward <= capReward
  }

  /** The Shielded environment is such a grid at every in-band frequency, the edges included; every
      execution is feasible, at most at the cap, and earns at most the cap's reward. At interior
      frequencies the flags say "above the cap". */
  lemma EnvironmentIsAGrid(env: Env, frequencyHz: real)
    requires IsEnv(env) && InBand(frequencyHz)
    ensures var outcomes := GridOutcomes(env, frequencyHz);
            && IsGrid(outcomes)
            && (Interior(frequencyHz) ==> FlagsTheCap(outcomes))
            && forall b :: 0 <= b < N_BINS ==> IsSafeStep(outcomes[b], outcomes[CAP_BIN].reward)
  {
    hide Interior, InBand, Carrier, IsSafeStep, StepOf, GridCell, Reward, Project, IsFeasible, ReportedProjected, Illegal, BinOf;
    var outcomes := GridOutcomes(env, frequencyHz);
    forall b | 0 <= b < N_BINS
      ensures GridCell(env, frequencyHz, outcomes[b], b)
    {
      IsGridCell(env, frequencyHz, b);
    }
    forall b, c | 0 <= b <= c < N_BINS
      ensures outcomes[b].counterfactual.GetOr(0.0) <= outcomes[c].counterfactual.GetOr(0.0)
    {
      CounterfactualRises(env, frequencyHz, b, c);
    }
    forall b | 0 <= b < N_BINS
      ensures outcomes[b].counterfactual.Some?
      ensures outcomes[Min(b, CAP_BIN)].counterfactual == Some(outcomes[b].reward)
      ensures IsSafeStep(outcomes[b], outcomes[CAP_BIN].reward)
      ensures Interior(frequencyHz) ==>
                (outcomes[b].projected <==> b > CAP_BIN) && (outcomes[b].guardRefused <==> b > CAP_BIN)
    {
      GridPoint(env, frequencyHz, b, outcomes[b], outcomes[Min(b, CAP_BIN)], outcomes[CAP_BIN]);
    }
  }

  lemma CounterfactualRises(env: Env, frequencyHz: real, b: nat, c: nat)
    requires IsEnv(env) && InBand(frequencyHz) && b <= c < N_BINS
    ensures StepOf(env, ActionOf(frequencyHz, b)).counterfactual.GetOr(0.0) <= StepOf(env, ActionOf(frequencyHz, c)).counterfactual.GetOr(0.0)
  {
    hide Reward, Carrier, Project, ReportedProjected, Illegal, IsFeasible;
    RewardMonotone(env, frequencyHz, BinEirp(b) - ANTENNA_GAIN_DBI, BinEirp(c) - ANTENNA_GAIN_DBI);
  }

  /** The reward does not depend on where in its subband the carrier stands. */
  lemma RewardAtCarrier(env: Env, frequencyHz: real, e: nat)
    requires IsEnv(env) && InBand(frequencyHz) && e < N_BINS
    ensures Reward(env, ActionOf(Carrier(frequencyHz), e)) == Reward(env, ActionOf(frequencyHz, e))
  {
    CarrierKeepsSubband(frequencyHz);
    hide SubbandFor, Carrier, Served;
  }

  lemma IsGridCell(env: Env, frequencyHz: real, b: nat)
    requires IsEnv(env) && InBand(frequencyHz) && b < N_BINS
    ensures GridCell(env, frequencyHz, StepOf(env, ActionOf(frequencyHz, b)), b)
  {
    hide Carrier, Interior, Reward, Project, ReportedProjected, Illegal, IsFeasible, BinOf, BinEirp;
    var e := Min(b, CAP_BIN);
    ShieldOnGrid(frequencyHz, b);
    ShieldOnGrid(Carrier(frequencyHz), e);
    RewardAtCarrier(env, frequencyHz, e);
    CarrierStays(frequencyHz);
  }

  lemma CarrierStays(frequencyHz: real)
    ensures Interior(Carrier(frequencyHz)) && InBand(Carrier(frequencyHz))
  {
  }

  /** What one cell says beside the cell it is clamped to and the cell of the cap. */
  lemma GridPoint(env: Env, frequencyHz: real, b: nat, res: StepResult, clamped: StepResult, cap: StepResult)
    requires IsEnv(env) && InBand(frequencyHz) && b < N_BINS
    requires GridCell(env, frequencyHz, res, b) && GridCell(env, frequencyHz, clamped, Min(b, CAP_BIN))
    requires GridCell(env, frequencyHz, cap, CAP_BIN)
    requires clamped.counterfactual.GetOr(0.0) <= cap.counterfactual.GetOr(0.0)
    ensures res.counterfactual.Some? && clamped.counterfactual == Some(res.reward) && IsSafeStep(res, cap.reward)
    ensures Interior(frequencyHz) ==> (res.projected <==> b > CAP_BIN) && (res.guardRefused <==> b > CAP_BIN)
  {
    hide Reward, Project, ReportedProjected, Illegal, IsFeasible, BinOf, StepOf, ActionOf, BinEirp;
    ActionOnGrid(Carrier(frequencyHz), Min(b, CAP_BIN));
    EirpWithinCap(Min(b, CAP_BIN));
  }

  lemma EirpWithinCap(e: nat)
    requires e <= CAP_BIN
    ensures BinEirp(e) <= MAX_EIRP_DBM
  {
  }

  ghost predicate GridCell(env: Env, frequencyHz: real, res: StepResult, b: nat)
    requires IsEnv(env) && InBand(frequencyHz)
  {
    var e := Min(b, CAP_BIN);
    && res.proposed == ActionOf(frequencyHz, b)
    && res.executed == ActionOf(Carrier(frequencyHz), e) && IsFeasible(res.executed)
    && Some(res.reward) == Reward(env, ActionOf(frequencyHz, e))
    && res.counterfactual == Reward(env, ActionOf(frequencyHz, b)) && res.counterfactual.Some?
    && (res.projected <==> b > CAP_BIN || Abs(Carrier(frequencyHz) - frequencyHz) > 1.0)
    && (res.guardRefused <==> b > CAP_BIN || !Interior(frequencyHz))
  }

  /** The Shield's own mask proposes the bins up to the cap at an interior frequency, and nothing at
      an edge; either way the arm proposes nothing that is corrected. */
  lemma ShieldMask(env: Env, frequencyHz: real, a: Arm)
    requires IsEnv(env) && InBand(frequencyHz) && a.outcomes == GridOutcomes(env, frequencyHz) && |a.mask| == N_BINS
    requires forall b :: 0 <= b < N_BINS ==> (a.mask[b] <==> IsFeasible(ActionOf(frequencyHz, b)))
    ensures OnlyFeasible(a)
    ensures if Interior(frequencyHz) then ProposesBelow(a, CAP_BIN + 1) else true !in a.mask
  {
    forall b | 0 <= b < N_BINS
      ensures a.mask[b] <==> b <= CAP_BIN && Interior(frequencyHz)
      ensures a.mask[b] ==> !a.outcomes[b].projected
    {
      ShieldOnGrid(frequencyHz, b);
    }
  }

  method StepBin(env: Env, frequencyHz: real, b: nat) returns (res: StepResult)
    requires IsEnv(env) && InBand(frequencyHz) && b < N_BINS
    ensures res == GridOutcomes(env, frequencyHz)[b]
    ensures BinOf(res.executed.EirpDbm()) == Ok(Min(b, CAP_BIN)) && res.counterfactual.Some?
  {
    var r := Step(env, ActionOf(frequencyHz, b));
    res := r.value;
    ShieldOnGrid(frequencyHz, b);
  }

  // ----- The loop -----

  /** Half of the rounds after the opening sweep, and at least one. */
  function Span(rounds: nat): (n: int)
    ensures n >= 1
  {
    Max(1, (rounds - N_BINS) / 2)
  }

  /** Linear exploration decay from EPS_START to EPS_FLOOR. */
  function Epsilon(t: nat, rounds: nat): real {
    MaxReal(EPS_FLOOR, EPS_START * (1.0 - (t - N_BINS) as real / Span(rounds) as real))
  }

  /** The exploration rate starts at EPS_START after the sweep, never rises, and is EPS_FLOOR
      from the middle of the remaining rounds on. */
  lemma ExplorationDecays(t: nat, t': nat, rounds: nat)
    requires N_BINS <= t <= t'
    ensures Epsilon(N_BINS, rounds) == EPS_START
    ensures EPS_FLOOR <= Epsilon(t', rounds) <= Epsilon(t, rounds) <= EPS_START
    ensures t >= N_BINS + Span(rounds) ==> Epsilon(t, rounds) == EPS_FLOOR
  {
    var span := Span(rounds) as real;
    LargerShare((t - N_BINS) as real, (t' - N_BINS) as real, span);
    LargerShare(0.0, (t - N_BINS) as real, span);
    if t >= N_BINS + Span(rounds) {
      LargerShare(span, (t - N_BINS) as real, span);
    }
  }

  /** Between start and floor it falls by the same amount every round, EPS_START over half of the
      rounds after the sweep, rounded down but at least one. */
  lemma ExplorationIsLinear(t: nat, rounds: nat)
    requires t >= N_BINS
    ensures Span(rounds) == if rounds < N_BINS + 2 then 1 else (rounds - N_BINS) / 2
    ensures Epsilon(t + 1, rounds) > EPS_FLOOR ==> Epsilon(t, rounds) == Epsilon(t + 1, rounds) + EPS_START / (Span(rounds) as real)
  {
    ExplorationDecays(t, t + 1, rounds);
    OneShareLess((t - N_BINS) as real, Span(rounds) as real);
  }

  lemma OneShareLess(x: real, span: real)
    requires span > 0.0
    ensures EPS_START * (1.0 - x / span) == EPS_START * (1.0 - (x + 1.0) / span) + EPS_START / span
  {
    assert (x + 1.0) / span == x / span + 1.0 / span;
  }

  lemma LargerShare(x: real, y: real, span: real)
    requires x <= y && span > 0.0
    ensures x / span <= y / span && 0.0 / span == 0.0 && span / span == 1.0
  {
  }

  /** The proposal of round `t` and the stream position after it. */
  function Propose(mask: seq<bool>, draws: Draws, rounds: nat, name: Regime, penalty: real, t: nat, tables: Tables, at: nat): (r: (nat, nat))
    requires |mask| == N_BINS && true in mask && IsTables(tables)
    ensures r.0 < N_BINS && mask[r.0]
  {
    var bins := Flatnonzero(mask);
    var tied := Tied(Score(name, penalty, tables), mask);
    TiedIsProposable(Score(name, penalty, tables), mask);
    assert |bins| > 0 by {
      var b :| 0 <= b < |mask| && mask[b];
      assert b in bins;
    }
    assert |tied| > 0 && tied[0] in tied;
    if t < N_BINS then (Pick(bins, t), at)
    else if draws.uniform(at) < Epsilon(t, rounds) then (Pick(bins, draws.index(at + 1)), at + 2)
    else if |tied| == 1 then (tied[0], at + 1)
    else (Pick(tied, draws.index(at + 1)), at + 2)
  }

  datatype Trace = Trace(tables: Tables, at: nat, proposals: seq<nat>, steps: seq<StepResult>)

  /** A regime's state after `t` rounds. */
  ghost function After(a: Arm, name: Regime, penalty: real, t: nat): (r: Trace)
    requires IsArm(a) && true in a.mask
    ensures IsTables(r.tables) && |r.proposals| == |r.steps| == t
  {
    if t == 0 then Trace(EmptyTables(), 0, [], [])
    else
      var before := After(a, name, penalty, t - 1);
      var (b, at) := Propose(a.mask, a.draws, a.rounds, name, penalty, t - 1, before.tables, before.at);
      NextTrace(a, name, before, b, at)
  }

  ghost function NextTrace(a: Arm, name: Regime, before: Trace, b: nat, at: nat): (r: Trace)
    requires IsArm(a) && b < N_BINS && IsTables(before.tables)
    ensures IsTables(r.tables)
  {
    var res := a.outcomes[b];
    Trace(CreditStep(name, before.tables, b, Min(b, CAP_BIN), res), at, before.proposals + [b], before.steps + [res])
  }

  /** The loop of a whole training run; an arm without a proposable bin raises. */
  method TrainRegime(env: Env, frequencyHz: real, mask: seq<bool>, draws: Draws, rounds: nat, name: Regime, penalty: real)
    returns (r: Result<TabularRegime>, proposals: seq<nat>, steps: seq<StepResult>)
    requires IsEnv(env) && InBand(frequencyHz) && |mask| == N_BINS
    ensures r.Ok? <==> true in mask
    ensures var a := Arm(GridOutcomes(env, frequencyHz), mask, draws, rounds);
            && IsArm(a)
            && (r.Ok? ==> var end := After(a, name, penalty, rounds);
                  && r.value.Valid() && fresh(r.value.Repr()) && r.value.name == name
                  && r.value.Contents() == end.tables && proposals == end.proposals && steps == end.steps)
  {
    hide Propose, GridOutcomes, IsGrid, BinOf, Updated, CreditStep;
    ghost var a := Arm(GridOutcomes(env, frequencyHz), mask, draws, rounds);
    EnvironmentIsAGrid(env, frequencyHz);
    proposals, steps := [], [];
    var created := TabularRegime.Create(name, mask, penalty);
    if created.Err? {
      return created, [], [];
    }
    var regime := created.value;
    var at, t := 0, 0;
    while t < rounds
      invariant 0 <= t <= rounds
      invariant regime.Valid() && fresh(regime.Repr()) && regime.name == name
      invariant Trace(regime.Contents(), at, proposals, steps) == After(a, name, penalty, t)
    {
      var (b, next) := Propose(mask, draws, rounds, name, penalty, t, regime.Contents(), at);
      ghost var before := regime.Contents();
      var res := StepBin(env, frequencyHz, b);
      UpdatedOnGrid(name, before, b, Min(b, CAP_BIN), res);
      var updated := regime.Update(b, res);
      assert regime.Contents() == CreditStep(name, before, b, Min(b, CAP_BIN), res);
      at := next;
      steps := steps + [res];
      proposals := proposals + [b];
      t := t + 1;
    }
    r := Ok(regime);
  }

  /** Round `t` proposes `b` and takes the state `r0` to `r`. */
  ghost predicate IsRound(a: Arm, name: Regime, penalty: real, t: nat, r0: Trace, r: Trace, b: nat)
    requires IsArm(a) && true in a.mask && IsTables(r0.tables)
  {
    var p := Propose(a.mask, a.draws, a.rounds, name, penalty, t, r0.tables, r0.at);
    b == p.0 && r == NextTrace(a, name, r0, b, p.1)
  }

  lemma Round(a: Arm, name: Regime, penalty: real, t: nat) returns (b: nat)
    requires IsArm(a) && true in a.mask && t > 0
    ensures b < N_BINS && a.mask[b]
    ensures IsRound(a, name, penalty, t - 1, After(a, name, penalty, t - 1), After(a, name, penalty, t), b)
  {
    var r0 := After(a, name, penalty, t - 1);
    b := Propose(a.mask, a.draws, a.rounds, name, penalty, t - 1, r0.tables, r0.at).0;
  }

  /** Round `i` of a run, read off any later state. */
  lemma {:induction false} RoundAt(a: Arm, name: Regime, penalty: real, t: nat, i: nat)
    requires IsArm(a) && true in a.mask && i < t
    ensures var r, r0 := After(a, name, penalty, t), After(a, name, penalty, i);
            && r.proposals[i] == Propose(a.mask, a.draws, a.rounds, name, penalty, i, r0.tables, r0.at).0
            && r.steps[i] == a.outcomes[r.proposals[i]]
  {
    hide Propose, CreditStep, IsArm, IsTables;
    if i < t - 1 {
      RoundAt(a, name, penalty, t - 1, i);
    }
    var b := Round(a, name, penalty, t);
  }

  /** What round i proposes and where it leaves the random stream: the sweep takes the proposable bins
      in turn and draws nothing; then a draw below Epsilon explores with a second draw, any other is
      greedy, with a second draw only to break a tie. */
  lemma ProposalExactly(a: Arm, name: Regime, penalty: real, t: nat, i: nat)
    requires IsArm(a) && true in a.mask && i < t
    ensures var s, b, at := After(a, name, penalty, i), After(a, name, penalty, t).proposals[i], After(a, name, penalty, i + 1).at;
            var bins, tied := Flatnonzero(a.mask), Tied(Score(name, penalty, s.tables), a.mask);
            && |bins| > 0 && |tied| > 0
            && (i < N_BINS ==> b == bins[i % |bins|] && at == s.at)
            && (i >= N_BINS && a.draws.uniform(s.at) < Epsilon(i, a.rounds) ==>
                  b == bins[a.draws.index(s.at + 1) % |bins|] && at == s.at + 2)
            && (i >= N_BINS && a.draws.uniform(s.at) >= Epsilon(i, a.rounds) ==>
                  && b in tied
                  && (|tied| == 1 ==> b == tied[0] && at == s.at + 1)
                  && (|tied| > 1 ==> b == tied[a.draws.index(s.at + 1) % |tied|] && at == s.at + 2))
  {
    RoundAt(a, name, penalty, t, i);
    var s := After(a, name, penalty, i);
    var b := Round(a, name, penalty, i + 1);
    hide IsArm, CreditStep, IsTables, After, Epsilon, Tied, Score;
    ProposedBin(a.mask, a.draws, a.rounds, name, penalty, i, s.tables, s.at);
  }

  lemma ProposedBin(mask: seq<bool>, draws: Draws, rounds: nat, name: Regime, penalty: real, t: nat, tables: Tables, at: nat)
    requires |mask| == N_BINS && true in mask && IsTables(tables)
    ensures var (b, next) := Propose(mask, draws, rounds, name, penalty, t, tables, at);
            var bins, tied := Flatnonzero(mask), Tied(Score(name, penalty, tables), mask);
            && |bins| > 0 && |tied| > 0
            && (t < N_BINS ==> b == bins[t % |bins|] && next == at)
            && (t >= N_BINS && draws.uniform(at) < Epsilon(t, rounds) ==> b == bins[draws.index(at + 1) % |bins|] && next == at + 2)
            && (t >= N_BINS && draws.uniform(at) >= Epsilon(t, rounds) ==>
                  && b in tied
                  && (|tied| == 1 ==> b == tied[0] && next == at + 1)
                  && (|tied| > 1 ==> b == tied[draws.index(at + 1) % |tied|] && next == at + 2))
  {
    var m :| 0 <= m < |mask| && mask[m];
    assert m in Flatnonzero(mask);
    TiedIsProposable(Score(name, penalty, tables), mask);
    hide Epsilon, Tied, Score;
  }

  /** The draw with which round i decides between exploring and the tie set is not below the rate of its round. */
  ghost predicate DecidesGreedily(a: Arm, name: Regime, penalty: real, i: nat)
    requires IsArm(a) && true in a.mask
  {
    a.draws.uniform(After(a, name, penalty, i).at) >= Epsilon(i, a.rounds)
  }

  /** A run that always decides greedily never leaves the tie set once the sweep is over. */
  lemma GreedyRunsStayInTheTieSet(a: Arm, name: Regime, penalty: real, t: nat)
    requires IsArm(a) && true in a.mask && forall i :: N_BINS <= i < t ==> DecidesGreedily(a, name, penalty, i)
    ensures forall i :: N_BINS <= i < t ==>
              After(a, name, penalty, t).proposals[i] in Tied(Score(name, penalty, After(a, name, penalty, i).tables), a.mask)
  {
    forall i | N_BINS <= i < t
      ensures After(a, name, penalty, t).proposals[i] in Tied(Score(name, penalty, After(a, name, penalty, i).tables), a.mask)
    {
      assert DecidesGreedily(a, name, penalty, i);
      ProposalExactly(a, name, penalty, t, i);
      hide After, Tied, Score, Epsilon, IsArm, Flatnonzero;
    }
  }

  // ----- The masked arm: the four regimes run in lockstep -----

  /** A regime's tables agree with the naive regime's: one value table, and a
      correction-aware behaviour table that repeats it with a penalty of 0. */
  ghost predicate Synced(name: Regime, x: Tables, y: Tables)
    requires IsTables(x) && IsTables(y)
  {
    && x.q == y.q && x.visits == y.visits
    && (name.CorrectionAware? ==>
          && x.rHat == x.q && x.bVisits == x.visits
          && forall b :: 0 <= b < N_BINS ==> x.pHat[b] == if x.q[b].None? then None else Some(0.0))
  }

  lemma SyncedScores(name: Regime, penalty: real, x: Tables, y: Tables)
    requires IsTables(x) && IsTables(y) && Synced(name, x, y)
    ensures Score(name, penalty, x) == Score(NaiveProposedCredit, penalty, y) == y.q
  {
    assert Score(name, penalty, x) == x.q;
  }

  /** An uncorrected step keeps the tables in agreement. */
  lemma SyncedUpdate(name: Regime, x: Tables, y: Tables, b: nat, res: StepResult)
    requires IsTables(x) && IsTables(y) && Synced(name, x, y) && b < N_BINS
    requires res.counterfactual == Some(res.reward) && !res.projected
    ensures Synced(name, CreditStep(name, x, b, b, res), CreditStep(NaiveProposedCredit, y, b, b, res))
  {
  }

  /** The two runs have done the same things and believe the same values. */
  ghost predicate InStep(name: Regime, x: Trace, y: Trace)
    requires IsTables(x.tables) && IsTables(y.tables)
  {
    x.proposals == y.proposals && x.steps == y.steps && x.at == y.at && Synced(name, x.tables, y.tables)
  }

  /** A proposal depends on the tables only through the score. */
  lemma ProposeByScore(mask: seq<bool>, draws: Draws, rounds: nat,
                       name1: Regime, penalty1: real, x: Tables, name2: Regime, penalty2: real, y: Tables, t: nat, at: nat)
    requires |mask| == N_BINS && true in mask && IsTables(x) && IsTables(y)
    requires Score(name1, penalty1, x) == Score(name2, penalty2, y)
    ensures Propose(mask, draws, rounds, name1, penalty1, t, x, at) == Propose(mask, draws, rounds, name2, penalty2, t, y, at)
  {
  }

  lemma InStepRound(a: Arm, name: Regime, penalty: real, penalty': real, t: nat,
                    x0: Trace, x: Trace, b: nat, y0: Trace, y: Trace, b': nat)
    requires IsArm(a) && true in a.mask && OnlyFeasible(a)
    requires IsTables(x0.tables) && IsTables(y0.tables) && IsTables(x.tables) && IsTables(y.tables)
    requires InStep(name, x0, y0) && b < N_BINS && a.mask[b]
    requires IsRound(a, name, penalty, t, x0, x, b) && IsRound(a, NaiveProposedCredit, penalty', t, y0, y, b')
    ensures InStep(name, x, y)
  {
    SyncedScores(name, penalty, x0.tables, y0.tables);
    ProposeByScore(a.mask, a.draws, a.rounds, name, penalty, x0.tables, NaiveProposedCredit, penalty', y0.tables, t, x0.at);
    SyncedUpdate(name, x0.tables, y0.tables, b, a.outcomes[b]);
  }

  /** When only feasible bins are proposable, every regime, whatever its
      correction penalty, makes the proposals of the naive one and keeps its value
      table; the correction-aware penalty table is identically 0. */
  lemma {:induction false} Lockstep(a: Arm, name: Regime, penalty: real, penalty': real, t: nat)
    requires IsArm(a) && true in a.mask && OnlyFeasible(a)
    ensures InStep(name, After(a, name, penalty, t), After(a, NaiveProposedCredit, penalty', t))
  {
    if t > 0 {
      Lockstep(a, name, penalty, penalty', t - 1);
      var b := Round(a, name, penalty, t);
      var b' := Round(a, NaiveProposedCredit, penalty', t);
      InStepRound(a, name, penalty, penalty', t - 1,
                  After(a, name, penalty, t - 1), After(a, name, penalty, t), b,
                  After(a, NaiveProposedCredit, penalty', t - 1), After(a, NaiveProposedCredit, penalty', t), b');
    }
  }

  /** Any two regimes of the masked arm, with any two penalties, are behaviourally indistinguishable at every round. */
  lemma MaskedEquivalence(a: Arm, name1: Regime, penalty1: real, name2: Regime, penalty2: real, t: nat)
    requires IsArm(a) && true in a.mask && OnlyFeasible(a)
    ensures var x, y := After(a, name1, penalty1, t), After(a, name2, penalty2, t);
            && x.proposals == y.proposals && x.steps == y.steps
            && x.tables.q == y.tables.q && x.tables.visits == y.tables.visits
            && Tied(Score(name1, penalty1, x.tables), a.mask) == Tied(Score(name2, penalty2, y.tables), a.mask)
  {
    Lockstep(a, name1, penalty1, penalty1, t);
    Lockstep(a, name2, penalty2, penalty1, t);
    var y := After(a, NaiveProposedCredit, penalty1, t).tables;
    SyncedScores(name1, penalty1, After(a, name1, penalty1, t).tables, y);
    SyncedScores(name2, penalty2, After(a, name2, penalty2, t).tables, y);
  }

  // ----- What each table claims -----

  /** The bin a proposal is credited to. */
  function CreditBin(name: Regime, proposed: nat): nat {
    if name.ProjectionAware? || name.CorrectionAware? then Min(proposed, CAP_BIN) else proposed
  }

  function Credited(name: Regime, proposals: seq<nat>, c: nat): nat {
    if proposals == [] then 0
    else
      var n := |proposals| - 1;
      Credited(name, proposals[..n], c) + if CreditBin(name, proposals[n]) == c then 1 else 0
  }

  lemma {:induction false} CreditedAppend(name: Regime, proposals: seq<nat>, b: nat, c: nat)
    ensures Credited(name, proposals + [b], c) == Credited(name, proposals, c) + if CreditBin(name, b) == c then 1 else 0
  {
    assert (proposals + [b])[..|proposals|] == proposals;
  }

  lemma {:induction false} CreditedSomewhere(name: Regime, proposals: seq<nat>, c: nat)
    ensures Credited(name, proposals, c) > 0 <==> exists i :: 0 <= i < |proposals| && CreditBin(name, proposals[i]) == c
  {
    if proposals != [] {
      var n := |proposals| - 1;
      CreditedSomewhere(name, proposals[..n], c);
      if i :| 0 <= i < n && CreditBin(name, proposals[..n][i]) == c {
        assert CreditBin(name, proposals[i]) == c;
      }
      if i :| 0 <= i < |proposals| && CreditBin(name, proposals[i]) == c {
        assert i < n ==> CreditBin(name, proposals[..n][i]) == c;
      }
    }
  }

  /** The value a regime's claim about bin `c` always has: the naive regime books
      the clamped reward, the others the reward of the bin itself. */
  ghost function Claim(a: Arm, name: Regime, c: nat): real
    requires IsArm(a) && c < N_BINS
  {
    if name.NaiveProposedCredit? then R(a, Min(c, CAP_BIN)) else R(a, c)
  }

  /** The value table books `Claim` for exactly the credited bins. */
  ghost predicate Books(a: Arm, name: Regime, t: Tables, proposals: seq<nat>)
    requires IsArm(a) && IsTables(t)
  {
    forall c :: 0 <= c < N_BINS ==>
      && t.visits[c] == Credited(name, proposals, c)
      && t.q[c] == if t.visits[c] == 0 then None else Some(Claim(a, name, c))
  }

  /** Every regime credits one bin, with the value it always claims for that bin. */
  lemma CreditsItsClaim(a: Arm, name: Regime, t: Tables, b: nat)
    requires IsArm(a) && IsTables(t) && b < N_BINS
    ensures var u, k := CreditStep(name, t, b, Min(b, CAP_BIN), a.outcomes[b]), CreditBin(name, b);
            && u.visits == t.visits[k := t.visits[k] + 1]
            && u.q == t.q[k := MeanStep(t.q[k], t.visits[k] + 1, Claim(a, name, k))]
  {
  }

  lemma BooksUpdate(a: Arm, name: Regime, t: Tables, proposals: seq<nat>, b: nat)
    requires IsArm(a) && IsTables(t) && b < N_BINS && Books(a, name, t, proposals)
    ensures Books(a, name, CreditStep(name, t, b, Min(b, CAP_BIN), a.outcomes[b]), proposals + [b])
  {
    CreditsItsClaim(a, name, t, b);
    hide CreditStep, IsGrid, Claim;
    var u, k := CreditStep(name, t, b, Min(b, CAP_BIN), a.outcomes[b]), CreditBin(name, b);
    forall c | 0 <= c < N_BINS
      ensures u.visits[c] == Credited(name, proposals + [b], c)
      ensures u.q[c] == if u.visits[c] == 0 then None else Some(Claim(a, name, c))
    {
      CreditedAppend(name, proposals, b, c);
      assert t.visits[c] == Credited(name, proposals, c);
      assert c != k ==> u.q[c] == t.q[c];
    }
  }

  /** At every round of every run: a bin is claimed exactly when it has been credited, always at the same value. */
  lemma {:induction false} ClaimsAtEveryRound(a: Arm, name: Regime, penalty: real, t: nat)
    requires IsArm(a) && true in a.mask
    ensures var r := After(a, name, penalty, t); Books(a, name, r.tables, r.proposals)
  {
    if t > 0 {
      ClaimsAtEveryRound(a, name, penalty, t - 1);
      var b := Round(a, name, penalty, t);
      var r0 := After(a, name, penalty, t - 1);
      BooksUpdate(a, name, r0.tables, r0.proposals, b);
    }
  }

  /** A regime that credits the executed action never claims a bin above the cap. */
  lemma NoClaimAboveTheCap(a: Arm, name: Regime, penalty: real, t: nat, c: nat)
    requires IsArm(a) && true in a.mask
    requires name.ProjectionAware? || name.CorrectionAware?
    requires CAP_BIN < c < N_BINS
    ensures After(a, name, penalty, t).tables.q[c] == None
  {
    ClaimsAtEveryRound(a, name, penalty, t);
    CreditedSomewhere(name, After(a, name, penalty, t).proposals, c);
  }

  /** Whatever is proposed, in any arm under any regime, every step executes a
      feasible action and earns no more than the constant policy that proposes the cap. */
  lemma EveryRunIsSafe(env: Env, frequencyHz: real, a: Arm, name: Regime, penalty: real, t: nat)
    requires IsEnv(env) && InBand(frequencyHz) && |a.mask| == N_BINS && true in a.mask
    requires a.outcomes == GridOutcomes(env, frequencyHz)
    ensures IsArm(a)
    ensures forall i :: 0 <= i < t ==>
              IsSafeStep(After(a, name, penalty, t).steps[i], a.outcomes[CAP_BIN].reward)
  {
    EnvironmentIsAGrid(env, frequencyHz);
    forall i | 0 <= i < t
      ensures IsSafeStep(After(a, name, penalty, t).steps[i], a.outcomes[CAP_BIN].reward)
    {
      RoundAt(a, name, penalty, t, i);
    }
  }

  // ----- The opening sweep and the censored tie -----

  function Interval(lo: nat, hi: nat): (s: seq<nat>)
    ensures |s| == Max(0, hi - lo)
    ensures forall i :: 0 <= i < |s| ==> s[i] == lo + i
    ensures forall b: nat :: b in s <==> lo <= b < hi
  {
    if hi <= lo then [] else Interval(lo, hi - 1) + [hi - 1]
  }

  lemma {:induction false} FlatnonzeroInterval(mask: seq<bool>, lo: nat, hi: nat)
    requires forall b :: 0 <= b < |mask| ==> (mask[b] <==> lo <= b < hi)
    ensures Flatnonzero(mask) == Interval(lo, Min(hi, |mask|))
  {
    if mask != [] {
      var n := |mask| - 1;
      FlatnonzeroInterval(mask[..n], lo, hi);
      assert mask[n] ==> Interval(lo, n + 1) == Interval(lo, n) + [n];
    }
  }

  lemma OpeningSweep(a: Arm, name: Regime, penalty: real, t: nat, i: nat)
    requires IsArm(a) && true in a.mask && i < t && i < N_BINS
    ensures |Flatnonzero(a.mask)| > 0
    ensures After(a, name, penalty, t).proposals[i] == Pick(Flatnonzero(a.mask), i)
  {
    RoundAt(a, name, penalty, t, i);
    SweepProposes(a.mask, a.draws, a.rounds, name, penalty, i,
                  After(a, name, penalty, i).tables, After(a, name, penalty, i).at);
  }

  lemma SweepProposes(mask: seq<bool>, draws: Draws, rounds: nat, name: Regime, penalty: real, t: nat, tables: Tables, at: nat)
    requires |mask| == N_BINS && true in mask && IsTables(tables)
    ensures |Flatnonzero(mask)| > 0
    ensures t < N_BINS ==> Propose(mask, draws, rounds, name, penalty, t, tables, at).0 == Pick(Flatnonzero(mask), t)
  {
    var m :| 0 <= m < |mask| && mask[m];
    assert m in Flatnonzero(mask);
  }

  /** The arm proposes exactly the bins below `top`. */
  ghost predicate ProposesBelow(a: Arm, top: nat) {
    0 < top <= N_BINS && |a.mask| == N_BINS && forall b :: 0 <= b < N_BINS ==> (a.mask[b] <==> b < top)
  }

  /** The opening sweep proposes every proposable bin, in ascending order, whatever the mask. */
  lemma SweepIsComplete(a: Arm, name: Regime, penalty: real, t: nat)
    requires IsArm(a) && true in a.mask && t >= N_BINS
    ensures var bins, proposals := Flatnonzero(a.mask), After(a, name, penalty, t).proposals;
            && |bins| <= N_BINS && proposals[..|bins|] == bins
            && forall b :: 0 <= b < N_BINS && a.mask[b] ==> b in proposals[..N_BINS]
  {
    hide IsGrid, BinOf;
    var bins, proposals := Flatnonzero(a.mask), After(a, name, penalty, t).proposals;
    NoMoreBinsThanMask(a.mask);
    forall i | 0 <= i < |bins|
      ensures proposals[i] == bins[i]
    {
      OpeningSweep(a, name, penalty, t, i);
      PickInOrder(bins, i);
    }
    forall b | 0 <= b < N_BINS && a.mask[b]
      ensures b in proposals[..N_BINS]
    {
      var i :| 0 <= i < |bins| && bins[i] == b;
      assert proposals[..N_BINS][i] == b;
    }
  }

  lemma {:induction false} NoMoreBinsThanMask(mask: seq<bool>)
    ensures |Flatnonzero(mask)| <= |mask|
  {
    if mask != [] {
      NoMoreBinsThanMask(mask[..|mask| - 1]);
    }
  }

  /** On an initial segment round b proposes bin b. */
  lemma SweepOfInterval(a: Arm, name: Regime, penalty: real, t: nat, top: nat, b: nat)
    requires IsArm(a) && ProposesBelow(a, top) && t >= N_BINS && b < top
    ensures true in a.mask && After(a, name, penalty, t).proposals[b] == b
  {
    assert a.mask[b];
    OpeningSweep(a, name, penalty, t, b);
    SweepOrder(a.mask, top, b);
  }

  lemma SweepOrder(mask: seq<bool>, top: nat, b: nat)
    requires |mask| == N_BINS && b < top <= N_BINS && forall c :: 0 <= c < N_BINS ==> (mask[c] <==> c < top)
    ensures |Flatnonzero(mask)| > 0 && Pick(Flatnonzero(mask), b) == b
  {
    FlatnonzeroInterval(mask, 0, top);
    PickInOrder(Flatnonzero(mask), b);
  }

  /** After the sweep the naive regime claims the clamped reward on every bin of its arm. */
  lemma NaiveTableAfterSweep(a: Arm, penalty: real, t: nat, top: nat)
    requires IsArm(a) && ProposesBelow(a, top) && t >= N_BINS
    ensures true in a.mask
    ensures forall b :: 0 <= b < top ==>
              After(a, NaiveProposedCredit, penalty, t).tables.q[b] == Some(R(a, Min(b, CAP_BIN)))
  {
    SweepOfInterval(a, NaiveProposedCredit, penalty, t, top, 0);
    ClaimsAtEveryRound(a, NaiveProposedCredit, penalty, t);
    forall b | 0 <= b < top
      ensures After(a, NaiveProposedCredit, penalty, t).tables.q[b] == Some(R(a, Min(b, CAP_BIN)))
    {
      SweepOfInterval(a, NaiveProposedCredit, penalty, t, top, b);
      CreditedSomewhere(NaiveProposedCredit, After(a, NaiveProposedCredit, penalty, t).proposals, b);
    }
  }

  /** The least bin with the reward of the cap: below the cap bin only if the reward is flat there. */
  ghost function Plateau(a: Arm, m: nat): (p: nat)
    requires IsArm(a) && m <= CAP_BIN && R(a, m) == R(a, CAP_BIN)
    ensures p <= m && R(a, p) == R(a, CAP_BIN)
    ensures p > 0 ==> R(a, p - 1) < R(a, CAP_BIN)
  {
    if m > 0 && R(a, m - 1) == R(a, CAP_BIN) then Plateau(a, m - 1)
    else
      m
  }

  /** If the score is the clamped reward on every bin of the arm, the tie set is
      the interval from the plateau to the top of the arm. */
  lemma TieSetIsAnInterval(a: Arm, score: seq<Option<real>>, top: nat)
    requires IsArm(a) && ProposesBelow(a, top) && CAP_BIN < top && |score| == N_BINS
    requires forall b :: 0 <= b < top ==> score[b] == Some(R(a, Min(b, CAP_BIN)))
    ensures Tied(score, a.mask) == Interval(Plateau(a, CAP_BIN), top)
  {
    var p := Plateau(a, CAP_BIN);
    forall b | 0 <= b < N_BINS
      ensures AttainsMax(score, a.mask, b) <==> p <= b < top
    {
      forall c | 0 <= c < top
        ensures R(a, Min(c, CAP_BIN)) <= R(a, CAP_BIN)
      {
      }
      if p <= b < top {
      } else if b < p {
        assert Known(score, a.mask, CAP_BIN);
      }
    }
    assert Known(score, a.mask, CAP_BIN);
    FlatnonzeroInterval(seq(N_BINS, b requires 0 <= b < N_BINS => AttainsMax(score, a.mask, b)), p, top);
  }

  /** Censored feedback, at every round after the sweep of the unmasked arm: the
      naive table is the clamped reward on every bin, its tie set reaches from the
      plateau to the top of the grid, and it is exactly the cap and the bins above
      it precisely when the last decibel below the cap still earns something. */
  lemma CensoredTie(a: Arm, penalty: real, t: nat)
    requires IsArm(a) && ProposesBelow(a, N_BINS) && t >= N_BINS
    ensures true in a.mask
    ensures forall b :: 0 <= b < N_BINS ==>
              After(a, NaiveProposedCredit, penalty, t).tables.q[b] == Some(R(a, Min(b, CAP_BIN)))
    ensures var tied := Tied(After(a, NaiveProposedCredit, penalty, t).tables.q, a.mask);
            && tied == Interval(Plateau(a, CAP_BIN), N_BINS)
            && (forall b: nat :: CAP_BIN <= b < N_BINS ==> b in tied)
            && (|tied| == N_BINS - CAP_BIN <==> R(a, CAP_BIN) > R(a, CAP_BIN - 1))
  {
    NaiveTableAfterSweep(a, penalty, t, N_BINS);
    TieSetIsAnInterval(a, After(a, NaiveProposedCredit, penalty, t).tables.q, N_BINS);
    PlateauAtTheCap(a);
  }

  lemma PlateauAtTheCap(a: Arm)
    requires IsArm(a)
    ensures Plateau(a, CAP_BIN) == CAP_BIN <==> R(a, CAP_BIN) > R(a, CAP_BIN - 1)
  {
    if Plateau(a, CAP_BIN) < CAP_BIN {
    }
  }

  /** The tie collapses in the masked arm: after the sweep every regime's tie set
      stops at the cap, and is the cap alone under the same condition. */
  lemma MaskedTieCollapses(a: Arm, name: Regime, penalty: real, t: nat)
    requires IsArm(a) && OnlyFeasible(a) && ProposesBelow(a, CAP_BIN + 1) && t >= N_BINS
    ensures true in a.mask
    ensures var r := After(a, name, penalty, t); var p := Plateau(a, CAP_BIN);
            var tied := Tied(Score(name, penalty, r.tables), a.mask);
            && tied == Interval(p, CAP_BIN + 1)
            && (tied == [CAP_BIN] <==> R(a, CAP_BIN) > R(a, CAP_BIN - 1))
  {
    NaiveTableAfterSweep(a, penalty, t, CAP_BIN + 1);
    Lockstep(a, name, penalty, penalty, t);
    SyncedScores(name, penalty, After(a, name, penalty, t).tables, After(a, NaiveProposedCredit, penalty, t).tables);
    TieSetIsAnInterval(a, After(a, NaiveProposedCredit, penalty, t).tables.q, CAP_BIN + 1);
    PlateauAtTheCap(a);
  }

  // ----- The shaped score of the correction-aware regime -----

  /** The behaviour tables book, for exactly the proposed bins, the clamped reward and the flag. */
  ghost predicate BooksBehaviour(a: Arm, t: Tables, proposals: seq<nat>)
    requires IsArm(a) && IsTables(t)
  {
    forall c :: 0 <= c < N_BINS ==> BooksBin(a, t, proposals, c)
  }

  ghost predicate BooksBin(a: Arm, t: Tables, proposals: seq<nat>, c: nat)
    requires IsArm(a) && IsTables(t) && c < N_BINS
  {
    && t.bVisits[c] == Credited(NaiveProposedCredit, proposals, c)
    && t.rHat[c] == (if t.bVisits[c] == 0 then None else Some(R(a, Min(c, CAP_BIN))))
    && t.pHat[c] == (if t.bVisits[c] == 0 then None else Some(Indicator(a.outcomes[c].projected)))
  }

  lemma BooksBehaviourUpdate(a: Arm, t: Tables, proposals: seq<nat>, b: nat)
    requires IsArm(a) && IsTables(t) && b < N_BINS && BooksBehaviour(a, t, proposals)
    ensures BooksBehaviour(a, CreditStep(CorrectionAware, t, b, Min(b, CAP_BIN), a.outcomes[b]), proposals + [b])
  {
    assert |a.outcomes| == N_BINS;
    hide IsGrid, R, CreditStep, BooksBin;
    forall c | 0 <= c < N_BINS
      ensures BooksBin(a, CreditStep(CorrectionAware, t, b, Min(b, CAP_BIN), a.outcomes[b]), proposals + [b], c)
    {
      BooksBinUpdate(a, t, proposals, b, c);
    }
  }

  lemma BooksBinUpdate(a: Arm, t: Tables, proposals: seq<nat>, b: nat, c: nat)
    requires IsArm(a) && IsTables(t) && b < N_BINS && c < N_BINS && BooksBin(a, t, proposals, c)
    ensures BooksBin(a, CreditStep(CorrectionAware, t, b, Min(b, CAP_BIN), a.outcomes[b]), proposals + [b], c)
  {
    assert a.outcomes[b].reward == R(a, Min(b, CAP_BIN));
    hide IsGrid, IsArm, R;
    CreditedAppend(NaiveProposedCredit, proposals, b, c);
  }

  lemma {:induction false} BehaviourAtEveryRound(a: Arm, penalty: real, t: nat)
    requires IsArm(a) && true in a.mask
    ensures var r := After(a, CorrectionAware, penalty, t); BooksBehaviour(a, r.tables, r.proposals)
  {
    if t > 0 {
      BehaviourAtEveryRound(a, penalty, t - 1);
      var b := Round(a, CorrectionAware, penalty, t);
      var r0 := After(a, CorrectionAware, penalty, t - 1);
      BooksBehaviourUpdate(a, r0.tables, r0.proposals, b);
    }
  }

  /** After the sweep of the unmasked arm the score is the clamped reward, less the penalty above the cap. */
  lemma ShapedScore(a: Arm, penalty: real, t: nat, b: nat)
    requires IsArm(a) && ProposesBelow(a, N_BINS) && FlagsTheCap(a.outcomes) && t >= N_BINS && b < N_BINS
    ensures true in a.mask
    ensures var score := Score(CorrectionAware, penalty, After(a, CorrectionAware, penalty, t).tables);
            score[b] == Some(R(a, Min(b, CAP_BIN)) - if b > CAP_BIN then penalty else 0.0)
  {
    SweepOfInterval(a, CorrectionAware, penalty, t, N_BINS, b);
    BehaviourAtEveryRound(a, penalty, t);
    var r := After(a, CorrectionAware, penalty, t);
    hide After, IsGrid, R, ProposesBelow;
    CreditedSomewhere(NaiveProposedCredit, r.proposals, b);
    assert CreditBin(NaiveProposedCredit, r.proposals[b]) == b;
    assert BooksBin(a, r.tables, r.proposals, b);
    hide Credited, BooksBehaviour, CreditBin;
    ShapedEntry(a, penalty, r.tables, r.proposals, b);
  }

  lemma ShapedEntry(a: Arm, penalty: real, t: Tables, proposals: seq<nat>, b: nat)
    requires IsArm(a) && IsTables(t) && FlagsTheCap(a.outcomes) && b < N_BINS
    requires BooksBin(a, t, proposals, b) && Credited(NaiveProposedCredit, proposals, b) > 0
    ensures Score(CorrectionAware, penalty, t)[b] == Some(R(a, Min(b, CAP_BIN)) - if b > CAP_BIN then penalty else 0.0)
  {
    hide R, Credited;
    assert penalty * 1.0 == penalty && penalty * 0.0 == 0.0;
  }

  /** The correction penalty is load-bearing in the unmasked arm: after the sweep a positive one cuts
      the tie set off at the cap, a zero one leaves the naive regime's tie with every bin above it,
      and a negative one leaves only bins above it. */
  lemma PenaltyBreaksTheTie(a: Arm, penalty: real, t: nat)
    requires IsArm(a) && ProposesBelow(a, N_BINS) && FlagsTheCap(a.outcomes) && t >= N_BINS
    ensures true in a.mask
    ensures Tied(Score(CorrectionAware, penalty, After(a, CorrectionAware, penalty, t).tables), a.mask)
            == if penalty > 0.0 then Interval(Plateau(a, CAP_BIN), CAP_BIN + 1)
               else if penalty == 0.0 then Interval(Plateau(a, CAP_BIN), N_BINS)
               else Interval(CAP_BIN + 1, N_BINS)
  {
    ShapedScore(a, penalty, t, 0);
    var score := Score(CorrectionAware, penalty, After(a, CorrectionAware, penalty, t).tables);
    forall b | 0 <= b < N_BINS
      ensures score[b] == Some(R(a, Min(b, CAP_BIN)) - if b > CAP_BIN then penalty else 0.0)
    {
      ShapedScore(a, penalty, t, b);
    }
    hide After, Score;
    ShapedTie(a, penalty, score);
  }

  lemma ShapedTie(a: Arm, penalty: real, score: seq<Option<real>>)
    requires IsArm(a) && ProposesBelow(a, N_BINS) && |score| == N_BINS
    requires forall b :: 0 <= b < N_BINS ==>
               score[b] == Some(R(a, Min(b, CAP_BIN)) - if b > CAP_BIN then penalty else 0.0)
    ensures Tied(score, a.mask)
            == if penalty > 0.0 then Interval(Plateau(a, CAP_BIN), CAP_BIN + 1)
               else if penalty == 0.0 then Interval(Plateau(a, CAP_BIN), N_BINS)
               else Interval(CAP_BIN + 1, N_BINS)
  {
    var p := Plateau(a, CAP_BIN);
    var lo := if penalty < 0.0 then CAP_BIN + 1 else p;
    var hi := if penalty > 0.0 then CAP_BIN + 1 else N_BINS;
    assert Known(score, a.mask, CAP_BIN) && Known(score, a.mask, CAP_BIN + 1);
    forall c | 0 <= c < N_BINS
      ensures R(a, Min(c, CAP_BIN)) <= R(a, CAP_BIN)
      ensures c < p ==> R(a, Min(c, CAP_BIN)) < R(a, CAP_BIN)
      ensures c >= p ==> R(a, Min(c, CAP_BIN)) == R(a, CAP_BIN)
    {
      if c < p {
        assert R(a, c) <= R(a, p - 1);
      } else {
        assert R(a, p) <= R(a, Min(c, CAP_BIN));
      }
    }
    hide IsGrid, R, Plateau;
    forall b | 0 <= b < N_BINS
      ensures AttainsMax(score, a.mask, b) <==> lo <= b < hi
    {
    }
    FlatnonzeroInterval(seq(N_BINS, b requires 0 <= b < N_BINS => AttainsMax(score, a.mask, b)), lo, hi);
  }
}
