/** The optimistic batch bandit of the exploration benchmark
    (benchmarks/exploration_truncation_loop.py): greedy batches over a value table
    that is rebuilt after every round from the verified evidence chain. */
module Exploration {
  import opened Common
  import opened ShieldedEnv

  const EIRP_MIN_DBM: real := 20.0
  const N_EIRPS: nat := 33
  const N_FREQS: nat := 9
  const N_ARMS: nat := 297
  const BATCH_PER_ROUND: nat := 24
  const OPTIMISTIC_INIT: real := 1.0
  const CORRECTION_PENALTY: real := 0.25
  const TIE: real := 0.000000000001

  // ----- The arm space -----

  /** Six in-band subband centres and three more, evenly spaced, beyond the band. */
  function FreqBin(f: nat): real {
    SubbandCenterHz(f)
  }

  function ArmAction(arm: nat): SpectrumAction {
    SpectrumAction(FreqBin(arm / N_EIRPS), EIRP_MIN_DBM + (arm % N_EIRPS) as real - ANTENNA_GAIN_DBI)
  }

  /** The arm a logged proposal belongs to; off the grid this raises. */
  function ArmFromProposal(frequencyHz: real, eirpDbm: real): (r: Result<nat>)
    ensures r.Ok? ==> r.value < N_ARMS
  {
    var f := ArgMax(seq(N_FREQS, i requires 0 <= i => -Abs(FreqBin(i) - frequencyHz)));
    var e := RoundHalfEven(eirpDbm - EIRP_MIN_DBM);
    if Abs(FreqBin(f) - frequencyHz) > 1.0 then Err("not an action-space bin")
    else if 0 <= e < N_EIRPS then Ok(f * N_EIRPS + e)
    else Err("not an action-space bin")
  }

  lemma NearestBinIsItself(f: nat)
    requires f < N_FREQS
    ensures ArgMax(seq(N_FREQS, i requires 0 <= i => -Abs(FreqBin(i) - FreqBin(f)))) == f
  {
    var distances := seq(N_FREQS, i requires 0 <= i => -Abs(FreqBin(i) - FreqBin(f)));
    var j := ArgMax(distances);
    assert distances[f] == 0.0;
    BinsAreDistinct(j, f);
  }

  lemma BinsAreDistinct(i: nat, j: nat)
    ensures FreqBin(i) == FreqBin(j) ==> i == j
  {
    assert FreqBin(i) - FreqBin(j) == (i as real - j as real) * ((BAND_HI_HZ - BAND_LO_HZ) / (N_SUBBANDS as real));
  }

  /** The chain identifies the arm: every arm's logged proposal is read back as that arm. */
  lemma ArmRoundTrip(arm: nat)
    requires arm < N_ARMS
    ensures ArmFromProposal(ArmAction(arm).frequencyHz, ArmAction(arm).EirpDbm()) == Ok(arm)
  {
    NearestBinIsItself(arm / N_EIRPS);
    assert ArmAction(arm).EirpDbm() - EIRP_MIN_DBM == (arm % N_EIRPS) as real;
    assert (arm / N_EIRPS) * N_EIRPS + arm % N_EIRPS == arm;
  }

  // ----- One learner as a function of its random draws -----

  /** `signals[a]` is what the chain teaches about arm `a` (the environment is
      deterministic), `allowed` the proposable arms in order, `draws` the random stream. */
  datatype Learner = Learner(signals: seq<real>, allowed: seq<nat>, draws: nat -> nat)

  /** The proposable arms index the value table, and there is one. */
  ghost predicate Indexes(allowed: seq<nat>, q: seq<real>) {
    |allowed| > 0 && forall i :: 0 <= i < |allowed| ==> allowed[i] < |q|
  }

  ghost predicate IsLearner(l: Learner) {
    && Indexes(l.allowed, l.signals)
    && (forall i, j :: 0 <= i < j < |l.allowed| ==> l.allowed[i] != l.allowed[j])
  }

  /** The table rebuilt from a history of proposals: the signal of every tried arm, the optimistic prior elsewhere. */
  function QTable(signals: seq<real>, proposals: seq<nat>): (q: seq<real>)
    ensures |q| == |signals|
  {
    seq(|signals|, a requires 0 <= a < |signals| => if a in proposals then signals[a] else OPTIMISTIC_INIT)
  }

  lemma SameIndexes(l: Learner, proposals: seq<nat>)
    requires IsLearner(l)
    ensures Indexes(l.allowed, QTable(l.signals, proposals))
  {
  }

  /** Within TIE of the best allowed arm. */
  predicate IsBest(allowed: seq<nat>, q: seq<real>, a: nat)
    requires Indexes(allowed, q)
    requires a < |q|
  {
    forall i :: 0 <= i < |allowed| ==> q[a] >= q[allowed[i]] - TIE
  }

  function BestArms(allowed: seq<nat>, q: seq<real>, n: nat): (r: seq<nat>)
    requires Indexes(allowed, q)
    requires n <= |allowed|
    ensures forall a :: a in r <==> a in allowed[..n] && IsBest(allowed, q, a)
  {
    if n == 0 then []
    else
      assert allowed[..n] == allowed[..n - 1] + [allowed[n - 1]];
      BestArms(allowed, q, n - 1) + if IsBest(allowed, q, allowed[n - 1]) then [allowed[n - 1]] else []
  }

  function Fresh(best: seq<nat>, chosen: seq<nat>): (r: seq<nat>)
    ensures forall a :: a in r <==> a in best && a !in chosen
  {
    if best == [] then []
    else
      var n := |best| - 1;
      Fresh(best[..n], chosen) + if best[n] in chosen then [] else [best[n]]
  }

  lemma {:induction false} SomeArmIsBest(allowed: seq<nat>, q: seq<real>)
    requires Indexes(allowed, q)
    ensures |BestArms(allowed, q, |allowed|)| > 0
  {
    var values := seq(|allowed|, i requires 0 <= i < |allowed| => q[allowed[i]]);
    var m := allowed[ArgMax(values)];
    assert forall i :: 0 <= i < |allowed| ==> values[i] == q[allowed[i]];
    assert m in allowed[..|allowed|] && IsBest(allowed, q, m);
    assert m in BestArms(allowed, q, |allowed|);
  }

  /** The arms the next draw chooses among: the best ones not yet proposed this round, else the best ones. */
  function Candidates(allowed: seq<nat>, q: seq<real>, chosen: seq<nat>): (r: seq<nat>)
    requires Indexes(allowed, q)
    ensures |r| > 0
    ensures forall a :: a in r ==> a in allowed && a < |q| && IsBest(allowed, q, a)
  {
    SomeArmIsBest(allowed, q);
    var best := BestArms(allowed, q, |allowed|);
    assert allowed[..|allowed|] == allowed;
    var unseen := Fresh(best, chosen);
    if |unseen| > 0 then unseen else best
  }

  /** The first `k` proposals of a round whose table is `q` and whose draws start at `at`. */
  function Batch(allowed: seq<nat>, q: seq<real>, draws: nat -> nat, at: nat, k: nat): (r: seq<nat>)
    requires Indexes(allowed, q)
    ensures |r| == k
    ensures forall a :: a in r ==> a in allowed && a < |q| && IsBest(allowed, q, a)
  {
    if k == 0 then []
    else
      var before := Batch(allowed, q, draws, at, k - 1);
      before + [Pick(Candidates(allowed, q, before), draws(at + k - 1))]
  }

  /** Environment steps taken before round `r`: r batches of BATCH_PER_ROUND. */
  function StepsBefore(r: nat): nat {
    24 * r
  }

  /** All proposals of the first `r` rounds. */
  function Proposals(l: Learner, r: nat): (s: seq<nat>)
    requires IsLearner(l)
    ensures |s| == StepsBefore(r)
    ensures forall a :: a in s ==> a in l.allowed
    decreases r
  {
    if r == 0 then []
    else
      var before := Proposals(l, r - 1);
      before + RoundBatch(l, before, r - 1)
  }

  /** The proposals of round `r`, made on the table rebuilt from the proposals before it. */
  function RoundBatch(l: Learner, before: seq<nat>, r: nat): (s: seq<nat>)
    requires IsLearner(l)
    ensures |s| == BATCH_PER_ROUND
    ensures forall a :: a in s ==> a in l.allowed && a < |l.signals|
  {
    Batch(l.allowed, QTable(l.signals, before), l.draws, StepsBefore(r), BATCH_PER_ROUND)
  }

  function Elements(s: seq<nat>): set<nat> {
    set a | a in s
  }

  // ----- The sweep -----

  /** Every allowed arm's signal is clearly below the optimistic prior. */
  ghost predicate PriorDominates(l: Learner) {
    IsLearner(l) && forall i :: 0 <= i < |l.allowed| ==> l.signals[l.allowed[i]] < OPTIMISTIC_INIT - TIE
  }

  /** While untried arms remain, they are exactly the best ones. */
  lemma UntriedAreBest(l: Learner, before: seq<nat>, u: nat, a: nat)
    requires PriorDominates(l)
    requires u in l.allowed && u !in before && a in l.allowed
    ensures a < |l.signals| && (IsBest(l.allowed, QTable(l.signals, before), a) <==> a !in before)
  {
    var q := QTable(l.signals, before);
    var i :| 0 <= i < |l.allowed| && l.allowed[i] == u;
    var j :| 0 <= j < |l.allowed| && l.allowed[j] == a;
    assert q[l.allowed[i]] == OPTIMISTIC_INIT;
    assert forall k :: 0 <= k < |l.allowed| ==> q[l.allowed[k]] <= OPTIMISTIC_INIT;
  }

  lemma SubsetCardinality(a: set<nat>, b: set<nat>)
    requires a <= b
    ensures |a| <= |b| && (|a| == |b| ==> a == b)
  {
    if a != b {
      assert |b| == |a| + |b - a| by {
        assert b == a + (b - a);
      }
      assert b - a != {};
    }
  }

  /** While `todo` arms are untried, the first k proposals of a round try min(k, todo) of them, and nothing else. */
  lemma {:induction false} BatchTriesNewArms(l: Learner, before: seq<nat>, at: nat, k: nat)
    requires PriorDominates(l)
    requires Elements(l.allowed) - Elements(before) != {}
    ensures var todo := Elements(l.allowed) - Elements(before);
            var batch := Elements(Batch(l.allowed, QTable(l.signals, before), l.draws, at, k));
            batch <= todo && |batch| == Min(k, |todo|)
  {
    hide QTable, IsBest, Candidates, Indexes, Elements, IsLearner, PriorDominates;
    if k == 0 {
      ElementsOfNothing();
    } else {
      BatchTriesNewArms(l, before, at, k - 1);
      BatchTriesOneMore(l, before, at, k);
    }
  }

  lemma BatchTriesOneMore(l: Learner, before: seq<nat>, at: nat, k: nat)
    requires PriorDominates(l) && k > 0
    requires Elements(l.allowed) - Elements(before) != {}
    requires var todo := Elements(l.allowed) - Elements(before);
             var batch := Elements(Batch(l.allowed, QTable(l.signals, before), l.draws, at, k - 1));
             batch <= todo && |batch| == Min(k - 1, |todo|)
    ensures var todo := Elements(l.allowed) - Elements(before);
            var batch := Elements(Batch(l.allowed, QTable(l.signals, before), l.draws, at, k));
            batch <= todo && |batch| == Min(k, |todo|)
  {
    SameIndexes(l, before);
    BatchStep(l.allowed, QTable(l.signals, before), l.draws, at, k);
    hide QTable, Batch, IsBest, Candidates, Indexes, Elements, IsLearner, PriorDominates;
    var q, todo := QTable(l.signals, before), Elements(l.allowed) - Elements(before);
    var batch := Batch(l.allowed, q, l.draws, at, k - 1);
    var pick := Pick(Candidates(l.allowed, q, batch), l.draws(at + k - 1));
    PickIsNew(l, before, batch, pick);
    ElementsAppend(batch, [pick]);
    OneMore(Elements(batch), todo, pick, k);
  }

  lemma BatchStep(allowed: seq<nat>, q: seq<real>, draws: nat -> nat, at: nat, k: nat)
    requires Indexes(allowed, q)
    ensures Batch(allowed, q, draws, at, 0) == []
    ensures k > 0 ==> var before := Batch(allowed, q, draws, at, k - 1);
                      Batch(allowed, q, draws, at, k) == before + [Pick(Candidates(allowed, q, before), draws(at + k - 1))]
  {
  }

  lemma ElementsOfNothing()
    ensures Elements([]) == {}
  {
  }

  lemma ElementsAppend(s: seq<nat>, t: seq<nat>)
    ensures Elements(s + t) == Elements(s) + Elements(t)
    ensures |t| == 1 ==> Elements(t) == {t[0]}
    ensures forall a :: a in Elements(s) <==> a in s
  {
  }

  lemma OneMore(done: set<nat>, todo: set<nat>, pick: nat, k: nat)
    requires k > 0 && done <= todo && |done| == Min(k - 1, |todo|) && pick in todo
    requires done < todo ==> pick !in done
    ensures done + {pick} <= todo && |done + {pick}| == Min(k, |todo|)
  {
    SubsetCardinality(done, todo);
    if done == todo {
      assert done + {pick} == done;
    } else {
      SubsetCardinality(done + {pick}, todo);
    }
  }

  /** The next pick is an untried arm, and a new one as long as this round has not exhausted them. */
  lemma PickIsNew(l: Learner, before: seq<nat>, batch: seq<nat>, pick: nat)
    requires PriorDominates(l)
    requires pick in Candidates(l.allowed, QTable(l.signals, before), batch)
    requires Elements(l.allowed) - Elements(before) != {}
    ensures pick in Elements(l.allowed) - Elements(before)
    ensures Elements(batch) < Elements(l.allowed) - Elements(before) ==> pick !in batch
  {
    var q, todo, done := QTable(l.signals, before), Elements(l.allowed) - Elements(before), Elements(batch);
    var u :| u in todo;
    UntriedAreBest(l, before, u, pick);
    hide QTable, IsBest, Candidates;
    if done < todo {
      var v :| v in todo && v !in done;
      UntriedAreBest(l, before, u, v);
      FreshIsPreferred(l.allowed, q, batch, v);
    }
  }

  lemma FreshIsPreferred(allowed: seq<nat>, q: seq<real>, chosen: seq<nat>, v: nat)
    requires Indexes(allowed, q)
    requires v in allowed && v < |q| && IsBest(allowed, q, v) && v !in chosen
    ensures forall a :: a in Candidates(allowed, q, chosen) ==> a !in chosen
  {
    assert allowed[..|allowed|] == allowed;
    assert v in Fresh(BestArms(allowed, q, |allowed|), chosen);
  }

  lemma {:induction false} DistinctCount(s: seq<nat>)
    requires forall i, j :: 0 <= i < j < |s| ==> s[i] != s[j]
    ensures |Elements(s)| == |s|
  {
    if s == [] {
      assert Elements(s) == {};
    } else {
      var n := |s| - 1;
      DistinctCount(s[..n]);
      assert Elements(s) == Elements(s[..n]) + {s[n]};
    }
  }

  /** The sweep: as long as no signal reaches the optimistic prior, exactly
      min(n, r * BATCH_PER_ROUND) of the n allowed arms have been tried after r
      rounds, whatever the random draws. */
  lemma SweepProgress(l: Learner, r: nat)
    requires PriorDominates(l)
    ensures |Elements(Proposals(l, r))| == Min(|l.allowed|, StepsBefore(r))
  {
    SweepCount(l, r);
    DistinctCount(l.allowed);
  }

  lemma {:induction false} SweepCount(l: Learner, r: nat)
    requires PriorDominates(l)
    ensures |Elements(Proposals(l, r))| == Min(|Elements(l.allowed)|, StepsBefore(r))
    decreases r
  {
    hide Elements, RoundBatch;
    if r == 0 {
      ElementsOfNothing();
    } else {
      SweepCount(l, r - 1);
      SweepRound(l, r);
    }
  }

  lemma SweepRound(l: Learner, r: nat)
    requires PriorDominates(l) && r > 0
    requires |Elements(Proposals(l, r - 1))| == Min(|Elements(l.allowed)|, StepsBefore(r - 1))
    ensures |Elements(Proposals(l, r))| == Min(|Elements(l.allowed)|, StepsBefore(r))
  {
    hide Elements, RoundBatch;
    var tried := OneRound(l, Proposals(l, r - 1), r - 1, StepsBefore(r - 1));
    assert tried == Proposals(l, r);
  }

  /** One round raises the number of tried arms by the batch size, up to all of them. */
  lemma OneRound(l: Learner, before: seq<nat>, r: nat, n: nat) returns (tried: seq<nat>)
    requires PriorDominates(l) && forall a :: a in before ==> a in l.allowed
    requires |Elements(before)| == Min(|Elements(l.allowed)|, n)
    ensures tried == before + RoundBatch(l, before, r)
    ensures |Elements(tried)| == Min(|Elements(l.allowed)|, n + BATCH_PER_ROUND)
  {
    var batch := RoundBatch(l, before, r);
    tried := before + batch;
    ElementsAppend(before, batch);
    ElementsWithin(before, l.allowed);
    ElementsWithin(batch, l.allowed);
    hide Batch, QTable, Elements;
    if Elements(l.allowed) - Elements(before) != {} {
      BatchTriesNewArms(l, before, StepsBefore(r), BATCH_PER_ROUND);
    }
    OneRoundMore(Elements(before), Elements(l.allowed), Elements(batch), n);
  }

  lemma ElementsWithin(s: seq<nat>, t: seq<nat>)
    requires forall a :: a in s ==> a in t
    ensures Elements(s) <= Elements(t)
  {
  }

  lemma OneRoundMore(tried: set<nat>, all: set<nat>, batch: set<nat>, n: nat)
    requires tried <= all && batch <= all && |tried| == Min(|all|, n)
    requires all - tried != {} ==> batch <= all - tried && |batch| == Min(BATCH_PER_ROUND, |all - tried|)
    ensures |tried + batch| == Min(|all|, n + BATCH_PER_ROUND)
  {
    assert all == tried + (all - tried);
    assert |all| == |tried| + |all - tried|;
    if all - tried == {} {
      assert tried + batch == all;
    } else {
      assert |tried + batch| == |tried| + |batch|;
    }
  }

  // ----- Graduation -----

  ghost predicate AllTried(l: Learner, proposals: seq<nat>) {
    forall a :: a in l.allowed ==> a in proposals
  }

  /** Every infeasible allowed arm is more than TIE below some allowed arm. */
  ghost predicate InfeasibleIsWorse(l: Learner, feasible: seq<bool>)
    requires IsLearner(l) && |feasible| == |l.signals|
  {
    forall a :: a in l.allowed && !feasible[a] ==> !IsBest(l.allowed, l.signals, a)
  }

  lemma BestByTheSignals(l: Learner, proposals: seq<nat>, a: nat)
    requires IsLearner(l) && AllTried(l, proposals) && a in l.allowed
    ensures a < |l.signals|
    ensures IsBest(l.allowed, QTable(l.signals, proposals), a) <==> IsBest(l.allowed, l.signals, a)
  {
    var q := QTable(l.signals, proposals);
    assert forall i :: 0 <= i < |l.allowed| ==> l.allowed[i] in l.allowed && q[l.allowed[i]] == l.signals[l.allowed[i]];
  }

  /** Once every allowed arm has been tried, a later round proposes no infeasible
      arm under any draws exactly when every infeasible arm is more than TIE worse
      than some allowed one. */
  lemma GraduationExactly(l: Learner, feasible: seq<bool>, proposals: seq<nat>, at: nat)
    requires IsLearner(l) && |feasible| == |l.signals| && AllTried(l, proposals)
    ensures InfeasibleIsWorse(l, feasible) <==>
            forall draws: nat -> nat, a ::
              a in Batch(l.allowed, QTable(l.signals, proposals), draws, at, BATCH_PER_ROUND) ==> feasible[a]
  {
    var q := QTable(l.signals, proposals);
    if InfeasibleIsWorse(l, feasible) {
      forall draws: nat -> nat, a | a in Batch(l.allowed, q, draws, at, BATCH_PER_ROUND)
        ensures feasible[a]
      {
        BestByTheSignals(l, proposals, a);
      }
    } else {
      var a :| a in l.allowed && !feasible[a] && IsBest(l.allowed, l.signals, a);
      BestByTheSignals(l, proposals, a);
      var draws := SomeDrawsPropose(l.allowed, q, at, a);
      assert !feasible[a];
    }
  }

  /** A best arm is proposed under some draws. */
  lemma SomeDrawsPropose(allowed: seq<nat>, q: seq<real>, at: nat, a: nat) returns (draws: nat -> nat)
    requires Indexes(allowed, q)
    requires a in allowed && a < |q| && IsBest(allowed, q, a)
    ensures a in Batch(allowed, q, draws, at, BATCH_PER_ROUND)
  {
    var candidates := Candidates(allowed, q, []);
    assert allowed[..|allowed|] == allowed;
    assert a in Fresh(BestArms(allowed, q, |allowed|), []);
    var i: nat :| i < |candidates| && candidates[i] == a;
    draws := _ => i;
    PickInOrder(candidates, i);
    assert Batch(allowed, q, draws, at, 0) == [];
    assert Batch(allowed, q, draws, at, 1)[0] == a;
    BatchGrows(allowed, q, draws, at, 1, BATCH_PER_ROUND);
  }

  lemma {:induction false} BatchGrows(allowed: seq<nat>, q: seq<real>, draws: nat -> nat, at: nat, j: nat, k: nat)
    requires Indexes(allowed, q)
    requires j <= k
    ensures Batch(allowed, q, draws, at, j) <= Batch(allowed, q, draws, at, k)
  {
    hide IsBest, Candidates;
    if j < k {
      BatchGrows(allowed, q, draws, at, j, k - 1);
      assert Batch(allowed, q, draws, at, k - 1) <= Batch(allowed, q, draws, at, k);
    }
  }

  /** Graduation of a whole run: if no signal reaches the prior and every
      infeasible arm is more than TIE worse than some allowed arm, then no round
      after the sweep ever proposes an infeasible arm again. */
  lemma Graduates(l: Learner, feasible: seq<bool>, r: nat)
    requires PriorDominates(l) && |feasible| == |l.signals| && InfeasibleIsWorse(l, feasible)
    requires StepsBefore(r) >= |l.allowed|
    ensures forall a :: a in RoundBatch(l, Proposals(l, r), r) ==> feasible[a]
  {
    SweepIsComplete(l, r);
    var before := Proposals(l, r);
    forall a | a in RoundBatch(l, before, r)
      ensures feasible[a]
    {
      BestByTheSignals(l, before, a);
    }
  }

  lemma SweepIsComplete(l: Learner, r: nat)
    requires PriorDominates(l) && StepsBefore(r) >= |l.allowed|
    ensures AllTried(l, Proposals(l, r))
  {
    SweepProgress(l, r);
    DistinctCount(l.allowed);
    SubsetCardinality(Elements(Proposals(l, r)), Elements(l.allowed));
    forall a | a in l.allowed
      ensures a in Proposals(l, r)
    {
      assert a in Elements(l.allowed);
    }
  }

  // ----- The learner in the Shielded environment -----

  /** One learner step as the chain records it. */
  datatype Logged = Logged(
    decisionId: string, frequencyHz: real, eirpDbm: real, reward: real, projected: bool, guardRefused: bool)

  function Signal(reward: real, projected: bool, guardRefused: bool, correctionAware: bool): real {
    if correctionAware && (projected || guardRefused) then reward - CORRECTION_PENALTY else reward
  }

  lemma FreqBinPositive(f: nat)
    ensures FreqBin(f) > 0.0
  {
    assert FreqBin(f) >= BAND_LO_HZ;
  }

  ghost function ArmOutcome(env: Env, arm: nat): StepResult
    requires IsEnv(env)
  {
    FreqBinPositive(arm / N_EIRPS);
    StepOf(env, ArmAction(arm))
  }

  /** What the chain teaches about each arm. */
  ghost function Signals(env: Env, correctionAware: bool): (s: seq<real>)
    requires IsEnv(env)
    ensures |s| == N_ARMS
  {
    seq(N_ARMS, arm requires 0 <= arm =>
      var res := ArmOutcome(env, arm);
      Signal(res.reward, res.projected, res.guardRefused, correctionAware))
  }

  function LoggedStep(decisionId: string, res: StepResult): Logged {
    Logged(decisionId, res.proposed.frequencyHz, res.proposed.EirpDbm(), res.reward, res.projected, res.guardRefused)
  }

  /** The chain `after` is `before` with this learner's records of `proposals` appended in order. */
  ghost predicate Logs(env: Env, name: string, before: seq<Logged>, after: seq<Logged>, proposals: seq<nat>)
    requires IsEnv(env)
  {
    && |after| == |before| + |proposals| && before <= after
    && forall i :: 0 <= i < |proposals| ==> Records(env, name, after[|before| + i], proposals[i])
  }

  /** The record of one step of this learner. */
  ghost predicate Records(env: Env, name: string, e: Logged, arm: nat)
    requires IsEnv(env)
  {
    name + "-" <= e.decisionId && e == LoggedStep(e.decisionId, ArmOutcome(env, arm))
  }

  /** No record on the chain belongs to this learner yet. */
  ghost predicate Foreign(chain: seq<Logged>, name: string) {
    forall e :: e in chain ==> !(name + "-" <= e.decisionId)
  }

  /** The table rebuilt from a chain by reading this learner's records in order. */
  function ReplayTable(name: string, correctionAware: bool, chain: seq<Logged>): (r: Result<seq<real>>)
    ensures r.Ok? ==> |r.value| == N_ARMS
  {
    if chain == [] then Ok(seq(N_ARMS, _ => OPTIMISTIC_INIT))
    else
      var n := |chain| - 1;
      match ReplayTable(name, correctionAware, chain[..n])
      case Err(e) => Err(e)
      case Ok(q) =>
        var t := chain[n];
        if !(name + "-" <= t.decisionId) then Ok(q)
        else
          match ArmFromProposal(t.frequencyHz, t.eirpDbm)
          case Err(e) => Err(e)
          case Ok(arm) => Ok(q[arm := Signal(t.reward, t.projected, t.guardRefused, correctionAware)])
  }

  lemma {:induction false} ForeignReplay(name: string, correctionAware: bool, chain: seq<Logged>)
    requires Foreign(chain, name)
    ensures ReplayTable(name, correctionAware, chain) == Ok(seq(N_ARMS, _ => OPTIMISTIC_INIT))
  {
    hide ArmFromProposal;
    if chain != [] {
      var n := |chain| - 1;
      assert chain[n] in chain;
      ForeignReplay(name, correctionAware, chain[..n]);
    }
  }

  /** Replaying a learner's own records, wherever the chain began, is the signal
      of every tried arm over the optimistic prior. */
  lemma {:induction false} ReplayIsQTable(env: Env, name: string, correctionAware: bool,
                                          before: seq<Logged>, chain: seq<Logged>, proposals: seq<nat>)
    requires IsEnv(env) && Foreign(before, name) && Logs(env, name, before, chain, proposals)
    requires forall a :: a in proposals ==> a < N_ARMS
    ensures ReplayTable(name, correctionAware, chain) == Ok(QTable(Signals(env, correctionAware), proposals))
  {
    hide ArmFromProposal, ArmOutcome, ArmAction;
    var signals := Signals(env, correctionAware);
    if proposals == [] {
      assert chain == before;
      ForeignReplay(name, correctionAware, before);
      assert QTable(signals, []) == seq(N_ARMS, _ => OPTIMISTIC_INIT);
    } else {
      var n, m := |chain| - 1, |proposals| - 1;
      var arm := proposals[m];
      assert arm in proposals && forall a :: a in proposals[..m] ==> a in proposals;
      ReplayIsQTable(env, name, correctionAware, before, chain[..n], proposals[..m]);
      LoggedArm(env, arm, chain[n].decisionId);
      assert chain[n] == chain[|before| + m];
      assert QTable(signals, proposals) == QTable(signals, proposals[..m])[arm := signals[arm]] by {
        assert proposals == proposals[..m] + [arm];
      }
    }
  }

  lemma LoggedArm(env: Env, arm: nat, id: string)
    requires IsEnv(env) && arm < N_ARMS
    ensures var t := LoggedStep(id, ArmOutcome(env, arm)); ArmFromProposal(t.frequencyHz, t.eirpDbm) == Ok(arm)
  {
    ArmRoundTrip(arm);
  }

  function Allowed(mask: Option<seq<bool>>): seq<nat> {
    match mask
    case None => seq(N_ARMS, i => i)
    case Some(m) => Flatnonzero(m)
  }

  ghost function LearnerOf(env: Env, correctionAware: bool, mask: Option<seq<bool>>, draws: nat -> nat): Learner
    requires IsEnv(env)
  {
    Learner(Signals(env, correctionAware), Allowed(mask), draws)
  }

  lemma AllowedArms(env: Env, correctionAware: bool, mask: Option<seq<bool>>, draws: nat -> nat)
    requires IsEnv(env) && (mask.Some? ==> |mask.value| == N_ARMS)
    ensures |Allowed(mask)| > 0 ==> IsLearner(LearnerOf(env, correctionAware, mask, draws))
  {
    if mask.Some? {
      FlatnonzeroIncreasing(mask.value);
      var allowed := Allowed(mask);
      assert forall i :: 0 <= i < |allowed| ==> allowed[i] in allowed;
      assert Increasing(allowed);
    }
  }

  /** The rebuild at the end of a round: a table of priors, overwritten record by record. */
  method Rebuild(name: string, correctionAware: bool, chain: seq<Logged>) returns (r: Result<array<real>>)
    ensures r.Ok? <==> ReplayTable(name, correctionAware, chain).Ok?
    ensures r.Ok? ==> fresh(r.value) && r.value[..] == ReplayTable(name, correctionAware, chain).value
  {
    hide ArmFromProposal;
    var q := new real[N_ARMS](_ => OPTIMISTIC_INIT);
    assert q[..] == seq(N_ARMS, _ => OPTIMISTIC_INIT);
    for i := 0 to |chain|
      invariant ReplayTable(name, correctionAware, chain[..i]) == Ok(q[..])
    {
      var t := chain[i];
      assert chain[..i + 1][..i] == chain[..i];
      ReplayStopsAtError(name, correctionAware, chain, i + 1);
      if name + "-" <= t.decisionId {
        var arm := ArmFromProposal(t.frequencyHz, t.eirpDbm);
        if arm.Err? {
          return Err(arm.error);
        }
        q[arm.value] := Signal(t.reward, t.projected, t.guardRefused, correctionAware);
      }
    }
    assert chain[..|chain|] == chain;
    r := Ok(q);
  }

  lemma {:induction false} ReplayStopsAtError(name: string, correctionAware: bool, chain: seq<Logged>, n: nat)
    requires n <= |chain|
    ensures ReplayTable(name, correctionAware, chain[..n]).Err? ==> ReplayTable(name, correctionAware, chain).Err?
  {
    hide ArmFromProposal;
    if n < |chain| {
      var m := |chain| - 1;
      assert chain[..m][..n] == chain[..n];
      ReplayStopsAtError(name, correctionAware, chain[..m], n);
    } else {
      assert chain[..n] == chain;
    }
  }

  lemma NothingLogged(env: Env, name: string, prior: seq<Logged>, correctionAware: bool)
    requires IsEnv(env)
    ensures Logs(env, name, prior, prior, [])
    ensures QTable(Signals(env, correctionAware), []) == seq(N_ARMS, _ => OPTIMISTIC_INIT)
  {
    hide Signals, ArmOutcome;
    var q := QTable(Signals(env, correctionAware), []);
    assert forall a :: 0 <= a < N_ARMS ==> q[a] == OPTIMISTIC_INIT;
  }

  lemma LogsGrow(env: Env, name: string, before: seq<Logged>, chain: seq<Logged>, proposals: seq<nat>, arm: nat, tag: string)
    requires IsEnv(env) && Logs(env, name, before, chain, proposals)
    ensures Logs(env, name, before, chain + [LoggedStep(name + "-" + tag, ArmOutcome(env, arm))], proposals + [arm])
  {
    hide ArmOutcome;
    var e := LoggedStep(name + "-" + tag, ArmOutcome(env, arm));
    assert name + "-" <= e.decisionId;
    assert Records(env, name, e, arm);
    hide Records;
    var longer := chain + [e];
    forall i | 0 <= i < |proposals| + 1
      ensures Records(env, name, longer[|before| + i], (proposals + [arm])[i])
    {
      assert i < |proposals| ==> longer[|before| + i] == chain[|before| + i];
    }
  }

  lemma ArmsInRange(l: Learner, r: nat)
    requires IsLearner(l)
    ensures forall a :: a in Proposals(l, r) ==> a < |l.signals|
  {
  }

  /** The records a batch leaves on the chain. */
  ghost function BatchRecords(env: Env, name: string, tag: nat -> string, at: nat, arms: seq<nat>): (records: seq<Logged>)
    requires IsEnv(env)
    ensures |records| == |arms|
  {
    if arms == [] then []
    else
      var n := |arms| - 1;
      BatchRecords(env, name, tag, at, arms[..n]) + [LoggedStep(name + "-" + tag(at + n), ArmOutcome(env, arms[n]))]
  }

  /** The chain, the proposals so far, and the table of the next round. */
  datatype Progress = Progress(chain: seq<Logged>, proposals: seq<nat>, q: seq<real>)

  predicate AreArms(allowed: seq<nat>) {
    |allowed| > 0 && forall i :: 0 <= i < |allowed| ==> allowed[i] < N_ARMS
  }

  /** One round: propose greedily, log, and rebuild the table from the whole chain. */
  ghost function NextProgress(env: Env, name: string, correctionAware: bool, allowed: seq<nat>,
                              draws: nat -> nat, tag: nat -> string, r: nat, p: Progress): (n: Result<Progress>)
    requires IsEnv(env) && AreArms(allowed) && |p.q| == N_ARMS
    ensures n.Ok? ==> |n.value.q| == N_ARMS
  {
    var batch := Batch(allowed, p.q, draws, StepsBefore(r), BATCH_PER_ROUND);
    var chain := p.chain + BatchRecords(env, name, tag, StepsBefore(r), batch);
    match ReplayTable(name, correctionAware, chain)
    case Err(e) => Err(e)
    case Ok(q) => Ok(Progress(chain, p.proposals + batch, q))
  }

  /** A learner's run over any chain, one that already holds records under its name included:
      those are replayed with its own, and an unreadable one raises at the end of the first round. */
  ghost function RunOver(env: Env, prior: seq<Logged>, name: string, correctionAware: bool, allowed: seq<nat>,
                         draws: nat -> nat, tag: nat -> string, rounds: nat): (p: Result<Progress>)
    requires IsEnv(env) && AreArms(allowed)
    ensures p.Ok? ==> |p.value.q| == N_ARMS
    decreases rounds
  {
    if rounds == 0 then Ok(Progress(prior, [], seq(N_ARMS, _ => OPTIMISTIC_INIT)))
    else
      match RunOver(env, prior, name, correctionAware, allowed, draws, tag, rounds - 1)
      case Err(e) => Err(e)
      case Ok(p) => NextProgress(env, name, correctionAware, allowed, draws, tag, rounds - 1, p)
  }

  lemma {:induction false} RunStopsAtError(env: Env, prior: seq<Logged>, name: string, correctionAware: bool, allowed: seq<nat>,
                                           draws: nat -> nat, tag: nat -> string, r: nat, rounds: nat)
    requires IsEnv(env) && AreArms(allowed) && r <= rounds
    requires RunOver(env, prior, name, correctionAware, allowed, draws, tag, r).Err?
    ensures RunOver(env, prior, name, correctionAware, allowed, draws, tag, rounds).Err?
    decreases rounds
  {
    hide NextProgress;
    if r < rounds {
      RunStopsAtError(env, prior, name, correctionAware, allowed, draws, tag, r, rounds - 1);
    }
  }

  lemma MaskedArms(mask: Option<seq<bool>>)
    requires mask.Some? ==> |mask.value| == N_ARMS
    ensures AreArms(Allowed(mask)) <==> |Allowed(mask)| > 0
  {
    var allowed := Allowed(mask);
    assert mask.Some? ==> forall i :: 0 <= i < |allowed| ==> allowed[i] in allowed;
  }

  /** Interact in greedy batches, log to the chain, learn only from its replay. */
  method TrainLearner(env: Env, prior: seq<Logged>, name: string, correctionAware: bool, rounds: nat,
                      mask: Option<seq<bool>>, draws: nat -> nat, tag: nat -> string)
    returns (r: Result<(seq<nat>, seq<real>)>, chain: seq<Logged>)
    requires IsEnv(env) && (mask.Some? ==> |mask.value| == N_ARMS)
    ensures AreArms(Allowed(mask)) <==> |Allowed(mask)| > 0
    ensures r.Ok? <==> |Allowed(mask)| > 0
                       && RunOver(env, prior, name, correctionAware, Allowed(mask), draws, tag, rounds).Ok?
    ensures r.Ok? ==> RunOver(env, prior, name, correctionAware, Allowed(mask), draws, tag, rounds)
                      == Ok(Progress(chain, r.value.0, r.value.1))
    ensures |Allowed(mask)| == 0 ==> chain == prior
  {
    hide ArmOutcome, IsBest, Candidates, ReplayTable, Batch, BatchRecords, AreArms;
    chain := prior;
    MaskedArms(mask);
    var allowed := Allowed(mask);
    if |allowed| == 0 {
      return Err("action mask leaves no proposable arm"), chain;
    }
    var q, proposals: seq<nat> := seq(N_ARMS, _ => OPTIMISTIC_INIT), [];
    for round := 0 to rounds
      invariant RunOver(env, prior, name, correctionAware, allowed, draws, tag, round) == Ok(Progress(chain, proposals, q))
    {
      var batch, records := PlayRound(env, name, allowed, q, draws, tag, round);
      chain := chain + records;
      proposals := proposals + batch;
      var rebuilt := Rebuild(name, correctionAware, chain);
      if rebuilt.Err? {
        RunStopsAtError(env, prior, name, correctionAware, allowed, draws, tag, round + 1, rounds);
        return Err(rebuilt.error), chain;
      }
      q := rebuilt.value[..];
    }
    r := Ok((proposals, q));
  }

  /** The acting half of a round: deprioritise what this round already proposed, step, log. */
  method PlayRound(env: Env, name: string, allowed: seq<nat>, q: seq<real>, draws: nat -> nat, tag: nat -> string, round: nat)
    returns (chosen: seq<nat>, records: seq<Logged>)
    requires IsEnv(env) && AreArms(allowed) && |q| == N_ARMS
    ensures chosen == Batch(allowed, q, draws, StepsBefore(round), BATCH_PER_ROUND)
    ensures records == BatchRecords(env, name, tag, StepsBefore(round), chosen)
  {
    hide ArmOutcome, IsBest, Candidates, Batch, StepOf;
    chosen, records := [], [];
    var at := StepsBefore(round);
    BatchStep(allowed, q, draws, at, 0);
    for step := 0 to BATCH_PER_ROUND
      invariant chosen == Batch(allowed, q, draws, at, step)
      invariant records == BatchRecords(env, name, tag, at, chosen)
    {
      BatchStep(allowed, q, draws, at, step + 1);
      var arm := Pick(Candidates(allowed, q, chosen), draws(at + step));
      FreqBinPositive(arm / N_EIRPS);
      var res := Step(env, ArmAction(arm));
      IsArmOutcome(env, arm);
      assert (chosen + [arm])[..step] == chosen;
      chosen := chosen + [arm];
      records := records + [LoggedStep(name + "-" + tag(at + step), res.value)];
    }
  }

  lemma IsArmOutcome(env: Env, arm: nat)
    requires IsEnv(env)
    ensures ArmAction(arm).frequencyHz > 0.0 && ArmOutcome(env, arm) == StepOf(env, ArmAction(arm))
  {
    FreqBinPositive(arm / N_EIRPS);
  }

  lemma {:induction false} RecordsAreLogged(env: Env, name: string, tag: nat -> string, at: nat, arms: seq<nat>,
                                            before: seq<Logged>, chain: seq<Logged>, proposals: seq<nat>)
    requires IsEnv(env) && Logs(env, name, before, chain, proposals)
    ensures Logs(env, name, before, chain + BatchRecords(env, name, tag, at, arms), proposals + arms)
  {
    hide ArmOutcome, Logs;
    if arms == [] {
      assert chain + [] == chain && proposals + [] == proposals;
    } else {
      var n := |arms| - 1;
      var records := BatchRecords(env, name, tag, at, arms[..n]);
      RecordsAreLogged(env, name, tag, at, arms[..n], before, chain, proposals);
      LogsGrow(env, name, before, chain + records, proposals + arms[..n], arms[n], tag(at + n));
      assert proposals + arms == proposals + arms[..n] + [arms[n]];
      assert chain + BatchRecords(env, name, tag, at, arms)
          == chain + records + [LoggedStep(name + "-" + tag(at + n), ArmOutcome(env, arms[n]))];
    }
  }

  /** On a chain without records under its name a run never raises: its proposals are those of the
      abstract learner, its table the signal of every tried arm, its records the appended ones. */
  lemma {:induction false} RunOnForeignChain(env: Env, prior: seq<Logged>, name: string, correctionAware: bool,
                                             mask: Option<seq<bool>>, draws: nat -> nat, tag: nat -> string, rounds: nat)
    requires IsEnv(env) && (mask.Some? ==> |mask.value| == N_ARMS) && AreArms(Allowed(mask)) && Foreign(prior, name)
    ensures var l, p := LearnerOf(env, correctionAware, mask, draws),
                        RunOver(env, prior, name, correctionAware, Allowed(mask), draws, tag, rounds);
            && IsLearner(l) && p.Ok?
            && p.value.proposals == Proposals(l, rounds) && p.value.q == QTable(l.signals, p.value.proposals)
            && Logs(env, name, prior, p.value.chain, p.value.proposals)
    decreases rounds
  {
    hide Signals, ArmOutcome, IsBest, Candidates, Logs, QTable, Foreign, ReplayTable, Batch, BatchRecords;
    var l := LearnerOf(env, correctionAware, mask, draws);
    AllowedArms(env, correctionAware, mask, draws);
    if rounds == 0 {
      NothingLogged(env, name, prior, correctionAware);
    } else {
      RunOnForeignChain(env, prior, name, correctionAware, mask, draws, tag, rounds - 1);
      var p := RunOver(env, prior, name, correctionAware, Allowed(mask), draws, tag, rounds - 1).value;
      var batch := RoundBatch(l, p.proposals, rounds - 1);
      RecordsAreLogged(env, name, tag, StepsBefore(rounds - 1), batch, prior, p.chain, p.proposals);
      ArmsInRange(l, rounds);
      ReplayIsQTable(env, name, correctionAware, prior,
                     p.chain + BatchRecords(env, name, tag, StepsBefore(rounds - 1), batch), Proposals(l, rounds));
    }
  }

  // ----- Consequences in the environment -----

  /** The correction penalty falls on exactly the infeasible arms. */
  lemma PenaltyFallsOnInfeasible(env: Env, arm: nat)
    requires IsEnv(env) && arm < N_ARMS
    ensures Signals(env, true)[arm] == ArmOutcome(env, arm).reward - if IsFeasible(ArmAction(arm)) then 0.0 else CORRECTION_PENALTY
  {
    FreqBinPositive(arm / N_EIRPS);
    ReportedProjectedIsCoarser(ArmAction(arm));
  }

  /** The correction-aware learner graduates: if some feasible arm's reward beats
      every infeasible arm's penalised reward by more than TIE, and no signal
      reaches the prior, then every round from the fourteenth on is free of illegal
      proposals, whatever the random draws. */
  lemma CorrectionAwareGraduates(env: Env, draws: nat -> nat, best: nat, r: nat)
    requires IsEnv(env) && best < N_ARMS && IsFeasible(ArmAction(best))
    requires forall a :: 0 <= a < N_ARMS && !IsFeasible(ArmAction(a)) ==>
               ArmOutcome(env, a).reward - CORRECTION_PENALTY < ArmOutcome(env, best).reward - TIE
    requires forall a :: 0 <= a < N_ARMS ==> Signals(env, true)[a] < OPTIMISTIC_INIT - TIE
    requires r >= 13
    ensures var l := LearnerOf(env, true, None, draws);
            IsLearner(l) && forall a :: a in RoundBatch(l, Proposals(l, r), r) ==> IsFeasible(ArmAction(a))
  {
    var l := LearnerOf(env, true, None, draws);
    AllowedArms(env, true, None, draws);
    var feasible := FeasibleArms();
    hide IsFeasible, ArmAction, Signals, ArmOutcome;
    PenaltyFallsOnInfeasible(env, best);
    assert l.allowed[best] == best;
    forall a | a in l.allowed && !feasible[a]
      ensures !IsBest(l.allowed, l.signals, a)
    {
      PenaltyFallsOnInfeasible(env, a);
      assert l.signals[a] < l.signals[l.allowed[best]] - TIE;
    }
    Graduates(l, feasible, r);
  }

  /** The arm one decibel above the cap at the frequency of `arm`. */
  function Twin(arm: nat): (u: nat)
    requires arm < N_ARMS
    ensures u < N_ARMS
  {
    (arm / N_EIRPS) * N_EIRPS + 14
  }

  /** It is infeasible, and through the Shield it earns at least what `arm` earns. */
  lemma TwinIsCensored(env: Env, arm: nat)
    requires IsEnv(env) && arm < N_ARMS
    ensures !IsFeasible(ArmAction(Twin(arm)))
    ensures Signals(env, false)[Twin(arm)] >= Signals(env, false)[arm]
  {
    var u := Twin(arm);
    assert u / N_EIRPS == arm / N_EIRPS && u % N_EIRPS == 14;
    var executed, capped := Project(ArmAction(arm)), Project(ArmAction(u));
    assert executed.frequencyHz == capped.frequencyHz && executed.txPowerDbm <= capped.txPowerDbm;
    RewardMonotone(env, capped.frequencyHz, executed.txPowerDbm, capped.txPowerDbm);
  }

  /** Censored feedback hides the constraint: the unmasked reward-only learner never graduates. In
      every environment, however long it has swept and learned, some infeasible arm ties with the
      best, and some draws propose one in the next round. */
  lemma RewardOnlyNeverGraduates(env: Env, l: Learner, proposals: seq<nat>, at: nat)
    requires IsEnv(env) && l == LearnerOf(env, false, None, l.draws) && IsLearner(l) && AllTried(l, proposals)
    ensures exists draws: nat -> nat, a ::
              a in Batch(l.allowed, QTable(l.signals, proposals), draws, at, BATCH_PER_ROUND) && !IsFeasible(ArmAction(a))
  {
    assert |l.signals| == N_ARMS;
    hide IsFeasible, ArmAction, Batch, QTable, LearnerOf, IsLearner, InfeasibleIsWorse, AllTried;
    var feasible := FeasibleArms();
    SomeInfeasibleArmIsBest(env, l);
    GraduationExactly(l, feasible, proposals, at);
    assert forall a :: 0 <= a < N_ARMS ==> feasible[a] == IsFeasible(ArmAction(a));
  }

  function FeasibleArms(): (feasible: seq<bool>)
    ensures |feasible| == N_ARMS
    ensures forall a :: 0 <= a < N_ARMS ==> feasible[a] == IsFeasible(ArmAction(a))
  {
    seq(N_ARMS, a requires 0 <= a => IsFeasible(ArmAction(a)))
  }

  lemma SomeInfeasibleArmIsBest(env: Env, l: Learner)
    requires IsEnv(env) && l == LearnerOf(env, false, None, l.draws) && IsLearner(l)
    ensures !InfeasibleIsWorse(l, FeasibleArms())
  {
    hide IsFeasible, ArmAction, Signals, ArmOutcome;
    SomeArmIsBest(l.allowed, l.signals);
    var best := BestArms(l.allowed, l.signals, |l.allowed|)[0];
    assert best in BestArms(l.allowed, l.signals, |l.allowed|);
    var u := Twin(best);
    TwinIsCensored(env, best);
    assert l.allowed[u] == u;
    assert u in l.allowed && IsBest(l.allowed, l.signals, u);
  }

  /** The Shield-masked learner never proposes an infeasible action, from the first step on. */
  lemma MaskedNeverIllegal(env: Env, correctionAware: bool, mask: seq<bool>, draws: nat -> nat, r: nat)
    requires IsEnv(env) && |mask| == N_ARMS && |Allowed(Some(mask))| > 0
    requires forall a :: 0 <= a < N_ARMS ==> (mask[a] <==> IsFeasible(ArmAction(a)))
    ensures var l := LearnerOf(env, correctionAware, Some(mask), draws);
            IsLearner(l) && forall a :: a in Proposals(l, r) ==> IsFeasible(ArmAction(a))
  {
    AllowedArms(env, correctionAware, Some(mask), draws);
  }
}
