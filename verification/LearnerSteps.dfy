/** Single steps of the batch bandit (benchmarks/exploration_truncation_loop.py:180-264): which arms a
    draw chooses among, which record the rebuilt table keeps, and which records are readable. */
module LearnerSteps {
  import opened Common
  import opened ShieldedEnv
  import opened Exploration

  // ----- The draw -----

  /** What arm a is worth after a history: its signal once tried, the optimistic prior before. */
  function Worth(l: Learner, history: seq<nat>, a: nat): real
    requires a < |l.signals|
  {
    if a in history then l.signals[a] else OPTIMISTIC_INIT
  }

  /** Arm a is allowed and no allowed arm is worth more than 1e-12 more. */
  ghost predicate Leads(l: Learner, history: seq<nat>, a: nat)
    requires IsLearner(l)
  {
    a in l.allowed && forall c :: c in l.allowed ==> Worth(l, history, a) >= Worth(l, history, c) - 0.000000000001
  }

  /** A leading arm that this round has not proposed yet, or any leading arm once it has proposed them all. */
  ghost predicate Drawable(l: Learner, history: seq<nat>, chosen: seq<nat>, a: nat)
    requires IsLearner(l)
  {
    Leads(l, history, a) && (a !in chosen || forall c :: Leads(l, history, c) ==> c in chosen)
  }

  lemma {:induction false} BestInOrder(allowed: seq<nat>, q: seq<real>, n: nat)
    requires Indexes(allowed, q) && Increasing(allowed) && n <= |allowed|
    ensures Increasing(BestArms(allowed, q, n))
    ensures forall a :: a in BestArms(allowed, q, n) ==> a in allowed[..n]
  {
    if n > 0 {
      BestInOrder(allowed, q, n - 1);
      assert allowed[..n] == allowed[..n - 1] + [allowed[n - 1]];
      var before := BestArms(allowed, q, n - 1);
      forall i | 0 <= i < |before|
        ensures before[i] < allowed[n - 1]
      {
        assert before[i] in allowed[..n - 1];
      }
      hide IsBest;
    }
  }

  lemma {:induction false} FreshInOrder(best: seq<nat>, chosen: seq<nat>)
    requires Increasing(best)
    ensures Increasing(Fresh(best, chosen))
    ensures forall a :: a in Fresh(best, chosen) ==> a in best
  {
    if best != [] {
      var n := |best| - 1;
      FreshInOrder(best[..n], chosen);
      var before := Fresh(best[..n], chosen);
      forall i | 0 <= i < |before|
        ensures before[i] < best[n]
      {
        assert before[i] in best[..n];
      }
      assert Increasing(before + [best[n]]);
    }
  }

  lemma LeadsIsBest(l: Learner, history: seq<nat>, a: nat)
    requires IsLearner(l) && a in l.allowed
    ensures a < |l.signals| && (Leads(l, history, a) <==> IsBest(l.allowed, QTable(l.signals, history), a))
  {
    var q := QTable(l.signals, history);
    forall c | c in l.allowed
      ensures c < |l.signals| && q[c] == Worth(l, history, c)
    {
    }
    hide Worth, QTable;
    if IsBest(l.allowed, q, a) {
      forall c | c in l.allowed
        ensures Worth(l, history, a) >= Worth(l, history, c) - 0.000000000001
      {
        var i :| 0 <= i < |l.allowed| && l.allowed[i] == c;
      }
    }
  }

  /** The candidates of one draw, in ascending order. */
  lemma CandidatesAreDrawable(l: Learner, history: seq<nat>, chosen: seq<nat>)
    requires IsLearner(l) && Increasing(l.allowed)
    ensures Indexes(l.allowed, QTable(l.signals, history))
    ensures var pool := Candidates(l.allowed, QTable(l.signals, history), chosen);
            Increasing(pool) && forall a :: a in pool <==> Drawable(l, history, chosen, a)
  {
    var q := QTable(l.signals, history);
    SameIndexes(l, history);
    var best := BestArms(l.allowed, q, |l.allowed|);
    assert l.allowed[..|l.allowed|] == l.allowed;
    BestInOrder(l.allowed, q, |l.allowed|);
    FreshInOrder(best, chosen);
    forall a | a in l.allowed
      ensures a in best <==> Leads(l, history, a)
    {
      LeadsIsBest(l, history, a);
    }
    hide Leads, IsBest, QTable, Increasing, BestArms;
    assert forall a :: a in best <==> Leads(l, history, a);
    NoneFresh(best, chosen);
  }

  lemma NoneFresh(best: seq<nat>, chosen: seq<nat>)
    ensures |Fresh(best, chosen)| == 0 <==> forall a :: a in best ==> a in chosen
  {
    if |Fresh(best, chosen)| > 0 {
      assert Fresh(best, chosen)[0] in Fresh(best, chosen);
    }
  }

  /** Step j of round r draws uniformly from its pool, with the draw of its own position in the run. */
  lemma StepsDrawFromPools(l: Learner, rounds: nat, r: nat, j: nat) returns (pool: seq<nat>)
    requires IsLearner(l) && Increasing(l.allowed) && r < rounds && j < 24
    ensures |Proposals(l, rounds)| == 24 * rounds
    ensures |pool| > 0 && Increasing(pool)
    ensures DrawsFrom(l, Proposals(l, rounds), 24 * r, j, pool)
  {
    hide *;
    RoundInRun(l, rounds, r);
    pool := PoolOfRound(l, Proposals(l, r), r, j);
    BatchInRun(l, Proposals(l, rounds), 24 * r, RoundBatch(l, Proposals(l, r), r), j, pool);
  }

  /** In a run of proposals, position start + j takes the member of `pool` its own draw names, and `pool`
      holds what is drawable after the rounds before `start` and the first j proposals of this one. */
  ghost predicate DrawsFrom(l: Learner, all: seq<nat>, start: nat, j: nat, pool: seq<nat>)
    requires IsLearner(l)
  {
    && start + j < |all| && |pool| > 0
    && all[start + j] == pool[l.draws(start + j) % |pool|]
    && forall a :: a in pool <==> Drawable(l, all[..start], all[start..start + j], a)
  }

  lemma BatchInRun(l: Learner, all: seq<nat>, start: nat, batch: seq<nat>, j: nat, pool: seq<nat>)
    requires IsLearner(l) && start + 24 <= |all| && all[start..start + 24] == batch && j < 24 && |pool| > 0
    requires batch[j] == pool[l.draws(start + j) % |pool|]
    requires forall a :: a in pool <==> Drawable(l, all[..start], batch[..j], a)
    ensures DrawsFrom(l, all, start, j, pool)
  {
    hide Drawable;
    assert batch[..j] == all[start..start + j];
    assert batch[j] == all[start + j];
  }

  lemma PoolOfRound(l: Learner, before: seq<nat>, r: nat, j: nat) returns (pool: seq<nat>)
    requires IsLearner(l) && Increasing(l.allowed) && j < 24
    ensures |pool| > 0 && Increasing(pool)
    ensures RoundBatch(l, before, r)[j] == pool[l.draws(24 * r + j) % |pool|]
    ensures forall a :: a in pool <==> Drawable(l, before, RoundBatch(l, before, r)[..j], a)
  {
    hide Candidates, Increasing, Drawable, IsLearner, IsBest;
    SameIndexes(l, before);
    var batch := RoundBatch(l, before, r);
    BatchAt(l.allowed, QTable(l.signals, before), l.draws, StepsBefore(r), 24, j);
    CandidatesAreDrawable(l, before, batch[..j]);
    pool := Candidates(l.allowed, QTable(l.signals, before), batch[..j]);
  }

  lemma {:induction false} RoundInRun(l: Learner, rounds: nat, r: nat)
    requires IsLearner(l) && r < rounds
    ensures |Proposals(l, rounds)| == 24 * rounds && |Proposals(l, r)| == 24 * r
    ensures Proposals(l, rounds)[..24 * r] == Proposals(l, r)
    ensures Proposals(l, rounds)[24 * r..24 * r + 24] == RoundBatch(l, Proposals(l, r), r)
    decreases rounds
  {
    hide RoundBatch, IsLearner;
    if r < rounds - 1 {
      RoundInRun(l, rounds - 1, r);
      var all, before := Proposals(l, rounds), Proposals(l, rounds - 1);
      assert all[..24 * (rounds - 1)] == before;
      assert all[..24 * r] == before[..24 * r];
      assert all[24 * r..24 * r + 24] == before[24 * r..24 * r + 24];
    }
  }

  lemma {:induction false} BatchAt(allowed: seq<nat>, q: seq<real>, draws: nat -> nat, at: nat, k: nat, j: nat)
    requires Indexes(allowed, q) && j < k
    ensures var batch := Batch(allowed, q, draws, at, k);
            var pool := Candidates(allowed, q, batch[..j]);
            |pool| > 0 && batch[j] == pool[draws(at + j) % |pool|]
    ensures Batch(allowed, q, draws, at, k)[..j] == Batch(allowed, q, draws, at, j)
    decreases k
  {
    hide Candidates, IsBest;
    var before := Batch(allowed, q, draws, at, k - 1);
    BatchStep(allowed, q, draws, at, k);
    if j < k - 1 {
      BatchAt(allowed, q, draws, at, k - 1, j);
      assert Batch(allowed, q, draws, at, k)[..j] == before[..j];
    } else {
      assert Batch(allowed, q, draws, at, k)[..j] == before;
    }
  }

  // ----- The record -----

  /** The record on the chain belongs to this learner and to this arm. */
  predicate IsOwnRecord(name: string, e: Logged, arm: nat) {
    name + "-" <= e.decisionId && ArmFromProposal(e.frequencyHz, e.eirpDbm) == Ok(arm)
  }

  /** The chain can be replayed exactly when every record under this name is readable; then an arm
      has the signal of its last record, and the optimistic prior without one. */
  lemma {:induction false} LastRecordWins(name: string, correctionAware: bool, chain: seq<Logged>)
    ensures ReplayTable(name, correctionAware, chain).Ok?
            <==> forall i :: 0 <= i < |chain| && name + "-" <= chain[i].decisionId ==>
                   ArmFromProposal(chain[i].frequencyHz, chain[i].eirpDbm).Ok?
    ensures ReplayTable(name, correctionAware, chain).Ok? ==>
              forall arm :: 0 <= arm < N_ARMS ==>
                HasLastSignal(name, correctionAware, chain, arm, ReplayTable(name, correctionAware, chain).value[arm])
  {
    hide ArmFromProposal;
    if chain != [] {
      var n := |chain| - 1;
      LastRecordWins(name, correctionAware, chain[..n]);
      var before, after := ReplayTable(name, correctionAware, chain[..n]), ReplayTable(name, correctionAware, chain);
      if after.Ok? {
        forall arm | 0 <= arm < N_ARMS
          ensures HasLastSignal(name, correctionAware, chain, arm, after.value[arm])
        {
          OneMoreRecord(name, correctionAware, chain, arm, before.value[arm]);
        }
      }
    }
  }

  ghost predicate HasLastSignal(name: string, correctionAware: bool, chain: seq<Logged>, arm: nat, x: real) {
    || (x == OPTIMISTIC_INIT && forall i :: 0 <= i < |chain| ==> !IsOwnRecord(name, chain[i], arm))
    || exists i :: 0 <= i < |chain| && IsLast(name, chain, arm, i)
                   && x == chain[i].reward
                           - if correctionAware && (chain[i].projected || chain[i].guardRefused) then CORRECTION_PENALTY else 0.0
  }

  ghost predicate IsLast(name: string, chain: seq<Logged>, arm: nat, i: nat) {
    i < |chain| && IsOwnRecord(name, chain[i], arm) && forall k :: i < k < |chain| ==> !IsOwnRecord(name, chain[k], arm)
  }

  lemma OneMoreRecord(name: string, correctionAware: bool, chain: seq<Logged>, arm: nat, x: real)
    requires chain != [] && HasLastSignal(name, correctionAware, chain[..|chain| - 1], arm, x)
    ensures var e := chain[|chain| - 1];
            HasLastSignal(name, correctionAware, chain, arm,
                          if IsOwnRecord(name, e, arm) then Signal(e.reward, e.projected, e.guardRefused, correctionAware) else x)
  {
    hide IsOwnRecord;
    var n, before := |chain| - 1, chain[..|chain| - 1];
    if IsOwnRecord(name, chain[n], arm) {
      assert IsLast(name, chain, arm, n);
    } else if i :| 0 <= i < n && IsLast(name, before, arm, i)
                   && x == before[i].reward
                           - if correctionAware && (before[i].projected || before[i].guardRefused) then CORRECTION_PENALTY else 0.0 {
      assert chain[i] == before[i];
      forall k | i < k < |chain|
        ensures !IsOwnRecord(name, chain[k], arm)
      {
        if k < n {
          assert chain[k] == before[k];
        }
      }
      assert IsLast(name, chain, arm, i);
    } else {
      forall k | 0 <= k < |chain|
        ensures !IsOwnRecord(name, chain[k], arm)
      {
        if k < n {
          assert chain[k] == before[k];
        }
      }
    }
  }

  /** A record is readable exactly when its frequency is within 1 Hz of a bin and its EIRP rounds to a
      level of the grid; it is then read as the arm of that bin and that level. */
  lemma ReadableExactly(frequencyHz: real, eirpDbm: real)
    ensures var r := ArmFromProposal(frequencyHz, eirpDbm);
            && (r.Ok? <==> (exists f :: 0 <= f < N_FREQS && -1.0 <= FreqBin(f) - frequencyHz <= 1.0)
                           && 19.5 <= eirpDbm <= 52.5)
            && (r.Ok? ==> -1.0 <= FreqBin(r.value / N_EIRPS) - frequencyHz <= 1.0
                          && -0.5 <= eirpDbm - (20.0 + (r.value % N_EIRPS) as real) <= 0.5)
  {
    var distances := seq(N_FREQS, i requires 0 <= i => -Abs(FreqBin(i) - frequencyHz));
    var f, e := ArgMax(distances), RoundHalfEven(eirpDbm - EIRP_MIN_DBM);
    RoundsOntoTheGrid(eirpDbm - EIRP_MIN_DBM);
    forall g | 0 <= g < N_FREQS
      ensures Abs(FreqBin(f) - frequencyHz) <= Abs(FreqBin(g) - frequencyHz)
    {
      assert distances[g] <= distances[f];
    }
    if 0 <= e < N_EIRPS {
      assert (f * N_EIRPS + e) / N_EIRPS == f && (f * N_EIRPS + e) % N_EIRPS == e;
    }
    hide FreqBin, RoundHalfEven;
  }

  lemma RoundsOntoTheGrid(x: real)
    ensures 0 <= RoundHalfEven(x) < N_EIRPS <==> -0.5 <= x <= 32.5
  {
    var f := x.Floor;
    if x < -0.5 {
      assert f <= -1;
    } else if x > 32.5 {
      assert f >= 32;
    }
  }
}
