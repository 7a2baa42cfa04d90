/** Learning behind the projection with a limited value model
    (benchmarks/projection_capacity_2x2.py). */
module ProjectionCapacity {
  import opened Common

  const NOISE_DBM: real := -94.0
  const PROTECTION_DBW: real := -105.0
  const CAP_DBM: real := 33.0
  const EIRP_MIN: real := 20.0
  const N_BINS: nat := 33
  const CAP_BIN: nat := 13

  function Bin(b: nat): real {
    EIRP_MIN + b as real
  }

  function Project(eirp: real): real {
    MinReal(eirp, CAP_DBM)
  }

  /** `gains` of the receivers in the subband, the indexes of the victims, and the harm weight. */
  datatype Env = Env(gains: seq<real>, victims: seq<nat>, harmWeight: real)

  ghost predicate IsEnv(env: Env) {
    |env.gains| > 0 && |env.victims| > 0 && forall v :: v in env.victims ==> v < |env.gains|
  }

  function Served(gains: seq<real>, eirp: real): (c: nat)
    ensures c <= |gains|
  {
    if gains == [] then 0
    else
      var n := |gains| - 1;
      Served(gains[..n], eirp) + if eirp + gains[n] - NOISE_DBM >= 0.0 then 1 else 0
  }

  function Excess(env: Env, eirp: real): real
    requires IsEnv(env)
  {
    Mean(seq(|env.victims|, i requires 0 <= i < |env.victims| =>
      assert env.victims[i] in env.victims;
      MaxReal(0.0, eirp + env.gains[env.victims[i]] - PROTECTION_DBW)))
  }

  function Reward(env: Env, eirp: real): real
    requires IsEnv(env)
  {
    var served := Served(env.gains, eirp) as real / |env.gains| as real;
    if env.harmWeight == 0.0 then served
    else
      var excess := Excess(env, eirp);
      served - env.harmWeight * (excess * excess)
  }

  /** What proposing bin `b` realises. */
  function Realised(env: Env, b: nat): real
    requires IsEnv(env)
  {
    Reward(env, Project(Bin(b)))
  }

  /** The best reward over the grid bins up to bin `b`. */
  function BestUpTo(env: Env, b: nat): (r: real)
    requires IsEnv(env)
    ensures forall c: nat :: c <= b ==> Reward(env, Bin(c)) <= r
    ensures exists c: nat :: c <= b && Reward(env, Bin(c)) == r
  {
    if b == 0 then Reward(env, Bin(0))
    else
      var before := BestUpTo(env, b - 1);
      if before < Reward(env, Bin(b)) then Reward(env, Bin(b)) else before
  }

  /** The maximum over the bins with BIN <= CAP_DBM. */
  function OptimalFeasible(env: Env): real
    requires IsEnv(env)
  {
    BestUpTo(env, CAP_BIN)
  }

  // ----- The learner -----

  /** `degree` is `None` for the table; `fit` is whatever the polynomial model returns. */
  datatype Model = Model(degree: Option<nat>, fit: (seq<real>, seq<nat>, nat) -> seq<real>)

  /** The polynomial is evaluated on every bin. */
  ghost predicate IsModel(m: Model) {
    forall sums, counts, degree :: |m.fit(sums, counts, degree)| == N_BINS
  }

  function Seen(counts: seq<nat>): nat {
    if counts == [] then 0 else Seen(counts[..|counts| - 1]) + if counts[|counts| - 1] > 0 then 1 else 0
  }

  /** The value of every bin, `None` standing for minus infinity. */
  function Value(m: Model, sums: seq<real>, counts: seq<nat>): (v: seq<Option<real>>)
    requires |sums| == |counts| == N_BINS && IsModel(m)
    ensures |v| == N_BINS
  {
    if m.degree.None? || Seen(counts) < m.degree.value + 2 then
      seq(N_BINS, b requires 0 <= b < N_BINS => if counts[b] > 0 then Some(sums[b] / counts[b] as real) else None)
    else
      var fitted := m.fit(sums, counts, m.degree.value);
      seq(N_BINS, b requires 0 <= b < N_BINS => Some(fitted[b]))
  }

  predicate Below(x: Option<real>, y: Option<real>) {
    x.None? || (y.Some? && x.value <= y.value)
  }

  /** numpy's argmax over values that may be minus infinity: the first maximal entry. */
  function ArgMaxValue(v: seq<Option<real>>): (r: nat)
    requires |v| > 0
    ensures r < |v|
    ensures forall b :: 0 <= b < |v| ==> Below(v[b], v[r])
    ensures forall b :: 0 <= b < r ==> !Below(v[r], v[b])
  {
    if |v| == 1 then 0
    else
      var n := |v| - 1;
      var i := ArgMaxValue(v[..n]);
      if Below(v[n], v[i]) then i else n
  }

  datatype State = State(sums: seq<real>, counts: seq<nat>, at: nat)

  function Proposal(m: Model, draws: Draws, steps: nat, t: nat, s: State): (r: (nat, nat))
    requires |s.sums| == |s.counts| == N_BINS && IsModel(m) && t < steps
    ensures r.0 < N_BINS
  {
    var eps := MaxReal(0.05, 1.0 - t as real / (0.7 * steps as real));
    if draws.uniform(s.at) < eps || Seen(s.counts) == 0 then (draws.index(s.at + 1) % N_BINS, s.at + 2)
    else (ArgMaxValue(Value(m, s.sums, s.counts)), s.at + 1)
  }

  /** Credit the realised reward to the proposed bin. */
  function Credit(env: Env, s: State, b: nat, at: nat): (s': State)
    requires IsEnv(env) && |s.sums| == |s.counts| == N_BINS && b < N_BINS
    ensures |s'.sums| == |s'.counts| == N_BINS
  {
    State(s.sums[b := s.sums[b] + Realised(env, b)], s.counts[b := s.counts[b] + 1], at)
  }

  function After(env: Env, m: Model, draws: Draws, steps: nat, t: nat): (s: State)
    requires IsEnv(env) && IsModel(m) && t <= steps
    ensures |s.sums| == |s.counts| == N_BINS
    decreases t
  {
    if t == 0 then State(seq(N_BINS, _ => 0.0), seq(N_BINS, _ => 0), 0)
    else
      var s := After(env, m, draws, steps, t - 1);
      var (b, at) := Proposal(m, draws, steps, t - 1, s);
      Credit(env, s, b, at)
  }

  /** What the first `t` steps proposed. */
  function Proposed(env: Env, m: Model, draws: Draws, steps: nat, t: nat): (bins: seq<nat>)
    requires IsEnv(env) && IsModel(m) && t <= steps
    ensures |bins| == t && forall i :: 0 <= i < t ==> bins[i] < N_BINS
    decreases t
  {
    if t == 0 then []
    else Proposed(env, m, draws, steps, t - 1)
         + [Proposal(m, draws, steps, t - 1, After(env, m, draws, steps, t - 1)).0]
  }

  function Occurrences(bins: seq<nat>, b: nat): nat {
    if bins == [] then 0
    else Occurrences(bins[..|bins| - 1], b) + if bins[|bins| - 1] == b then 1 else 0
  }

  /** A step is counted on the bin that was proposed, not on the one that was executed. */
  lemma {:induction false} CountedWhereProposed(env: Env, m: Model, draws: Draws, steps: nat, t: nat, b: nat)
    requires IsEnv(env) && IsModel(m) && t <= steps && b < N_BINS
    ensures After(env, m, draws, steps, t).counts[b] == Occurrences(Proposed(env, m, draws, steps, t), b)
    decreases t
  {
    hide Proposal, Realised, IsEnv, IsModel;
    if t > 0 {
      CountedWhereProposed(env, m, draws, steps, t - 1, b);
      var before := Proposed(env, m, draws, steps, t - 1);
      assert Proposed(env, m, draws, steps, t)[..t - 1] == before;
    }
  }

  datatype Report = Report(chosen: nat, executedDbm: real, realised: real, loss: real, lossFraction: Option<real>)

  function ReportOf(env: Env, m: Model, s: State): (r: Report)
    requires IsEnv(env) && IsModel(m) && |s.sums| == |s.counts| == N_BINS
    ensures r.chosen < N_BINS
  {
    var chosen := ArgMaxValue(Value(m, s.sums, s.counts));
    var realised := Realised(env, chosen);
    var best := OptimalFeasible(env);
    Report(chosen, Project(Bin(chosen)), realised, best - realised,
           if best > 0.0 then Some((best - realised) / best) else None)
  }

  method CreditInPlace(sums: array<real>, counts: array<nat>, b: nat, x: real)
    requires b < sums.Length == counts.Length
    modifies sums, counts
    ensures sums[..] == old(sums[..])[b := old(sums[b]) + x]
    ensures counts[..] == old(counts[..])[b := old(counts[b]) + 1]
  {
    sums[b] := sums[b] + x;
    counts[b] := counts[b] + 1;
  }

  lemma CreditedState(env: Env, s: State, b: nat, at: nat)
    requires IsEnv(env) && |s.sums| == |s.counts| == N_BINS && b < N_BINS
    ensures Credit(env, s, b, at) == State(s.sums[b := s.sums[b] + Realised(env, b)], s.counts[b := s.counts[b] + 1], at)
  {
  }

  lemma NextState(env: Env, m: Model, draws: Draws, steps: nat, t: nat)
    requires IsEnv(env) && IsModel(m) && t < steps
    ensures var s := After(env, m, draws, steps, t);
            var (b, next) := Proposal(m, draws, steps, t, s);
            After(env, m, draws, steps, t + 1) == Credit(env, s, b, next)
  {
  }

  /** The learning loop and the report on what it ends up choosing. */
  method RunLearner(env: Env, m: Model, draws: Draws, steps: nat) returns (r: Report)
    requires IsEnv(env) && IsModel(m)
    ensures r == ReportOf(env, m, After(env, m, draws, steps, steps))
  {
    hide Value, Realised, Proposal, ReportOf, Credit, IsEnv, IsModel;
    var sums := new real[N_BINS](_ => 0.0);
    var counts := new nat[N_BINS](_ => 0);
    var at := 0;
    assert sums[..] == seq(N_BINS, _ => 0.0) && counts[..] == seq(N_BINS, _ => 0);
    for t := 0 to steps
      invariant State(sums[..], counts[..], at) == After(env, m, draws, steps, t)
    {
      ghost var before := State(sums[..], counts[..], at);
      NextState(env, m, draws, steps, t);
      var (b, next) := Proposal(m, draws, steps, t, State(sums[..], counts[..], at));
      CreditInPlace(sums, counts, b, Realised(env, b));
      at := next;
      CreditedState(env, before, b, next);
    }
    return ReportOf(env, m, State(sums[..], counts[..], at));
  }

  // ----- The reward -----

  /** The served count is the number of receivers at or above the noise. */
  lemma {:induction false} ServedIsACount(gains: seq<real>, eirp: real)
    ensures Served(gains, eirp) == |set r: nat | r < |gains| && eirp + gains[r] >= NOISE_DBM|
  {
    var served := set r: nat | r < |gains| && eirp + gains[r] >= NOISE_DBM;
    if gains == [] {
      assert served == {};
    } else {
      var n := |gains| - 1;
      ServedIsACount(gains[..n], eirp);
      var before := set r: nat | r < n && eirp + gains[..n][r] >= NOISE_DBM;
      assert served == if eirp + gains[n] >= NOISE_DBM then before + {n} else before;
    }
  }

  /** By how much victim i receives more than it is protected from. */
  function Overshoot(env: Env, eirp: real, i: nat): real
    requires IsEnv(env) && i < |env.victims|
  {
    assert env.victims[i] in env.victims;
    var received := eirp + env.gains[env.victims[i]];
    if received <= PROTECTION_DBW then 0.0 else received - PROTECTION_DBW
  }

  function Overshoots(env: Env, eirp: real): (o: seq<real>)
    requires IsEnv(env)
    ensures |o| == |env.victims| && forall i :: 0 <= i < |o| ==> o[i] == Overshoot(env, eirp, i)
  {
    seq(|env.victims|, i requires 0 <= i < |env.victims| => Overshoot(env, eirp, i))
  }

  ghost predicate NobodyIsHarmed(env: Env, eirp: real)
    requires IsEnv(env)
  {
    forall i :: 0 <= i < |env.victims| ==> Overshoot(env, eirp, i) == 0.0
  }

  lemma ExcessIsMean(env: Env, eirp: real)
    requires IsEnv(env)
    ensures Excess(env, eirp) * (|env.victims| as real) == Sum(Overshoots(env, eirp))
  {
    var over := seq(|env.victims|, i requires 0 <= i < |env.victims| =>
      assert env.victims[i] in env.victims;
      MaxReal(0.0, eirp + env.gains[env.victims[i]] - PROTECTION_DBW));
    assert over == Overshoots(env, eirp);
    hide Sum;
  }

  lemma {:induction false} SumOfNonnegative(s: seq<real>)
    requires forall i :: 0 <= i < |s| ==> s[i] >= 0.0
    ensures Sum(s) >= 0.0
    ensures Sum(s) == 0.0 <==> forall i :: 0 <= i < |s| ==> s[i] == 0.0
  {
    if s != [] {
      SumOfNonnegative(s[..|s| - 1]);
    }
  }

  lemma {:induction false} SumRises(a: seq<real>, b: seq<real>)
    requires |a| == |b| && forall i :: 0 <= i < |a| ==> a[i] <= b[i]
    ensures Sum(a) <= Sum(b)
    ensures (exists i :: 0 <= i < |a| && a[i] < b[i]) ==> Sum(a) < Sum(b)
  {
    if a != [] {
      SumRises(a[..|a| - 1], b[..|b| - 1]);
    }
  }

  function Share(env: Env, eirp: real): real
    requires IsEnv(env)
  {
    Served(env.gains, eirp) as real / |env.gains| as real
  }

  /** Harm is a cost: the reward falls short of the served share by the weight times the square of the
      mean overshoot of the victims. */
  lemma HarmExactly(env: Env, eirp: real) returns (x: real)
    requires IsEnv(env) && env.harmWeight > 0.0
    ensures x >= 0.0 && x * (|env.victims| as real) == Sum(Overshoots(env, eirp))
    ensures Reward(env, eirp) == Share(env, eirp) - env.harmWeight * (x * x)
    ensures Reward(env, eirp) <= Share(env, eirp)
    ensures Reward(env, eirp) == Share(env, eirp) <==> NobodyIsHarmed(env, eirp)
  {
    x := Excess(env, eirp);
    hide Excess, Served, Sum, NobodyIsHarmed;
    ExcessSign(env, eirp);
    SquareCost(env.harmWeight, x);
  }

  lemma ExcessSign(env: Env, eirp: real)
    requires IsEnv(env)
    ensures Excess(env, eirp) >= 0.0 && Excess(env, eirp) * (|env.victims| as real) == Sum(Overshoots(env, eirp))
    ensures Excess(env, eirp) == 0.0 <==> NobodyIsHarmed(env, eirp)
  {
    hide Excess, Sum;
    ExcessIsMean(env, eirp);
    SumOfNonnegative(Overshoots(env, eirp));
    MeanSign(Excess(env, eirp), |env.victims|);
  }

  lemma MeanSign(x: real, n: nat)
    requires n > 0
    ensures x * (n as real) >= 0.0 ==> x >= 0.0
    ensures x * (n as real) == 0.0 <==> x == 0.0
  {
    var m := n as real;
    assert x > 0.0 ==> x * m > 0.0;
    assert x < 0.0 ==> x * m < 0.0;
  }

  lemma SquareCost(w: real, x: real)
    requires w > 0.0
    ensures w * (x * x) >= 0.0
    ensures w * (x * x) == 0.0 <==> x == 0.0
  {
    if x > 0.0 {
      LargerProduct(0.0, x, 0.0, x);
    } else if x < 0.0 {
      LargerProduct(0.0, -x, 0.0, -x);
      assert (-x) * (-x) == x * x;
    }
    if x != 0.0 {
      LargerProduct(0.0, w, 0.0, x * x);
    }
  }

  /** Where it serves nobody more, more power costs strictly more as soon as it harms somebody. */
  lemma MorePowerHarmsMore(env: Env, lo: real, hi: real)
    requires IsEnv(env) && env.harmWeight > 0.0 && lo < hi
    requires Served(env.gains, lo) == Served(env.gains, hi) && !NobodyIsHarmed(env, hi)
    ensures Reward(env, hi) < Reward(env, lo)
  {
    hide Excess, Served, Sum, Reward, NobodyIsHarmed, Overshoots;
    var x := HarmExactly(env, lo);
    var y := HarmExactly(env, hi);
    OvershootsRise(env, lo, hi);
    LargerMean(x, y, |env.victims|);
    LargerCost(env.harmWeight, x, y);
  }

  lemma OvershootsRise(env: Env, lo: real, hi: real)
    requires IsEnv(env) && lo < hi && !NobodyIsHarmed(env, hi)
    ensures Sum(Overshoots(env, lo)) < Sum(Overshoots(env, hi))
  {
    var i :| 0 <= i < |env.victims| && Overshoot(env, hi, i) != 0.0;
    var a, b := Overshoots(env, lo), Overshoots(env, hi);
    assert a[i] < b[i];
    SumRises(a, b);
    hide Sum;
  }

  lemma LargerMean(x: real, y: real, n: nat)
    requires n > 0 && x * (n as real) < y * (n as real)
    ensures x < y
  {
    assert (y - x) * (n as real) > 0.0;
  }

  lemma LargerCost(w: real, x: real, y: real)
    requires w > 0.0 && 0.0 <= x < y
    ensures w * (x * x) < w * (y * y)
  {
    LargerProduct(x, y, x, y);
    LargerProduct(w, w, x * x, y * y);
  }

  lemma LargerProduct(a: real, b: real, c: real, d: real)
    requires 0.0 <= a <= b && 0.0 <= c < d && b > 0.0
    ensures a * c < b * d
  {
    assert a * c <= b * c;
    assert b * (d - c) > 0.0;
    assert b * d == b * c + b * (d - c);
  }

  /** The optimum the loss is measured against is the best of the grid levels within the cap. */
  lemma OptimumIsFeasible(env: Env)
    requires IsEnv(env)
    ensures forall b :: 0 <= b < N_BINS && Bin(b) <= CAP_DBM ==> Reward(env, Bin(b)) <= OptimalFeasible(env)
    ensures exists b :: 0 <= b < N_BINS && Bin(b) <= CAP_DBM && Reward(env, Bin(b)) == OptimalFeasible(env)
  {
    hide Reward;
    var b: nat :| b <= CAP_BIN && Reward(env, Bin(b)) == BestUpTo(env, CAP_BIN);
    assert Bin(b) <= CAP_DBM;
  }

  // ----- The choice -----

  lemma {:induction false} SeenIsACount(counts: seq<nat>)
    ensures Seen(counts) == |set b: nat | b < |counts| && counts[b] > 0|
  {
    var seen := set b: nat | b < |counts| && counts[b] > 0;
    if counts == [] {
      assert seen == {};
    } else {
      var n := |counts| - 1;
      SeenIsACount(counts[..n]);
      var before := set b: nat | b < n && counts[..n][b] > 0;
      assert seen == if counts[n] > 0 then before + {n} else before;
    }
  }

  /** A polynomial is fitted as soon as degree + 2 bins have been seen; before that, and without one,
      a bin is worth its mean and an unseen one nothing. */
  lemma ValueExactly(m: Model, sums: seq<real>, counts: seq<nat>, b: nat)
    requires |sums| == |counts| == N_BINS && IsModel(m) && b < N_BINS
    ensures var seen := |set c: nat | c < |counts| && counts[c] > 0|;
            if m.degree.Some? && seen >= m.degree.value + 2 then
              Value(m, sums, counts)[b] == Some(m.fit(sums, counts, m.degree.value)[b])
            else if counts[b] == 0 then Value(m, sums, counts)[b] == None
            else Value(m, sums, counts)[b].Some? && Value(m, sums, counts)[b].value * (counts[b] as real) == sums[b]
  {
    SeenIsACount(counts);
  }

  /** Nothing has been seen only before the first step. */
  lemma {:induction false} SeenAfterAStep(env: Env, m: Model, draws: Draws, steps: nat, t: nat)
    requires IsEnv(env) && IsModel(m) && t <= steps
    ensures Seen(After(env, m, draws, steps, t).counts) == 0 <==> t == 0
  {
    hide Proposal, Realised, IsEnv, IsModel;
    if t == 0 {
      SeenIsACount(After(env, m, draws, steps, 0).counts);
      assert (set b: nat | b < N_BINS && After(env, m, draws, steps, 0).counts[b] > 0) == {};
    } else {
      var s := After(env, m, draws, steps, t - 1);
      var counts, b := After(env, m, draws, steps, t).counts, Proposal(m, draws, steps, t - 1, s).0;
      SeenIsACount(counts);
      var seen := set c: nat | c < |counts| && counts[c] > 0;
      assert b in seen;
    }
  }

  /** What step i proposes and where it leaves the random stream: the first step, and every step whose
      draw is below the exploration rate, takes the drawn bin; any other the first best one. */
  lemma StepExactly(env: Env, m: Model, draws: Draws, steps: nat, i: nat)
    requires IsEnv(env) && IsModel(m) && i < steps
    ensures var s, b := After(env, m, draws, steps, i), Proposed(env, m, draws, steps, i + 1)[i];
            var at, rate := After(env, m, draws, steps, i + 1).at, 1.0 - (i as real) / (0.7 * (steps as real));
            var values := Value(m, s.sums, s.counts);
            if i == 0 || draws.uniform(s.at) < 0.05 || draws.uniform(s.at) < rate then
              b == draws.index(s.at + 1) % N_BINS && at == s.at + 2
            else
              && at == s.at + 1 && b < N_BINS
              && (forall c :: 0 <= c < N_BINS ==> Below(values[c], values[b]))
              && (forall c :: 0 <= c < b ==> !Below(values[b], values[c]))
  {
    SeenAfterAStep(env, m, draws, steps, i);
    NextState(env, m, draws, steps, i);
    hide Value, Realised, IsEnv, IsModel, Seen;
  }

  /** What the report says, with the loss as a share of the optimum when that is positive. */
  lemma ReportExactly(env: Env, m: Model, s: State)
    requires IsEnv(env) && IsModel(m) && |s.sums| == |s.counts| == N_BINS
    ensures var r, values := ReportOf(env, m, s), Value(m, s.sums, s.counts);
            && (forall c :: 0 <= c < N_BINS ==> Below(values[c], values[r.chosen]))
            && (forall c :: 0 <= c < r.chosen ==> !Below(values[r.chosen], values[c]))
            && r.executedDbm == (if EIRP_MIN + (r.chosen as real) <= CAP_DBM then EIRP_MIN + (r.chosen as real) else CAP_DBM)
            && r.realised == Reward(env, r.executedDbm) && r.loss == OptimalFeasible(env) - r.realised
            && (if OptimalFeasible(env) > 0.0 then r.lossFraction.Some? && r.lossFraction.value * OptimalFeasible(env) == r.loss
                else r.lossFraction == None)
  {
    hide Reward, OptimalFeasible, Value;
    ShareOfBest(ReportOf(env, m, s).loss, OptimalFeasible(env));
  }

  lemma ShareOfBest(loss: real, best: real)
    ensures best > 0.0 ==> (loss / best) * best == loss
  {
  }

  // ----- What the projection guarantees -----

  /** Every proposal executes a grid bin at or below the cap, so no choice realises
      more than the feasible optimum: the loss of any value model is nonnegative. */
  lemma ExecutedIsAFeasibleBin(env: Env, b: nat)
    requires IsEnv(env)
    ensures Project(Bin(b)) == Bin(Min(b, CAP_BIN)) && Project(Bin(b)) <= CAP_DBM
    ensures Realised(env, b) == Reward(env, Bin(Min(b, CAP_BIN))) <= OptimalFeasible(env)
  {
  }

  lemma LossIsNonnegative(env: Env, m: Model, s: State)
    requires IsEnv(env) && IsModel(m) && |s.sums| == |s.counts| == N_BINS
    ensures var r := ReportOf(env, m, s); r.loss >= 0.0 && r.executedDbm == Bin(Min(r.chosen, CAP_BIN)) <= CAP_DBM
  {
    ExecutedIsAFeasibleBin(env, ArgMaxValue(Value(m, s.sums, s.counts)));
  }

  /** Every bin's sum is its count times its one realised reward. */
  ghost predicate Consistent(env: Env, s: State)
    requires IsEnv(env)
  {
    && |s.sums| == |s.counts| == N_BINS
    && forall b :: 0 <= b < N_BINS ==> s.sums[b] == s.counts[b] as real * Realised(env, b)
  }

  lemma CreditIsConsistent(env: Env, s: State, b: nat, at: nat)
    requires IsEnv(env) && Consistent(env, s) && b < N_BINS
    ensures Consistent(env, Credit(env, s, b, at))
  {
    hide Realised;
    assert (s.counts[b] + 1) as real * Realised(env, b) == s.counts[b] as real * Realised(env, b) + Realised(env, b);
  }

  lemma {:induction false} RunIsConsistent(env: Env, m: Model, draws: Draws, steps: nat, t: nat)
    requires IsEnv(env) && IsModel(m) && t <= steps
    ensures Consistent(env, After(env, m, draws, steps, t))
    ensures t > 0 ==> exists b :: 0 <= b < N_BINS && After(env, m, draws, steps, t).counts[b] > 0
    decreases t
  {
    hide Consistent, Proposal, Realised;
    if t == 0 {
      StartIsConsistent(env);
    } else {
      RunIsConsistent(env, m, draws, steps, t - 1);
      var s := After(env, m, draws, steps, t - 1);
      var p := Proposal(m, draws, steps, t - 1, s);
      CreditIsConsistent(env, s, p.0, p.1);
      assert After(env, m, draws, steps, t).counts[p.0] > 0;
    }
  }

  lemma StartIsConsistent(env: Env)
    requires IsEnv(env)
    ensures Consistent(env, State(seq(N_BINS, _ => 0.0), seq(N_BINS, _ => 0), 0))
  {
    hide Realised;
    forall b | 0 <= b < N_BINS
      ensures 0.0 == 0 as real * Realised(env, b)
    {
    }
  }

  /** The table loses nothing exactly when it has seen some bin whose projection
      is optimal: the plateau it fills with a constant never displaces the argmax. */
  lemma TabularLoss(env: Env, m: Model, s: State)
    requires IsEnv(env) && IsModel(m) && m.degree.None? && Consistent(env, s)
    requires exists b :: 0 <= b < |s.counts| && s.counts[b] > 0
    ensures |s.sums| == |s.counts| == N_BINS
    ensures ReportOf(env, m, s).loss == 0.0 <==>
            exists b :: 0 <= b < |s.counts| && s.counts[b] > 0 && Realised(env, b) == OptimalFeasible(env)
  {
    hide *;
    TableValues(env, m, s);
    TabularChoice(env, Value(m, s.sums, s.counts), s.counts);
    ReportedLoss(env, m, s);
  }

  /** The table's value of a seen bin is its realised reward. */
  lemma TableValues(env: Env, m: Model, s: State)
    requires IsEnv(env) && IsModel(m) && m.degree.None? && Consistent(env, s)
    ensures |s.sums| == |s.counts| == N_BINS
    ensures Tabulates(env, Value(m, s.sums, s.counts), s.counts)
  {
    hide Realised;
    forall b | 0 <= b < N_BINS && s.counts[b] > 0
      ensures s.sums[b] / s.counts[b] as real == Realised(env, b)
    {
      Quotient(s.counts[b] as real, Realised(env, b));
    }
  }

  ghost predicate Tabulates(env: Env, v: seq<Option<real>>, counts: seq<nat>)
    requires IsEnv(env)
  {
    && |v| == |counts| == N_BINS
    && forall b :: 0 <= b < N_BINS ==> v[b] == if counts[b] > 0 then Some(Realised(env, b)) else None
  }

  lemma ReportedLoss(env: Env, m: Model, s: State)
    requires IsEnv(env) && IsModel(m) && |s.sums| == |s.counts| == N_BINS
    ensures ReportOf(env, m, s).loss == OptimalFeasible(env) - Realised(env, ArgMaxValue(Value(m, s.sums, s.counts)))
  {
  }

  lemma TabularChoice(env: Env, v: seq<Option<real>>, counts: seq<nat>)
    requires IsEnv(env) && Tabulates(env, v, counts)
    requires exists b :: 0 <= b < |counts| && counts[b] > 0
    ensures Realised(env, ArgMaxValue(v)) == OptimalFeasible(env) <==>
            exists b :: 0 <= b < |counts| && counts[b] > 0 && Realised(env, b) == OptimalFeasible(env)
  {
    hide Realised, OptimalFeasible, ArgMaxValue;
    var chosen := ArgMaxValue(v);
    var seen :| 0 <= seen < |counts| && counts[seen] > 0;
    assert Below(v[seen], v[chosen]);
    assert counts[chosen] > 0;
    if b :| 0 <= b < |counts| && counts[b] > 0 && Realised(env, b) == OptimalFeasible(env) {
      assert Below(v[b], v[chosen]);
      ExecutedIsAFeasibleBin(env, chosen);
    }
  }

  lemma Quotient(n: real, x: real)
    requires n > 0.0
    ensures (n * x) / n == x
  {
  }

  /** In particular the whole run of the tabular learner loses nothing once every
      bin has been seen, for any reward function. */
  lemma FullSweepLosesNothing(env: Env, m: Model, draws: Draws, steps: nat)
    requires IsEnv(env) && IsModel(m) && m.degree.None?
    requires forall b :: 0 <= b < N_BINS ==> After(env, m, draws, steps, steps).counts[b] > 0
    ensures ReportOf(env, m, After(env, m, draws, steps, steps)).loss == 0.0
  {
    RunIsConsistent(env, m, draws, steps, steps);
    var best: nat :| best <= CAP_BIN && Reward(env, Bin(best)) == BestUpTo(env, CAP_BIN);
    ExecutedIsAFeasibleBin(env, best);
    hide Realised;
    assert After(env, m, draws, steps, steps).counts[best] > 0 && Realised(env, best) == OptimalFeasible(env);
    TabularLoss(env, m, After(env, m, draws, steps, steps));
  }

  lemma {:induction false} ServedMonotone(gains: seq<real>, lo: real, hi: real)
    requires lo <= hi
    ensures Served(gains, lo) <= Served(gains, hi)
  {
    if gains != [] {
      ServedMonotone(gains[..|gains| - 1], lo, hi);
    }
  }

  /** Without a harm term the constant cap policy is optimal, so no learner, with
      any value model, gains anything over proposing the cap forever. */
  lemma NoGainOverConstantCap(env: Env, m: Model, s: State)
    requires IsEnv(env) && IsModel(m) && |s.sums| == |s.counts| == N_BINS && env.harmWeight == 0.0
    ensures OptimalFeasible(env) == Reward(env, CAP_DBM)
    ensures ReportOf(env, m, s).realised <= Reward(env, CAP_DBM)
  {
    var best: nat :| best <= CAP_BIN && Reward(env, Bin(best)) == BestUpTo(env, CAP_BIN);
    RewardMonotone(env, Bin(best), CAP_DBM);
    assert Bin(CAP_BIN) == CAP_DBM;
    hide Reward, Value, ArgMaxValue;
    LossIsNonnegative(env, m, s);
  }

  lemma RewardMonotone(env: Env, lo: real, hi: real)
    requires IsEnv(env) && env.harmWeight == 0.0 && lo <= hi
    ensures Reward(env, lo) <= Reward(env, hi)
  {
    ServedMonotone(env.gains, lo, hi);
    FractionMonotone(Served(env.gains, lo), Served(env.gains, hi), |env.gains|);
  }

  lemma FractionMonotone(a: nat, b: nat, n: nat)
    requires n > 0 && a <= b
    ensures (a as real) / (n as real) <= (b as real) / (n as real)
  {
    assert ((b - a) as real) / (n as real) >= 0.0;
  }
}
