/** The real-data spectrum environment behind the Shield
    (src/horizon_ric/learning/shield_env.py). */
module ShieldedEnv {
  import opened Common
  import opened Shield

  const BAND_LO_HZ: real := 3450000000.0
  const BAND_HI_HZ: real := 3550000000.0
  const N_SUBBANDS: nat := 6
  const MAX_EIRP_DBM: real := 33.0
  const ANTENNA_GAIN_DBI: real := 6.0
  const BANDWIDTH_HZ: real := 20000000.0

  const LIMITS := Limits(BAND_LO_HZ, BAND_HI_HZ, 0.0, MAX_EIRP_DBM)

  datatype SpectrumAction = SpectrumAction(frequencyHz: real, txPowerDbm: real) {
    function EirpDbm(): real { txPowerDbm + ANTENNA_GAIN_DBI }
  }

  /** `gains[r][s]` is receiver `r`'s channel gain in subband `s`; the noise floor is a parameter. */
  datatype Env = Env(gains: seq<seq<real>>, noiseDbm: real, thresholdDb: real)

  ghost predicate IsEnv(env: Env) {
    |env.gains| > 0 && forall r :: 0 <= r < |env.gains| ==> |env.gains[r]| == N_SUBBANDS
  }

  datatype StepResult = StepResult(
    proposed: SpectrumAction,
    executed: SpectrumAction,
    reward: real,
    counterfactual: Option<real>,
    projected: bool,
    guardRefused: bool,
    illegalWithoutShield: bool)

  function SubbandCenterHz(b: nat): real {
    BAND_LO_HZ + (b as real + 0.5) * ((BAND_HI_HZ - BAND_LO_HZ) / (N_SUBBANDS as real))
  }

  /** The in-band subband with the nearest centre; `None` out of band. */
  function SubbandFor(frequencyHz: real): (s: Option<nat>)
    ensures s.Some? <==> BAND_LO_HZ <= frequencyHz <= BAND_HI_HZ
    ensures s.Some? ==> s.value < N_SUBBANDS
    ensures s.Some? ==> forall b :: 0 <= b < N_SUBBANDS ==> Misses(s.value, frequencyHz) <= Misses(b, frequencyHz)
  {
    if frequencyHz < BAND_LO_HZ || frequencyHz > BAND_HI_HZ then None
    else
      hide Misses;
      var closeness := Closeness(frequencyHz);
      var best := ArgMax(closeness);
      assert forall b :: 0 <= b < N_SUBBANDS ==> closeness[b] <= closeness[best];
      Some(best)
  }

  function Closeness(frequencyHz: real): (s: seq<real>)
    ensures |s| == N_SUBBANDS && forall b :: 0 <= b < N_SUBBANDS ==> s[b] == -Misses(b, frequencyHz)
  {
    seq(N_SUBBANDS, b requires 0 <= b => -Misses(b, frequencyHz))
  }

  /** How far the centre of subband `b` is from a frequency. */
  function Misses(b: nat, frequencyHz: real): real {
    Abs(SubbandCenterHz(b) - frequencyHz)
  }

  predicate Clears(env: Env, eirpDbm: real, subband: nat, r: nat)
    requires IsEnv(env) && subband < N_SUBBANDS && r < |env.gains|
  {
    eirpDbm + env.gains[r][subband] - env.noiseDbm >= env.thresholdDb
  }

  /** The receivers that clear the threshold. */
  ghost function ServedReceivers(env: Env, eirpDbm: real, subband: nat): set<nat>
    requires IsEnv(env) && subband < N_SUBBANDS
  {
    set r: nat | r < |env.gains| && Clears(env, eirpDbm, subband, r)
  }

  /** How many of the first `n` receivers clear the threshold. */
  function Served(env: Env, eirpDbm: real, subband: nat, n: nat): (c: nat)
    requires IsEnv(env) && subband < N_SUBBANDS && n <= |env.gains|
    ensures c <= n
  {
    if n == 0 then 0
    else Served(env, eirpDbm, subband, n - 1)
         + if Clears(env, eirpDbm, subband, n - 1) then 1 else 0
  }

  lemma {:induction false} ServedIsACount(env: Env, eirpDbm: real, subband: nat, n: nat)
    requires IsEnv(env) && subband < N_SUBBANDS && n <= |env.gains|
    ensures Served(env, eirpDbm, subband, n) == |set r: nat | r < n && Clears(env, eirpDbm, subband, r)|
  {
    hide Clears;
    if n > 0 {
      ServedIsACount(env, eirpDbm, subband, n - 1);
      var before := set r: nat | r < n - 1 && Clears(env, eirpDbm, subband, r);
      var after := set r: nat | r < n && Clears(env, eirpDbm, subband, r);
      assert after == if Clears(env, eirpDbm, subband, n - 1) then before + {n - 1} else before;
    }
  }

  /** The served fraction; `None` for an out-of-band frequency, which has no measured channel. */
  function Reward(env: Env, a: SpectrumAction): (r: Option<real>)
    requires IsEnv(env)
    ensures r.Some? <==> BAND_LO_HZ <= a.frequencyHz <= BAND_HI_HZ
    ensures r.Some? ==> 0.0 <= r.value <= 1.0
    ensures r.Some? ==> var s := SubbandFor(a.frequencyHz).value;
                        r.value * (|env.gains| as real) == |ServedReceivers(env, a.EirpDbm(), s)| as real
  {
    match SubbandFor(a.frequencyHz)
    case None => None
    case Some(s) =>
      hide Served, Clears;
      ServedIsACount(env, a.EirpDbm(), s, |env.gains|);
      AllReceivers(env, a.EirpDbm(), s);
      Some(Fraction(Served(env, a.EirpDbm(), s, |env.gains|), |env.gains|))
  }

  lemma AllReceivers(env: Env, eirpDbm: real, subband: nat)
    requires IsEnv(env) && subband < N_SUBBANDS
    ensures ServedReceivers(env, eirpDbm, subband) == set r: nat | r < |env.gains| && Clears(env, eirpDbm, subband, r)
  {
  }

  function Fraction(c: nat, n: nat): (x: real)
    requires c <= n && n > 0
    ensures x * (n as real) == c as real && 0.0 <= x <= 1.0
  {
    c as real / n as real
  }

  function ActionPayload(a: SpectrumAction): Payload {
    Payload(Some(a.frequencyHz), Some(BANDWIDTH_HZ), Some(a.txPowerDbm), Some(ANTENNA_GAIN_DBI), false)
  }

  predicate IsFeasible(a: SpectrumAction) {
    Feasible(LIMITS, ActionPayload(a))
  }

  /** The executed action: the centre clipped so that the carrier fits the band, the EIRP clipped to the cap. */
  function Project(a: SpectrumAction): SpectrumAction {
    SpectrumAction(Clip(a.frequencyHz, BAND_LO_HZ + BANDWIDTH_HZ / 2.0, BAND_HI_HZ - BANDWIDTH_HZ / 2.0),
                   MinReal(a.txPowerDbm, MAX_EIRP_DBM - ANTENNA_GAIN_DBI))
  }

  /** What the substrate reports as "projected": a move of more than 1 Hz or 1e-9 dB. */
  predicate ReportedProjected(proposed: SpectrumAction, executed: SpectrumAction) {
    Abs(executed.frequencyHz - proposed.frequencyHz) > 1.0 || executed.EirpDbm() < proposed.EirpDbm() - 0.000000001
  }

  /** Illegal with no Shield present: an EIRP clearly above the cap, or a centre out of band. */
  predicate Illegal(a: SpectrumAction) {
    a.EirpDbm() > MAX_EIRP_DBM + 0.000000001 || a.frequencyHz < BAND_LO_HZ || a.frequencyHz > BAND_HI_HZ
  }

  /** The result of a step, read off the projection. */
  ghost function StepOf(env: Env, a: SpectrumAction): StepResult
    requires IsEnv(env) && a.frequencyHz > 0.0
  {
    StepResult(a, Project(a), Reward(env, Project(a)).value, Reward(env, a),
               ReportedProjected(a, Project(a)), !IsFeasible(a), Illegal(a))
  }

  /** One closed-loop interaction. It executes the projected action whatever was
      proposed, provided the proposed centre frequency is positive (the Shield
      blocks the others as malformed and the step then has no reward to return). */
  method Step(env: Env, proposed: SpectrumAction) returns (res: Result<StepResult>)
    requires IsEnv(env)
    ensures res.Ok? <==> proposed.frequencyHz > 0.0
    ensures res.Ok? ==> res.value == StepOf(env, proposed)
  {
    hide Feasible, Placeable, Pass, Sane, Reward, ReportedProjected, Project;
    var d := Dispose(LIMITS, ActionPayload(proposed));
    ProjectIsTheShield(proposed);
    ProjectIsInBand(proposed);
    Executed(proposed, d.safe, d.emitBlocked);
    var executed := SpectrumAction(d.safe.frequencyHz.value, d.safe.txPowerDbm.value);
    var realised := Reward(env, executed);
    if realised.None? {
      return Err("Shield returned an out-of-band action");
    }
    // the guard chain refuses a certificate that is unsafe or carries corrections nobody recorded
    var guardRefused := d.emitBlocked || d.corrections > 0;
    res := Ok(StepResult(proposed, executed, realised.value, Reward(env, proposed),
                         ReportedProjected(proposed, executed), guardRefused, Illegal(proposed)));
  }

  lemma ProjectIsInBand(a: SpectrumAction)
    ensures BAND_LO_HZ <= Project(a).frequencyHz <= BAND_HI_HZ
  {
  }

  /** Reads the executed action off what the Shield guarantees about its disposition. */
  lemma Executed(a: SpectrumAction, safe: Payload, emitBlocked: bool)
    requires a.frequencyHz > 0.0 ==> Placeable(LIMITS, ActionPayload(a)) && Pass(LIMITS, ActionPayload(a)).0 == ActionPayload(Project(a))
    requires emitBlocked <==> !Placeable(LIMITS, ActionPayload(a))
    requires !emitBlocked ==> safe == Pass(LIMITS, ActionPayload(a)).0
    requires !Sane(ActionPayload(a)) ==> safe == ActionPayload(a).(emitBlocked := true)
    ensures a.frequencyHz > 0.0 ==> !emitBlocked && safe == ActionPayload(Project(a))
    ensures a.frequencyHz <= 0.0 ==> safe == ActionPayload(a).(emitBlocked := true)
  {
    hide Placeable, Pass, Project;
  }

  /** In this environment the Shield's correction is the two-axis clamp: always
      possible, always feasible, the identity exactly on the feasible actions. */
  lemma ProjectIsTheShield(a: SpectrumAction)
    ensures a.frequencyHz > 0.0 ==> Placeable(LIMITS, ActionPayload(a))
    ensures a.frequencyHz > 0.0 ==> Pass(LIMITS, ActionPayload(a)).0 == ActionPayload(Project(a))
    ensures IsFeasible(Project(a)) && Project(Project(a)) == Project(a)
    ensures Project(a) == a <==> IsFeasible(a)
  {
    PassSettles(LIMITS, ActionPayload(a));
  }

  /** The reported flag is not the Shield's: it implies infeasibility, but an
      infeasible action moved by no more than 1 Hz and 1e-9 dB is not reported.
      The guard flag has no such slack. */
  lemma ReportedProjectedIsCoarser(a: SpectrumAction)
    ensures ReportedProjected(a, Project(a)) ==> !IsFeasible(a)
    ensures ReportedProjected(a, Project(a)) <==>
            || Project(a).frequencyHz - a.frequencyHz > 1.0
            || a.frequencyHz - Project(a).frequencyHz > 1.0
            || a.EirpDbm() > MAX_EIRP_DBM + 0.000000001
  {
    ProjectIsTheShield(a);
    ClipMoves(a.frequencyHz, BAND_LO_HZ + BANDWIDTH_HZ / 2.0, BAND_HI_HZ - BANDWIDTH_HZ / 2.0);
  }

  lemma ClipMoves(x: real, lo: real, hi: real)
    ensures Abs(Clip(x, lo, hi) - x) > 1.0 <==> Clip(x, lo, hi) - x > 1.0 || x - Clip(x, lo, hi) > 1.0
  {
  }

  /** An illegal proposal is infeasible, but not conversely: at the cap, a carrier whose centre is
      in band and whose occupied bandwidth spills past an edge is infeasible and not illegal. */
  lemma IllegalIsCoarser(a: SpectrumAction)
    ensures Illegal(a) ==> !IsFeasible(a)
    ensures !Illegal(a) && a.EirpDbm() <= MAX_EIRP_DBM ==>
              (!IsFeasible(a) <==>
                || BAND_LO_HZ <= a.frequencyHz < BAND_LO_HZ + BANDWIDTH_HZ / 2.0
                || BAND_HI_HZ - BANDWIDTH_HZ / 2.0 < a.frequencyHz <= BAND_HI_HZ)
  {
    ProjectIsTheShield(a);
  }

  lemma InfeasibleButNotReported()
    ensures var a := SpectrumAction(SubbandCenterHz(3), 27.0000000005);
            !IsFeasible(a) && !ReportedProjected(a, Project(a))
  {
    assert SubbandCenterHz(3) == 3450000000.0 + 3.5 * (100000000.0 / 6.0);
  }

  lemma {:induction false} ServedMonotone(env: Env, lo: real, hi: real, subband: nat, n: nat)
    requires IsEnv(env) && subband < N_SUBBANDS && n <= |env.gains| && lo <= hi
    ensures Served(env, lo, subband, n) <= Served(env, hi, subband, n)
  {
    if n > 0 {
      ServedMonotone(env, lo, hi, subband, n - 1);
    }
  }

  /** More power at the same frequency never serves fewer receivers. */
  lemma RewardMonotone(env: Env, frequencyHz: real, lo: real, hi: real)
    requires IsEnv(env) && lo <= hi && BAND_LO_HZ <= frequencyHz <= BAND_HI_HZ
    ensures Reward(env, SpectrumAction(frequencyHz, lo)).value <= Reward(env, SpectrumAction(frequencyHz, hi)).value
  {
    var s, n := SubbandFor(frequencyHz).value, |env.gains|;
    ServedMonotone(env, lo + ANTENNA_GAIN_DBI, hi + ANTENNA_GAIN_DBI, s, n);
    QuotientMonotone(Served(env, lo + ANTENNA_GAIN_DBI, s, n), Served(env, hi + ANTENNA_GAIN_DBI, s, n), n);
  }

  lemma QuotientMonotone(a: nat, b: nat, n: nat)
    requires a <= b && n > 0
    ensures a as real / n as real <= b as real / n as real
  {
  }
}
