/** The Decision Safety Shield over a spectrum-reservation payload
    (src/horizon_ric/shield/shield.py, src/horizon_ric/shield/invariants.py):
    numeric sanity, the occupied-bandwidth mask, the EIRP ceiling, and the loop
    that checks, projects and certifies. */
module Shield {
  import opened Common

  /** A field is `None` when it does not read as a finite number. */
  datatype Payload = Payload(
    frequencyHz: Option<real>,
    bandwidthHz: Option<real>,
    txPowerDbm: Option<real>,
    antennaGainDbi: Option<real>,
    emitBlocked: bool)

  datatype Limits = Limits(bandLoHz: real, bandHiHz: real, guardBandHz: real, maxEirpDbm: real) {
    function UsableLo(): real { bandLoHz + guardBandHz }
    function UsableHi(): real { bandHiHz - guardBandHz }
  }

  datatype Disposition = Disposition(safe: Payload, projected: bool, corrections: nat, emitBlocked: bool)

  const MAX_PASSES := 8

  predicate WellFormed(p: Payload) {
    p.frequencyHz.Some? && p.bandwidthHz.Some? && p.txPowerDbm.Some? && p.antennaGainDbi.Some?
  }

  /** numeric_domain_sanity */
  predicate Sane(p: Payload) {
    WellFormed(p) && p.frequencyHz.value > 0.0 && p.bandwidthHz.value > 0.0
  }

  /** spectral_mask_ts38104: the whole occupied bandwidth lies inside the usable channel. */
  predicate MaskOk(l: Limits, p: Payload)
    requires WellFormed(p)
  {
    var f, half := p.frequencyHz.value, p.bandwidthHz.value / 2.0;
    MinReal(f - half - l.UsableLo(), l.UsableHi() - (f + half)) >= 0.0
  }

  function Eirp(p: Payload): real
    requires WellFormed(p)
  {
    p.txPowerDbm.value + p.antennaGainDbi.value
  }

  predicate Feasible(l: Limits, p: Payload) {
    Sane(p) && MaskOk(l, p) && Eirp(p) <= l.maxEirpDbm
  }

  function Clip(x: real, lo: real, hi: real): real {
    MinReal(MaxReal(x, lo), hi)
  }

  function ClippedFrequency(l: Limits, p: Payload): real
    requires WellFormed(p)
  {
    var half := p.bandwidthHz.value / 2.0;
    Clip(p.frequencyHz.value, l.UsableLo() + half, l.UsableHi() - half)
  }

  /** One projection pass over the chain, and how many corrections it recorded;
      it stops at the first invariant that blocks the emission. */
  function Pass(l: Limits, p: Payload): (Payload, nat) {
    if !Sane(p) then (p.(emitBlocked := true), 1)
    else if p.emitBlocked then (p, 0)
    else if p.bandwidthHz.value > l.UsableHi() - l.UsableLo() then (p.(emitBlocked := true), 1)
    else
      var f := ClippedFrequency(l, p);
      var overage := Eirp(p) - l.maxEirpDbm;
      (p.(frequencyHz := Some(f),
          txPowerDbm := if overage > 0.0 then Some(p.txPowerDbm.value - overage) else p.txPowerDbm),
       (if f != p.frequencyHz.value then 1 else 0) + (if overage > 0.0 then 1 else 0))
  }

  /** The carrier fits the channel: the payload has some legal placement. */
  predicate Placeable(l: Limits, p: Payload) {
    && Sane(p)
    && p.bandwidthHz.value <= l.UsableHi() - l.UsableLo()
    && ClippedFrequency(l, p) > 0.0
  }

  /** The action the disposal loop ends with. */
  function Disposed(l: Limits, p: Payload): Payload {
    if Feasible(l, p) then p
    else
      var q := Pass(l, p).0;
      if q.emitBlocked || Feasible(l, q) then q else Pass(l, q).0
  }

  /** The disposal loop. It corrects exactly the infeasible payloads, emits only
      feasible ones, and refuses exactly those that have no legal placement. */
  method Dispose(l: Limits, p: Payload) returns (d: Disposition)
    ensures d.projected <==> !Feasible(l, p)
    ensures d.emitBlocked <==> p.emitBlocked || !Placeable(l, p)
    ensures d.emitBlocked == d.safe.emitBlocked
    ensures !d.emitBlocked ==> Feasible(l, d.safe) && d.safe == Pass(l, p).0
    ensures Feasible(l, p) ==> d.safe == p && d.corrections == 0
    ensures !Feasible(l, p) && !p.emitBlocked ==> d.corrections > 0
    ensures !Sane(p) ==> d.safe == p.(emitBlocked := true)
    ensures d.safe == Disposed(l, p)
  {
    var safe, projected, corrections: nat := p, false, 0;
    var pass := 0;
    PassSettles(l, p);
    while pass < MAX_PASSES
      invariant 0 <= pass <= MAX_PASSES
      invariant pass == 0 ==> safe == p && !projected && corrections == 0
      invariant pass > 0 ==> projected && !Feasible(l, p) && !safe.emitBlocked && !p.emitBlocked
                             && safe == Pass(l, p).0 && corrections > 0
      invariant pass > 1 ==> Feasible(l, safe)
    {
      if Feasible(l, safe) {
        break;
      }
      projected := true;
      var (next, recorded) := Pass(l, safe);
      safe, corrections := next, corrections + recorded;
      if safe.emitBlocked {
        break;
      }
      pass := pass + 1;
    }
    var emitBlocked := safe.emitBlocked || !Feasible(l, safe);
    if emitBlocked && !safe.emitBlocked {
      safe := safe.(emitBlocked := true);
    }
    d := Disposition(safe, projected, corrections, emitBlocked);
  }

  /** One pass lands a placeable payload in the feasible set; it leaves feasible
      payloads alone and moves or blocks every other one. */
  lemma PassSettles(l: Limits, p: Payload)
    ensures var q := Pass(l, p);
            && (!p.emitBlocked && Placeable(l, p) ==> Feasible(l, q.0) && !q.0.emitBlocked)
            && (Feasible(l, p) ==> Placeable(l, p))
            && (Feasible(l, p) && !p.emitBlocked ==> q == (p, 0))
            && (!Feasible(l, p) && !p.emitBlocked ==> q.0 != p && q.1 > 0)
            && (!p.emitBlocked && !q.0.emitBlocked && !Placeable(l, p) ==> !Sane(q.0))
  {
  }

  /** The correction is the nearest legal action, in frequency and in power at
      once: no feasible payload with the same bandwidth and antenna is closer. */
  lemma NearestLegal(l: Limits, p: Payload, q: Payload)
    requires !p.emitBlocked && Placeable(l, p)
    requires Feasible(l, q) && q.bandwidthHz == p.bandwidthHz && q.antennaGainDbi == p.antennaGainDbi
    ensures var safe := Pass(l, p).0;
            && safe.bandwidthHz == p.bandwidthHz && safe.antennaGainDbi == p.antennaGainDbi
            && Abs(safe.frequencyHz.value - p.frequencyHz.value) <= Abs(q.frequencyHz.value - p.frequencyHz.value)
            && Abs(safe.txPowerDbm.value - p.txPowerDbm.value) <= Abs(q.txPowerDbm.value - p.txPowerDbm.value)
  {
  }

  /** "The safe action is the proposed one" means "feasible", except on the payloads that arrive
      already blocked: exactly those come back unchanged although they are not feasible. */
  lemma BlockedInputComesBackUnchanged(l: Limits, p: Payload)
    ensures Disposed(l, p) == p <==> Feasible(l, p) || p.emitBlocked
  {
    PassSettles(l, p);
  }
}
