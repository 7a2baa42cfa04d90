/** One credit regime's tables (benchmarks/credit_assignment_loop.py, _TabularRegime). */
module CreditTables {
  import opened Common
  import opened ShieldedEnv

  const EIRP_MIN_DBM: real := 20.0
  const N_BINS: nat := 33
  const CAP_BIN: nat := 13

  const EMPTY_MASK := "the action mask left no proposable bin"

  datatype Regime = NaiveProposedCredit | ProjectionAware | CorrectionAware | UnconstrainedOracle

  /** The value table with its visit counts, and the two behaviour tables of the
      correction-aware regime. `None` is NaN: no claim for that bin. */
  datatype Tables = Tables(
    q: seq<Option<real>>, visits: seq<nat>,
    rHat: seq<Option<real>>, pHat: seq<Option<real>>, bVisits: seq<nat>)

  ghost predicate IsTables(t: Tables) {
    |t.q| == |t.visits| == |t.rHat| == |t.pHat| == |t.bVisits| == N_BINS
  }

  function EmptyTables(): (t: Tables)
    ensures IsTables(t)
  {
    var nan := seq(N_BINS, _ => None);
    var zero := seq(N_BINS, _ => 0);
    Tables(nan, zero, nan, nan, zero)
  }

  function BinOf(eirpDbm: real): (b: Result<nat>)
    ensures b.Ok? ==> b.value < N_BINS
  {
    var b := RoundHalfEven(eirpDbm - EIRP_MIN_DBM);
    if 0 <= b < N_BINS then Ok(b) else Err("outside the learner grid")
  }

  function BinEirp(b: nat): real {
    EIRP_MIN_DBM + b as real
  }

  /** The grid is read back exactly. */
  lemma BinOfBinEirp(b: nat)
    requires b < N_BINS
    ensures BinOf(BinEirp(b)) == Ok(b)
  {
    assert BinEirp(b) - EIRP_MIN_DBM == b as real;
  }

  /** The entry after its `n`-th credit of `x`; a NaN entry stays NaN except on the first credit. */
  function MeanStep(entry: Option<real>, n: nat, x: real): Option<real>
    requires n > 0
  {
    if n == 1 then Some(x)
    else if entry.None? then None
    else Some(entry.value + (x - entry.value) / (n as real))
  }

  function Indicator(b: bool): real {
    if b then 1.0 else 0.0
  }

  /** The tables after one step that executed bin `executed` on proposal `proposed`. */
  function CreditStep(name: Regime, t: Tables, proposed: nat, executed: nat, res: StepResult): (t': Tables)
    requires IsTables(t) && proposed < N_BINS && executed < N_BINS
    ensures IsTables(t')
  {
    match name
    case NaiveProposedCredit => CreditQ(t, proposed, res.reward)
    case ProjectionAware => CreditQ(t, executed, res.reward)
    case CorrectionAware =>
      CreditBehaviour(CreditQ(t, executed, res.reward), proposed, res.reward, Indicator(res.projected))
    case UnconstrainedOracle =>
      if res.counterfactual.Some? then CreditQ(t, proposed, res.counterfactual.value) else t
  }

  /** One update; an executed EIRP off the grid raises, and so does an oracle step without a counterfactual. */
  function Updated(name: Regime, t: Tables, proposed: nat, res: StepResult): (r: Result<Tables>)
    requires IsTables(t) && proposed < N_BINS
    ensures r.Ok? ==> IsTables(r.value)
  {
    match BinOf(res.executed.EirpDbm())
    case Err(e) => Err(e)
    case Ok(executed) =>
      if name.UnconstrainedOracle? && res.counterfactual.None? then Err("out-of-band proposal")
      else Ok(CreditStep(name, t, proposed, executed, res))
  }

  lemma UpdatedOnGrid(name: Regime, t: Tables, proposed: nat, executed: nat, res: StepResult)
    requires IsTables(t) && proposed < N_BINS && executed < N_BINS
    requires BinOf(res.executed.EirpDbm()) == Ok(executed) && res.counterfactual.Some?
    ensures Updated(name, t, proposed, res) == Ok(CreditStep(name, t, proposed, executed, res))
  {
  }

  function CreditQ(t: Tables, b: nat, x: real): (t': Tables)
    requires IsTables(t) && b < N_BINS
    ensures IsTables(t')
  {
    t.(visits := t.visits[b := t.visits[b] + 1], q := t.q[b := MeanStep(t.q[b], t.visits[b] + 1, x)])
  }

  function CreditBehaviour(t: Tables, b: nat, x: real, p: real): (t': Tables)
    requires IsTables(t) && b < N_BINS
    ensures IsTables(t')
  {
    var n := t.bVisits[b] + 1;
    t.(bVisits := t.bVisits[b := n], rHat := t.rHat[b := MeanStep(t.rHat[b], n, x)],
       pHat := t.pHat[b := MeanStep(t.pHat[b], n, p)])
  }

  /** The behaviour score the argmax is taken over. */
  function Score(name: Regime, penalty: real, t: Tables): (s: seq<Option<real>>)
    requires IsTables(t)
    ensures |s| == N_BINS
  {
    if name.CorrectionAware? then
      seq(N_BINS, b requires 0 <= b < N_BINS =>
        if t.rHat[b].Some? && t.pHat[b].Some? then Some(t.rHat[b].value - penalty * t.pHat[b].value) else None)
    else t.q
  }

  predicate Known(score: seq<Option<real>>, mask: seq<bool>, b: nat)
    requires |score| == |mask|
  {
    b < |mask| && mask[b] && score[b].Some?
  }

  /** Bins attaining the maximum of the score over the arm's mask. */
  predicate AttainsMax(score: seq<Option<real>>, mask: seq<bool>, b: nat)
    requires |score| == |mask|
  {
    Known(score, mask, b) &&
    forall c :: 0 <= c < |mask| && Known(score, mask, c) ==> score[c].value <= score[b].value
  }

  /** The tie set; every proposable bin while nothing is known. */
  function Tied(score: seq<Option<real>>, mask: seq<bool>): (r: seq<nat>)
    requires |score| == |mask|
  {
    if exists b :: 0 <= b < |mask| && Known(score, mask, b)
    then Flatnonzero(seq(|mask|, b requires 0 <= b < |mask| => AttainsMax(score, mask, b)))
    else Flatnonzero(mask)
  }

  lemma {:induction false} SomeBinAttainsMax(score: seq<Option<real>>, mask: seq<bool>, b: nat) returns (m: nat)
    requires |score| == |mask| && Known(score, mask, b)
    ensures AttainsMax(score, mask, m)
  {
    m := b;
    var c := 0;
    while c < |mask|
      invariant 0 <= c <= |mask| && Known(score, mask, m)
      invariant forall i :: 0 <= i < c && Known(score, mask, i) ==> score[i].value <= score[m].value
    {
      if Known(score, mask, c) && score[c].value > score[m].value {
        m := c;
      }
      c := c + 1;
    }
  }

  /** The greedy choice always has a candidate, and only proposable ones. */
  lemma TiedIsProposable(score: seq<Option<real>>, mask: seq<bool>)
    requires |score| == |mask| && true in mask
    ensures |Tied(score, mask)| > 0
    ensures forall b :: b in Tied(score, mask) ==> b < |mask| && mask[b]
  {
    if b :| 0 <= b < |mask| && Known(score, mask, b) {
      var m := SomeBinAttainsMax(score, mask, b);
      assert m in Tied(score, mask);
    } else {
      var b :| 0 <= b < |mask| && mask[b];
      assert b in Flatnonzero(mask);
    }
  }

  /** A bin is tied exactly when it is proposable and, as soon as any proposable bin has a score, has
      one that no proposable bin exceeds; the tied bins are listed in ascending order. */
  lemma TiedExactly(score: seq<Option<real>>, mask: seq<bool>)
    requires |score| == |mask|
    ensures Increasing(Tied(score, mask))
    ensures forall b: nat :: b in Tied(score, mask) <==> b < |mask| && mask[b] && NobodyScoresMore(score, mask, b)
  {
    var attaining := seq(|mask|, b requires 0 <= b < |mask| => AttainsMax(score, mask, b));
    FlatnonzeroIncreasing(attaining);
    FlatnonzeroIncreasing(mask);
    hide Increasing, Flatnonzero;
    forall b | 0 <= b < |mask| && mask[b]
      ensures b in Tied(score, mask) <==> NobodyScoresMore(score, mask, b)
    {
      assert forall c :: 0 <= c < |mask| ==> (Known(score, mask, c) <==> mask[c] && score[c].Some?);
      if c :| 0 <= c < |mask| && Known(score, mask, c) {
        assert mask[c] && score[c].Some?;
        assert b in Tied(score, mask) <==> AttainsMax(score, mask, b);
        assert NobodyScoresMore(score, mask, b) ==> score[b].Some?;
      } else {
        assert b in Tied(score, mask);
      }
    }
  }

  /** No proposable bin has a score that bin b lacks or that exceeds b's. */
  predicate NobodyScoresMore(score: seq<Option<real>>, mask: seq<bool>, b: nat)
    requires b < |score| == |mask|
  {
    forall c :: 0 <= c < |mask| && mask[c] && score[c].Some? ==> score[b].Some? && score[c].value <= score[b].value
  }

  /** The mutable object: numpy buffers updated in place. */
  class TabularRegime {
    const name: Regime
    const proposable: seq<bool>
    const penalty: real
    const q: array<Option<real>>
    const visits: array<nat>
    const rHat: array<Option<real>>
    const pHat: array<Option<real>>
    const bVisits: array<nat>

    ghost predicate Valid() {
      && |proposable| == N_BINS && true in proposable
      && q.Length == visits.Length == rHat.Length == pHat.Length == bVisits.Length == N_BINS
      && q != rHat && q != pHat && rHat != pHat && visits != bVisits
    }

    ghost function Repr(): set<object> {
      {q, visits, rHat, pHat, bVisits}
    }

    function Contents(): (t: Tables)
      requires Valid()
      reads Repr()
      ensures IsTables(t)
    {
      Tables(q[..], visits[..], rHat[..], pHat[..], bVisits[..])
    }

    constructor (name: Regime, proposable: seq<bool>, penalty: real)
      requires |proposable| == N_BINS && true in proposable
      ensures Valid() && fresh(Repr()) && Contents() == EmptyTables()
      ensures this.name == name && this.proposable == proposable && this.penalty == penalty
    {
      this.name, this.proposable, this.penalty := name, proposable, penalty;
      q := new Option<real>[N_BINS](_ => None);
      visits := new nat[N_BINS](_ => 0);
      rHat := new Option<real>[N_BINS](_ => None);
      pHat := new Option<real>[N_BINS](_ => None);
      bVisits := new nat[N_BINS](_ => 0);
      new;
      assert Contents() == EmptyTables();
    }

    /** The constructor as the source has it: an empty action mask raises. */
    static method Create(name: Regime, proposable: seq<bool>, penalty: real) returns (r: Result<TabularRegime>)
      requires |proposable| == N_BINS
      ensures r.Ok? <==> true in proposable
      ensures r.Ok? ==> r.value.Valid() && fresh(r.value.Repr()) && r.value.Contents() == EmptyTables()
      ensures r.Ok? ==> r.value.name == name && r.value.proposable == proposable && r.value.penalty == penalty
    {
      if !(true in proposable) {
        return Err(EMPTY_MASK);
      }
      var regime := new TabularRegime(name, proposable, penalty);
      return Ok(regime);
    }

    static method MeanUpdate(table: array<Option<real>>, counts: array<nat>, b: nat, x: real)
      requires b < table.Length == counts.Length
      modifies table, counts
      ensures counts[..] == old(counts[..])[b := old(counts[b]) + 1]
      ensures table[..] == old(table[..])[b := MeanStep(old(table[b]), old(counts[b]) + 1, x)]
    {
      counts[b] := counts[b] + 1;
      if counts[b] == 1 {
        table[b] := Some(x);
      } else if table[b].Some? {
        table[b] := Some(table[b].value + (x - table[b].value) / (counts[b] as real));
      }
    }

    method UpdateQ(b: nat, x: real)
      requires Valid() && b < N_BINS
      modifies q, visits
      ensures Contents() == CreditQ(old(Contents()), b, x)
    {
      MeanUpdate(q, visits, b, x);
    }

    method UpdateBehaviour(b: nat, reward: real, projected: bool)
      requires Valid() && b < N_BINS
      modifies rHat, pHat, bVisits
      ensures Contents() == CreditBehaviour(old(Contents()), b, reward, Indicator(projected))
    {
      MeanUpdate(rHat, bVisits, b, reward);
      // both behaviour tables share one count
      var n, x := bVisits[b], Indicator(projected);
      if n == 1 {
        pHat[b] := Some(x);
      } else if pHat[b].Some? {
        pHat[b] := Some(pHat[b].value + (x - pHat[b].value) / (n as real));
      }
    }

    method Update(proposed: nat, res: StepResult) returns (r: Result<()>)
      requires Valid() && proposed < N_BINS
      modifies Repr()
      ensures var u := Updated(name, old(Contents()), proposed, res);
              && (r.Ok? <==> u.Ok?)
              && Contents() == if u.Ok? then u.value else old(Contents())
    {
      hide BinOf, CreditQ, CreditBehaviour;
      var bin := BinOf(res.executed.EirpDbm());
      if bin.Err? {
        return Err(bin.error);
      }
      match name {
        case NaiveProposedCredit =>
          UpdateQ(proposed, res.reward);
        case ProjectionAware =>
          UpdateQ(bin.value, res.reward);
        case CorrectionAware =>
          UpdateQ(bin.value, res.reward);
          UpdateBehaviour(proposed, res.reward, res.projected);
        case UnconstrainedOracle =>
          if res.counterfactual.None? {
            return Err("out-of-band proposal");
          }
          UpdateQ(proposed, res.counterfactual.value);
      }
      r := Ok(());
    }
  }
}
