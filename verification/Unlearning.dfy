/** Removing a falsifying client from a trained federation (benchmarks/federated_unlearning_suite.py):
    re-aggregating the cached honest uploads, against retraining without the client. */
module Unlearning {
  import opened Common
  import opened LinearAlgebra
  import opened SuffStats
  import opened LocalSolve
  import opened Federation
  import opened Erasure

  const TARGET_SUBBAND: nat := 0

  /** Which clients falsify, by how many dB, and the public scale of the targets. */
  datatype Attack = Attack(malicious: set<nat>, boost: real, scale: real) {
    predicate Falsifies(k: nat) {
      k in malicious && boost != 0.0
    }
  }

  /** falsified_target: real positions and gains, one subband inflated. */
  function Falsified(rows: seq<Row>, attack: Attack, p: nat, s: nat): (lie: seq<Row>)
    requires IsRows(rows, p, s) && s > TARGET_SUBBAND && attack.scale != 0.0
    ensures IsRows(lie, p, s) && |lie| == |rows|
  {
    seq(|rows|, i requires 0 <= i < |rows| =>
      rows[i].(t := rows[i].t[TARGET_SUBBAND := rows[i].t[TARGET_SUBBAND] + attack.boost / attack.scale]))
  }

  /** The rows client k trains on. */
  function Reported(pop: seq<Row>, clients: seq<seq<nat>>, attack: Attack, k: nat, p: nat, s: nat): (rows: seq<Row>)
    requires IsRows(pop, p, s) && IsFederation(clients, |pop|) && s > TARGET_SUBBAND && attack.scale != 0.0
    requires k < |clients|
    ensures IsRows(rows, p, s) && |rows| == |clients[k]|
  {
    var rows := RowsOf(pop, clients[k]);
    if attack.Falsifies(k) then Falsified(rows, attack, p, s) else rows
  }

  function ReportedStats(pop: seq<Row>, clients: seq<seq<nat>>, attack: Attack, p: nat, s: nat): (stats: seq<Stat>)
    requires IsRows(pop, p, s) && IsFederation(clients, |pop|) && s > TARGET_SUBBAND && attack.scale != 0.0
    ensures |stats| == |clients| && IsStats(stats, p, s)
  {
    seq(|clients|, k requires 0 <= k < |clients| => StatOf(Reported(pop, clients, attack, k, p, s), p, s))
  }

  /** The entries whose position is not in the removed set, in order. */
  function Others<T>(xs: seq<T>, removed: set<nat>): (kept: seq<T>)
    ensures |kept| <= |xs|
  {
    if xs == [] then []
    else
      var n := |xs| - 1;
      var before := Others(xs[..n], removed);
      if n in removed then before else before + [xs[n]]
  }

  // ----- Stealth -----

  type Norm = Mat -> real

  function SumOfSquares(m: Mat): real {
    if m == [] then 0.0 else SumOfSquares(m[..|m| - 1]) + Dot(m[|m| - 1], m[|m| - 1])
  }

  /** np.linalg.norm: the nonnegative root of the sum of squares. */
  ghost predicate IsNorm(norm: Norm) {
    forall m :: IsRoot(norm(m), SumOfSquares(m))
  }

  predicate IsRoot(root: real, square: real) {
    root >= 0.0 && Times(root, root) == square
  }

  function NormsOf(norm: Norm, ups: seq<Mat>): (ns: seq<real>)
    ensures |ns| == |ups|
  {
    seq(|ups|, k requires 0 <= k < |ups| => norm(ups[k]))
  }

  /** The median norm of the honest uploads. */
  function HonestNorm(norm: Norm, ups: seq<Mat>, malicious: set<nat>): real {
    Median(NormsOf(norm, Others(ups, malicious)))
  }

  function Matched(norm: Norm, honest: real, u: Mat, p: nat, s: nat): (m: Mat)
    requires IsMat(u, p, s)
    ensures IsMat(m, p, s)
  {
    if norm(u) > 0.0 then MatScale(honest / norm(u), u, p, s) else u
  }

  function AllMatched(norm: Norm, honest: real, ups: seq<Mat>, malicious: set<nat>, p: nat, s: nat): (sent: seq<Mat>)
    requires IsMats(ups, p, s)
    ensures |sent| == |ups| && IsMats(sent, p, s)
  {
    seq(|ups|, k requires 0 <= k < |ups| => if k in malicious then Matched(norm, honest, ups[k], p, s) else ups[k])
  }

  function NormMatched(norm: Norm, malicious: set<nat>, p: nat, s: nat): Adjustment {
    ups => if IsMats(ups, p, s) then AllMatched(norm, HonestNorm(norm, ups, malicious), ups, malicious, p, s) else ups
  }

  ghost predicate SenderOf(l: Learner, l': Learner) {
    l'.Valid() && l'.p == l.p && l'.s == l.s && l'.solve == l.solve && l'.agg == l.agg
  }

  /** The learner train_federation runs. */
  ghost function Sender(l: Learner, norm: Norm, malicious: set<nat>, stealth: bool): (sender: Learner)
    requires l.Valid()
    ensures SenderOf(l, sender)
  {
    SenderIsValid(l, norm, malicious);
    l.(adjust := if stealth && malicious != {} then NormMatched(norm, malicious, l.p, l.s) else AsUploaded)
  }

  lemma SenderIsValid(l: Learner, norm: Norm, malicious: set<nat>)
    requires l.Valid()
    ensures l.(adjust := AsUploaded).Valid()
    ensures l.(adjust := NormMatched(norm, malicious, l.p, l.s)).Valid()
  {
    hide IsSolver, IsAggregator, HonestNorm, Matched;
    forall ups | IsMats(ups, l.p, l.s)
      ensures KeepsShapes(NormMatched(norm, malicious, l.p, l.s), l.p, l.s, ups)
    {
    }
    PlainIsValid(l);
  }

  /** The learner that sends its uploads as computed. */
  function Plain(l: Learner): Learner {
    l.(adjust := AsUploaded)
  }

  lemma PlainIsValid(l: Learner)
    requires l.Valid()
    ensures Plain(l).Valid()
  {
    assert forall ups :: IsMats(ups, l.p, l.s) ==> KeepsShapes(AsUploaded, l.p, l.s, ups);
  }

  /** A rescaling touches malicious uploads only. */
  ghost predicate LeavesHonestUploads(l: Learner, malicious: set<nat>) {
    forall ups :: IsMats(ups, l.p, l.s) ==> HonestUnchanged(ups, l.adjust(ups), malicious)
  }

  ghost predicate HonestUnchanged(ups: seq<Mat>, sent: seq<Mat>, malicious: set<nat>) {
    |sent| == |ups| && forall k :: 0 <= k < |ups| && k !in malicious ==> sent[k] == ups[k]
  }

  /** Stealth or not, the learner leaves the honest uploads alone. */
  lemma SenderLeavesHonestUploads(l: Learner, norm: Norm, malicious: set<nat>, stealth: bool)
    requires l.Valid()
    ensures LeavesHonestUploads(Sender(l, norm, malicious, stealth), malicious)
  {
    hide IsSolver, IsAggregator, IsAdjustment, NormMatched;
    forall ups | IsMats(ups, l.p, l.s)
      ensures HonestUnchanged(ups, AsUploaded(ups), malicious)
      ensures HonestUnchanged(ups, NormMatched(norm, malicious, l.p, l.s)(ups), malicious)
    {
      MatchedLeavesHonest(norm, malicious, l.p, l.s, ups);
    }
  }

  lemma MatchedLeavesHonest(norm: Norm, malicious: set<nat>, p: nat, s: nat, ups: seq<Mat>)
    requires IsMats(ups, p, s)
    ensures HonestUnchanged(ups, NormMatched(norm, malicious, p, s)(ups), malicious)
  {
    hide HonestNorm, Matched;
  }

  lemma {:induction false} SquaresOfZeros(m: Mat, s: nat)
    requires forall i :: 0 <= i < |m| ==> m[i] == Zeros(s)
    ensures SumOfSquares(m) == 0.0
  {
    if m != [] {
      SquaresOfZeros(m[..|m| - 1], s);
      DotZeros(Zeros(s));
    }
  }

  lemma {:induction false} ScaledSquares(q: real, m: Mat, p: nat, s: nat)
    requires IsMat(m, p, s)
    ensures SumOfSquares(MatScale(q, m, p, s)) == Times(Times(q, q), SumOfSquares(m))
  {
    hide Times, Dot, Scale;
    if m == [] {
      TimesLaws(Times(q, q), 0.0, 0.0);
    } else {
      var row := m[p - 1];
      ScaledSquares(q, m[..p - 1], p - 1, s);
      assert MatScale(q, m, p, s)[..p - 1] == MatScale(q, m[..p - 1], p - 1, s);
      DotScale(Scale(q, row), q, row);
      DotCommutes(Scale(q, row), row);
      DotScale(row, q, row);
      TimesLaws(q, q, Dot(row, row));
      TimesLaws(Times(q, q), SumOfSquares(m[..p - 1]), Dot(row, row));
    }
  }

  /** What stealth buys: a malicious upload that moves the model at all is sent at exactly the honest
      median norm. */
  lemma StealthMatchesTheHonestNorm(norm: Norm, ups: seq<Mat>, malicious: set<nat>, p: nat, s: nat, k: nat)
    requires IsNorm(norm) && IsMats(ups, p, s) && k < |ups| && k in malicious && norm(ups[k]) > 0.0
    ensures NormMatched(norm, malicious, p, s)(ups)[k] == MatScale(HonestNorm(norm, ups, malicious) / norm(ups[k]), ups[k], p, s)
    ensures Others(ups, malicious) != [] ==> norm(NormMatched(norm, malicious, p, s)(ups)[k]) == HonestNorm(norm, ups, malicious)
  {
    var honest, n := HonestNorm(norm, ups, malicious), norm(ups[k]);
    var sent := MatScale(honest / n, ups[k], p, s);
    ScaledSquares(honest / n, ups[k], p, s);
    assert IsRoot(norm(ups[k]), SumOfSquares(ups[k])) && IsRoot(norm(sent), SumOfSquares(sent));
    hide MatScale, Others, Median, IsMats, SumOfSquares;
    RatioSquared(honest, n);
    if Others(ups, malicious) != [] {
      HonestNormNonnegative(norm, ups, malicious);
      SameRoot(norm(sent), honest, SumOfSquares(sent));
    }
  }

  lemma RatioSquared(a: real, n: real)
    requires n > 0.0
    ensures Times(Times(a / n, a / n), Times(n, n)) == Times(a, a)
  {
    var q := a / n;
    assert q * n == a;
    assert (q * q) * (n * n) == (q * n) * (q * n);
  }

  lemma SameRoot(a: real, b: real, square: real)
    requires IsRoot(a, square) && IsRoot(b, square)
    ensures a == b
  {
    assert Times(a - b, a + b) == Times(a, a) - Times(b, b);
    if a > b {
      PositiveProduct(a - b, a + b);
    } else if a < b {
      PositiveProduct(b - a, a + b);
    }
  }

  lemma HonestNormNonnegative(norm: Norm, ups: seq<Mat>, malicious: set<nat>)
    requires IsNorm(norm)
    ensures HonestNorm(norm, ups, malicious) >= 0.0
  {
    var ns := NormsOf(norm, Others(ups, malicious));
    forall k | 0 <= k < |ns|
      ensures ns[k] >= 0.0
    {
      assert IsRoot(norm(Others(ups, malicious)[k]), SumOfSquares(Others(ups, malicious)[k]));
    }
    MedianNonnegative(ns);
  }

  lemma MedianNonnegative(es: seq<real>)
    requires forall k :: 0 <= k < |es| ==> es[k] >= 0.0
    ensures Median(es) >= 0.0
  {
    var o := Sorted(es);
    SortedIsOrdered(es);
    forall i | 0 <= i < |o|
      ensures o[i] >= 0.0
    {
      assert o[i] in multiset(o);
      assert o[i] in es;
    }
    hide Sorted;
  }

  const OUT_OF_RANGE := "list index out of range"

  /** The uploads that stealth rescales all exist. */
  predicate InRange(malicious: set<nat>, n: nat) {
    forall k :: k in malicious ==> k < n
  }

  /** The rescaling of the malicious uploads in place, in any order of the set. */
  method MatchNorms(norm: Norm, ups: seq<Mat>, malicious: set<nat>, p: nat, s: nat) returns (r: Result<seq<Mat>>)
    requires IsMats(ups, p, s)
    ensures r == if InRange(malicious, |ups|) then Ok(NormMatched(norm, malicious, p, s)(ups)) else Err(OUT_OF_RANGE)
  {
    var norms := [];
    for k := 0 to |ups|
      invariant norms == NormsOf(norm, Others(ups[..k], malicious))
    {
      assert ups[..k + 1][..k] == ups[..k];
      if k !in malicious {
        norms := norms + [norm(ups[k])];
      }
    }
    assert ups[..|ups|] == ups;
    var honest := Median(norms);
    hide Median, Others, NormsOf, Matched;
    var sent, todo := ups, malicious;
    while todo != {}
      invariant todo <= malicious && |sent| == |ups|
      invariant forall j :: j in malicious ==> j in todo || j < |ups|
      invariant forall j :: 0 <= j < |ups| ==>
        sent[j] == if j in malicious && j !in todo then Matched(norm, honest, ups[j], p, s) else ups[j]
      decreases todo
    {
      var k :| k in todo;
      if k >= |ups| {
        return Err(OUT_OF_RANGE);
      }
      sent := sent[k := Matched(norm, honest, sent[k], p, s)];
      todo := todo - {k};
    }
    assert sent == AllMatched(norm, honest, ups, malicious, p, s);
    return Ok(sent);
  }

  /** The rescaling fails in the first round or never. */
  predicate IndexError(malicious: set<nat>, stealth: bool, rounds: nat, clients: nat) {
    stealth && rounds > 0 && !InRange(malicious, clients)
  }

  /** Every client is malicious: the median norm of the honest uploads is NaN. */
  predicate NobodyHonest(malicious: set<nat>, clients: nat) {
    malicious != {} && InRange(malicious, clients) && forall k :: 0 <= k < clients ==> k in malicious
  }

  /** An upload that a NaN rescaling turns into NaN, and with it the model from here on. */
  predicate AnyPositive(norm: Norm, ups: seq<Mat>) {
    exists k :: 0 <= k < |ups| && norm(ups[k]) > 0.0
  }

  ghost predicate TurnsNaN(l: Learner, norm: Norm, stats: seq<Stat>, r: nat)
    requires l.Valid() && Plain(l).Valid() && IsStats(stats, l.p, l.s)
  {
    && Trained(Plain(l), stats, r).Ok? && Uploads(l, Trained(Plain(l), stats, r).value.w, stats).Ok?
    && AnyPositive(norm, Uploads(l, Trained(Plain(l), stats, r).value.w, stats).value)
  }

  /** `None` stands for a model of NaNs. */
  function Noted(r: Result<Run>): Result<Option<Run>> {
    match r
    case Err(e) => Err(e)
    case Ok(run) => Ok(Some(run))
  }

  /** train_federation: the honest run or, with stealth, the run of the norm-matched uploads; NaN as
      soon as stealth rescales a nonzero upload to the norm of nobody. */
  method TrainFederation(l: Learner, norm: Norm, pop: seq<Row>, clients: seq<seq<nat>>, rounds: nat, attack: Attack, stealth: bool)
    returns (r: Result<Option<Run>>)
    requires l.Valid() && IsRows(pop, l.p, l.s) && IsFederation(clients, |pop|)
    requires l.s > TARGET_SUBBAND && attack.scale != 0.0
    requires stealth && NobodyHonest(attack.malicious, |clients|) ==> TotalOnUploads(l)
    ensures Plain(l).Valid()
    ensures var stats := ReportedStats(pop, clients, attack, l.p, l.s);
            if stealth && NobodyHonest(attack.malicious, |clients|) then
              r == if exists i :: 0 <= i < rounds && TurnsNaN(l, norm, stats, i) then Ok(None)
                   else Noted(Trained(Plain(l), stats, rounds))
            else if IndexError(attack.malicious, stealth, rounds, |clients|) && Uploads(l, ZeroMat(l.p, l.s), stats).Ok? then
              r == Err(OUT_OF_RANGE)
            else
              r == Noted(Trained(Sender(l, norm, attack.malicious, stealth), stats, rounds))
  {
    PlainIsValid(l);
    if stealth && NobodyHonest(attack.malicious, |clients|) {
      r := TrainNobodyHonest(l, norm, pop, clients, rounds, attack);
    } else {
      var run := TrainMatched(l, norm, pop, clients, rounds, attack, stealth);
      r := Noted(run);
    }
  }

  method TrainNobodyHonest(l: Learner, norm: Norm, pop: seq<Row>, clients: seq<seq<nat>>, rounds: nat, attack: Attack)
    returns (r: Result<Option<Run>>)
    requires l.Valid() && Plain(l).Valid() && IsRows(pop, l.p, l.s) && IsFederation(clients, |pop|)
    requires l.s > TARGET_SUBBAND && attack.scale != 0.0
    ensures var stats := ReportedStats(pop, clients, attack, l.p, l.s);
            r == if exists i :: 0 <= i < rounds && TurnsNaN(l, norm, stats, i) then Ok(None)
                 else Noted(Trained(Plain(l), stats, rounds))
  {
    hide Uploads, Round, ReportedStats, IsSolver, IsAggregator, IsAdjustment, IsStats, IsMat, IsRows, IsFederation, TurnsNaN;
    ghost var stats := ReportedStats(pop, clients, attack, l.p, l.s);
    var run := Run(ZeroMat(l.p, l.s), []);
    for i := 0 to rounds
      invariant Trained(Plain(l), stats, i) == Ok(run)
      invariant forall j :: 0 <= j < i ==> !TurnsNaN(l, norm, stats, j)
    {
      var next := RoundOfNobody(l, norm, run, pop, clients, attack);
      IsTurn(l, norm, stats, i, run);
      if next.Err? {
        FailureIsFinal(Plain(l), stats, i + 1, rounds);
        NoTurnAfterFailure(l, norm, stats, i + 1);
        return Err(next.error);
      }
      if next.value.None? {
        return Ok(None);
      }
      run := next.value.value;
    }
    return Ok(Some(run));
  }

  lemma IsTurn(l: Learner, norm: Norm, stats: seq<Stat>, r: nat, run: Run)
    requires l.Valid() && Plain(l).Valid() && IsStats(stats, l.p, l.s) && IsRun(run, l.p, l.s, |stats|)
    requires Trained(Plain(l), stats, r) == Ok(run)
    ensures TurnsNaN(l, norm, stats, r)
            <==> Uploads(l, run.w, stats).Ok? && AnyPositive(norm, Uploads(l, run.w, stats).value)
  {
    hide Uploads, AnyPositive;
  }

  /** A run that has failed does not turn NaN any more. */
  lemma NoTurnAfterFailure(l: Learner, norm: Norm, stats: seq<Stat>, r: nat)
    requires l.Valid() && Plain(l).Valid() && IsStats(stats, l.p, l.s) && Trained(Plain(l), stats, r).Err?
    ensures forall j :: j >= r ==> !TurnsNaN(l, norm, stats, j)
  {
    hide Uploads, Round, AnyPositive;
    forall j | j >= r
      ensures !TurnsNaN(l, norm, stats, j)
    {
      FailureIsFinal(Plain(l), stats, r, j);
    }
  }

  /** A round of which nobody is honest. */
  method RoundOfNobody(l: Learner, norm: Norm, run: Run, pop: seq<Row>, clients: seq<seq<nat>>, attack: Attack)
    returns (r: Result<Option<Run>>)
    requires l.Valid() && Plain(l).Valid() && IsRows(pop, l.p, l.s) && IsFederation(clients, |pop|) && IsRun(run, l.p, l.s, |clients|)
    requires l.s > TARGET_SUBBAND && attack.scale != 0.0
    ensures var stats := ReportedStats(pop, clients, attack, l.p, l.s);
            var ups := Uploads(l, run.w, stats);
            if ups.Ok? && AnyPositive(norm, ups.value) then r == Ok(None) else r == Noted(Round(Plain(l), stats, run))
  {
    hide Uploads, Round, ReportedStats, AnyPositive, IsSolver, IsAggregator, IsAdjustment, MatAdd, IsMat, IsStats, IsRows, IsFederation;
    ghost var stats := ReportedStats(pop, clients, attack, l.p, l.s);
    SameUploads(l, Plain(l), run.w, stats);
    RoundOfNothing(Plain(l), stats, run);
    var ups := ReportedUploads(l, run.w, pop, clients, attack);
    if ups.Err? {
      return Err(ups.error);
    }
    if AnyPositive(norm, ups.value) {
      return Ok(None);
    }
    RoundOf(Plain(l), stats, run);
    var step := l.agg(ups.value);
    if step.Err? {
      return Err(step.error);
    }
    return Ok(Some(Run(MatAdd(run.w, step.value, l.p, l.s), run.trace + [ups.value])));
  }

  /** The loop, with a norm to match. */
  method TrainMatched(l: Learner, norm: Norm, pop: seq<Row>, clients: seq<seq<nat>>, rounds: nat, attack: Attack, stealth: bool)
    returns (r: Result<Run>)
    requires l.Valid() && IsRows(pop, l.p, l.s) && IsFederation(clients, |pop|)
    requires l.s > TARGET_SUBBAND && attack.scale != 0.0
    ensures var stats := ReportedStats(pop, clients, attack, l.p, l.s);
            r == if IndexError(attack.malicious, stealth, rounds, |clients|) && Uploads(l, ZeroMat(l.p, l.s), stats).Ok?
                 then Err(OUT_OF_RANGE)
                 else Trained(Sender(l, norm, attack.malicious, stealth), stats, rounds)
  {
    hide Sender, Uploads, Round, ReportedStats, InRange, IsSolver, IsAggregator, IsAdjustment, IsStats, IsMat, IsRows, IsFederation;
    ghost var stats := ReportedStats(pop, clients, attack, l.p, l.s);
    ghost var sender := Sender(l, norm, attack.malicious, stealth);
    var run := Run(ZeroMat(l.p, l.s), []);
    for i := 0 to rounds
      invariant Trained(sender, stats, i) == Ok(run)
      invariant i > 0 ==> !IndexError(attack.malicious, stealth, rounds, |clients|)
    {
      var next := TrainRound(l, norm, run, pop, clients, attack, stealth);
      if next.Err? {
        if Round(sender, stats, run).Err? {
          FailureIsFinal(sender, stats, i + 1, rounds);
        }
        return next;
      }
      run := next.value;
    }
    return Ok(run);
  }

  method TrainRound(l: Learner, norm: Norm, run: Run, pop: seq<Row>, clients: seq<seq<nat>>, attack: Attack, stealth: bool)
    returns (r: Result<Run>)
    requires l.Valid() && IsRows(pop, l.p, l.s) && IsFederation(clients, |pop|) && IsRun(run, l.p, l.s, |clients|)
    requires l.s > TARGET_SUBBAND && attack.scale != 0.0
    ensures var stats := ReportedStats(pop, clients, attack, l.p, l.s);
            r == if stealth && !InRange(attack.malicious, |clients|) && Uploads(l, run.w, stats).Ok?
                 then Err(OUT_OF_RANGE)
                 else Round(Sender(l, norm, attack.malicious, stealth), stats, run)
    ensures r.Ok? && stealth ==> InRange(attack.malicious, |clients|)
  {
    hide Sender, Uploads, Round, ReportedStats, InRange, IsSolver, IsAggregator, IsAdjustment, MatAdd, IsMat, IsStats, IsRows, IsFederation;
    ghost var stats := ReportedStats(pop, clients, attack, l.p, l.s);
    ghost var sender := Sender(l, norm, attack.malicious, stealth);
    SameUploads(l, sender, run.w, stats);
    var sent := SendUploads(l, norm, run.w, pop, clients, attack, stealth);
    if sent.Err? {
      RoundOfNothing(sender, stats, run);
      return Err(sent.error);
    }
    RoundOf(sender, stats, run);
    var step := l.agg(sent.value);
    if step.Err? {
      return Err(step.error);
    }
    return Ok(Run(MatAdd(run.w, step.value, l.p, l.s), run.trace + [sent.value]));
  }

  lemma RoundOfNothing(l: Learner, stats: seq<Stat>, run: Run)
    requires l.Valid() && IsStats(stats, l.p, l.s) && IsRun(run, l.p, l.s, |stats|)
    ensures Uploads(l, run.w, stats).Err? ==> Round(l, stats, run) == Err(Uploads(l, run.w, stats).error)
  {
    hide Uploads, Close;
  }

  lemma RoundOf(l: Learner, stats: seq<Stat>, run: Run)
    requires l.Valid() && IsStats(stats, l.p, l.s) && IsRun(run, l.p, l.s, |stats|)
    requires Uploads(l, run.w, stats).Ok?
    ensures var sent := l.adjust(Uploads(l, run.w, stats).value);
            && |sent| == |stats| && IsMats(sent, l.p, l.s)
            && (l.agg(sent).Err? ==> Round(l, stats, run) == Err(l.agg(sent).error))
            && (l.agg(sent).Ok? ==>
                  && IsMat(l.agg(sent).value, l.p, l.s)
                  && Round(l, stats, run) == Ok(Run(MatAdd(run.w, l.agg(sent).value, l.p, l.s), run.trace + [sent])))
  {
    hide Uploads, MatAdd, IsMat;
    var ups := Uploads(l, run.w, stats).value;
    assert KeepsShapes(l.adjust, l.p, l.s, ups) && KeepsShape(l.agg, l.p, l.s, l.adjust(ups));
  }

  /** One round of uploads, rescaled when the attack is stealthy. */
  method SendUploads(l: Learner, norm: Norm, w: Mat, pop: seq<Row>, clients: seq<seq<nat>>, attack: Attack, stealth: bool)
    returns (r: Result<seq<Mat>>)
    requires l.Valid() && IsMat(w, l.p, l.s) && IsRows(pop, l.p, l.s) && IsFederation(clients, |pop|)
    requires l.s > TARGET_SUBBAND && attack.scale != 0.0
    ensures var ups := Uploads(l, w, ReportedStats(pop, clients, attack, l.p, l.s));
            r == if ups.Err? then Err(ups.error)
                 else if stealth && !InRange(attack.malicious, |clients|) then Err(OUT_OF_RANGE)
                 else Ok(Sender(l, norm, attack.malicious, stealth).adjust(ups.value))
  {
    hide Uploads, IsSolver, IsAggregator, IsAdjustment;
    r := ReportedUploads(l, w, pop, clients, attack);
    if r.Ok? && stealth && attack.malicious != {} {
      r := MatchNorms(norm, r.value, attack.malicious, l.p, l.s);
    }
  }

  /** The uploads do not depend on what is done to them. */
  lemma {:induction false} SameUploads(l: Learner, l': Learner, w: Mat, stats: seq<Stat>)
    requires l.Valid() && SenderOf(l, l')
    requires IsMat(w, l.p, l.s) && IsStats(stats, l.p, l.s)
    ensures Uploads(l, w, stats) == Uploads(l', w, stats)
    decreases |stats|
  {
    hide ProxUpdate, IsMat, IsSolver, IsAggregator, IsAdjustment;
    if stats != [] {
      SameUploads(l, l', w, stats[..|stats| - 1]);
    }
  }

  method ReportedUploads(l: Learner, w: Mat, pop: seq<Row>, clients: seq<seq<nat>>, attack: Attack)
    returns (r: Result<seq<Mat>>)
    requires l.Valid() && IsMat(w, l.p, l.s) && IsRows(pop, l.p, l.s) && IsFederation(clients, |pop|)
    requires l.s > TARGET_SUBBAND && attack.scale != 0.0
    ensures r == Uploads(l, w, ReportedStats(pop, clients, attack, l.p, l.s))
  {
    hide ProxUpdate, StatOf, Falsified, IsSolver, IsAggregator, IsAdjustment, IsMat;
    ghost var stats := ReportedStats(pop, clients, attack, l.p, l.s);
    var ups := [];
    for k := 0 to |clients|
      invariant Uploads(l, w, stats[..k]) == Ok(ups)
    {
      NextUpload(l, w, stats, k, ups);
      var rows := RowsOf(pop, clients[k]);
      if k in attack.malicious && attack.boost != 0.0 {
        rows := Falsified(rows, attack, l.p, l.s);
      }
      var u := LocalProxUpdate(l, w, rows);
      if u.Err? {
        return Err(u.error);
      }
      ups := ups + [u.value];
    }
    assert stats[..|stats|] == stats;
    return Ok(ups);
  }

  predicate IsTrace(trace: seq<seq<Mat>>, p: nat, s: nat) {
    forall r :: 0 <= r < |trace| ==> IsMats(trace[r], p, s)
  }

  lemma {:induction false} OthersKeepShape(ups: seq<Mat>, removed: set<nat>, p: nat, s: nat)
    requires IsMats(ups, p, s)
    ensures IsMats(Others(ups, removed), p, s)
  {
    if ups != [] {
      OthersKeepShape(ups[..|ups| - 1], removed, p, s);
    }
  }

  /** The model after re-aggregating what the trace keeps, round by round. */
  function Replayed(l: Learner, trace: seq<seq<Mat>>, removed: set<nat>): (r: Result<Mat>)
    requires l.Valid() && IsTrace(trace, l.p, l.s)
    ensures r.Ok? ==> IsMat(r.value, l.p, l.s)
    decreases |trace|
  {
    if trace == [] then Ok(ZeroMat(l.p, l.s))
    else
      var n := |trace| - 1;
      match Replayed(l, trace[..n], removed)
      case Err(e) => Err(e)
      case Ok(w) =>
        OthersKeepShape(trace[n], removed, l.p, l.s);
        assert KeepsShape(l.agg, l.p, l.s, Others(trace[n], removed));
        match l.agg(Others(trace[n], removed))
        case Err(e) => Err(e)
        case Ok(step) => Ok(MatAdd(w, step, l.p, l.s))
  }

  lemma {:induction false} FailedReplayIsFinal(l: Learner, trace: seq<seq<Mat>>, removed: set<nat>, r: nat, n: nat)
    requires l.Valid() && IsTrace(trace, l.p, l.s) && r <= n <= |trace|
    requires Replayed(l, trace[..r], removed).Err?
    ensures Replayed(l, trace[..n], removed) == Replayed(l, trace[..r], removed)
    decreases n
  {
    if r < n {
      assert trace[..n][..n - 1] == trace[..n - 1];
      FailedReplayIsFinal(l, trace, removed, r, n - 1);
    }
  }

  /** efficient_unlearn */
  method EfficientUnlearn(l: Learner, trace: seq<seq<Mat>>, removed: set<nat>) returns (r: Result<Mat>)
    requires l.Valid() && IsTrace(trace, l.p, l.s)
    ensures r == Replayed(l, trace, removed)
  {
    var w := ZeroMat(l.p, l.s);
    for i := 0 to |trace|
      invariant Replayed(l, trace[..i], removed) == Ok(w)
    {
      assert trace[..i + 1][..i] == trace[..i];
      var kept := Others(trace[i], removed);
      OthersKeepShape(trace[i], removed, l.p, l.s);
      assert KeepsShape(l.agg, l.p, l.s, kept);
      var step := l.agg(kept);
      if step.Err? {
        FailedReplayIsFinal(l, trace, removed, i + 1, |trace|);
        assert trace[..|trace|] == trace;
        return Err(step.error);
      }
      w := MatAdd(w, step.value, l.p, l.s);
    }
    assert trace[..|trace|] == trace;
    return Ok(w);
  }

  // ----- One round -----

  lemma OneMoreUpload(l: Learner, w: Mat, stats: seq<Stat>, ups: seq<Mat>, st: Stat, u: Mat)
    requires l.Valid() && IsMat(w, l.p, l.s) && IsStats(stats, l.p, l.s) && IsStat(st, l.p, l.s)
    requires Uploads(l, w, stats) == Ok(ups) && ProxUpdate(w, st, l.solve, l.p, l.s) == Ok(u)
    ensures IsStats(stats + [st], l.p, l.s) && Uploads(l, w, stats + [st]) == Ok(ups + [u])
  {
    hide ProxUpdate, IsStat, IsMat;
    assert (stats + [st])[..|stats|] == stats;
  }

  lemma LastUpload(l: Learner, w: Mat, stats: seq<Stat>)
    requires l.Valid() && IsMat(w, l.p, l.s) && IsStats(stats, l.p, l.s) && stats != []
    requires Uploads(l, w, stats).Ok?
    ensures var n := |stats| - 1; var ups := Uploads(l, w, stats).value;
            && Uploads(l, w, stats[..n]) == Ok(ups[..n])
            && ProxUpdate(w, stats[n], l.solve, l.p, l.s) == Ok(ups[n])
  {
    hide ProxUpdate, IsStat, IsMat;
    var n := |stats| - 1;
    assert Uploads(l, w, stats).value[..n] == Uploads(l, w, stats[..n]).value;
  }

  /** The uploads of the kept clients are the kept uploads. */
  lemma {:induction false} OtherUploads(l: Learner, w: Mat, stats: seq<Stat>, removed: set<nat>)
    requires l.Valid() && Plain(l).Valid() && IsMat(w, l.p, l.s) && IsStats(stats, l.p, l.s)
    requires Uploads(l, w, stats).Ok?
    ensures IsStats(Others(stats, removed), l.p, l.s)
    ensures Uploads(Plain(l), w, Others(stats, removed)) == Ok(Others(Uploads(l, w, stats).value, removed))
    decreases |stats|
  {
    hide ProxUpdate, IsStat, IsMat, IsSolver, IsAggregator, IsAdjustment;
    if stats != [] {
      var n := |stats| - 1;
      LastUpload(l, w, stats);
      OtherUploads(l, w, stats[..n], removed);
      if n !in removed {
        var ups := Uploads(l, w, stats).value;
        OneMoreUpload(Plain(l), w, Others(stats[..n], removed), Others(ups[..n], removed), stats[n], ups[n]);
      }
    }
  }

  lemma {:induction false} OthersOfSent(ups: seq<Mat>, sent: seq<Mat>, malicious: set<nat>)
    requires HonestUnchanged(ups, sent, malicious)
    ensures Others(sent, malicious) == Others(ups, malicious)
  {
    if ups != [] {
      OthersOfSent(ups[..|ups| - 1], sent[..|ups| - 1], malicious);
    }
  }

  lemma {:induction false} OthersAreFederation(clients: seq<seq<nat>>, removed: set<nat>, population: nat)
    requires IsFederation(clients, population)
    ensures IsFederation(Others(clients, removed), population)
  {
    if clients != [] {
      OthersAreFederation(clients[..|clients| - 1], removed, population);
    }
  }

  /** What the honest clients report is the truth, whoever lies. */
  lemma {:induction false} HonestStats(pop: seq<Row>, clients: seq<seq<nat>>, attack: Attack, p: nat, s: nat)
    requires IsRows(pop, p, s) && IsFederation(clients, |pop|) && s > TARGET_SUBBAND && attack.scale != 0.0
    ensures IsFederation(Others(clients, attack.malicious), |pop|)
    ensures Others(ReportedStats(pop, clients, attack, p, s), attack.malicious)
            == StatsOf(pop, Others(clients, attack.malicious), p, s)
    decreases |clients|
  {
    hide StatOf, Falsified, RowsOf, IsRows;
    OthersAreFederation(clients, attack.malicious, |pop|);
    if clients != [] {
      var n := |clients| - 1;
      HonestStats(pop, clients[..n], attack, p, s);
      assert Others(clients, attack.malicious)
          == if n in attack.malicious then Others(clients[..n], attack.malicious)
             else Others(clients[..n], attack.malicious) + [clients[n]];
      assert ReportedStats(pop, clients, attack, p, s)[..n] == ReportedStats(pop, clients[..n], attack, p, s);
    }
  }

  function ModelOf(r: Result<Run>): Result<Mat> {
    match r
    case Err(e) => Err(e)
    case Ok(run) => Ok(run.w)
  }

  /** One round: re-aggregating the cached honest uploads is the retrain without the attackers,
      for any aggregator, stealthy or not, failures included. */
  lemma OneRoundUnlearns(l: Learner, pop: seq<Row>, clients: seq<seq<nat>>, attack: Attack)
    requires l.Valid() && IsRows(pop, l.p, l.s) && IsFederation(clients, |pop|)
    requires l.s > TARGET_SUBBAND && attack.scale != 0.0 && LeavesHonestUploads(l, attack.malicious)
    requires Trained(l, ReportedStats(pop, clients, attack, l.p, l.s), 1).Ok?
    ensures Plain(l).Valid() && IsFederation(Others(clients, attack.malicious), |pop|)
    ensures Replayed(l, Trained(l, ReportedStats(pop, clients, attack, l.p, l.s), 1).value.trace, attack.malicious)
            == ModelOf(Trained(Plain(l), StatsOf(pop, Others(clients, attack.malicious), l.p, l.s), 1))
  {
    PlainIsValid(l);
    HonestStats(pop, clients, attack, l.p, l.s);
    var stats := ReportedStats(pop, clients, attack, l.p, l.s);
    hide ReportedStats, StatsOf;
    OneRoundOfOthers(l, stats, attack.malicious);
  }

  lemma OneRoundOfOthers(l: Learner, stats: seq<Stat>, removed: set<nat>)
    requires l.Valid() && Plain(l).Valid() && IsStats(stats, l.p, l.s) && LeavesHonestUploads(l, removed)
    requires Trained(l, stats, 1).Ok?
    ensures IsStats(Others(stats, removed), l.p, l.s)
    ensures Replayed(l, Trained(l, stats, 1).value.trace, removed)
            == ModelOf(Trained(Plain(l), Others(stats, removed), 1))
  {
    var zero := ZeroMat(l.p, l.s);
    assert Trained(l, stats, 0) == Ok(Run(zero, []));
    var ups := Uploads(l, zero, stats).value;
    OtherUploads(l, zero, stats, removed);
    var kept := Others(stats, removed);
    assert Trained(Plain(l), kept, 0) == Ok(Run(zero, []));
    assert HonestUnchanged(ups, l.adjust(ups), removed);
    OthersOfSent(ups, l.adjust(ups), removed);
    hide Uploads, Others, ZeroMat, MatAdd, IsStats;
    var none: seq<seq<Mat>> := [];
    assert none + [l.adjust(ups)] == [l.adjust(ups)];
    assert [l.adjust(ups)][..0] == none;
  }

  // ----- Nothing removed -----

  lemma {:induction false} OthersOfNothing<T>(xs: seq<T>)
    ensures Others(xs, {}) == xs
  {
    if xs != [] {
      OthersOfNothing(xs[..|xs| - 1]);
    }
  }

  /** With nothing removed the replay is the trained model, at any number of rounds. */
  lemma {:induction false} ReplayOfEverything(l: Learner, stats: seq<Stat>, rounds: nat)
    requires l.Valid() && IsStats(stats, l.p, l.s) && Trained(l, stats, rounds).Ok?
    ensures Replayed(l, Trained(l, stats, rounds).value.trace, {}) == Ok(Trained(l, stats, rounds).value.w)
    decreases rounds
  {
    hide Uploads, Others, IsMat, IsStats, MatAdd, IsSolver, IsAggregator, IsAdjustment;
    if rounds > 0 {
      ReplayOfEverything(l, stats, rounds - 1);
      var before, after := Trained(l, stats, rounds - 1).value, Trained(l, stats, rounds).value;
      assert after.trace[..rounds - 1] == before.trace;
      OthersOfNothing(after.trace[rounds - 1]);
    }
  }
}
