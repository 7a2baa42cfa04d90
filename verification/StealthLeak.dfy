/** How containment can fail under stealth: rescaling a malicious upload to the honest norm scales every
    subband of it, so an honest subband pays for the falsified one. */
module StealthLeak {
  import opened Common
  import opened LinearAlgebra
  import opened SuffStats
  import opened LocalSolve
  import opened Federation
  import opened Erasure
  import opened MeanOfSteps
  import opened InterceptFederation
  import opened LinearPatch
  import opened Unlearning
  import opened ReplayExactness
  import opened Containment

  /** Gains away from the public centre in the first two subbands. */
  function FirstTwo(x: real, y: real): (v: Vec)
    ensures |v| == N_SUBBANDS
  {
    Zeros(N_SUBBANDS)[0 := x][1 := y]
  }

  lemma SquareOfFirstTwo(x: real, y: real)
    ensures Dot(FirstTwo(x, y), FirstTwo(x, y)) == Times(x, x) + Times(y, y)
  {
    var v, e0, e1 := FirstTwo(x, y), Unit(N_SUBBANDS, 0), Unit(N_SUBBANDS, 1);
    assert v == Add(Scale(x, e0), Scale(y, e1));
    DotAdd(v, Scale(x, e0), Scale(y, e1));
    DotScale(v, x, e0);
    DotScale(v, y, e1);
    DotUnit(v, 0);
    DotUnit(v, 1);
    hide Dot;
  }

  /** The norm of a model with nothing but the intercept. */
  lemma SquaresOfIntercept(p: nat, v: Vec)
    requires p > 0
    ensures SumOfSquares(RowMat(p, v)) == Dot(v, v)
  {
    var m := RowMat(p, v);
    SquaresOfZeros(m[..p - 1], |v|);
    hide Dot;
  }

  lemma NormOfIntercept(norm: Norm, x: real, y: real, root: real)
    requires IsNorm(norm) && root >= 0.0 && Times(root, root) == Times(x, x) + Times(y, y)
    ensures norm(RowMat(N_FEATURES, FirstTwo(x, y))) == root
  {
    var m := RowMat(N_FEATURES, FirstTwo(x, y));
    SquaresOfIntercept(N_FEATURES, FirstTwo(x, y));
    SquareOfFirstTwo(x, y);
    assert IsRoot(norm(m), SumOfSquares(m));
    hide SumOfSquares, RowMat, Times;
    SameRoot(norm(m), root, SumOfSquares(m));
  }

  /** The first upload of a client of one subject. */
  lemma FirstUploadOf(l: Learner, x: real, y: real)
    requires l.Valid() && IsShipped(l)
    ensures IsRows([Subject(l.p, FirstTwo(x, y))], l.p, l.s)
    ensures ProxUpdate(ZeroMat(l.p, l.s), StatOf([Subject(l.p, FirstTwo(x, y))], l.p, l.s), l.solve, l.p, l.s)
            == Ok(RowMat(l.p, FirstTwo(x / 5.0, y / 5.0)))
  {
    var rows := [Subject(l.p, FirstTwo(x, y))];
    forall c | 0 <= c < l.s
      ensures StepVec(rows, l.p, l.s, Zeros(l.s))[c] == FirstTwo(x / 5.0, y / 5.0)[c]
    {
      StepOfOne(l.p, l.s, FirstTwo(x, y), c);
    }
    assert StepVec(rows, l.p, l.s, Zeros(l.s)) == FirstTwo(x / 5.0, y / 5.0);
    hide ProxUpdate, StatOf, StepVec, ZeroMat;
    ZeroModel(l.p, l.s);
    InterceptStep(rows, l.p, l.s, Zeros(l.s), l.solve);
  }

  /** Two clients of one subject each, with gains 0 and 5; the second lies by 3.75 about the first subband. */
  ghost predicate OneStealthyLiar(l: Learner, pop: seq<Row>, clients: seq<seq<nat>>, attack: Attack) {
    && Entrywisely(l, Average) && IsShipped(l) && attack == Attack({1}, 7.5, 2.0)
    && pop == [Subject(l.p, FirstTwo(0.0, 5.0)), Subject(l.p, FirstTwo(0.0, 5.0))] && clients == [[0], [1]]
  }

  lemma StealthyReports(l: Learner, pop: seq<Row>, clients: seq<seq<nat>>, attack: Attack)
    requires OneStealthyLiar(l, pop, clients, attack)
    ensures IsRows(pop, l.p, l.s) && IsFederation(clients, |pop|) && EveryoneHoldsData(clients) && attack.scale != 0.0
    ensures ReportedStats(pop, clients, attack, l.p, l.s)
            == [StatOf([Subject(l.p, FirstTwo(0.0, 5.0))], l.p, l.s), StatOf([Subject(l.p, FirstTwo(3.75, 5.0))], l.p, l.s)]
    ensures StatsOf(pop, clients, l.p, l.s)
            == [StatOf([Subject(l.p, FirstTwo(0.0, 5.0))], l.p, l.s), StatOf([Subject(l.p, FirstTwo(0.0, 5.0))], l.p, l.s)]
  {
    hide StatOf, Entrywisely;
    assert RowsOf(pop, [0]) == [pop[0]] && RowsOf(pop, [1]) == [pop[1]];
    var lie := Falsified([pop[1]], attack, l.p, l.s);
    assert lie[0].t == FirstTwo(3.75, 5.0);
    assert lie == [Subject(l.p, FirstTwo(3.75, 5.0))];
    assert Reported(pop, clients, attack, 0, l.p, l.s) == [pop[0]];
    assert Reported(pop, clients, attack, 1, l.p, l.s) == lie;
  }

  /** The first round of two such clients. */
  lemma TwoUploads(l: Learner, stats: seq<Stat>, x: real)
    requires l.Valid() && IsShipped(l)
    requires stats == [StatOf([Subject(l.p, FirstTwo(0.0, 5.0))], l.p, l.s), StatOf([Subject(l.p, FirstTwo(x, 5.0))], l.p, l.s)]
    ensures Uploads(l, ZeroMat(l.p, l.s), stats) == Ok([RowMat(l.p, FirstTwo(0.0, 1.0)), RowMat(l.p, FirstTwo(x / 5.0, 1.0))])
  {
    FirstUploadOf(l, 0.0, 5.0);
    FirstUploadOf(l, x, 5.0);
    hide ProxUpdate, StatOf, ZeroMat, RowMat, IsSolver, IsAggregator, IsAdjustment;
    UploadsAre(l, ZeroMat(l.p, l.s), stats, [RowMat(l.p, FirstTwo(0.0, 1.0)), RowMat(l.p, FirstTwo(x / 5.0, 1.0))]);
  }

  /** Uploads of norm 1 and 1.25: the second is scaled by 0.8. */
  lemma ScaledByStealth(norm: Norm, ups: seq<Mat>)
    requires IsNorm(norm) && ups == [RowMat(N_FEATURES, FirstTwo(0.0, 1.0)), RowMat(N_FEATURES, FirstTwo(0.75, 1.0))]
    ensures IsMats(ups, N_FEATURES, N_SUBBANDS)
    ensures var sent := NormMatched(norm, {1}, N_FEATURES, N_SUBBANDS)(ups);
            && |sent| == 2 && IsMats(sent, N_FEATURES, N_SUBBANDS)
            && sent[0][5][1] == 1.0 && sent[1][5][1] == 0.8
  {
    NormOfIntercept(norm, 0.0, 1.0, 1.0);
    NormOfIntercept(norm, 0.75, 1.0, 1.25);
    OthersOfTwo(ups);
    assert NormsOf(norm, [ups[0]]) == [1.0];
    MedianOfOne(1.0);
    assert HonestNorm(norm, ups, {1}) == 1.0;
    hide HonestNorm, Median;
    assert ups[0][5] == FirstTwo(0.0, 1.0) && ups[1][5] == FirstTwo(0.75, 1.0);
  }

  lemma MedianOfOne(x: real)
    ensures Median([x]) == x
  {
    assert [x][1..] == [];
    assert Sorted([x]) == [x];
  }

  /** What one round under the mean leaves in the second subband's intercept. */
  lemma FirstModelAt(l: Learner, stats: seq<Stat>)
    requires Entrywisely(l, Average) && IsShipped(l) && IsStats(stats, l.p, l.s) && |stats| == 2
    requires Uploads(l, ZeroMat(l.p, l.s), stats).Ok? && Trained(l, stats, 1).Ok?
    ensures var sent := l.adjust(Uploads(l, ZeroMat(l.p, l.s), stats).value);
            && |sent| == 2 && IsMats(sent, l.p, l.s)
            && Trained(l, stats, 1).value.w[5][1] == (sent[0][5][1] + sent[1][5][1]) / 2.0
  {
    hide Trained, Uploads, ZeroMat, MeanOf, Round, IsSolver, IsAggregator, IsAdjustment;
    FirstRound(l, stats);
    FirstSent(l, stats);
    MeanOfTwo(l.adjust(Uploads(l, ZeroMat(l.p, l.s), stats).value), l.p, l.s);
  }

  lemma FirstSent(l: Learner, stats: seq<Stat>)
    requires l.Valid() && IsStats(stats, l.p, l.s)
    requires Uploads(l, ZeroMat(l.p, l.s), stats).Ok? && Trained(l, stats, 1).Ok?
    ensures var sent := l.adjust(Uploads(l, ZeroMat(l.p, l.s), stats).value);
            |sent| == |stats| && IsMats(sent, l.p, l.s) && Trained(l, stats, 1).value.trace == [sent]
  {
    OneRound(l, stats);
    hide Trained, Uploads, ZeroMat, Round, IsSolver, IsAggregator, IsAdjustment;
    RoundOf(l, stats, Run(ZeroMat(l.p, l.s), []));
  }

  lemma MeanOfTwo(ups: seq<Mat>, p: nat, s: nat)
    requires IsMats(ups, p, s) && |ups| == 2 && p > 5 && s > 1
    ensures MeanOf(ups, p, s)[5][1] == (ups[0][5][1] + ups[1][5][1]) / 2.0
  {
    MeanOfAt(ups, p, s, 5, 1);
    assert Entries(ups, p, s, 5, 1) == [ups[0][5][1], ups[1][5][1]];
    SumsOfFew(ups[0][5][1], ups[1][5][1], 0.0);
  }

  /** What the second subband's intercept becomes in the two federations. */
  lemma StealthySecond(sender: Learner, norm: Norm, stats: seq<Stat>)
    requires Entrywisely(sender, Average) && IsShipped(sender) && IsNorm(norm)
    requires sender.adjust == NormMatched(norm, {1}, sender.p, sender.s)
    requires IsStats(stats, sender.p, sender.s) && IsPair(sender, stats, 3.75) && Trained(sender, stats, 1).Ok?
    ensures Trained(sender, stats, 1).value.w[5][1] == 0.9
  {
    hide Trained, Uploads, RowMat, FirstTwo, ZeroMat, NormMatched, StatOf, IsSolver, IsAggregator, IsAdjustment;
    TwoUploads(sender, stats, 3.75);
    ScaledByStealth(norm, Uploads(sender, ZeroMat(sender.p, sender.s), stats).value);
    FirstModelAt(sender, stats);
  }

  lemma HonestSecond(l: Learner, stats: seq<Stat>)
    requires AveragesUploads(l) && IsShipped(l)
    requires IsStats(stats, l.p, l.s) && IsPair(l, stats, 0.0) && Trained(l, stats, 1).Ok?
    ensures Trained(l, stats, 1).value.w[5][1] == 1.0
  {
    hide Trained, Uploads, ZeroMat, StatOf, IsSolver, IsAggregator, IsAdjustment;
    TwoUploads(l, stats, 0.0);
    FirstModelAt(l, stats);
    assert RowMat(l.p, FirstTwo(0.0, 1.0))[5] == FirstTwo(0.0, 1.0);
  }

  ghost predicate IsPair(l: Learner, stats: seq<Stat>, x: real)
    requires IsShipped(l)
  {
    stats == [StatOf([Subject(l.p, FirstTwo(0.0, 5.0))], l.p, l.s), StatOf([Subject(l.p, FirstTwo(x, 5.0))], l.p, l.s)]
  }

  /** The stealthy attack leaks: after one round under the mean the second subband is 0.9 where the
      honest federation learns 1, although nobody lied about it. */
  lemma StealthLeaks(l: Learner, norm: Norm, pop: seq<Row>, clients: seq<seq<nat>>, attack: Attack)
    requires OneStealthyLiar(l, pop, clients, attack) && IsNorm(norm)
    ensures IsRows(pop, l.p, l.s) && IsFederation(clients, |pop|) && attack.scale != 0.0 && Plain(l).Valid()
    ensures var run, honest := Trained(Sender(l, norm, {1}, true), ReportedStats(pop, clients, attack, l.p, l.s), 1),
                               Trained(Plain(l), StatsOf(pop, clients, l.p, l.s), 1);
            && run.Ok? && honest.Ok? && run.value.w[5][1] == 0.9 && honest.value.w[5][1] == 1.0
            && !Agree(run.value.w, honest.value.w, l.p, l.s, 1)
  {
    PlainIsValid(l);
    StealthyReports(l, pop, clients, attack);
    var sender, stats, stats' := Sender(l, norm, {1}, true), ReportedStats(pop, clients, attack, l.p, l.s), StatsOf(pop, clients, l.p, l.s);
    assert IsPair(sender, stats, 3.75) && IsPair(Plain(l), stats', 0.0);
    assert Entrywisely(sender, Average) && Entrywisely(Plain(l), Average);
    hide Trained, ReportedStats, StatsOf, Agree, OneStealthyLiar, IsPair, Entrywisely, IsStats, IsRows, IsFederation, EveryoneHoldsData,
         NormMatched, IsSolver, IsAggregator, IsAdjustment;
    BothTrain(sender, Average, pop, clients, attack, 1);
    BothTrain(Plain(l), Average, pop, clients, attack, 1);
    StealthySecond(sender, norm, stats);
    HonestSecond(Plain(l), stats');
    NotAgreeing(Trained(sender, stats, 1).value.w, Trained(Plain(l), stats', 1).value.w, l.p, l.s);
  }

  lemma NotAgreeing(a: Mat, b: Mat, p: nat, s: nat)
    requires IsMat(a, p, s) && IsMat(b, p, s) && p > 5 && s > 1 && a[5][1] != b[5][1]
    ensures !Agree(a, b, p, s, 1)
  {
    if Agree(a, b, p, s, 1) {
      AgreeEntry(a, b, p, s, 1, 5);
    }
  }
}
