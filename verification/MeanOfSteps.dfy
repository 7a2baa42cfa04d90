/** The mean of all clients' local steps as a function of the global model: a round under the mean
    never maps two models to one, and its uploads average alike for two models exactly when no
    subject tells the models apart. */
module MeanOfSteps {
  import opened Common
  import opened LinearAlgebra
  import opened SuffStats
  import opened LocalSolve
  import opened Federation
  import opened StepResponse

  /** The rows of every client, each holding a subject. */
  predicate AreClients(clients: seq<seq<Row>>, p: nat, s: nat) {
    forall k :: 0 <= k < |clients| ==> IsRows(clients[k], p, s) && clients[k] != []
  }

  function StatsOfRows(clients: seq<seq<Row>>, p: nat, s: nat): (stats: seq<Stat>)
    requires AreClients(clients, p, s)
    ensures |stats| == |clients| && IsStats(stats, p, s)
  {
    seq(|clients|, k requires 0 <= k < |clients| => StatOf(clients[k], p, s))
  }

  function VecSum(ys: seq<Vec>, p: nat): (v: Vec)
    requires forall k :: 0 <= k < |ys| ==> |ys[k]| == p
    ensures |v| == p
  {
    if ys == [] then Zeros(p) else Add(VecSum(ys[..|ys| - 1], p), ys[|ys| - 1])
  }

  function Responses(ups: seq<Mat>, ups': seq<Mat>, p: nat, s: nat, c: nat): (ys: seq<Vec>)
    requires IsMats(ups, p, s) && IsMats(ups', p, s) && |ups| == |ups'| && c < s
    ensures |ys| == |ups| && forall k :: 0 <= k < |ys| ==> |ys[k]| == p
  {
    seq(|ups|, k requires 0 <= k < |ups| => Response(ups[k], ups'[k], p, s, c))
  }

  /** Entry by entry, the sums of the uploads differ by eta times the sum of the answers. */
  lemma {:induction false} SumGap(ups: seq<Mat>, ups': seq<Mat>, p: nat, s: nat, i: nat, c: nat)
    requires IsMats(ups, p, s) && IsMats(ups', p, s) && |ups| == |ups'| && i < p && c < s
    ensures Sum(Entries(ups, p, s, i, c)) - Sum(Entries(ups', p, s, i, c))
            == Times(-PROX_ETA, VecSum(Responses(ups, ups', p, s, c), p)[i])
  {
    hide Times;
    if ups == [] {
      TimesLaws(-PROX_ETA, 0.0, 0.0);
    } else {
      var n := |ups| - 1;
      var ys := Responses(ups, ups', p, s, c);
      SumGap(ups[..n], ups'[..n], p, s, i, c);
      assert Entries(ups, p, s, i, c)[..n] == Entries(ups[..n], p, s, i, c);
      assert Entries(ups', p, s, i, c)[..n] == Entries(ups'[..n], p, s, i, c);
      assert ys[..n] == Responses(ups[..n], ups'[..n], p, s, c);
      EntryOfResponse(ups[n], ups'[n], p, s, i, c);
      TimesLaws(-PROX_ETA, VecSum(ys[..n], p)[i], ys[n][i]);
    }
  }

  lemma EntryOfResponse(u: Mat, u': Mat, p: nat, s: nat, i: nat, c: nat)
    requires IsMat(u, p, s) && IsMat(u', p, s) && i < p && c < s
    ensures u[i][c] - u'[i][c] == Times(-PROX_ETA, Response(u, u', p, s, c)[i])
  {
    EtaTwice(u[i][c] - u'[i][c]);
  }

  lemma EtaTwice(x: real)
    ensures Times(-PROX_ETA, Times(-1.0 / PROX_ETA, x)) == x
  {
  }

  /** So the means differ by eta / K times it. */
  lemma MeanGap(ups: seq<Mat>, ups': seq<Mat>, p: nat, s: nat, c: nat)
    requires IsMats(ups, p, s) && IsMats(ups', p, s) && |ups| == |ups'| > 0 && c < s
    ensures Gap(MeanOf(ups, p, s), MeanOf(ups', p, s), p, s, c)
            == Scale(-PROX_ETA / (|ups| as real), VecSum(Responses(ups, ups', p, s, c), p))
  {
    hide Times, Responses, Gap, MeanOf;
    var left := Gap(MeanOf(ups, p, s), MeanOf(ups', p, s), p, s, c);
    var right := Scale(-PROX_ETA / (|ups| as real), VecSum(Responses(ups, ups', p, s, c), p));
    forall i | 0 <= i < p
      ensures left[i] == right[i]
    {
      MeanGapAt(ups, ups', p, s, i, c);
    }
  }

  lemma MeanGapAt(ups: seq<Mat>, ups': seq<Mat>, p: nat, s: nat, i: nat, c: nat)
    requires IsMats(ups, p, s) && IsMats(ups', p, s) && |ups| == |ups'| > 0 && i < p && c < s
    ensures Gap(MeanOf(ups, p, s), MeanOf(ups', p, s), p, s, c)[i]
            == Times(-PROX_ETA / (|ups| as real), VecSum(Responses(ups, ups', p, s, c), p)[i])
  {
    hide Times, Responses, Entries, MeanOf;
    var total := VecSum(Responses(ups, ups', p, s, c), p)[i];
    MeanOfAt(ups, p, s, i, c);
    MeanOfAt(ups', p, s, i, c);
    SumGap(ups, ups', p, s, i, c);
    ShareOfGap(Sum(Entries(ups, p, s, i, c)), Sum(Entries(ups', p, s, i, c)), total, |ups|);
  }

  lemma ShareOfGap(a: real, b: real, t: real, n: nat)
    requires n > 0 && a - b == Times(-PROX_ETA, t)
    ensures a / (n as real) - b / (n as real) == Times(-PROX_ETA / (n as real), t)
  {
    var m := n as real;
    assert a / m - b / m == (a - b) / m;
    assert (-PROX_ETA * t) / m == (-PROX_ETA / m) * t;
  }

  /** An answer that neither overshoots nor turns back. */
  ghost predicate Measured(delta: Vec, y: Vec)
    requires |delta| == |y|
  {
    Dot(y, y) <= Dot(delta, y) <= Dot(delta, delta)
  }

  lemma {:induction false} SumOfAnswers(delta: Vec, ys: seq<Vec>, p: nat)
    requires |delta| == p && forall k :: 0 <= k < |ys| ==> |ys[k]| == p && Measured(delta, ys[k])
    ensures 0.0 <= Dot(delta, VecSum(ys, p)) <= Times(|ys| as real, Dot(delta, delta))
    ensures Dot(delta, VecSum(ys, p)) == 0.0 ==> forall k :: 0 <= k < |ys| ==> ys[k] == Zeros(p)
  {
    hide Times, Dot;
    if ys == [] {
      DotZeros(delta);
      TimesLaws(Dot(delta, delta), 0.0, 0.0);
    } else {
      var n := |ys| - 1;
      SumOfAnswers(delta, ys[..n], p);
      assert Measured(delta, ys[n]);
      DotAdd(delta, VecSum(ys[..n], p), ys[n]);
      SquareNorm(ys[n]);
      TimesLaws(Dot(delta, delta), n as real, 1.0);
      TimesLaws(Dot(delta, delta), (n + 1) as real, 0.0);
      OneTimes(Dot(delta, delta));
      assert forall k :: 0 <= k < n ==> ys[k] == ys[..n][k];
    }
  }

  /** All clients' answers to one change of the model are measured. */
  lemma AnswersAreMeasured(l: Learner, clients: seq<seq<Row>>, w: Mat, w': Mat, c: nat, k: nat)
    requires l.Valid() && AreClients(clients, l.p, l.s) && IsMat(w, l.p, l.s) && IsMat(w', l.p, l.s)
    requires c < l.s && k < |clients|
    requires var stats := StatsOfRows(clients, l.p, l.s); Uploads(l, w, stats).Ok? && Uploads(l, w', stats).Ok?
    ensures var stats := StatsOfRows(clients, l.p, l.s);
            var ys := Responses(Uploads(l, w, stats).value, Uploads(l, w', stats).value, l.p, l.s, c);
            var delta := Gap(w, w', l.p, l.s, c);
            && Answers(clients[k], l.p, l.s, delta, ys[k])
            && Measured(delta, ys[k])
            && (ys[k] == Zeros(l.p) <==> Unseen(clients[k], l.p, l.s, delta))
  {
    hide ProxUpdate, Answers, Unseen, Dot, Gap, Response, StatOf, IsSolver, IsAggregator, IsAdjustment;
    var stats := StatsOfRows(clients, l.p, l.s);
    UploadIsLocal(l, w, stats, k);
    UploadIsLocal(l, w', stats, k);
    var delta := Gap(w, w', l.p, l.s, c);
    var y := Response(Uploads(l, w, stats).value[k], Uploads(l, w', stats).value[k], l.p, l.s, c);
    StepsAnswer(w, w', clients[k], l.solve, l.p, l.s, c);
    AnswerBounds(clients[k], l.p, l.s, delta, y);
    AnswersNothingExactly(clients[k], l.p, l.s, delta, y);
  }

  /** Two models whose round under the mean ends in the same model are the same model: no round
      forgets where it started. */
  lemma RoundIsInjective(l: Learner, clients: seq<seq<Row>>, w: Mat, w': Mat)
    requires l.Valid() && AreClients(clients, l.p, l.s) && clients != [] && IsMat(w, l.p, l.s) && IsMat(w', l.p, l.s)
    requires var stats := StatsOfRows(clients, l.p, l.s); Uploads(l, w, stats).Ok? && Uploads(l, w', stats).Ok?
    requires var stats := StatsOfRows(clients, l.p, l.s);
             MatAdd(w, MeanOf(Uploads(l, w, stats).value, l.p, l.s), l.p, l.s)
             == MatAdd(w', MeanOf(Uploads(l, w', stats).value, l.p, l.s), l.p, l.s)
    ensures w == w'
  {
    var stats := StatsOfRows(clients, l.p, l.s);
    var ups, ups' := Uploads(l, w, stats).value, Uploads(l, w', stats).value;
    forall c | 0 <= c < l.s
      ensures Column(w, l.p, l.s, c) == Column(w', l.p, l.s, c)
    {
      var delta := Gap(w, w', l.p, l.s, c);
      forall k | 0 <= k < |clients|
        ensures Measured(delta, Responses(ups, ups', l.p, l.s, c)[k])
      {
        AnswersAreMeasured(l, clients, w, w', c, k);
      }
      ColumnKept(w, w', ups, ups', l.p, l.s, c);
    }
    SameColumns(w, w', l.p, l.s);
  }

  lemma ColumnKept(w: Mat, w': Mat, ups: seq<Mat>, ups': seq<Mat>, p: nat, s: nat, c: nat)
    requires IsMat(w, p, s) && IsMat(w', p, s) && IsMats(ups, p, s) && IsMats(ups', p, s) && |ups| == |ups'| > 0 && c < s
    requires MatAdd(w, MeanOf(ups, p, s), p, s) == MatAdd(w', MeanOf(ups', p, s), p, s)
    requires forall k :: 0 <= k < |ups| ==> Measured(Gap(w, w', p, s, c), Responses(ups, ups', p, s, c)[k])
    ensures Column(w, p, s, c) == Column(w', p, s, c)
  {
    hide Times, Measured;
    var delta, n := Gap(w, w', p, s, c), |ups| as real;
    var total := VecSum(Responses(ups, ups', p, s, c), p);
    MeanGap(ups, ups', p, s, c);
    var m, m' := MeanOf(ups, p, s), MeanOf(ups', p, s);
    SumOfAnswers(delta, Responses(ups, ups', p, s, c), p);
    hide MeanOf, Responses, VecSum;
    OppositeGaps(w, w', m, m', p, s, c);
    assert delta == Scale(-1.0, Scale(-PROX_ETA / n, total));
    DotScale(delta, -1.0, Scale(-PROX_ETA / n, total));
    DotScale(delta, -PROX_ETA / n, total);
    SquareNorm(delta);
    hide Dot, Scale, Gap;
    DampedIsShorter(Dot(delta, delta), Dot(delta, total), |ups|);
    GapIsZero(w, w', p, s, c);
  }

  lemma OppositeGaps(w: Mat, w': Mat, m: Mat, m': Mat, p: nat, s: nat, c: nat)
    requires IsMat(w, p, s) && IsMat(w', p, s) && IsMat(m, p, s) && IsMat(m', p, s) && c < s
    requires MatAdd(w, m, p, s) == MatAdd(w', m', p, s)
    ensures Gap(w, w', p, s, c) == Scale(-1.0, Gap(m, m', p, s, c))
  {
    var left, right := Gap(w, w', p, s, c), Scale(-1.0, Gap(m, m', p, s, c));
    forall i | 0 <= i < p
      ensures left[i] == right[i]
    {
      assert MatAdd(w, m, p, s)[i][c] == MatAdd(w', m', p, s)[i][c];
    }
  }

  lemma GapIsZero(w: Mat, w': Mat, p: nat, s: nat, c: nat)
    requires IsMat(w, p, s) && IsMat(w', p, s) && c < s
    ensures Gap(w, w', p, s, c) == Zeros(p) <==> Column(w, p, s, c) == Column(w', p, s, c)
  {
    var d := Gap(w, w', p, s, c);
    if d == Zeros(p) {
      forall i | 0 <= i < p
        ensures Column(w, p, s, c)[i] == Column(w', p, s, c)[i]
      {
        assert d[i] == Zeros(p)[i];
      }
    }
  }

  lemma DampedIsShorter(square: real, along: real, n: nat)
    requires n > 0 && square >= 0.0 && 0.0 <= along <= Times(n as real, square)
    requires square == Times(-1.0, Times(-PROX_ETA / (n as real), along))
    ensures square == 0.0
  {
    var m := n as real;
    assert square == (PROX_ETA / m) * along;
    assert square * m == PROX_ETA * along;
    assert PROX_ETA * along <= PROX_ETA * (m * square);
    assert square > 0.0 ==> square * m > 0.0;
  }

  /** No subject of any client tells the two models apart, in any subband. */
  ghost predicate Indistinguishable(clients: seq<seq<Row>>, w: Mat, w': Mat, p: nat, s: nat)
    requires AreClients(clients, p, s) && IsMat(w, p, s) && IsMat(w', p, s)
  {
    forall k, c :: 0 <= k < |clients| && 0 <= c < s ==> Unseen(clients[k], p, s, Gap(w, w', p, s, c))
  }

  /** The clients' uploads average alike for two models exactly when no subject tells them apart. */
  lemma MeansAgreeExactly(l: Learner, clients: seq<seq<Row>>, w: Mat, w': Mat)
    requires l.Valid() && AreClients(clients, l.p, l.s) && clients != [] && IsMat(w, l.p, l.s) && IsMat(w', l.p, l.s)
    requires var stats := StatsOfRows(clients, l.p, l.s); Uploads(l, w, stats).Ok? && Uploads(l, w', stats).Ok?
    ensures var stats := StatsOfRows(clients, l.p, l.s);
            MeanOf(Uploads(l, w, stats).value, l.p, l.s) == MeanOf(Uploads(l, w', stats).value, l.p, l.s)
            <==> Indistinguishable(clients, w, w', l.p, l.s)
  {
    hide Answers, Measured, Unseen, Uploads, StatsOfRows, MeanOf, Gap, Response, IsSolver, IsAggregator, IsAdjustment;
    var stats := StatsOfRows(clients, l.p, l.s);
    var ups, ups' := Uploads(l, w, stats).value, Uploads(l, w', stats).value;
    if MeanOf(ups, l.p, l.s) == MeanOf(ups', l.p, l.s) {
      forall k, c | 0 <= k < |clients| && 0 <= c < l.s
        ensures Unseen(clients[k], l.p, l.s, Gap(w, w', l.p, l.s, c))
      {
        EqualMeansUnseen(l, clients, w, w', k, c);
      }
    }
    if Indistinguishable(clients, w, w', l.p, l.s) {
      UnseenSameUploads(l, clients, w, w');
    }
  }

  lemma EqualMeansUnseen(l: Learner, clients: seq<seq<Row>>, w: Mat, w': Mat, k: nat, c: nat)
    requires l.Valid() && AreClients(clients, l.p, l.s) && IsMat(w, l.p, l.s) && IsMat(w', l.p, l.s)
    requires k < |clients| && c < l.s
    requires var stats := StatsOfRows(clients, l.p, l.s); Uploads(l, w, stats).Ok? && Uploads(l, w', stats).Ok?
    requires var stats := StatsOfRows(clients, l.p, l.s);
             MeanOf(Uploads(l, w, stats).value, l.p, l.s) == MeanOf(Uploads(l, w', stats).value, l.p, l.s)
    ensures Unseen(clients[k], l.p, l.s, Gap(w, w', l.p, l.s, c))
  {
    var stats := StatsOfRows(clients, l.p, l.s);
    var ups, ups' := Uploads(l, w, stats).value, Uploads(l, w', stats).value;
    var delta, ys := Gap(w, w', l.p, l.s, c), Responses(ups, ups', l.p, l.s, c);
    forall j | 0 <= j < |clients|
      ensures Measured(delta, ys[j])
      ensures ys[j] == Zeros(l.p) <==> Unseen(clients[j], l.p, l.s, delta)
    {
      AnswersAreMeasured(l, clients, w, w', c, j);
    }
    hide Uploads, StatsOfRows, Unseen, Measured, Answers, Response, IsSolver, IsAggregator, IsAdjustment;
    NoMeanNoAnswer(delta, ups, ups', l.p, l.s, c);
  }

  lemma NoMeanNoAnswer(delta: Vec, ups: seq<Mat>, ups': seq<Mat>, p: nat, s: nat, c: nat)
    requires |delta| == p && IsMats(ups, p, s) && IsMats(ups', p, s) && |ups| == |ups'| > 0 && c < s
    requires MeanOf(ups, p, s) == MeanOf(ups', p, s)
    requires forall k :: 0 <= k < |ups| ==> Measured(delta, Responses(ups, ups', p, s, c)[k])
    ensures forall k :: 0 <= k < |ups| ==> Responses(ups, ups', p, s, c)[k] == Zeros(p)
  {
    hide Times, Measured;
    var total := VecSum(Responses(ups, ups', p, s, c), p);
    MeanGap(ups, ups', p, s, c);
    GapIsZero(MeanOf(ups, p, s), MeanOf(ups', p, s), p, s, c);
    SumOfAnswers(delta, Responses(ups, ups', p, s, c), p);
    hide MeanOf, Responses, VecSum;
    forall i | 0 <= i < p
      ensures total[i] == 0.0
    {
      assert Scale(-PROX_ETA / (|ups| as real), total)[i] == Zeros(p)[i];
      NonzeroFactor(total[i], |ups|);
    }
    assert total == Zeros(p);
    DotZeros(delta);
  }

  lemma NonzeroFactor(x: real, n: nat)
    requires n > 0 && Times(-PROX_ETA / (n as real), x) == 0.0
    ensures x == 0.0
  {
    var f := PROX_ETA / (n as real);
    assert f > 0.0;
    if x > 0.0 {
      PositiveProduct(f, x);
    } else if x < 0.0 {
      PositiveProduct(f, -x);
    }
  }

  lemma UnseenSameUploads(l: Learner, clients: seq<seq<Row>>, w: Mat, w': Mat)
    requires l.Valid() && AreClients(clients, l.p, l.s) && IsMat(w, l.p, l.s) && IsMat(w', l.p, l.s)
    requires var stats := StatsOfRows(clients, l.p, l.s); Uploads(l, w, stats).Ok? && Uploads(l, w', stats).Ok?
    requires Indistinguishable(clients, w, w', l.p, l.s)
    ensures var stats := StatsOfRows(clients, l.p, l.s); Uploads(l, w, stats) == Uploads(l, w', stats)
  {
    hide Unseen, Answers, Measured, Response, StatsOfRows, Gap, IsMat, IsSolver, IsAggregator, IsAdjustment, ProxUpdate;
    var stats := StatsOfRows(clients, l.p, l.s);
    var ups, ups' := Uploads(l, w, stats).value, Uploads(l, w', stats).value;
    forall k | 0 <= k < |clients|
      ensures ups[k] == ups'[k]
    {
      forall c | 0 <= c < l.s
        ensures Column(ups[k], l.p, l.s, c) == Column(ups'[k], l.p, l.s, c)
      {
        SameColumnUploaded(l, clients, w, w', k, c);
      }
      SameColumns(ups[k], ups'[k], l.p, l.s);
    }
    assert ups == ups';
  }

  lemma SameColumnUploaded(l: Learner, clients: seq<seq<Row>>, w: Mat, w': Mat, k: nat, c: nat)
    requires l.Valid() && AreClients(clients, l.p, l.s) && IsMat(w, l.p, l.s) && IsMat(w', l.p, l.s)
    requires k < |clients| && c < l.s
    requires var stats := StatsOfRows(clients, l.p, l.s); Uploads(l, w, stats).Ok? && Uploads(l, w', stats).Ok?
    requires Unseen(clients[k], l.p, l.s, Gap(w, w', l.p, l.s, c))
    ensures var stats := StatsOfRows(clients, l.p, l.s);
            Column(Uploads(l, w, stats).value[k], l.p, l.s, c) == Column(Uploads(l, w', stats).value[k], l.p, l.s, c)
  {
    AnswersAreMeasured(l, clients, w, w', c, k);
    hide Unseen, Answers, Measured, StatsOfRows, Gap, Response, IsSolver, IsAggregator, IsAdjustment;
    var stats := StatsOfRows(clients, l.p, l.s);
    NoResponseNoGap(Uploads(l, w, stats).value[k], Uploads(l, w', stats).value[k], l.p, l.s, c);
  }

  lemma NoResponseNoGap(u: Mat, u': Mat, p: nat, s: nat, c: nat)
    requires IsMat(u, p, s) && IsMat(u', p, s) && c < s && Response(u, u', p, s, c) == Zeros(p)
    ensures Column(u, p, s, c) == Column(u', p, s, c)
  {
    forall i | 0 <= i < p
      ensures u[i][c] == u'[i][c]
    {
      EntryOfResponse(u, u', p, s, i, c);
      assert Response(u, u', p, s, c)[i] == Zeros(p)[i];
    }
  }
}
