/** A local step, and the mean of all steps, are affine in the global model: what several rounds under
    the mean add up to depends on the mean of their models alone. */
module AffineSteps {
  import opened Common
  import opened LinearAlgebra
  import opened SuffStats
  import opened LocalSolve
  import opened Federation
  import opened StepResponse
  import opened MeanOfSteps
  import opened LinearPatch

  /** The model a share `q` of the way from `a` to `b`. */
  function Toward(q: real, a: Mat, b: Mat, p: nat, s: nat): (m: Mat)
    requires IsMat(a, p, s) && IsMat(b, p, s)
    ensures IsMat(m, p, s)
  {
    seq(p, i requires 0 <= i < p => seq(s, c requires 0 <= c < s => Part(q, a[i][c], b[i][c])))
  }

  function Part(q: real, x: real, y: real): real {
    x + Times(q, y - x)
  }

  lemma MatVecScale(m: Mat, p: nat, q: real, v: Vec)
    requires IsMat(m, p, p) && |v| == p
    ensures MatVec(m, p, Scale(q, v)) == Scale(q, MatVec(m, p, v))
  {
    hide Dot, Times;
    forall i | 0 <= i < p
      ensures Dot(m[i], Scale(q, v)) == Times(q, Dot(m[i], v))
    {
      DotScale(m[i], q, v);
    }
  }

  lemma ScaleCommutes(q: real, r: real, v: Vec)
    ensures Scale(q, Scale(r, v)) == Scale(r, Scale(q, v))
  {
    hide Times;
    forall i | 0 <= i < |v|
      ensures Times(q, Times(r, v[i])) == Times(r, Times(q, v[i]))
    {
      TimesLaws(q, r, v[i]);
      TimesLaws(r, q, v[i]);
    }
  }

  /** A client answers a share of a change with that share of its answer. */
  lemma AnswersScale(rows: seq<Row>, p: nat, s: nat, delta: Vec, y: Vec, q: real, y': Vec)
    requires IsRows(rows, p, s) && rows != [] && |delta| == |y| == |y'| == p
    requires Answers(rows, p, s, delta, y) && Answers(rows, p, s, Scale(q, delta), y')
    ensures y' == Scale(q, y)
  {
    var h, g := Hessian(StatOf(rows, p, s), p, s), Gram(rows, p, s);
    SystemIsWellPosed(rows, p, s);
    hide Hessian, Gram, StatOf, MatVec, Scale, Share, Nonsingular, Symmetric;
    MatVecScale(h, p, q, y);
    MatVecScale(g, p, q, delta);
    ScaleCommutes(q, Share(|rows|), MatVec(g, p, delta));
    UniqueSolution(h, p, y', Scale(q, y));
  }

  lemma GapOfPart(q: real, a: Mat, b: Mat, p: nat, s: nat, c: nat)
    requires IsMat(a, p, s) && IsMat(b, p, s) && c < s
    ensures Gap(Toward(q, a, b, p, s), a, p, s, c) == Scale(q, Gap(b, a, p, s, c))
  {
    hide Times;
    var left, right := Gap(Toward(q, a, b, p, s), a, p, s, c), Scale(q, Gap(b, a, p, s, c));
    forall i | 0 <= i < p
      ensures left[i] == right[i]
    {
    }
  }

  /** If the responses are in proportion, so are the uploads. */
  lemma UploadOfPart(q: real, u: Mat, v: Mat, m: Mat, p: nat, s: nat, c: nat)
    requires IsMat(u, p, s) && IsMat(v, p, s) && IsMat(m, p, s) && c < s
    requires Response(m, u, p, s, c) == Scale(q, Response(v, u, p, s, c))
    ensures Column(m, p, s, c) == Column(Toward(q, u, v, p, s), p, s, c)
  {
    forall i | 0 <= i < p
      ensures m[i][c] == Part(q, u[i][c], v[i][c])
    {
      assert Response(m, u, p, s, c)[i] == Scale(q, Response(v, u, p, s, c))[i];
      UndoResponse(q, m[i][c] - u[i][c], v[i][c] - u[i][c]);
    }
  }

  lemma UndoResponse(q: real, x: real, y: real)
    requires Times(-1.0 / PROX_ETA, x) == Times(q, Times(-1.0 / PROX_ETA, y))
    ensures x == Times(q, y)
  {
    var f := -1.0 / PROX_ETA;
    assert f * x == f * (q * y);
  }

  /** The step of one client is affine. */
  lemma StepOfPart(q: real, w: Mat, w': Mat, rows: seq<Row>, solve: Solver, p: nat, s: nat)
    requires IsMat(w, p, s) && IsMat(w', p, s) && IsRows(rows, p, s) && rows != [] && IsSolver(solve, p, s)
    ensures var st := StatOf(rows, p, s);
            var r, r' := ProxUpdate(w, st, solve, p, s), ProxUpdate(w', st, solve, p, s);
            && r.Ok? && r'.Ok?
            && ProxUpdate(Toward(q, w, w', p, s), st, solve, p, s) == Ok(Toward(q, r.value, r'.value, p, s))
  {
    hide ProxUpdate, StatOf, Answers, Gap, Response, IsSolver, Toward, Column;
    var st, mid := StatOf(rows, p, s), Toward(q, w, w', p, s);
    LocalStepSucceeds(w, rows, solve, p, s);
    LocalStepSucceeds(w', rows, solve, p, s);
    LocalStepSucceeds(mid, rows, solve, p, s);
    var u, v, m := ProxUpdate(w, st, solve, p, s).value, ProxUpdate(w', st, solve, p, s).value, ProxUpdate(mid, st, solve, p, s).value;
    forall c | 0 <= c < s
      ensures Column(m, p, s, c) == Column(Toward(q, u, v, p, s), p, s, c)
    {
      StepsAnswer(w', w, rows, solve, p, s, c);
      StepsAnswer(mid, w, rows, solve, p, s, c);
      GapOfPart(q, w, w', p, s, c);
      AnswersScale(rows, p, s, Gap(w', w, p, s, c), Response(v, u, p, s, c), q, Response(m, u, p, s, c));
      UploadOfPart(q, u, v, m, p, s, c);
    }
    SameColumns(m, Toward(q, u, v, p, s), p, s);
  }

  /** The mean upload of a federation, as a function of the global model. */
  function MeanStep(l: Learner, rows: seq<seq<Row>>, w: Mat): (m: Mat)
    requires l.Valid() && AreClients(rows, l.p, l.s) && IsMat(w, l.p, l.s)
    ensures IsMat(m, l.p, l.s)
  {
    ClientsUpload(l, rows, w);
    MeanOf(Uploads(l, w, StatsOfRows(rows, l.p, l.s)).value, l.p, l.s)
  }

  /** Every upload of `mid` is that part of the way. */
  predicate InProportion(q: real, ups: seq<Mat>, ups': seq<Mat>, mid: seq<Mat>, p: nat, s: nat)
    requires IsMats(ups, p, s) && IsMats(ups', p, s)
  {
    |ups| == |ups'| == |mid| && forall k :: 0 <= k < |ups| ==> mid[k] == Toward(q, ups[k], ups'[k], p, s)
  }

  lemma {:induction false} SumOfParts(q: real, ups: seq<Mat>, ups': seq<Mat>, mid: seq<Mat>, p: nat, s: nat, i: nat, c: nat)
    requires IsMats(ups, p, s) && IsMats(ups', p, s) && IsMats(mid, p, s) && i < p && c < s
    requires InProportion(q, ups, ups', mid, p, s)
    ensures Sum(Entries(mid, p, s, i, c)) == Part(q, Sum(Entries(ups, p, s, i, c)), Sum(Entries(ups', p, s, i, c)))
  {
    hide Part;
    if ups == [] {
      AddParts(q, 0.0, 0.0, 0.0, 0.0);
    } else {
      var n := |ups| - 1;
      SumOfParts(q, ups[..n], ups'[..n], mid[..n], p, s, i, c);
      var es, es', mids := Entries(ups, p, s, i, c), Entries(ups', p, s, i, c), Entries(mid, p, s, i, c);
      assert es[..n] == Entries(ups[..n], p, s, i, c) && es'[..n] == Entries(ups'[..n], p, s, i, c);
      assert mids[..n] == Entries(mid[..n], p, s, i, c);
      assert mids[n] == Part(q, es[n], es'[n]);
      hide InProportion, Entries;
      AddParts(q, Sum(es[..n]), Sum(es'[..n]), es[n], es'[n]);
    }
  }

  lemma AddParts(q: real, x: real, y: real, x': real, y': real)
    ensures Part(q, x, y) + Part(q, x', y') == Part(q, x + x', y + y')
    ensures Part(q, 0.0, 0.0) == 0.0
  {
  }

  lemma DivideParts(q: real, x: real, y: real, n: nat)
    requires n > 0
    ensures Part(q, x, y) / (n as real) == Part(q, x / (n as real), y / (n as real))
  {
    var m := n as real;
    assert y / m - x / m == (y - x) / m;
    assert q * (y - x) / m == q * ((y - x) / m);
  }

  lemma MeanOfParts(q: real, ups: seq<Mat>, ups': seq<Mat>, mid: seq<Mat>, p: nat, s: nat)
    requires IsMats(ups, p, s) && IsMats(ups', p, s) && IsMats(mid, p, s) && ups != []
    requires InProportion(q, ups, ups', mid, p, s)
    ensures MeanOf(mid, p, s) == Toward(q, MeanOf(ups, p, s), MeanOf(ups', p, s), p, s)
  {
    hide MeanOf, Part, Sum, InProportion;
    var left, right := MeanOf(mid, p, s), Toward(q, MeanOf(ups, p, s), MeanOf(ups', p, s), p, s);
    assert |mid| == |ups| == |ups'| by { Lengths(q, ups, ups', mid, p, s); }
    forall i, c | 0 <= i < p && 0 <= c < s
      ensures left[i][c] == right[i][c]
    {
      MeanOfAt(ups, p, s, i, c);
      MeanOfAt(ups', p, s, i, c);
      MeanOfAt(mid, p, s, i, c);
      SumOfParts(q, ups, ups', mid, p, s, i, c);
      DivideParts(q, Sum(Entries(ups, p, s, i, c)), Sum(Entries(ups', p, s, i, c)), |ups|);
    }
    SameMat(left, right, p, s);
  }

  lemma Lengths(q: real, ups: seq<Mat>, ups': seq<Mat>, mid: seq<Mat>, p: nat, s: nat)
    requires IsMats(ups, p, s) && IsMats(ups', p, s) && InProportion(q, ups, ups', mid, p, s)
    ensures |mid| == |ups| == |ups'|
  {
  }

  /** The mean upload of a federation is affine. */
  lemma MeanStepOfPart(l: Learner, rows: seq<seq<Row>>, q: real, w: Mat, w': Mat)
    requires l.Valid() && AreClients(rows, l.p, l.s) && rows != [] && IsMat(w, l.p, l.s) && IsMat(w', l.p, l.s)
    ensures MeanStep(l, rows, Toward(q, w, w', l.p, l.s)) == Toward(q, MeanStep(l, rows, w), MeanStep(l, rows, w'), l.p, l.s)
  {
    var stats, mid := StatsOfRows(rows, l.p, l.s), Toward(q, w, w', l.p, l.s);
    ClientsUpload(l, rows, w);
    ClientsUpload(l, rows, w');
    ClientsUpload(l, rows, mid);
    var ups, ups', between := Uploads(l, w, stats).value, Uploads(l, w', stats).value, Uploads(l, mid, stats).value;
    hide ProxUpdate, Uploads, Toward, MeanOf, IsMat, IsSolver, IsAggregator, IsAdjustment;
    forall k | 0 <= k < |rows|
      ensures between[k] == Toward(q, ups[k], ups'[k], l.p, l.s)
    {
      UploadIsLocal(l, w, stats, k);
      UploadIsLocal(l, w', stats, k);
      UploadIsLocal(l, mid, stats, k);
      hide StatOf;
      StepOfPart(q, w, w', rows[k], l.solve, l.p, l.s);
    }
    MeanOfParts(q, ups, ups', between, l.p, l.s);
  }

  // ----- Several rounds -----

  /** The sum of the mean uploads from a list of models. */
  function TotalStep(l: Learner, rows: seq<seq<Row>>, ws: seq<Mat>): (m: Mat)
    requires l.Valid() && AreClients(rows, l.p, l.s) && IsMats(ws, l.p, l.s)
    ensures IsMat(m, l.p, l.s)
  {
    if ws == [] then ZeroMat(l.p, l.s)
    else
      var n := |ws| - 1;
      MatAdd(TotalStep(l, rows, ws[..n]), MeanStep(l, rows, ws[n]), l.p, l.s)
  }

  /** One more model moves the mean model by its share. */
  lemma MeanModelGrows(ws: seq<Mat>, p: nat, s: nat)
    requires IsMats(ws, p, s) && |ws| > 1
    ensures var n := |ws| - 1; MeanOf(ws, p, s) == Toward(Share(|ws|), MeanOf(ws[..n], p, s), ws[n], p, s)
  {
    var n := |ws| - 1;
    var left, right := MeanOf(ws, p, s), Toward(Share(|ws|), MeanOf(ws[..n], p, s), ws[n], p, s);
    forall i, c | 0 <= i < p && 0 <= c < s
      ensures left[i][c] == right[i][c]
    {
      MeanOfAt(ws, p, s, i, c);
      MeanOfAt(ws[..n], p, s, i, c);
      var es := Entries(ws, p, s, i, c);
      assert es[..n] == Entries(ws[..n], p, s, i, c);
      MeanGrows(Sum(es[..n]), es[n], n);
    }
    SameMat(left, right, p, s);
  }

  lemma MeanGrows(sum: real, x: real, n: nat)
    requires n > 0
    ensures (sum + x) / ((n + 1) as real) == Part(Share(n + 1), sum / (n as real), x)
  {
    var m, k := sum / (n as real), (n + 1) as real;
    assert sum == m * (n as real);
    assert sum + x == m * k + (x - m);
    assert (m * k + (x - m)) / k == m + (1.0 / k) * (x - m);
  }

  /** So the sum of the uploads over rounds is that of as many rounds from the mean model. */
  lemma {:induction false} TotalIsScaled(l: Learner, rows: seq<seq<Row>>, ws: seq<Mat>)
    requires l.Valid() && AreClients(rows, l.p, l.s) && rows != [] && IsMats(ws, l.p, l.s) && ws != []
    ensures TotalStep(l, rows, ws) == MatScale(|ws| as real, MeanStep(l, rows, MeanOf(ws, l.p, l.s)), l.p, l.s)
    decreases |ws|
  {
    hide MeanStep, MatScale, MatAdd, MeanOf, Toward, AreClients, ZeroMat, IsSolver, IsAggregator, IsAdjustment;
    var n := |ws| - 1;
    if n == 0 {
      MeanOfOne(ws[0], l.p, l.s);
      assert ws == [ws[0]];
      assert TotalStep(l, rows, ws[..0]) == ZeroMat(l.p, l.s);
      OnceFromZero(MeanStep(l, rows, ws[0]), l.p, l.s);
    } else {
      TotalIsScaled(l, rows, ws[..n]);
      MeanModelGrows(ws, l.p, l.s);
      MeanStepOfPart(l, rows, Share(|ws|), MeanOf(ws[..n], l.p, l.s), ws[n]);
      OneMoreScaled(MeanStep(l, rows, MeanOf(ws[..n], l.p, l.s)), MeanStep(l, rows, ws[n]), n, l.p, l.s);
    }
  }

  lemma MeanOfOne(w: Mat, p: nat, s: nat)
    requires IsMat(w, p, s)
    ensures MeanOf([w], p, s) == w
  {
    forall i, c | 0 <= i < p && 0 <= c < s
      ensures MeanOf([w], p, s)[i][c] == w[i][c]
    {
      MeanOfAt([w], p, s, i, c);
      assert Entries([w], p, s, i, c) == [w[i][c]];
      assert [w[i][c]][..0] == [];
    }
    SameMat(MeanOf([w], p, s), w, p, s);
  }

  lemma OnceFromZero(m: Mat, p: nat, s: nat)
    requires IsMat(m, p, s)
    ensures MatAdd(ZeroMat(p, s), m, p, s) == MatScale(1 as real, m, p, s)
  {
    SameMat(MatAdd(ZeroMat(p, s), m, p, s), MatScale(1 as real, m, p, s), p, s);
  }

  lemma OneMoreScaled(x: Mat, y: Mat, n: nat, p: nat, s: nat)
    requires IsMat(x, p, s) && IsMat(y, p, s) && n > 0
    ensures MatAdd(MatScale(n as real, x, p, s), y, p, s)
            == MatScale((n + 1) as real, Toward(Share(n + 1), x, y, p, s), p, s)
  {
    var left, right := MatAdd(MatScale(n as real, x, p, s), y, p, s), MatScale((n + 1) as real, Toward(Share(n + 1), x, y, p, s), p, s);
    forall i, c | 0 <= i < p && 0 <= c < s
      ensures left[i][c] == right[i][c]
    {
      PartScaled(x[i][c], y[i][c], n);
    }
    SameMat(left, right, p, s);
  }

  lemma PartScaled(x: real, y: real, n: nat)
    ensures Times(n as real, x) + y == Times((n + 1) as real, Part(Share(n + 1), x, y))
  {
    var k := (n + 1) as real;
    assert k * ((1.0 / k) * (y - x)) == y - x;
    assert k * (x + (1.0 / k) * (y - x)) == k * x + (y - x);
  }

  /** Two federations' histories add up to the same if and only if no subject tells their mean models apart. */
  lemma TotalsAgreeExactly(l: Learner, rows: seq<seq<Row>>, ws: seq<Mat>, ws': seq<Mat>)
    requires l.Valid() && AreClients(rows, l.p, l.s) && rows != [] && IsMats(ws, l.p, l.s) && IsMats(ws', l.p, l.s)
    requires |ws| == |ws'| > 0
    ensures TotalStep(l, rows, ws) == TotalStep(l, rows, ws')
            <==> Indistinguishable(rows, MeanOf(ws, l.p, l.s), MeanOf(ws', l.p, l.s), l.p, l.s)
  {
    hide MeanOf, Uploads, MatScale, TotalStep, AreClients, Indistinguishable, StatsOfRows, IsMat, IsSolver, IsAggregator, IsAdjustment;
    var mean, mean' := MeanOf(ws, l.p, l.s), MeanOf(ws', l.p, l.s);
    TotalIsScaled(l, rows, ws);
    TotalIsScaled(l, rows, ws');
    ClientsUpload(l, rows, mean);
    ClientsUpload(l, rows, mean');
    MeansAgreeExactly(l, rows, mean, mean');
    CancelScale(|ws|, MeanStep(l, rows, mean), MeanStep(l, rows, mean'), l.p, l.s);
  }

  lemma CancelScale(n: nat, a: Mat, b: Mat, p: nat, s: nat)
    requires n > 0 && IsMat(a, p, s) && IsMat(b, p, s)
    ensures MatScale(n as real, a, p, s) == MatScale(n as real, b, p, s) <==> a == b
  {
    if MatScale(n as real, a, p, s) == MatScale(n as real, b, p, s) {
      forall i, c | 0 <= i < p && 0 <= c < s
        ensures a[i][c] == b[i][c]
      {
        assert MatScale(n as real, a, p, s)[i][c] == MatScale(n as real, b, p, s)[i][c];
        CancelFactor(n, a[i][c], b[i][c]);
      }
      SameMat(a, b, p, s);
    }
  }

  lemma CancelFactor(n: nat, x: real, y: real)
    requires n > 0 && Times(n as real, x) == Times(n as real, y)
    ensures x == y
  {
    assert (n as real) * (x - y) == 0.0;
  }
}
