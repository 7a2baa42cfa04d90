/** How the local step of one client answers to a change of the global model, and what the mean
    of many such steps can hide (benchmarks/privacy_real_subjects.py:250-271). */
module StepResponse {
  import opened Common
  import opened LinearAlgebra
  import opened SuffStats
  import opened LocalSolve
  import opened Federation

  /** Subband c of the difference of two models. */
  function Gap(w: Mat, w': Mat, p: nat, s: nat, c: nat): (d: Vec)
    requires IsMat(w, p, s) && IsMat(w', p, s) && c < s
    ensures |d| == p
  {
    Minus(Column(w, p, s, c), Column(w', p, s, c))
  }

  /** What the change of the uploads undoes of it, before the damping by eta. */
  function Response(u: Mat, u': Mat, p: nat, s: nat, c: nat): (y: Vec)
    requires IsMat(u, p, s) && IsMat(u', p, s) && c < s
    ensures |y| == p
  {
    Scale(-1.0 / PROX_ETA, Gap(u, u', p, s, c))
  }

  /** H y = (1/n) G delta */
  ghost predicate Answers(rows: seq<Row>, p: nat, s: nat, delta: Vec, y: Vec)
    requires IsRows(rows, p, s) && rows != [] && |delta| == |y| == p
  {
    MatVec(Hessian(StatOf(rows, p, s), p, s), p, y) == Scale(Share(|rows|), MatVec(Gram(rows, p, s), p, delta))
  }

  lemma MatVecMinus(m: Mat, p: nat, u: Vec, v: Vec)
    requires IsMat(m, p, p) && |u| == |v| == p
    ensures MatVec(m, p, Minus(u, v)) == Minus(MatVec(m, p, u), MatVec(m, p, v))
  {
    hide Dot;
    forall i | 0 <= i < p
      ensures Dot(m[i], Minus(u, v)) == Dot(m[i], u) - Dot(m[i], v)
    {
      DotMinus(m[i], u, v);
    }
  }

  /** Two steps of one client, from two global models. */
  lemma StepsAnswer(w: Mat, w': Mat, rows: seq<Row>, solve: Solver, p: nat, s: nat, c: nat)
    requires IsMat(w, p, s) && IsMat(w', p, s) && IsRows(rows, p, s) && rows != [] && IsSolver(solve, p, s) && c < s
    ensures var st := StatOf(rows, p, s);
            var r, r' := ProxUpdate(w, st, solve, p, s), ProxUpdate(w', st, solve, p, s);
            && r.Ok? && r'.Ok?
            && Answers(rows, p, s, Gap(w, w', p, s, c), Response(r.value, r'.value, p, s, c))
  {
    var st := StatOf(rows, p, s);
    LocalStepSucceeds(w, rows, solve, p, s);
    LocalStepSucceeds(w', rows, solve, p, s);
    var h, g, g' := Hessian(st, p, s), Gradient(w, st, p, s), Gradient(w', st, p, s);
    assert SolvesOne(solve, p, s, h, g) && SolvesOne(solve, p, s, h, g');
    var x, x' := solve(h, g).value, solve(h, g').value;
    hide Hessian, Gradient, IsSolver, StatOf, MatMul, MatVec, Share, Times, Scale, Minus, Column;
    ResponseOfSolutions(x, x', p, s, c);
    SolutionsAnswer(w, w', rows, x, x', p, s, c);
  }

  lemma ResponseOfSolutions(x: Mat, x': Mat, p: nat, s: nat, c: nat)
    requires IsMat(x, p, s) && IsMat(x', p, s) && c < s
    ensures Response(MatScale(-PROX_ETA, x, p, s), MatScale(-PROX_ETA, x', p, s), p, s, c) == Gap(x, x', p, s, c)
  {
    var y, d := Response(MatScale(-PROX_ETA, x, p, s), MatScale(-PROX_ETA, x', p, s), p, s, c), Gap(x, x', p, s, c);
    forall i | 0 <= i < p
      ensures y[i] == d[i]
    {
      UndoEta(x[i][c], x'[i][c]);
    }
  }

  lemma UndoEta(a: real, b: real)
    ensures Times(-1.0 / PROX_ETA, Times(-PROX_ETA, a) - Times(-PROX_ETA, b)) == a - b
  {
  }

  lemma SolutionsAnswer(w: Mat, w': Mat, rows: seq<Row>, x: Mat, x': Mat, p: nat, s: nat, c: nat)
    requires IsMat(w, p, s) && IsMat(w', p, s) && IsRows(rows, p, s) && rows != [] && c < s
    requires IsMat(x, p, s) && IsMat(x', p, s)
    requires var st := StatOf(rows, p, s);
             && MatMul(Hessian(st, p, s), x, p, s) == Gradient(w, st, p, s)
             && MatMul(Hessian(st, p, s), x', p, s) == Gradient(w', st, p, s)
    ensures Answers(rows, p, s, Gap(w, w', p, s, c), Gap(x, x', p, s, c))
  {
    hide Hessian, Gradient, MatMul, Share, Times, MatVec, Column;
    var st := StatOf(rows, p, s);
    var h := Hessian(st, p, s);
    ColumnOfProduct(h, x, p, s, c);
    ColumnOfProduct(h, x', p, s, c);
    GradientColumn(st, p, s, w, c);
    GradientColumn(st, p, s, w', c);
    var wc, wc', pull := Column(w, p, s, c), Column(w', p, s, c), Column(st.cross, p, s, c);
    MatVecMinus(h, p, Column(x, p, s, c), Column(x', p, s, c));
    MatVecMinus(st.gram, p, wc, wc');
    CancelPull(Share(st.n), MatVec(st.gram, p, wc), MatVec(st.gram, p, wc'), pull);
  }

  lemma CancelPull(q: real, a: Vec, b: Vec, pull: Vec)
    requires |a| == |b| == |pull|
    ensures Minus(Scale(q, Minus(a, pull)), Scale(q, Minus(b, pull))) == Scale(q, Minus(a, b))
  {
    forall i | 0 <= i < |a|
      ensures Times(q, a[i] - pull[i]) - Times(q, b[i] - pull[i]) == Times(q, a[i] - b[i])
    {
      Distribute(q, a[i], b[i], pull[i]);
    }
    hide Times;
  }

  lemma Distribute(q: real, a: real, b: real, t: real)
    ensures Times(q, a - t) - Times(q, b - t) == Times(q, a - b)
  {
  }

  /** The answer read in a direction z. */
  lemma AnswerForm(rows: seq<Row>, p: nat, s: nat, delta: Vec, y: Vec, z: Vec)
    requires IsRows(rows, p, s) && rows != [] && |delta| == |y| == |z| == p && Answers(rows, p, s, delta, y)
    ensures var q := Share(|rows|);
            Times(q, PairSum(rows, p, s, z, y)) + Times(PROX_LAMBDA, Dot(z, y)) == Times(q, PairSum(rows, p, s, z, delta))
  {
    hide Hessian, Gram, MatVec, Scale, Times, Dot, Share, PairSum;
    HessianForm(rows, p, s, z, y);
    GramForm(rows, p, s, z, delta);
    DotScale(z, Share(|rows|), MatVec(Gram(rows, p, s), p, delta));
  }

  /** The answer never overshoots: |y|^2 <= delta.y <= |delta|^2. */
  lemma AnswerBounds(rows: seq<Row>, p: nat, s: nat, delta: Vec, y: Vec)
    requires IsRows(rows, p, s) && rows != [] && |delta| == |y| == p && Answers(rows, p, s, delta, y)
    ensures Dot(y, y) <= Dot(delta, y) <= Dot(delta, delta)
  {
    AnswerFallsShort(rows, p, s, delta, y);
    BoundsFromAngle(delta, y);
  }

  /** What is left of the change still points the way of the answer. */
  lemma AnswerFallsShort(rows: seq<Row>, p: nat, s: nat, delta: Vec, y: Vec)
    requires IsRows(rows, p, s) && rows != [] && |delta| == |y| == p && Answers(rows, p, s, delta, y)
    ensures Dot(Minus(delta, y), y) >= 0.0
  {
    hide Answers, Times, Minus, Share;
    var z, q := Minus(delta, y), Share(|rows|);
    AnswerForm(rows, p, s, delta, y, z);
    PairSumMinus(rows, p, s, z, delta, y);
    PairSumNonnegative(rows, p, s, z);
    ShareKeepsSign(|rows|, PairSum(rows, p, s, z, z));
    TimesOfDifference(q, PairSum(rows, p, s, z, delta), PairSum(rows, p, s, z, y));
    PositiveLambda(Dot(z, y));
  }

  lemma BoundsFromAngle(delta: Vec, y: Vec)
    requires |delta| == |y| && Dot(Minus(delta, y), y) >= 0.0
    ensures Dot(y, y) <= Dot(delta, y) <= Dot(delta, delta)
  {
    hide Minus;
    var z := Minus(delta, y);
    DotCommutes(z, y);
    DotMinus(y, delta, y);
    DotCommutes(y, delta);
    SquareNorm(z);
    DotMinus(z, delta, y);
    DotCommutes(z, delta);
    DotMinus(delta, delta, y);
  }

  lemma TimesOfDifference(q: real, a: real, b: real)
    ensures Times(q, a - b) == Times(q, a) - Times(q, b)
  {
  }

  lemma PositiveLambda(x: real)
    ensures Times(PROX_LAMBDA, x) >= 0.0 ==> x >= 0.0
    ensures Times(PROX_LAMBDA, x) <= 0.0 ==> x <= 0.0
  {
  }

  /** Every subject of the client is predicted alike: the design rows do not see the change. */
  ghost predicate Unseen(rows: seq<Row>, p: nat, s: nat, delta: Vec)
    requires IsRows(rows, p, s) && |delta| == p
  {
    forall k :: 0 <= k < |rows| ==> Dot(rows[k].d, delta) == 0.0
  }

  lemma {:induction false} PairSumOfUnseen(rows: seq<Row>, p: nat, s: nat, z: Vec, delta: Vec)
    requires IsRows(rows, p, s) && |z| == |delta| == p && Unseen(rows, p, s, delta)
    ensures PairSum(rows, p, s, z, delta) == 0.0
  {
    hide Times, Dot;
    if rows != [] {
      var n := |rows| - 1;
      PairSumOfUnseen(rows[..n], p, s, z, delta);
      TimesLaws(Dot(rows[n].d, z), 0.0, 0.0);
    }
  }

  lemma {:induction false} NoEnergyIsUnseen(rows: seq<Row>, p: nat, s: nat, delta: Vec)
    requires IsRows(rows, p, s) && |delta| == p && PairSum(rows, p, s, delta, delta) == 0.0
    ensures Unseen(rows, p, s, delta)
  {
    hide Times, Dot;
    if rows != [] {
      var n := |rows| - 1;
      PairSumNonnegative(rows[..n], p, s, delta);
      SquareLaws(Dot(rows[n].d, delta));
      NoEnergyIsUnseen(rows[..n], p, s, delta);
      assert forall k :: 0 <= k < n ==> rows[k] == rows[..n][k];
    }
  }

  /** A client does not answer at all exactly when none of its subjects sees the change. */
  lemma AnswersNothingExactly(rows: seq<Row>, p: nat, s: nat, delta: Vec, y: Vec)
    requires IsRows(rows, p, s) && rows != [] && |delta| == |y| == p && Answers(rows, p, s, delta, y)
    ensures y == Zeros(p) <==> Unseen(rows, p, s, delta)
  {
    var q := Share(|rows|);
    if y == Zeros(p) {
      AnswerForm(rows, p, s, delta, y, delta);
      hide Answers, Times, Dot, Share, Unseen;
      UnseenZeros(rows, p, s);
      PairSumOfUnseen(rows, p, s, delta, y);
      DotZeros(delta);
      NoSharedEnergy(|rows|, PairSum(rows, p, s, delta, delta));
      NoEnergyIsUnseen(rows, p, s, delta);
    }
    if Unseen(rows, p, s, delta) {
      AnswerForm(rows, p, s, delta, y, y);
      PairSumOfUnseen(rows, p, s, y, delta);
      PairSumNonnegative(rows, p, s, y);
      ShareKeepsSign(|rows|, PairSum(rows, p, s, y, y));
      hide Answers, Dot, Share, Unseen;
      TimesLaws(q, 0.0, 0.0);
      PositiveLambda(Dot(y, y));
      SquareNorm(y);
    }
  }

  lemma UnseenZeros(rows: seq<Row>, p: nat, s: nat)
    requires IsRows(rows, p, s)
    ensures Unseen(rows, p, s, Zeros(p))
  {
    forall k | 0 <= k < |rows|
      ensures Dot(rows[k].d, Zeros(p)) == 0.0
    {
      DotZeros(rows[k].d);
    }
  }

  /** Kept apart from the seq reasoning: (1/n) e + lambda 0 = (1/n) 0 leaves no energy. */
  lemma NoSharedEnergy(n: int, e: real)
    requires n > 0
    ensures Times(Share(n), 0.0) + Times(PROX_LAMBDA, 0.0) == Times(Share(n), e) ==> e == 0.0
  {
    if e > 0.0 {
      PositiveProduct(Share(n), e);
    } else if e < 0.0 {
      PositiveProduct(Share(n), -e);
      assert Times(Share(n), -e) == -Times(Share(n), e);
    }
  }
}
