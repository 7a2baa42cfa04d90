/** The closed-form FedProx step from sufficient statistics
    (benchmarks/privacy_real_subjects.py): it is always well defined, and it is
    the damped step towards the one minimiser of the local objective. */
module LocalSolve {
  import opened Common
  import opened LinearAlgebra
  import opened SuffStats

  const NO_SUBJECT := "a client must hold at least one subject"

  /** numpy's linear solver: it solves, and may refuse only a singular system. */
  type Solver = (Mat, Mat) -> Result<Mat>

  ghost predicate SolvesOne(solve: Solver, p: nat, s: nat, h: Mat, g: Mat)
    requires IsMat(h, p, p) && IsMat(g, p, s)
  {
    && (Nonsingular(h, p) ==> solve(h, g).Ok?)
    && (solve(h, g).Ok? ==>
          IsMat(solve(h, g).value, p, s) && MatMul(h, solve(h, g).value, p, s) == g)
  }

  ghost predicate IsSolver(solve: Solver, p: nat, s: nat) {
    forall h, g :: IsMat(h, p, p) && IsMat(g, p, s) ==> SolvesOne(solve, p, s, h, g)
  }

  function Share(n: int): real
    requires n > 0
  {
    1.0 / (n as real)
  }

  function Hessian(st: Stat, p: nat, s: nat): (h: Mat)
    requires IsStat(st, p, s) && st.n > 0
    ensures IsMat(h, p, p)
  {
    seq(p, i requires 0 <= i < p => Add(Scale(Share(st.n), st.gram[i]), Scale(PROX_LAMBDA, Unit(p, i))))
  }

  function Gradient(w: Mat, st: Stat, p: nat, s: nat): (g: Mat)
    requires IsMat(w, p, s) && IsStat(st, p, s) && st.n > 0
    ensures IsMat(g, p, s)
  {
    MatScale(Share(st.n), MatMinus(MatMul(st.gram, w, p, s), st.cross, p, s), p, s)
  }

  function ProxUpdate(w: Mat, st: Stat, solve: Solver, p: nat, s: nat): (r: Result<Mat>)
    requires IsMat(w, p, s) && IsStat(st, p, s) && IsSolver(solve, p, s)
    ensures r.Ok? ==> IsMat(r.value, p, s)
  {
    if st.n <= 0 then Err(NO_SUBJECT)
    else
      var h, g := Hessian(st, p, s), Gradient(w, st, p, s);
      assert SolvesOne(solve, p, s, h, g);
      match solve(h, g)
      case Err(e) => Err(e)
      case Ok(x) => Ok(MatScale(-PROX_ETA, x, p, s))
  }

  // ----- The system is well posed -----

  lemma HessianRow(st: Stat, p: nat, s: nat, u: Vec, i: nat)
    requires IsStat(st, p, s) && st.n > 0 && |u| == p && i < p
    ensures Dot(Hessian(st, p, s)[i], u) == Times(Share(st.n), Dot(st.gram[i], u)) + Times(PROX_LAMBDA, u[i])
  {
    hide Times, Dot, Add, Scale, Share;
    var g, e := Scale(Share(st.n), st.gram[i]), Scale(PROX_LAMBDA, Unit(p, i));
    DotCommutes(Add(g, e), u);
    DotAdd(u, g, e);
    DotScale(u, Share(st.n), st.gram[i]);
    DotScale(u, PROX_LAMBDA, Unit(p, i));
    DotCommutes(u, st.gram[i]);
    DotUnit(u, i);
  }

  lemma HessianVec(st: Stat, p: nat, s: nat, u: Vec)
    requires IsStat(st, p, s) && st.n > 0 && |u| == p
    ensures MatVec(Hessian(st, p, s), p, u) == Add(Scale(Share(st.n), MatVec(st.gram, p, u)), Scale(PROX_LAMBDA, u))
  {
    hide Times, Dot, Hessian, Share;
    var left := MatVec(Hessian(st, p, s), p, u);
    var right := Add(Scale(Share(st.n), MatVec(st.gram, p, u)), Scale(PROX_LAMBDA, u));
    forall i | 0 <= i < p
      ensures left[i] == right[i]
    {
      HessianRow(st, p, s, u, i);
    }
  }

  /** z.Hu in terms of the subjects. */
  lemma HessianForm(rows: seq<Row>, p: nat, s: nat, z: Vec, u: Vec)
    requires IsRows(rows, p, s) && rows != [] && |z| == |u| == p
    ensures Dot(z, MatVec(Hessian(StatOf(rows, p, s), p, s), p, u))
            == Times(Share(|rows|), PairSum(rows, p, s, z, u)) + Times(PROX_LAMBDA, Dot(z, u))
  {
    hide Times, Dot, Add, Scale, Share, Hessian, PairSum, Gram, MatVec;
    var st := StatOf(rows, p, s);
    HessianVec(st, p, s, u);
    DotAdd(z, Scale(Share(st.n), MatVec(st.gram, p, u)), Scale(PROX_LAMBDA, u));
    DotScale(z, Share(st.n), MatVec(st.gram, p, u));
    DotScale(z, PROX_LAMBDA, u);
    GramForm(rows, p, s, z, u);
  }

  lemma ShareKeepsSign(n: int, x: real)
    requires n > 0 && x >= 0.0
    ensures Times(Share(n), x) >= 0.0
  {
    if x > 0.0 {
      PositiveProduct(Share(n), x);
    }
  }

  /** The curvature is at least lambda in every direction. */
  lemma HessianDominates(rows: seq<Row>, p: nat, s: nat, z: Vec)
    requires IsRows(rows, p, s) && rows != [] && |z| == p
    ensures Dot(z, MatVec(Hessian(StatOf(rows, p, s), p, s), p, z)) >= Times(PROX_LAMBDA, Dot(z, z))
  {
    hide Times, Dot, Share, Hessian, PairSum, MatVec;
    HessianForm(rows, p, s, z, z);
    PairSumNonnegative(rows, p, s, z);
    ShareKeepsSign(|rows|, PairSum(rows, p, s, z, z));
  }

  lemma GramSymmetric(rows: seq<Row>, p: nat, s: nat)
    requires IsRows(rows, p, s)
    ensures Symmetric(Gram(rows, p, s), p)
  {
    hide Times, Sum;
    forall i, j | 0 <= i < p && 0 <= j < p
      ensures Gram(rows, p, s)[i][j] == Gram(rows, p, s)[j][i]
    {
      forall k | 0 <= k < |rows|
        ensures Times(rows[k].d[i], rows[k].d[j]) == Times(rows[k].d[j], rows[k].d[i])
      {
        TimesLaws(rows[k].d[i], rows[k].d[j], 0.0);
      }
      assert GramTerms(rows, p, s, i, j) == GramTerms(rows, p, s, j, i);
    }
  }

  lemma HessianSymmetric(rows: seq<Row>, p: nat, s: nat)
    requires IsRows(rows, p, s) && rows != []
    ensures Symmetric(Hessian(StatOf(rows, p, s), p, s), p)
  {
    hide Times, Gram, Cross, Share;
    GramSymmetric(rows, p, s);
    var h, g := Hessian(StatOf(rows, p, s), p, s), Gram(rows, p, s);
    forall i, j | 0 <= i < p && 0 <= j < p
      ensures h[i][j] == h[j][i]
    {
      assert g[i][j] == g[j][i];
    }
  }

  lemma HessianNonsingular(rows: seq<Row>, p: nat, s: nat)
    requires IsRows(rows, p, s) && rows != []
    ensures Nonsingular(Hessian(StatOf(rows, p, s), p, s), p)
  {
    hide Times, Dot, StatOf, Hessian, MatVec, Zeros;
    var h := Hessian(StatOf(rows, p, s), p, s);
    forall z: Vec | |z| == p && MatVec(h, p, z) == Zeros(p)
      ensures z == Zeros(p)
    {
      HessianDominates(rows, p, s, z);
      DotZeros(z);
      SquareNorm(z);
      PositiveMultiple(Dot(z, z));
    }
  }

  /** For the statistics of any n >= 1 subjects the matrix of the local system is
      symmetric and bounded below by lambda, so the system has exactly one solution. */
  lemma SystemIsWellPosed(rows: seq<Row>, p: nat, s: nat)
    requires IsRows(rows, p, s) && rows != []
    ensures var h := Hessian(StatOf(rows, p, s), p, s);
            && Symmetric(h, p)
            && Nonsingular(h, p)
            && forall z: Vec :: |z| == p ==> Dot(z, MatVec(h, p, z)) >= Times(PROX_LAMBDA, Dot(z, z))
  {
    hide Times, Dot, StatOf, Hessian, MatVec, Symmetric, Nonsingular;
    HessianSymmetric(rows, p, s);
    HessianNonsingular(rows, p, s);
    forall z: Vec | |z| == p
      ensures Dot(z, MatVec(Hessian(StatOf(rows, p, s), p, s), p, z)) >= Times(PROX_LAMBDA, Dot(z, z))
    {
      HessianDominates(rows, p, s, z);
    }
  }

  lemma PositiveMultiple(x: real)
    requires x >= 0.0
    ensures Times(PROX_LAMBDA, x) <= 0.0 ==> x == 0.0
  {
  }

  /** The solution is unique. */
  lemma UniqueSolution(h: Mat, p: nat, u: Vec, v: Vec)
    requires IsMat(h, p, p) && |u| == |v| == p && Nonsingular(h, p)
    requires MatVec(h, p, u) == MatVec(h, p, v)
    ensures u == v
  {
    hide Dot;
    var z := Minus(u, v);
    forall i | 0 <= i < p
      ensures MatVec(h, p, z)[i] == 0.0
    {
      DotMinus(h[i], u, v);
      assert MatVec(h, p, u)[i] == MatVec(h, p, v)[i];
    }
    assert MatVec(h, p, z) == Zeros(p);
    forall i | 0 <= i < p
      ensures u[i] == v[i]
    {
      assert z[i] == Zeros(p)[i];
    }
  }

  /** So the local step of a client with at least one subject never fails. */
  lemma LocalStepSucceeds(w: Mat, rows: seq<Row>, solve: Solver, p: nat, s: nat)
    requires IsMat(w, p, s) && IsRows(rows, p, s) && IsSolver(solve, p, s)
    ensures ProxUpdate(w, StatOf(rows, p, s), solve, p, s).Ok? <==> rows != []
  {
    if rows != [] {
      var st := StatOf(rows, p, s);
      SystemIsWellPosed(rows, p, s);
      hide Hessian, Gradient, StatOf, Nonsingular;
      assert SolvesOne(solve, p, s, Hessian(st, p, s), Gradient(w, st, p, s));
    }
  }

  // ----- What the step computes -----

  /** Sum over the subjects of the squared residuals of column c at v. */
  function Loss(rows: seq<Row>, p: nat, s: nat, v: Vec, c: nat): real
    requires IsRows(rows, p, s) && |v| == p && c < s
  {
    if rows == [] then 0.0
    else
      var n := |rows| - 1;
      var r := Dot(rows[n].d, v) - rows[n].t[c];
      Loss(rows[..n], p, s, v, c) + Times(r, r)
  }

  /** The proximal ridge objective of column c: half the mean squared residual plus
      half lambda times the squared distance from the global model. */
  function Objective(rows: seq<Row>, p: nat, s: nat, w: Vec, v: Vec, c: nat): real
    requires IsRows(rows, p, s) && rows != [] && |w| == |v| == p && c < s
  {
    Half(Times(Share(|rows|), Loss(rows, p, s, v, c)) + Times(PROX_LAMBDA, Dot(Minus(v, w), Minus(v, w))))
  }

  function Half(x: real): real {
    x / 2.0
  }

  function Twice(x: real): real {
    x + x
  }

  lemma SquareExpansion(a: real, b: real, t: real)
    ensures Times(a + b - t, a + b - t)
            == Times(a - t, a - t) + Twice(Times(b, a) - Times(b, t)) + Times(b, b)
  {
  }

  lemma {:induction false} LossOfSum(rows: seq<Row>, p: nat, s: nat, v: Vec, z: Vec, c: nat)
    requires IsRows(rows, p, s) && |v| == |z| == p && c < s
    ensures Loss(rows, p, s, Add(v, z), c)
            == Loss(rows, p, s, v, c)
               + Twice(PairSum(rows, p, s, z, v) - TargetSum(rows, p, s, z, c))
               + PairSum(rows, p, s, z, z)
  {
    hide Times, Dot, Add;
    if rows != [] {
      var n := |rows| - 1;
      LossOfSum(rows[..n], p, s, v, z, c);
      DotAdd(rows[n].d, v, z);
      SquareExpansion(Dot(rows[n].d, v), Dot(rows[n].d, z), rows[n].t[c]);
    }
  }

  lemma {:induction false} PairSumMinus(rows: seq<Row>, p: nat, s: nat, z: Vec, u: Vec, v: Vec)
    requires IsRows(rows, p, s) && |z| == |u| == |v| == p
    ensures PairSum(rows, p, s, z, Minus(u, v)) == PairSum(rows, p, s, z, u) - PairSum(rows, p, s, z, v)
  {
    hide Times, Dot, Minus;
    if rows != [] {
      var n := |rows| - 1;
      PairSumMinus(rows[..n], p, s, z, u, v);
      DotMinus(rows[n].d, u, v);
      TimesLaws(Dot(rows[n].d, z), Dot(rows[n].d, Minus(u, v)), Dot(rows[n].d, v));
    }
  }

  /** Column c of the solved system, read in the direction z. */
  lemma Stationary(rows: seq<Row>, p: nat, s: nat, w: Mat, x: Mat, z: Vec, c: nat)
    requires IsRows(rows, p, s) && rows != [] && IsMat(w, p, s) && IsMat(x, p, s) && |z| == p && c < s
    requires MatMul(Hessian(StatOf(rows, p, s), p, s), x, p, s) == Gradient(w, StatOf(rows, p, s), p, s)
    ensures var wc, xc := Column(w, p, s, c), Column(x, p, s, c);
            Times(Share(|rows|), PairSum(rows, p, s, z, xc)) + Times(PROX_LAMBDA, Dot(z, xc))
            == Times(Share(|rows|), PairSum(rows, p, s, z, wc) - TargetSum(rows, p, s, z, c))
  {
    hide Times, Dot, Share, Hessian, StatOf, Gradient, PairSum, TargetSum, MatVec, MatMul, Minus, Scale, Column;
    var h := Hessian(StatOf(rows, p, s), p, s);
    ColumnOfProduct(h, x, p, s, c);
    HessianForm(rows, p, s, z, Column(x, p, s, c));
    GradientForm(rows, p, s, w, z, c);
  }

  /** z.g for column c of the gradient. */
  lemma GradientForm(rows: seq<Row>, p: nat, s: nat, w: Mat, z: Vec, c: nat)
    requires IsRows(rows, p, s) && rows != [] && IsMat(w, p, s) && |z| == p && c < s
    ensures Dot(z, Column(Gradient(w, StatOf(rows, p, s), p, s), p, s, c))
            == Times(Share(|rows|), PairSum(rows, p, s, z, Column(w, p, s, c)) - TargetSum(rows, p, s, z, c))
  {
    hide Times, Dot, Share, Gradient, PairSum, TargetSum, MatVec, Gram, Cross, Minus, Scale, Column;
    var st, wc := StatOf(rows, p, s), Column(w, p, s, c);
    var slope, pull := MatVec(st.gram, p, wc), Column(st.cross, p, s, c);
    GradientColumn(st, p, s, w, c);
    DotScale(z, Share(|rows|), Minus(slope, pull));
    DotMinus(z, slope, pull);
    GramForm(rows, p, s, z, wc);
    CrossForm(rows, p, s, z, c);
  }

  lemma GradientColumn(st: Stat, p: nat, s: nat, w: Mat, c: nat)
    requires IsStat(st, p, s) && st.n > 0 && IsMat(w, p, s) && c < s
    ensures Column(Gradient(w, st, p, s), p, s, c)
            == Scale(Share(st.n), Minus(MatVec(st.gram, p, Column(w, p, s, c)), Column(st.cross, p, s, c)))
  {
    hide Times, Dot, Share;
    ColumnOfProduct(st.gram, w, p, s, c);
    var m := MatMul(st.gram, w, p, s);
    assert forall i :: 0 <= i < p ==> m[i][c] == Dot(st.gram[i], Column(w, p, s, c));
  }

  /** Half the curvature of the objective along z. */
  function Bend(rows: seq<Row>, p: nat, s: nat, z: Vec): real
    requires IsRows(rows, p, s) && rows != [] && |z| == p
  {
    Half(Times(Share(|rows|), PairSum(rows, p, s, z, z)) + Times(PROX_LAMBDA, Dot(z, z)))
  }

  /** The slope of the objective along z, at the model w - x. */
  function Slope(rows: seq<Row>, p: nat, s: nat, w: Vec, x: Vec, z: Vec, c: nat): real
    requires IsRows(rows, p, s) && rows != [] && |w| == |x| == |z| == p && c < s
  {
    Times(Share(|rows|), PairSum(rows, p, s, z, w) - TargetSum(rows, p, s, z, c))
    - Times(Share(|rows|), PairSum(rows, p, s, z, x)) - Times(PROX_LAMBDA, Dot(z, x))
  }

  lemma ObjectiveGap(rows: seq<Row>, p: nat, s: nat, w: Vec, x: Vec, z: Vec, c: nat)
    requires IsRows(rows, p, s) && rows != [] && |w| == |x| == |z| == p && c < s
    ensures Objective(rows, p, s, w, Add(Minus(w, x), z), c)
            == Objective(rows, p, s, w, Minus(w, x), c) + Bend(rows, p, s, z) + Slope(rows, p, s, w, x, z, c)
  {
    hide Times, Dot, Add, Minus, PairSum, TargetSum, Loss, Share, Half;
    var q, v := Share(|rows|), Minus(w, x);
    LossOfSum(rows, p, s, v, z, c);
    PairSumMinus(rows, p, s, z, w, x);
    ProximityGap(w, x, z);
    GapArithmetic(q, Loss(rows, p, s, v, c), PairSum(rows, p, s, z, w), PairSum(rows, p, s, z, x),
                  TargetSum(rows, p, s, z, c), PairSum(rows, p, s, z, z), Dot(Minus(v, w), Minus(v, w)),
                  Dot(z, x), Dot(z, z));
  }

  lemma ProximityGap(w: Vec, x: Vec, z: Vec)
    requires |w| == |x| == |z|
    ensures var v := Minus(w, x);
            Dot(Minus(Add(v, z), w), Minus(Add(v, z), w))
            == Dot(Minus(v, w), Minus(v, w)) - Twice(Dot(z, x)) + Dot(z, z)
  {
    hide Dot;
    var v := Minus(w, x);
    assert Minus(Add(v, z), w) == Add(Minus(v, w), z);
    assert Minus(v, w) == Minus(Zeros(|w|), x);
    SquareNormOfSum(Minus(v, w), z);
    DotMinus(z, Zeros(|w|), x);
    DotZeros(z);
  }

  lemma GapArithmetic(q: real, loss: real, zw: real, zx: real, zt: real, zz: real, near: real, dx: real, dz: real)
    ensures Half(Times(q, loss + Twice(zw - zx - zt) + zz) + Times(PROX_LAMBDA, near - Twice(dx) + dz))
            == Half(Times(q, loss) + Times(PROX_LAMBDA, near))
               + Half(Times(q, zz) + Times(PROX_LAMBDA, dz))
               + (Times(q, zw - zt) - Times(q, zx) - Times(PROX_LAMBDA, dx))
  {
    TimesLaws(q, loss, Twice(zw - zx - zt) + zz);
    TimesLaws(q, Twice(zw - zx - zt), zz);
    assert Times(q, Twice(zw - zx - zt)) == Twice(Times(q, zw - zt)) - Twice(Times(q, zx));
  }

  /** The model column the damped step aims at: the whole step would land there. */
  function Aim(w: Mat, u: Mat, p: nat, s: nat, c: nat): (v: Vec)
    requires IsMat(w, p, s) && IsMat(u, p, s) && c < s
    ensures |v| == p
  {
    Add(Column(w, p, s, c), Scale(1.0 / PROX_ETA, Column(u, p, s, c)))
  }

  lemma AimIsTheSolution(w: Mat, x: Mat, p: nat, s: nat, c: nat)
    requires IsMat(w, p, s) && IsMat(x, p, s) && c < s
    ensures Aim(w, MatScale(-PROX_ETA, x, p, s), p, s, c) == Minus(Column(w, p, s, c), Column(x, p, s, c))
  {
    forall i | 0 <= i < p
      ensures Times(1.0 / PROX_ETA, Times(-PROX_ETA, x[i][c])) == -x[i][c]
    {
    }
  }

  /** The upload is eta times the way from the global model to the one minimiser of the
      proximal ridge objective: column by column, any other model costs at least half
      lambda times its squared distance more. */
  lemma StepAimsAtTheMinimiser(w: Mat, rows: seq<Row>, solve: Solver, p: nat, s: nat, c: nat, v: Vec)
    requires IsMat(w, p, s) && IsRows(rows, p, s) && rows != [] && IsSolver(solve, p, s)
    requires c < s && |v| == p
    ensures var r := ProxUpdate(w, StatOf(rows, p, s), solve, p, s);
            r.Ok? &&
            var wc, best := Column(w, p, s, c), Aim(w, r.value, p, s, c);
            Objective(rows, p, s, wc, v, c)
            >= Objective(rows, p, s, wc, best, c) + Half(Times(PROX_LAMBDA, Dot(Minus(v, best), Minus(v, best))))
  {
    LocalStepSucceeds(w, rows, solve, p, s);
    var st := StatOf(rows, p, s);
    var h, g := Hessian(st, p, s), Gradient(w, st, p, s);
    assert SolvesOne(solve, p, s, h, g);
    hide Hessian, Gradient, IsSolver, StatOf, MatMul, MatScale, Times, Dot, PairSum, TargetSum, Objective, Share, Minus, Add, Column, Aim;
    var x := solve(h, g).value;
    AimIsTheSolution(w, x, p, s, c);
    var wc, xc := Column(w, p, s, c), Column(x, p, s, c);
    var z := Minus(v, Minus(wc, xc));
    BackToStart(v, Minus(wc, xc));
    Stationary(rows, p, s, w, x, z, c);
    ObjectiveGap(rows, p, s, wc, xc, z, c);
    PairSumNonnegative(rows, p, s, z);
    ShareKeepsSign(|rows|, PairSum(rows, p, s, z, z));
  }

  lemma BackToStart(v: Vec, u: Vec)
    requires |v| == |u|
    ensures Add(u, Minus(v, u)) == v
  {
  }
}
