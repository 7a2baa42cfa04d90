/** Federations whose subjects carry the intercept alone: every local step has a closed form, for
    every solver and any number of features and subbands. They carry the counterexamples. */
module InterceptFederation {
  import opened Common
  import opened LinearAlgebra
  import opened SuffStats
  import opened LocalSolve
  import opened Federation

  /** The shipped model: five whitened position features and the intercept, six subbands. */
  const N_FEATURES: nat := 6
  const N_SUBBANDS: nat := 6

  /** A subject with the intercept, the last feature, as its only nonzero one. */
  function Subject(p: nat, target: Vec): Row
    requires p > 0
  {
    Row(Unit(p, p - 1), target)
  }

  predicate Intercepts(rows: seq<Row>, p: nat, s: nat) {
    p > 0 && forall k :: 0 <= k < |rows| ==> rows[k].d == Unit(p, p - 1) && |rows[k].t| == s
  }

  /** The model that is zero outside the intercept. */
  function RowMat(p: nat, v: Vec): (m: Mat)
    ensures IsMat(m, p, |v|)
  {
    seq(p, i requires 0 <= i < p => RowAt(p, v, i))
  }

  function RowAt(p: nat, v: Vec, i: nat): (row: Vec)
    ensures |row| == |v|
  {
    if i == p - 1 then v else Zeros(|v|)
  }

  function TargetsOf(rows: seq<Row>, p: nat, s: nat, c: nat): (ts: seq<real>)
    requires Intercepts(rows, p, s) && c < s
    ensures |ts| == |rows|
  {
    seq(|rows|, k requires 0 <= k < |rows| => rows[k].t[c])
  }

  /** A fifth of the way from the intercepts `w` to the client's mean targets. */
  function StepVec(rows: seq<Row>, p: nat, s: nat, w: Vec): (v: Vec)
    requires Intercepts(rows, p, s) && rows != [] && |w| == s
    ensures |v| == s
  {
    seq(s, c requires 0 <= c < s => (Mean(TargetsOf(rows, p, s, c)) - w[c]) / 5.0)
  }

  function Repeat(n: nat, x: real): (v: Vec)
    ensures |v| == n
  {
    seq(n, _ => x)
  }

  lemma {:induction false} SumOfRepeat(n: nat, x: real)
    ensures Sum(Repeat(n, x)) == Times(n as real, x)
  {
    if n > 0 {
      SumOfRepeat(n - 1, x);
      assert Repeat(n, x)[..n - 1] == Repeat(n - 1, x);
      assert (n as real) * x == ((n - 1) as real) * x + x;
    }
  }

  lemma InterceptGram(rows: seq<Row>, p: nat, s: nat, i: nat, j: nat)
    requires Intercepts(rows, p, s) && IsRows(rows, p, s) && i < p && j < p
    ensures Gram(rows, p, s)[i][j] == if i == j == p - 1 then |rows| as real else 0.0
  {
    var x := if i == j == p - 1 then 1.0 else 0.0;
    assert GramTerms(rows, p, s, i, j) == Repeat(|rows|, x);
    SumOfRepeat(|rows|, x);
  }

  lemma InterceptCross(rows: seq<Row>, p: nat, s: nat, i: nat, c: nat)
    requires Intercepts(rows, p, s) && IsRows(rows, p, s) && i < p && c < s
    ensures Cross(rows, p, s)[i][c] == if i == p - 1 then Sum(TargetsOf(rows, p, s, c)) else 0.0
  {
    if i == p - 1 {
      assert CrossTerms(rows, p, s, i, c) == TargetsOf(rows, p, s, c);
    } else {
      assert CrossTerms(rows, p, s, i, c) == Repeat(|rows|, 0.0);
      SumOfRepeat(|rows|, 0.0);
    }
  }

  /** A column of such a model, seen by a row of a matrix. */
  lemma DotWithColumn(row: Vec, p: nat, v: Vec, c: nat)
    requires |row| == p > 0 && c < |v|
    ensures Dot(row, Column(RowMat(p, v), p, |v|, c)) == Times(v[c], row[p - 1])
  {
    hide Times, Dot;
    var e := Unit(p, p - 1);
    TimesLaws(v[c], 0.0, 0.0);
    OneTimes(v[c]);
    var column := Column(RowMat(p, v), p, |v|, c);
    forall i | 0 <= i < p
      ensures column[i] == Scale(v[c], e)[i]
    {
      assert RowAt(p, v, i)[c] == if i == p - 1 then v[c] else 0.0;
    }
    assert column == Scale(v[c], e);
    DotScale(row, v[c], e);
    DotUnit(row, p - 1);
  }

  lemma InterceptHessian(rows: seq<Row>, p: nat, s: nat, i: nat)
    requires Intercepts(rows, p, s) && IsRows(rows, p, s) && rows != [] && i < p
    ensures Hessian(StatOf(rows, p, s), p, s)[i][p - 1] == if i == p - 1 then 3.0 else 0.0
  {
    InterceptGram(rows, p, s, i, p - 1);
    ShareOfAll(|rows|);
    hide Gram, Cross, Share;
    var h := Hessian(StatOf(rows, p, s), p, s);
    assert h[i][p - 1] == Times(Share(|rows|), Gram(rows, p, s)[i][p - 1]) + Times(PROX_LAMBDA, Unit(p, i)[p - 1]);
  }

  lemma ShareOfAll(n: nat)
    requires n > 0
    ensures Times(Share(n), n as real) == 1.0 && Times(Share(n), 0.0) == 0.0
  {
  }

  lemma InterceptGradient(rows: seq<Row>, p: nat, s: nat, w: Vec, i: nat, c: nat)
    requires Intercepts(rows, p, s) && IsRows(rows, p, s) && rows != [] && |w| == s && i < p && c < s
    ensures Gradient(RowMat(p, w), StatOf(rows, p, s), p, s)[i][c]
            == if i == p - 1 then w[c] - Mean(TargetsOf(rows, p, s, c)) else 0.0
  {
    InterceptGram(rows, p, s, i, p - 1);
    InterceptCross(rows, p, s, i, c);
    var g, n, sum := Gram(rows, p, s)[i], |rows|, Sum(TargetsOf(rows, p, s, c));
    DotWithColumn(g, p, w, c);
    hide Gram, Cross, Share, Dot, Times, Sum;
    assert Gradient(RowMat(p, w), StatOf(rows, p, s), p, s)[i][c]
        == Times(Share(n), Dot(g, Column(RowMat(p, w), p, s, c)) - Cross(rows, p, s)[i][c]);
    ShareOfAll(n);
    TimesLaws(w[c], 0.0, 0.0);
    ShareOfTotal(n, sum, w[c]);
  }

  lemma ShareOfTotal(n: nat, sum: real, w: real)
    requires n > 0
    ensures Times(Share(n), Times(w, n as real) - sum) == w - sum / (n as real)
  {
    var m := n as real;
    assert (1.0 / m) * (w * m - sum) == (w * m - sum) / m;
    assert (w * m) / m == w;
  }

  /** What the solver must return. */
  lemma InterceptSystem(rows: seq<Row>, p: nat, s: nat, w: Vec, v: Vec)
    requires Intercepts(rows, p, s) && IsRows(rows, p, s) && rows != [] && |w| == |v| == s
    requires forall c :: 0 <= c < s ==> 3.0 * v[c] == w[c] - Mean(TargetsOf(rows, p, s, c))
    ensures var st := StatOf(rows, p, s);
            MatMul(Hessian(st, p, s), RowMat(p, v), p, s) == Gradient(RowMat(p, w), st, p, s)
  {
    var st := StatOf(rows, p, s);
    var h, g := Hessian(st, p, s), Gradient(RowMat(p, w), st, p, s);
    var product := MatMul(h, RowMat(p, v), p, s);
    forall i, c | 0 <= i < p && 0 <= c < s
      ensures product[i][c] == g[i][c]
    {
      InterceptEntry(rows, p, s, w, v, i, c);
    }
    SameMat(product, g, p, s);
  }

  lemma InterceptEntry(rows: seq<Row>, p: nat, s: nat, w: Vec, v: Vec, i: nat, c: nat)
    requires Intercepts(rows, p, s) && IsRows(rows, p, s) && rows != [] && |w| == |v| == s && i < p && c < s
    requires 3.0 * v[c] == w[c] - Mean(TargetsOf(rows, p, s, c))
    ensures var st := StatOf(rows, p, s);
            MatMul(Hessian(st, p, s), RowMat(p, v), p, s)[i][c] == Gradient(RowMat(p, w), st, p, s)[i][c]
  {
    InterceptHessian(rows, p, s, i);
    InterceptGradient(rows, p, s, w, i, c);
    var st := StatOf(rows, p, s);
    hide Hessian, Gradient, StatOf, Dot, Mean, Column;
    DotWithColumn(Hessian(st, p, s)[i], p, v, c);
  }

  /** The upload, for every solver: a fifth of the way to the mean target, in every subband. */
  lemma InterceptStep(rows: seq<Row>, p: nat, s: nat, w: Vec, solve: Solver)
    requires Intercepts(rows, p, s) && IsRows(rows, p, s) && rows != [] && |w| == s && IsSolver(solve, p, s)
    ensures ProxUpdate(RowMat(p, w), StatOf(rows, p, s), solve, p, s) == Ok(RowMat(p, StepVec(rows, p, s, w)))
  {
    var st, v := StatOf(rows, p, s), Scale(-1.0 / PROX_ETA, StepVec(rows, p, s, w));
    forall c | 0 <= c < s
      ensures 3.0 * v[c] == w[c] - Mean(TargetsOf(rows, p, s, c))
      ensures Times(-PROX_ETA, v[c]) == StepVec(rows, p, s, w)[c]
    {
      EtaThird(w[c] - Mean(TargetsOf(rows, p, s, c)));
    }
    hide Mean, Hessian, Gradient, StatOf;
    InterceptSystem(rows, p, s, w, v);
    LocalStepSucceeds(RowMat(p, w), rows, solve, p, s);
    SystemIsWellPosed(rows, p, s);
    var h, g := Hessian(st, p, s), Gradient(RowMat(p, w), st, p, s);
    assert SolvesOne(solve, p, s, h, g);
    hide IsSolver, StepVec, Nonsingular;
    SameSolution(h, solve(h, g).value, RowMat(p, v), p, s);
    ScaledRowMat(-PROX_ETA, v, StepVec(rows, p, s, w), p);
  }

  lemma EtaThird(x: real)
    ensures var a := Times(-1.0 / PROX_ETA, -x / 5.0); 3.0 * a == x && Times(-PROX_ETA, a) == -x / 5.0
  {
    var a := Times(-1.0 / PROX_ETA, -x / 5.0);
    assert a == (-1.0 / 0.6) * (-x / 5.0);
    assert 1.0 / 0.6 == 5.0 / 3.0;
    assert a == x / 3.0;
  }

  lemma SameSolution(h: Mat, x: Mat, x': Mat, p: nat, s: nat)
    requires IsMat(h, p, p) && IsMat(x, p, s) && IsMat(x', p, s) && Nonsingular(h, p)
    requires MatMul(h, x, p, s) == MatMul(h, x', p, s)
    ensures x == x'
  {
    hide Nonsingular, MatVec, MatMul;
    forall c | 0 <= c < s
      ensures Column(x, p, s, c) == Column(x', p, s, c)
    {
      ColumnOfProduct(h, x, p, s, c);
      ColumnOfProduct(h, x', p, s, c);
      UniqueSolution(h, p, Column(x, p, s, c), Column(x', p, s, c));
    }
    SameColumns(x, x', p, s);
  }

  lemma ScaledRowMat(q: real, v: Vec, u: Vec, p: nat)
    requires |u| == |v| && forall c :: 0 <= c < |v| ==> Times(q, v[c]) == u[c]
    ensures MatScale(q, RowMat(p, v), p, |v|) == RowMat(p, u)
  {
    TimesLaws(q, 0.0, 0.0);
    hide Times;
    var left, right := MatScale(q, RowMat(p, v), p, |v|), RowMat(p, u);
    forall i, c | 0 <= i < p && 0 <= c < |v|
      ensures left[i][c] == right[i][c]
    {
      assert left[i][c] == Times(q, RowAt(p, v, i)[c]) && right[i][c] == RowAt(p, u, i)[c];
    }
    SameMat(left, right, p, |v|);
  }

  lemma ZeroModel(p: nat, s: nat)
    ensures RowMat(p, Zeros(s)) == ZeroMat(p, s)
  {
    SameMat(RowMat(p, Zeros(s)), ZeroMat(p, s), p, s);
  }

  // ----- Small clients -----

  lemma SumsOfFew(a: real, b: real, c: real)
    ensures Sum([a]) == a && Sum([a, b]) == a + b && Sum([a, b, c]) == a + b + c
  {
    assert [a][..0] == [];
    assert [a, b][..1] == [a];
    assert [a, b, c][..2] == [a, b];
  }

  /** From the zero model a client of one subject uploads a fifth of its target. */
  lemma StepOfOne(p: nat, s: nat, a: Vec, c: nat)
    requires p > 0 && |a| == s && c < s
    ensures Intercepts([Subject(p, a)], p, s)
    ensures StepVec([Subject(p, a)], p, s, Zeros(s))[c] == a[c] / 5.0
  {
    var rows := [Subject(p, a)];
    assert TargetsOf(rows, p, s, c) == [a[c]];
    SumsOfFew(a[c], 0.0, 0.0);
  }

  lemma StepOfTwo(p: nat, s: nat, a: Vec, b: Vec, c: nat)
    requires p > 0 && |a| == |b| == s && c < s
    ensures Intercepts([Subject(p, a), Subject(p, b)], p, s)
    ensures StepVec([Subject(p, a), Subject(p, b)], p, s, Zeros(s))[c] == (a[c] + b[c]) / 10.0
  {
    var rows := [Subject(p, a), Subject(p, b)];
    assert TargetsOf(rows, p, s, c) == [a[c], b[c]];
    SumsOfFew(a[c], b[c], 0.0);
  }

  /** The intercept entry of the upload. */
  lemma UploadAt(rows: seq<Row>, p: nat, s: nat, solve: Solver, c: nat)
    requires Intercepts(rows, p, s) && IsRows(rows, p, s) && rows != [] && IsSolver(solve, p, s) && c < s
    ensures var r := ProxUpdate(ZeroMat(p, s), StatOf(rows, p, s), solve, p, s);
            r.Ok? && r.value[p - 1][c] == StepVec(rows, p, s, Zeros(s))[c]
  {
    ZeroModel(p, s);
    InterceptStep(rows, p, s, Zeros(s), solve);
    hide ProxUpdate, StatOf, StepVec, ZeroMat;
  }
}
