/** Gaussian elimination: a solver with the contract that the models of numpy's linear
    solver assume, for every number of features and subbands. */
module Elimination {
  import opened Common
  import opened LinearAlgebra
  import opened SuffStats
  import opened LocalSolve

  const SINGULAR := "Singular matrix"

  /** The row whose last entry is the pivot, if there is one. */
  function Pivot(h: Mat, p: nat, n: nat): (r: Option<nat>)
    requires IsMat(h, p, p) && n <= p && p > 0
    ensures r.Some? ==> r.value < n && h[r.value][p - 1] != 0.0
    ensures r.None? ==> forall i :: 0 <= i < n ==> h[i][p - 1] == 0.0
  {
    if n == 0 then None
    else if h[n - 1][p - 1] != 0.0 then Some(n - 1)
    else Pivot(h, p, n - 1)
  }

  /** How much of the pivot row is taken from row `i`. */
  function Multiple(h: Mat, p: nat, r: nat, i: nat): real
    requires IsMat(h, p, p) && r < p && i < p && h[r][p - 1] != 0.0
  {
    h[i][p - 1] / h[r][p - 1]
  }

  function ReducedRow(h: Mat, p: nat, r: nat, i: nat): (row: Vec)
    requires IsMat(h, p, p) && r < p && i < p && h[r][p - 1] != 0.0
    ensures |row| == p - 1
  {
    Minus(h[i][..p - 1], Scale(Multiple(h, p, r, i), h[r][..p - 1]))
  }

  /** The rows other than `r`. */
  function Skip(r: nat, i: nat): nat {
    if i < r then i else i + 1
  }

  function Reduced(h: Mat, p: nat, r: nat): (m: Mat)
    requires IsMat(h, p, p) && r < p && h[r][p - 1] != 0.0
    ensures IsMat(m, p - 1, p - 1)
  {
    seq(p - 1, i requires 0 <= i < p - 1 => ReducedRow(h, p, r, Skip(r, i)))
  }

  function ReducedSide(h: Mat, g: Vec, p: nat, r: nat): (v: Vec)
    requires IsMat(h, p, p) && |g| == p && r < p && h[r][p - 1] != 0.0
    ensures |v| == p - 1
  {
    seq(p - 1, i requires 0 <= i < p - 1 => g[Skip(r, i)] - Times(Multiple(h, p, r, Skip(r, i)), g[r]))
  }

  /** Back substitution into the pivot row. */
  function Last(h: Mat, g: Vec, p: nat, r: nat, v: Vec): real
    requires IsMat(h, p, p) && |g| == p && r < p && h[r][p - 1] != 0.0 && |v| == p - 1
  {
    (g[r] - Dot(h[r][..p - 1], v)) / h[r][p - 1]
  }

  function Eliminate(h: Mat, g: Vec, p: nat): (x: Result<Vec>)
    requires IsMat(h, p, p) && |g| == p
    ensures x.Ok? ==> |x.value| == p
    decreases p
  {
    if p == 0 then Ok([])
    else
      match Pivot(h, p, p)
      case None => Err(SINGULAR)
      case Some(r) =>
        match Eliminate(Reduced(h, p, r), ReducedSide(h, g, p, r), p - 1)
        case Err(e) => Err(e)
        case Ok(v) => Ok(v + [Last(h, g, p, r, v)])
  }

  lemma DotSplit(row: Vec, v: Vec, x: real)
    requires |row| == |v| + 1
    ensures Dot(row, v + [x]) == Dot(row[..|v|], v) + Times(row[|v|], x)
  {
    assert (v + [x])[..|v|] == v;
  }

  /** Row `i` of the full system, once the last unknown is the one the pivot row gives. */
  lemma RowOfSystem(h: Mat, p: nat, r: nat, i: nat, v: Vec, g: Vec)
    requires IsMat(h, p, p) && p > 0 && r < p && i < p && h[r][p - 1] != 0.0 && |v| == p - 1 && |g| == p
    ensures var x := v + [Last(h, g, p, r, v)]; var m := Multiple(h, p, r, i);
            && Dot(h[r], x) == g[r]
            && Dot(h[i], x) == Dot(ReducedRow(h, p, r, i), v) + Times(m, g[r])
  {
    var last, m := Last(h, g, p, r, v), Multiple(h, p, r, i);
    var pivot, own := h[r][..p - 1], h[i][..p - 1];
    DotSplit(h[r], v, last);
    DotSplit(h[i], v, last);
    DotCommutes(ReducedRow(h, p, r, i), v);
    DotMinus(v, own, Scale(m, pivot));
    DotScale(v, m, pivot);
    DotCommutes(v, own);
    DotCommutes(v, pivot);
    hide Dot;
    PivotArithmetic(h[r][p - 1], h[i][p - 1], g[r], Dot(pivot, v));
  }

  lemma PivotArithmetic(pivot: real, own: real, g: real, d: real)
    requires pivot != 0.0
    ensures var last, m := (g - d) / pivot, own / pivot;
            && d + Times(pivot, last) == g
            && Times(own, last) == Times(m, g) - Times(m, d)
  {
    var last, m := (g - d) / pivot, own / pivot;
    assert pivot * last == g - d;
    assert own == m * pivot;
    assert own * last == m * (pivot * last);
  }

  /** What elimination returns solves the system. */
  lemma {:induction false} EliminateSolves(h: Mat, g: Vec, p: nat)
    requires IsMat(h, p, p) && |g| == p && Eliminate(h, g, p).Ok?
    ensures MatVec(h, p, Eliminate(h, g, p).value) == g
    decreases p
  {
    if p > 0 {
      var r := Pivot(h, p, p).value;
      var h', g' := Reduced(h, p, r), ReducedSide(h, g, p, r);
      var v := Eliminate(h', g', p - 1).value;
      EliminateSolves(h', g', p - 1);
      var x := Eliminate(h, g, p).value;
      hide Eliminate, Dot, Times, Multiple, Last, ReducedRow;
      forall i | 0 <= i < p
        ensures Dot(h[i], x) == g[i]
      {
        RowOfSystem(h, p, r, i, v, g);
        if i != r {
          var j := if i < r then i else i - 1;
          assert Skip(r, j) == i;
          assert MatVec(h', p - 1, v)[j] == g'[j];
        }
      }
    }
  }

  /** A nonsingular matrix has a pivot, and what is left after its elimination is nonsingular. */
  lemma ReductionIsNonsingular(h: Mat, p: nat)
    requires IsMat(h, p, p) && p > 0 && Nonsingular(h, p)
    ensures Pivot(h, p, p).Some?
    ensures Nonsingular(Reduced(h, p, Pivot(h, p, p).value), p - 1)
  {
    if Pivot(h, p, p).None? {
      NoPivotIsSingular(h, p);
    } else {
      var r := Pivot(h, p, p).value;
      forall v: Vec | |v| == p - 1 && MatVec(Reduced(h, p, r), p - 1, v) == Zeros(p - 1)
        ensures v == Zeros(p - 1)
      {
        KernelLifts(h, p, r, v);
      }
    }
  }

  lemma NoPivotIsSingular(h: Mat, p: nat)
    requires IsMat(h, p, p) && p > 0 && forall i :: 0 <= i < p ==> h[i][p - 1] == 0.0
    ensures !Nonsingular(h, p)
  {
    var e := Unit(p, p - 1);
    hide Dot;
    forall i | 0 <= i < p
      ensures Dot(h[i], e) == 0.0
    {
      DotUnit(h[i], p - 1);
    }
    assert MatVec(h, p, e) == Zeros(p);
    assert e[p - 1] == 1.0 && Zeros(p)[p - 1] == 0.0;
  }

  lemma KernelRow(h: Mat, p: nat, r: nat, v: Vec, i: nat)
    requires IsMat(h, p, p) && p > 0 && r < p && h[r][p - 1] != 0.0 && i < p
    requires |v| == p - 1 && MatVec(Reduced(h, p, r), p - 1, v) == Zeros(p - 1)
    ensures Dot(h[i], v + [Last(h, Zeros(p), p, r, v)]) == 0.0
  {
    hide Dot, Times, Multiple, Last, ReducedRow;
    RowOfSystem(h, p, r, i, v, Zeros(p));
    TimesLaws(Multiple(h, p, r, i), 0.0, 0.0);
    if i != r {
      var j := if i < r then i else i - 1;
      assert Skip(r, j) == i;
      assert MatVec(Reduced(h, p, r), p - 1, v)[j] == Zeros(p - 1)[j];
    }
  }

  lemma KernelLifts(h: Mat, p: nat, r: nat, v: Vec)
    requires IsMat(h, p, p) && p > 0 && Nonsingular(h, p) && r < p && h[r][p - 1] != 0.0
    requires |v| == p - 1 && MatVec(Reduced(h, p, r), p - 1, v) == Zeros(p - 1)
    ensures v == Zeros(p - 1)
  {
    hide Dot, Reduced, Last, Nonsingular, MatVec;
    var x := v + [Last(h, Zeros(p), p, r, v)];
    forall i | 0 <= i < p
      ensures Dot(h[i], x) == 0.0
    {
      KernelRow(h, p, r, v, i);
    }
    KernelIsZero(h, p, x);
    assert v == x[..p - 1] && Zeros(p)[..p - 1] == Zeros(p - 1);
  }

  lemma KernelIsZero(h: Mat, p: nat, x: Vec)
    requires IsMat(h, p, p) && Nonsingular(h, p) && |x| == p && forall i :: 0 <= i < p ==> Dot(h[i], x) == 0.0
    ensures x == Zeros(p)
  {
    hide Dot;
    assert MatVec(h, p, x) == Zeros(p);
  }

  /** Elimination never refuses a nonsingular matrix. */
  lemma {:induction false} EliminateSucceeds(h: Mat, g: Vec, p: nat)
    requires IsMat(h, p, p) && |g| == p && Nonsingular(h, p)
    ensures Eliminate(h, g, p).Ok?
    decreases p
  {
    hide Nonsingular, Reduced, ReducedSide, Pivot;
    if p > 0 {
      ReductionIsNonsingular(h, p);
      var r := Pivot(h, p, p).value;
      EliminateSucceeds(Reduced(h, p, r), ReducedSide(h, g, p, r), p - 1);
    }
  }

  // ----- The solver -----

  /** Solve for every column of the right-hand side; the first singular column is refused. */
  function SolveColumns(h: Mat, g: Mat, p: nat, s: nat, n: nat): (xs: Result<seq<Vec>>)
    requires IsMat(h, p, p) && IsMat(g, p, s) && n <= s
    ensures xs.Ok? ==> |xs.value| == n && forall c :: 0 <= c < n ==> Eliminate(h, Column(g, p, s, c), p) == Ok(xs.value[c])
  {
    if n == 0 then Ok([])
    else
      match SolveColumns(h, g, p, s, n - 1)
      case Err(e) => Err(e)
      case Ok(xs) =>
        match Eliminate(h, Column(g, p, s, n - 1), p)
        case Err(e) => Err(e)
        case Ok(x) => Ok(xs + [x])
  }

  function SolveAll(h: Mat, g: Mat, p: nat, s: nat): (r: Result<Mat>)
    requires IsMat(h, p, p) && IsMat(g, p, s)
    ensures r.Ok? ==> IsMat(r.value, p, s)
  {
    match SolveColumns(h, g, p, s, s)
    case Err(e) => Err(e)
    case Ok(xs) => Ok(Transposed(xs, p, s))
  }

  function Transposed(xs: seq<Vec>, p: nat, s: nat): (m: Mat)
    requires |xs| == s && forall c :: 0 <= c < s ==> |xs[c]| == p
    ensures IsMat(m, p, s)
    ensures forall c :: 0 <= c < s ==> Column(m, p, s, c) == xs[c]
  {
    seq(p, i requires 0 <= i < p => seq(s, c requires 0 <= c < s => xs[c][i]))
  }

  function GaussianSolver(p: nat, s: nat): Solver {
    (h, g) => if IsMat(h, p, p) && IsMat(g, p, s) then SolveAll(h, g, p, s) else Err(SINGULAR)
  }

  /** So solvers with the assumed contract exist: it solves, and refuses singular systems only. */
  lemma GaussianSolverIsSolver(p: nat, s: nat)
    ensures IsSolver(GaussianSolver(p, s), p, s)
  {
    forall h, g | IsMat(h, p, p) && IsMat(g, p, s)
      ensures SolvesOne(GaussianSolver(p, s), p, s, h, g)
    {
      SolveAllSolves(h, g, p, s);
    }
  }

  lemma SolveAllSolves(h: Mat, g: Mat, p: nat, s: nat)
    requires IsMat(h, p, p) && IsMat(g, p, s)
    ensures Nonsingular(h, p) ==> SolveAll(h, g, p, s).Ok?
    ensures SolveAll(h, g, p, s).Ok? ==> MatMul(h, SolveAll(h, g, p, s).value, p, s) == g
  {
    hide Eliminate, Nonsingular;
    if Nonsingular(h, p) {
      ColumnsSucceed(h, g, p, s, s);
    }
    if SolveAll(h, g, p, s).Ok? {
      var xs, m := SolveColumns(h, g, p, s, s).value, SolveAll(h, g, p, s).value;
      forall c | 0 <= c < s
        ensures Column(MatMul(h, m, p, s), p, s, c) == Column(g, p, s, c)
      {
        ColumnOfProduct(h, m, p, s, c);
        EliminateSolves(h, Column(g, p, s, c), p);
      }
      SameColumns(MatMul(h, m, p, s), g, p, s);
    }
  }

  lemma {:induction false} ColumnsSucceed(h: Mat, g: Mat, p: nat, s: nat, n: nat)
    requires IsMat(h, p, p) && IsMat(g, p, s) && n <= s && Nonsingular(h, p)
    ensures SolveColumns(h, g, p, s, n).Ok?
  {
    hide Eliminate, Nonsingular;
    if n > 0 {
      ColumnsSucceed(h, g, p, s, n - 1);
      EliminateSucceeds(h, Column(g, p, s, n - 1), p);
    }
  }
}
