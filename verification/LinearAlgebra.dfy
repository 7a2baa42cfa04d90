/** The little linear algebra the local learner needs, over exact reals. */
module LinearAlgebra {
  import opened Common

  type Vec = seq<real>

  /** A matrix is a sequence of rows. */
  type Mat = seq<Vec>

  predicate IsMat(m: Mat, p: nat, s: nat) {
    |m| == p && forall i :: 0 <= i < p ==> |m[i]| == s
  }

  /** The product under a name of its own, so that proofs about the shape of a sum can leave it alone. */
  function Times(x: real, y: real): real {
    x * y
  }

  lemma TimesLaws(x: real, y: real, z: real)
    ensures Times(x, y) == Times(y, x)
    ensures Times(x, y + z) == Times(x, y) + Times(x, z)
    ensures Times(x, Times(y, z)) == Times(Times(x, y), z)
    ensures Times(x, 0.0) == 0.0 && Times(x, -1.0) == -x
  {
  }

  lemma OneTimes(x: real)
    ensures Times(x, 1.0) == x
  {
  }

  lemma SquareLaws(x: real)
    ensures Times(x, x) >= 0.0
    ensures Times(x, x) == 0.0 ==> x == 0.0
  {
    if x < 0.0 {
      PositiveProduct(-x, -x);
      assert Times(-x, -x) == Times(x, x);
    } else if x > 0.0 {
      PositiveProduct(x, x);
    }
  }

  lemma PositiveProduct(x: real, y: real)
    requires x > 0.0 && y > 0.0
    ensures Times(x, y) > 0.0
  {
  }

  function Zeros(n: nat): (v: Vec)
    ensures |v| == n
  {
    seq(n, _ => 0.0)
  }

  function ZeroMat(p: nat, s: nat): (m: Mat)
    ensures IsMat(m, p, s)
  {
    seq(p, _ => Zeros(s))
  }

  function Unit(n: nat, i: nat): (v: Vec)
    ensures |v| == n
  {
    seq(n, j => if j == i then 1.0 else 0.0)
  }

  function Dot(u: Vec, v: Vec): real
    requires |u| == |v|
  {
    if u == [] then 0.0
    else
      var n := |u| - 1;
      Dot(u[..n], v[..n]) + Times(u[n], v[n])
  }

  function Add(u: Vec, v: Vec): (r: Vec)
    requires |u| == |v|
    ensures |r| == |u|
  {
    seq(|u|, i requires 0 <= i < |u| => u[i] + v[i])
  }

  function Scale(a: real, v: Vec): (r: Vec)
    ensures |r| == |v|
  {
    seq(|v|, i requires 0 <= i < |v| => Times(a, v[i]))
  }

  function Minus(u: Vec, v: Vec): (r: Vec)
    requires |u| == |v|
    ensures |r| == |u|
  {
    seq(|u|, i requires 0 <= i < |u| => u[i] - v[i])
  }

  function MatAdd(a: Mat, b: Mat, p: nat, s: nat): (r: Mat)
    requires IsMat(a, p, s) && IsMat(b, p, s)
    ensures IsMat(r, p, s)
  {
    seq(p, i requires 0 <= i < p => Add(a[i], b[i]))
  }

  function MatMinus(a: Mat, b: Mat, p: nat, s: nat): (r: Mat)
    requires IsMat(a, p, s) && IsMat(b, p, s)
    ensures IsMat(r, p, s)
  {
    seq(p, i requires 0 <= i < p => Minus(a[i], b[i]))
  }

  function MatScale(k: real, a: Mat, p: nat, s: nat): (r: Mat)
    requires IsMat(a, p, s)
    ensures IsMat(r, p, s)
  {
    seq(p, i requires 0 <= i < p => Scale(k, a[i]))
  }

  function Column(m: Mat, p: nat, s: nat, c: nat): (v: Vec)
    requires IsMat(m, p, s) && c < s
    ensures |v| == p
  {
    seq(p, i requires 0 <= i < p => m[i][c])
  }

  function MatVec(m: Mat, p: nat, v: Vec): (r: Vec)
    requires IsMat(m, p, |v|)
    ensures |r| == p
  {
    seq(p, i requires 0 <= i < p => Dot(m[i], v))
  }

  function MatMul(h: Mat, x: Mat, p: nat, s: nat): (r: Mat)
    requires IsMat(h, p, p) && IsMat(x, p, s)
    ensures IsMat(r, p, s)
  {
    seq(p, i requires 0 <= i < p => seq(s, c requires 0 <= c < s => Dot(h[i], Column(x, p, s, c))))
  }

  function Outer(u: Vec, v: Vec): (m: Mat)
    ensures IsMat(m, |u|, |v|)
  {
    seq(|u|, i requires 0 <= i < |u| => Scale(u[i], v))
  }

  ghost predicate Symmetric(m: Mat, p: nat) {
    IsMat(m, p, p) && forall i, j :: 0 <= i < p && 0 <= j < p ==> m[i][j] == m[j][i]
  }

  /** The homogeneous system has only the trivial solution. */
  ghost predicate Nonsingular(h: Mat, p: nat)
    requires IsMat(h, p, p)
  {
    forall v: Vec :: |v| == p && MatVec(h, p, v) == Zeros(p) ==> v == Zeros(p)
  }

  lemma SameMat(a: Mat, b: Mat, p: nat, s: nat)
    requires IsMat(a, p, s) && IsMat(b, p, s)
    requires forall i, j :: 0 <= i < p && 0 <= j < s ==> a[i][j] == b[i][j]
    ensures a == b
  {
    forall i | 0 <= i < p
      ensures a[i] == b[i]
    {
    }
  }

  lemma SameColumns(a: Mat, b: Mat, p: nat, s: nat)
    requires IsMat(a, p, s) && IsMat(b, p, s)
    requires forall c :: 0 <= c < s ==> Column(a, p, s, c) == Column(b, p, s, c)
    ensures a == b
  {
    forall i, c | 0 <= i < p && 0 <= c < s
      ensures a[i][c] == b[i][c]
    {
      assert Column(a, p, s, c)[i] == Column(b, p, s, c)[i];
    }
    SameMat(a, b, p, s);
  }

  lemma {:induction false} DotAdd(u: Vec, v: Vec, w: Vec)
    requires |u| == |v| == |w|
    ensures Dot(u, Add(v, w)) == Dot(u, v) + Dot(u, w)
  {
    hide Times;
    if u != [] {
      var n := |u| - 1;
      assert Add(v, w)[..n] == Add(v[..n], w[..n]);
      DotAdd(u[..n], v[..n], w[..n]);
      TimesLaws(u[n], v[n], w[n]);
    }
  }

  lemma {:induction false} DotScale(u: Vec, a: real, v: Vec)
    requires |u| == |v|
    ensures Dot(u, Scale(a, v)) == Times(a, Dot(u, v))
  {
    hide Times;
    if u == [] {
      TimesLaws(a, 0.0, 0.0);
    } else {
      var n := |u| - 1;
      assert Scale(a, v)[..n] == Scale(a, v[..n]);
      DotScale(u[..n], a, v[..n]);
      TimesLaws(u[n], a, v[n]);
      TimesLaws(a, u[n], v[n]);
      TimesLaws(a, Dot(u[..n], v[..n]), Times(u[n], v[n]));
    }
  }

  lemma {:induction false} DotCommutes(u: Vec, v: Vec)
    requires |u| == |v|
    ensures Dot(u, v) == Dot(v, u)
  {
    hide Times;
    if u != [] {
      var n := |u| - 1;
      DotCommutes(u[..n], v[..n]);
      TimesLaws(u[n], v[n], 0.0);
    }
  }

  lemma DotMinus(u: Vec, v: Vec, w: Vec)
    requires |u| == |v| == |w|
    ensures Dot(u, Minus(v, w)) == Dot(u, v) - Dot(u, w)
  {
    assert v == Add(Minus(v, w), w);
    DotAdd(u, Minus(v, w), w);
  }

  lemma {:induction false} DotZeros(u: Vec)
    ensures Dot(u, Zeros(|u|)) == 0.0
  {
    if u != [] {
      var n := |u| - 1;
      assert Zeros(|u|)[..n] == Zeros(n);
      DotZeros(u[..n]);
    }
  }

  /** Row i of the identity picks entry i out. */
  lemma {:induction false} DotUnit(u: Vec, i: nat)
    ensures Dot(u, Unit(|u|, i)) == if i < |u| then u[i] else 0.0
  {
    if u != [] {
      var n := |u| - 1;
      assert Unit(|u|, i)[..n] == Unit(n, i);
      DotUnit(u[..n], i);
    }
  }

  lemma {:induction false} SquareNorm(v: Vec)
    ensures Dot(v, v) >= 0.0
    ensures Dot(v, v) == 0.0 ==> v == Zeros(|v|)
  {
    hide Times;
    if v != [] {
      var n := |v| - 1;
      SquareNorm(v[..n]);
      SquareLaws(v[n]);
      assert v == v[..n] + [v[n]];
      assert Zeros(|v|) == Zeros(n) + [0.0];
    }
  }

  /** |v + z|^2 = |v|^2 + 2 z.v + |z|^2 */
  lemma SquareNormOfSum(v: Vec, z: Vec)
    requires |v| == |z|
    ensures Dot(Add(v, z), Add(v, z)) == Dot(v, v) + Dot(z, v) + Dot(z, v) + Dot(z, z)
  {
    hide Dot;
    DotAdd(Add(v, z), v, z);
    DotCommutes(Add(v, z), v);
    DotCommutes(Add(v, z), z);
    DotAdd(v, v, z);
    DotAdd(z, v, z);
    DotCommutes(v, z);
  }

  /** Columns of a product are products with columns. */
  lemma ColumnOfProduct(h: Mat, x: Mat, p: nat, s: nat, c: nat)
    requires IsMat(h, p, p) && IsMat(x, p, s) && c < s
    ensures Column(MatMul(h, x, p, s), p, s, c) == MatVec(h, p, Column(x, p, s, c))
  {
  }
}
