/** Sufficient statistics and the FedProx local solve
    (benchmarks/privacy_real_subjects.py, benchmarks/subject_erasure_suite.py).
    A model is a p-by-s matrix: p features, s subbands. */
module SuffStats {
  import opened Common
  import opened LinearAlgebra

  const PROX_LAMBDA: real := 2.0
  const PROX_ETA: real := 0.6

  /** One subject: its design row and its target row. */
  datatype Row = Row(d: Vec, t: Vec)

  predicate IsRows(rows: seq<Row>, p: nat, s: nat) {
    forall k :: 0 <= k < |rows| ==> |rows[k].d| == p && |rows[k].t| == s
  }

  /** The statistics (D'D, D'T, n) of one client. */
  datatype Stat = Stat(gram: Mat, cross: Mat, n: int)

  predicate IsStat(st: Stat, p: nat, s: nat) {
    IsMat(st.gram, p, p) && IsMat(st.cross, p, s)
  }

  /** The products that entry (i, j) of D'D sums over the subjects. */
  function GramTerms(rows: seq<Row>, p: nat, s: nat, i: nat, j: nat): (terms: seq<real>)
    requires IsRows(rows, p, s) && i < p && j < p
    ensures |terms| == |rows|
  {
    seq(|rows|, k requires 0 <= k < |rows| => Times(rows[k].d[i], rows[k].d[j]))
  }

  function CrossTerms(rows: seq<Row>, p: nat, s: nat, i: nat, c: nat): (terms: seq<real>)
    requires IsRows(rows, p, s) && i < p && c < s
    ensures |terms| == |rows|
  {
    seq(|rows|, k requires 0 <= k < |rows| => Times(rows[k].d[i], rows[k].t[c]))
  }

  function Gram(rows: seq<Row>, p: nat, s: nat): (m: Mat)
    requires IsRows(rows, p, s)
    ensures IsMat(m, p, p)
  {
    seq(p, i requires 0 <= i < p => seq(p, j requires 0 <= j < p => Sum(GramTerms(rows, p, s, i, j))))
  }

  function Cross(rows: seq<Row>, p: nat, s: nat): (m: Mat)
    requires IsRows(rows, p, s)
    ensures IsMat(m, p, s)
  {
    seq(p, i requires 0 <= i < p => seq(s, c requires 0 <= c < s => Sum(CrossTerms(rows, p, s, i, c))))
  }

  function StatOf(rows: seq<Row>, p: nat, s: nat): (st: Stat)
    requires IsRows(rows, p, s)
    ensures IsStat(st, p, s) && st.n == |rows|
  {
    Stat(Gram(rows, p, s), Cross(rows, p, s), |rows|)
  }

  const ONLY_SUBJECT := "cannot erase the only subject a client holds"

  /** Subtract one subject's rank-1 contribution from a client's statistics. */
  function Downdate(st: Stat, row: Row, p: nat, s: nat): (r: Result<Stat>)
    requires IsStat(st, p, s) && |row.d| == p && |row.t| == s
    ensures r.Ok? ==> IsStat(r.value, p, s)
  {
    if st.n <= 1 then Err(ONLY_SUBJECT)
    else Ok(Stat(MatMinus(st.gram, Outer(row.d, row.d), p, p),
                 MatMinus(st.cross, Outer(row.d, row.t), p, s),
                 st.n - 1))
  }

  function RemoveAt<T>(xs: seq<T>, k: nat): (r: seq<T>)
    requires k < |xs|
    ensures |r| == |xs| - 1
    ensures forall i :: 0 <= i < |r| ==> r[i] == if i < k then xs[i] else xs[i + 1]
  {
    xs[..k] + xs[k + 1..]
  }

  /** Entry (i, j) of either statistic loses exactly the removed subject's product. */
  lemma TermsLoseOne(rows: seq<Row>, k: nat, p: nat, s: nat)
    requires IsRows(rows, p, s) && k < |rows|
    ensures IsRows(RemoveAt(rows, k), p, s)
    ensures forall i, j :: 0 <= i < p && 0 <= j < p ==>
              Gram(RemoveAt(rows, k), p, s)[i][j] == Gram(rows, p, s)[i][j] - Times(rows[k].d[i], rows[k].d[j])
    ensures forall i, c :: 0 <= i < p && 0 <= c < s ==>
              Cross(RemoveAt(rows, k), p, s)[i][c] == Cross(rows, p, s)[i][c] - Times(rows[k].d[i], rows[k].t[c])
  {
    hide Times, Sum;
    var kept := RemoveAt(rows, k);
    forall i, j | 0 <= i < p && 0 <= j < p
      ensures Gram(kept, p, s)[i][j] == Gram(rows, p, s)[i][j] - Times(rows[k].d[i], rows[k].d[j])
    {
      var terms := GramTerms(rows, p, s, i, j);
      assert GramTerms(kept, p, s, i, j) == terms[..k] + terms[k + 1..];
      SumRemove(terms, k);
    }
    forall i, c | 0 <= i < p && 0 <= c < s
      ensures Cross(kept, p, s)[i][c] == Cross(rows, p, s)[i][c] - Times(rows[k].d[i], rows[k].t[c])
    {
      var terms := CrossTerms(rows, p, s, i, c);
      assert CrossTerms(kept, p, s, i, c) == terms[..k] + terms[k + 1..];
      SumRemove(terms, k);
    }
  }

  /** The rank-1 downdate is deletion: whatever subject of a client is removed, at any
      position, the downdated statistics are those of the remaining rows. */
  lemma DowndateIsDeletion(rows: seq<Row>, k: nat, p: nat, s: nat)
    requires IsRows(rows, p, s) && k < |rows| && |rows| > 1
    ensures IsRows(RemoveAt(rows, k), p, s)
    ensures Downdate(StatOf(rows, p, s), rows[k], p, s) == Ok(StatOf(RemoveAt(rows, k), p, s))
  {
    TermsLoseOne(rows, k, p, s);
    hide Times, Gram, Cross, RemoveAt;
    var kept := RemoveAt(rows, k);
    var down := Downdate(StatOf(rows, p, s), rows[k], p, s).value;
    SameMat(Gram(kept, p, s), down.gram, p, p);
    SameMat(Cross(kept, p, s), down.cross, p, s);
  }

  // ----- The forms the statistics stand for -----

  /** Sum over the subjects of (d.z)(d.u): the bilinear form of D'D. */
  function PairSum(rows: seq<Row>, p: nat, s: nat, z: Vec, u: Vec): real
    requires IsRows(rows, p, s) && |z| == |u| == p
  {
    if rows == [] then 0.0
    else
      var n := |rows| - 1;
      PairSum(rows[..n], p, s, z, u) + Times(Dot(rows[n].d, z), Dot(rows[n].d, u))
  }

  /** Sum over the subjects of (d.z) t[c]: the linear form of column c of D'T. */
  function TargetSum(rows: seq<Row>, p: nat, s: nat, z: Vec, c: nat): real
    requires IsRows(rows, p, s) && |z| == p && c < s
  {
    if rows == [] then 0.0
    else
      var n := |rows| - 1;
      TargetSum(rows[..n], p, s, z, c) + Times(Dot(rows[n].d, z), rows[n].t[c])
  }

  lemma LastRow(rows: seq<Row>, p: nat, s: nat)
    requires IsRows(rows, p, s) && rows != []
    ensures var n := |rows| - 1;
            IsRows(rows[..n], p, s) && |rows[n].d| == p && |rows[n].t| == s
    ensures forall i :: 0 <= i < p ==>
              Gram(rows, p, s)[i] == Add(Gram(rows[..|rows| - 1], p, s)[i], Scale(rows[|rows| - 1].d[i], rows[|rows| - 1].d))
    ensures forall c :: 0 <= c < s ==>
              Column(Cross(rows, p, s), p, s, c)
              == Add(Column(Cross(rows[..|rows| - 1], p, s), p, s, c), Scale(rows[|rows| - 1].t[c], rows[|rows| - 1].d))
  {
    hide Times;
    var n := |rows| - 1;
    TermsLoseOne(rows, n, p, s);
    assert RemoveAt(rows, n) == rows[..n];
    hide Gram, Cross, RemoveAt;
    forall i | 0 <= i < p
      ensures Gram(rows, p, s)[i] == Add(Gram(rows[..n], p, s)[i], Scale(rows[n].d[i], rows[n].d))
    {
    }
    forall c | 0 <= c < s
      ensures Column(Cross(rows, p, s), p, s, c)
           == Add(Column(Cross(rows[..n], p, s), p, s, c), Scale(rows[n].t[c], rows[n].d))
    {
      forall i | 0 <= i < p
        ensures Times(rows[n].d[i], rows[n].t[c]) == Times(rows[n].t[c], rows[n].d[i])
      {
        TimesLaws(rows[n].d[i], rows[n].t[c], 0.0);
      }
    }
  }

  lemma {:induction false} GramForm(rows: seq<Row>, p: nat, s: nat, z: Vec, u: Vec)
    requires IsRows(rows, p, s) && |z| == |u| == p
    ensures Dot(z, MatVec(Gram(rows, p, s), p, u)) == PairSum(rows, p, s, z, u)
  {
    hide Times;
    if rows == [] {
      NoRowsNoForm(rows, p, s, z, u);
    } else {
      var n := |rows| - 1;
      GramForm(rows[..n], p, s, z, u);
      GramFormStep(rows, p, s, z, u);
    }
  }

  lemma NoRowsNoForm(rows: seq<Row>, p: nat, s: nat, z: Vec, u: Vec)
    requires rows == [] && IsRows(rows, p, s) && |z| == |u| == p
    ensures Dot(z, MatVec(Gram(rows, p, s), p, u)) == 0.0
  {
    hide Times, Dot;
    forall i | 0 <= i < p
      ensures MatVec(Gram(rows, p, s), p, u)[i] == 0.0
    {
      assert Gram(rows, p, s)[i] == Zeros(p);
      DotZeros(u);
      DotCommutes(u, Zeros(p));
    }
    assert MatVec(Gram(rows, p, s), p, u) == Zeros(p);
    DotZeros(z);
  }

  lemma DotOfShifted(g: Vec, d: Vec, a: real, u: Vec)
    requires |g| == |d| == |u|
    ensures Dot(Add(g, Scale(a, d)), u) == Dot(g, u) + Times(Dot(d, u), a)
  {
    hide Times, Dot, Add, Scale;
    DotAdd(u, g, Scale(a, d));
    DotScale(u, a, d);
    DotCommutes(Add(g, Scale(a, d)), u);
    DotCommutes(g, u);
    DotCommutes(d, u);
    TimesLaws(a, Dot(d, u), 0.0);
  }

  lemma GramFormStep(rows: seq<Row>, p: nat, s: nat, z: Vec, u: Vec)
    requires IsRows(rows, p, s) && rows != [] && |z| == |u| == p
    ensures var n := |rows| - 1; var d := rows[n].d;
            Dot(z, MatVec(Gram(rows, p, s), p, u))
            == Dot(z, MatVec(Gram(rows[..n], p, s), p, u)) + Times(Dot(d, z), Dot(d, u))
  {
    var n := |rows| - 1;
    var d := rows[n].d;
    LastRow(rows, p, s);
    hide Times, Dot, Gram, Cross, Column, IsRows;
    var before := MatVec(Gram(rows[..n], p, s), p, u);
    ShiftedImage(Gram(rows[..n], p, s), Gram(rows, p, s), p, d, u);
    hide MatVec, Add, Scale, IsMat;
    DotAdd(z, before, Scale(Dot(d, u), d));
    DotScale(z, Dot(d, u), d);
    DotCommutes(z, d);
    TimesLaws(Dot(d, u), Dot(d, z), 0.0);
  }

  lemma ShiftedImage(g: Mat, h: Mat, p: nat, d: Vec, u: Vec)
    requires IsMat(g, p, p) && IsMat(h, p, p) && |d| == |u| == p
    requires forall i :: 0 <= i < p ==> h[i] == Add(g[i], Scale(d[i], d))
    ensures MatVec(h, p, u) == Add(MatVec(g, p, u), Scale(Dot(d, u), d))
  {
    hide Times, Dot;
    var left, right := MatVec(h, p, u), Add(MatVec(g, p, u), Scale(Dot(d, u), d));
    forall i | 0 <= i < p
      ensures left[i] == right[i]
    {
      DotOfShifted(g[i], d, d[i], u);
    }
  }

  lemma {:induction false} CrossForm(rows: seq<Row>, p: nat, s: nat, z: Vec, c: nat)
    requires IsRows(rows, p, s) && |z| == p && c < s
    ensures Dot(z, Column(Cross(rows, p, s), p, s, c)) == TargetSum(rows, p, s, z, c)
  {
    hide Times, Dot;
    var col := Column(Cross(rows, p, s), p, s, c);
    if rows == [] {
      assert col == Zeros(p);
      DotZeros(z);
    } else {
      var n := |rows| - 1;
      CrossForm(rows[..n], p, s, z, c);
      LastRow(rows, p, s);
      var before := Column(Cross(rows[..n], p, s), p, s, c);
      DotAdd(z, before, Scale(rows[n].t[c], rows[n].d));
      DotScale(z, rows[n].t[c], rows[n].d);
      DotCommutes(z, rows[n].d);
      TimesLaws(rows[n].t[c], Dot(rows[n].d, z), 0.0);
    }
  }

  lemma {:induction false} PairSumNonnegative(rows: seq<Row>, p: nat, s: nat, z: Vec)
    requires IsRows(rows, p, s) && |z| == p
    ensures PairSum(rows, p, s, z, z) >= 0.0
  {
    hide Times;
    if rows != [] {
      PairSumNonnegative(rows[..|rows| - 1], p, s, z);
      SquareLaws(Dot(rows[|rows| - 1].d, z));
    }
  }
}
