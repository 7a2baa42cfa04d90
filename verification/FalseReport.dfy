/** What a falsified report does to one upload (benchmarks/federated_unlearning_suite.py:77-88): the
    liar answers as an honest client would to another global model, its intercept shifted in the
    falsified subband. So the lie is bounded, and it is never without effect. */
module FalseReport {
  import opened Common
  import opened LinearAlgebra
  import opened SuffStats
  import opened LocalSolve
  import opened Federation
  import opened StepResponse
  import opened MeanOfSteps
  import opened Unlearning

  /** The last design column is the intercept. */
  predicate HasIntercept(rows: seq<Row>, p: nat, s: nat) {
    IsRows(rows, p, s) && p > 0 && forall k :: 0 <= k < |rows| ==> rows[k].d[p - 1] == 1.0
  }

  /** By how much the attacker inflates each target. */
  function Inflation(attack: Attack): real
    requires attack.scale != 0.0
  {
    attack.boost / attack.scale
  }

  /** The global model, lower by the inflation in the intercept of the falsified subband. */
  function Lowered(w: Mat, b: real, p: nat, s: nat): (m: Mat)
    requires IsMat(w, p, s) && p > 0 && s > TARGET_SUBBAND
    ensures IsMat(m, p, s)
  {
    w[p - 1 := w[p - 1][TARGET_SUBBAND := w[p - 1][TARGET_SUBBAND] - b]]
  }

  lemma {:induction false} LieInCross(rows: seq<Row>, attack: Attack, p: nat, s: nat, i: nat)
    requires HasIntercept(rows, p, s) && s > TARGET_SUBBAND && attack.scale != 0.0 && i < p
    ensures Sum(CrossTerms(Falsified(rows, attack, p, s), p, s, i, TARGET_SUBBAND))
            == Sum(CrossTerms(rows, p, s, i, TARGET_SUBBAND)) + Times(Inflation(attack), Sum(GramTerms(rows, p, s, i, p - 1)))
  {
    hide Times;
    var b, lie := Inflation(attack), Falsified(rows, attack, p, s);
    if rows == [] {
      TimesLaws(b, 0.0, 0.0);
    } else {
      var n := |rows| - 1;
      LieInCross(rows[..n], attack, p, s, i);
      assert lie[..n] == Falsified(rows[..n], attack, p, s);
      assert CrossTerms(lie, p, s, i, TARGET_SUBBAND)[..n] == CrossTerms(lie[..n], p, s, i, TARGET_SUBBAND);
      assert CrossTerms(rows, p, s, i, TARGET_SUBBAND)[..n] == CrossTerms(rows[..n], p, s, i, TARGET_SUBBAND);
      assert GramTerms(rows, p, s, i, p - 1)[..n] == GramTerms(rows[..n], p, s, i, p - 1);
      LieInTerm(rows[n].d[i], rows[n].t[TARGET_SUBBAND], b, Sum(GramTerms(rows[..n], p, s, i, p - 1)));
    }
  }

  lemma LieInTerm(d: real, t: real, b: real, g: real)
    ensures Times(d, t + b) + Times(b, g) == Times(d, t) + Times(b, g + Times(d, 1.0))
  {
  }

  lemma LieKeepsOtherColumns(rows: seq<Row>, attack: Attack, p: nat, s: nat, i: nat)
    requires IsRows(rows, p, s) && s > TARGET_SUBBAND && attack.scale != 0.0 && i < p
    ensures forall c :: 0 <= c < s && c != TARGET_SUBBAND ==>
              Cross(Falsified(rows, attack, p, s), p, s)[i][c] == Cross(rows, p, s)[i][c]
    ensures forall j :: 0 <= j < p ==> Gram(Falsified(rows, attack, p, s), p, s)[i][j] == Gram(rows, p, s)[i][j]
  {
    hide Times, Sum;
    var lie := Falsified(rows, attack, p, s);
    forall c | 0 <= c < s && c != TARGET_SUBBAND
      ensures Cross(lie, p, s)[i][c] == Cross(rows, p, s)[i][c]
    {
      assert CrossTerms(lie, p, s, i, c) == CrossTerms(rows, p, s, i, c);
    }
    forall j | 0 <= j < p
      ensures Gram(lie, p, s)[i][j] == Gram(rows, p, s)[i][j]
    {
      assert GramTerms(lie, p, s, i, j) == GramTerms(rows, p, s, i, j);
    }
  }

  lemma LieKeepsGram(rows: seq<Row>, attack: Attack, p: nat, s: nat)
    requires IsRows(rows, p, s) && s > TARGET_SUBBAND && attack.scale != 0.0
    ensures Gram(Falsified(rows, attack, p, s), p, s) == Gram(rows, p, s)
  {
    hide Gram, Cross;
    forall i, j | 0 <= i < p && 0 <= j < p
      ensures Gram(Falsified(rows, attack, p, s), p, s)[i][j] == Gram(rows, p, s)[i][j]
    {
      LieKeepsOtherColumns(rows, attack, p, s, i);
    }
    SameMat(Gram(Falsified(rows, attack, p, s), p, s), Gram(rows, p, s), p, p);
  }

  lemma LoweredColumn(w: Mat, b: real, p: nat, s: nat, c: nat)
    requires IsMat(w, p, s) && p > 0 && s > TARGET_SUBBAND && c < s
    ensures Column(Lowered(w, b, p, s), p, s, c)
            == if c == TARGET_SUBBAND then Minus(Column(w, p, s, c), Scale(b, Unit(p, p - 1))) else Column(w, p, s, c)
  {
    TimesLaws(b, 0.0, 0.0);
    OneTimes(b);
    hide Times;
    var col := Column(Lowered(w, b, p, s), p, s, c);
    if c == TARGET_SUBBAND {
      assert col == Minus(Column(w, p, s, c), Scale(b, Unit(p, p - 1)));
    } else {
      assert col == Column(w, p, s, c);
    }
  }

  lemma LieInGradient(w: Mat, rows: seq<Row>, attack: Attack, p: nat, s: nat, i: nat, c: nat)
    requires IsMat(w, p, s) && HasIntercept(rows, p, s) && s > TARGET_SUBBAND && attack.scale != 0.0 && i < p && c < s
    ensures var lie, m := Falsified(rows, attack, p, s), Lowered(w, Inflation(attack), p, s);
            Dot(Gram(rows, p, s)[i], Column(m, p, s, c)) - Cross(rows, p, s)[i][c]
            == Dot(Gram(rows, p, s)[i], Column(w, p, s, c)) - Cross(lie, p, s)[i][c]
  {
    LoweredColumn(w, Inflation(attack), p, s, c);
    LieInCross(rows, attack, p, s, i);
    LieKeepsOtherColumns(rows, attack, p, s, i);
    var b, g, e := Inflation(attack), Gram(rows, p, s)[i], Unit(p, p - 1);
    hide Dot, Sum, Times, Scale, Minus, Inflation;
    if c == TARGET_SUBBAND {
      DotMinus(g, Column(w, p, s, c), Scale(b, e));
      DotScale(g, b, e);
      DotUnit(g, p - 1);
    }
  }

  /** The liar's upload is the honest client's upload from the lowered model, for every solver. */
  lemma LieIsALoweredModel(w: Mat, rows: seq<Row>, attack: Attack, solve: Solver, p: nat, s: nat)
    requires IsMat(w, p, s) && HasIntercept(rows, p, s) && s > TARGET_SUBBAND && attack.scale != 0.0 && IsSolver(solve, p, s)
    ensures ProxUpdate(w, StatOf(Falsified(rows, attack, p, s), p, s), solve, p, s)
            == ProxUpdate(Lowered(w, Inflation(attack), p, s), StatOf(rows, p, s), solve, p, s)
  {
    var lie, m := Falsified(rows, attack, p, s), Lowered(w, Inflation(attack), p, s);
    LieKeepsGram(rows, attack, p, s);
    hide Gram, Cross, Falsified, Lowered, Dot, Times, Share, Unit, Inflation;
    if rows != [] {
      var g, g' := Gradient(w, StatOf(lie, p, s), p, s), Gradient(m, StatOf(rows, p, s), p, s);
      forall i, c | 0 <= i < p && 0 <= c < s
        ensures g[i][c] == g'[i][c]
      {
        LieInGradient(w, rows, attack, p, s, i, c);
      }
      SameMat(g, g', p, s);
    }
    hide Gradient, IsSolver;
  }

  /** Against the truthful upload from the same model: the lie drags the intercept of its subband its
      own way, by at most eta times the inflation in Euclidean norm, and it moves the upload if and
      only if it is a lie. */
  lemma LieIsBoundedAndFelt(w: Mat, rows: seq<Row>, attack: Attack, solve: Solver, p: nat, s: nat)
    requires IsMat(w, p, s) && HasIntercept(rows, p, s) && rows != [] && s > TARGET_SUBBAND && attack.scale != 0.0
    requires IsSolver(solve, p, s)
    ensures var r, r' := ProxUpdate(w, StatOf(Falsified(rows, attack, p, s), p, s), solve, p, s),
                         ProxUpdate(w, StatOf(rows, p, s), solve, p, s);
            var b := Inflation(attack);
            && r.Ok? && r'.Ok?
            && var y := Response(r.value, r'.value, p, s, TARGET_SUBBAND);
            && Dot(y, y) <= Times(-b, y[p - 1]) <= Times(b, b)
            && (r.value == r'.value <==> attack.boost == 0.0)
  {
    var b, m := Inflation(attack), Lowered(w, Inflation(attack), p, s);
    LieIsALoweredModel(w, rows, attack, solve, p, s);
    LoweredGap(w, b, p, s);
    InflationIsALie(attack);
    hide Lowered, Falsified, ProxUpdate, StatOf, Answers, Response, Inflation, IsSolver, Dot, Times, Gap, Unseen;
    StepsAnswer(m, w, rows, solve, p, s, TARGET_SUBBAND);
    var u, u' := ProxUpdate(m, StatOf(rows, p, s), solve, p, s).value, ProxUpdate(w, StatOf(rows, p, s), solve, p, s).value;
    var delta, y := Gap(m, w, p, s, TARGET_SUBBAND), Response(u, u', p, s, TARGET_SUBBAND);
    AnswerBounds(rows, p, s, delta, y);
    AnswersNothingExactly(rows, p, s, delta, y);
    AlongTheIntercept(y, b, p);
    AlongTheIntercept(Scale(-b, Unit(p, p - 1)), b, p);
    InterceptSeesIt(rows, p, s, b);
    if b == 0.0 {
      LoweredByNothing(w, p, s);
    } else if u == u' {
      NoGapNoResponse(u, p, s, TARGET_SUBBAND);
    }
  }

  lemma InflationIsALie(attack: Attack)
    requires attack.scale != 0.0
    ensures Inflation(attack) == 0.0 <==> attack.boost == 0.0
  {
    assert Inflation(attack) * attack.scale == attack.boost;
  }

  lemma LoweredGap(w: Mat, b: real, p: nat, s: nat)
    requires IsMat(w, p, s) && p > 0 && s > TARGET_SUBBAND
    ensures Gap(Lowered(w, b, p, s), w, p, s, TARGET_SUBBAND) == Scale(-b, Unit(p, p - 1))
  {
    LoweredColumn(w, b, p, s, TARGET_SUBBAND);
    var left, right := Gap(Lowered(w, b, p, s), w, p, s, TARGET_SUBBAND), Scale(-b, Unit(p, p - 1));
    forall i | 0 <= i < p
      ensures left[i] == right[i]
    {
      Opposite(b, Unit(p, p - 1)[i]);
    }
  }

  lemma Opposite(b: real, x: real)
    ensures Times(-b, x) == -Times(b, x)
  {
  }

  lemma AlongTheIntercept(y: Vec, b: real, p: nat)
    requires |y| == p > 0
    ensures Dot(Scale(-b, Unit(p, p - 1)), y) == Times(-b, y[p - 1])
    ensures y == Scale(-b, Unit(p, p - 1)) ==> Times(-b, y[p - 1]) == Times(b, b)
  {
    var e := Unit(p, p - 1);
    DotCommutes(Scale(-b, e), y);
    DotScale(y, -b, e);
    DotUnit(y, p - 1);
  }

  lemma InterceptSeesIt(rows: seq<Row>, p: nat, s: nat, b: real)
    requires HasIntercept(rows, p, s) && rows != []
    ensures Unseen(rows, p, s, Scale(-b, Unit(p, p - 1))) ==> b == 0.0
  {
    var d := rows[0].d;
    DotScale(d, -b, Unit(p, p - 1));
    DotUnit(d, p - 1);
    hide Dot;
  }

  lemma LoweredByNothing(w: Mat, p: nat, s: nat)
    requires IsMat(w, p, s) && p > 0 && s > TARGET_SUBBAND
    ensures Lowered(w, 0.0, p, s) == w
  {
    SameMat(Lowered(w, 0.0, p, s), w, p, s);
  }

  lemma NoGapNoResponse(u: Mat, p: nat, s: nat, c: nat)
    requires IsMat(u, p, s) && c < s
    ensures Response(u, u, p, s, c) == Zeros(p)
  {
    var y := Response(u, u, p, s, c);
    forall i | 0 <= i < p
      ensures y[i] == 0.0
    {
      TimesLaws(-1.0 / PROX_ETA, 0.0, 0.0);
    }
  }
}
