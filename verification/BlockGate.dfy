/** The gate on the streams it really sees, block errors of 0 and 1
    (benchmarks/neural_rx_pgd_benchmark.py): the sharp whole-run factor. */
module BlockGate {
  import opened Common
  import opened EnvelopeGate

  predicate IsBlockErrors(s: seq<real>) {
    forall t :: 0 <= t < |s| ==> s[t] == 0.0 || s[t] == 1.0
  }

  /** How many blocks are in error. */
  function Count(s: seq<real>): (n: nat)
    ensures n <= |s|
  {
    if s == [] then 0 else Count(s[..|s| - 1]) + if s[|s| - 1] == 1.0 then 1 else 0
  }

  lemma {:induction false} SumIsCount(s: seq<real>)
    requires IsBlockErrors(s)
    ensures Sum(s) == Count(s) as real
  {
    if s != [] {
      SumIsCount(s[..|s| - 1]);
    }
  }

  lemma {:induction false} CountConcat(a: seq<real>, b: seq<real>)
    ensures Count(a + b) == Count(a) + Count(b)
  {
    if b == [] {
      assert a + b == a;
    } else {
      var n := |b| - 1;
      assert (a + b)[..|a + b| - 1] == a + b[..n];
      CountConcat(a, b[..n]);
    }
  }

  lemma CountSplit(s: seq<real>, lo: nat, hi: nat)
    requires lo <= hi <= |s|
    ensures Count(s[..hi]) == Count(s[..lo]) + Count(s[lo..hi])
  {
    CountConcat(s[..lo], s[lo..hi]);
    assert s[..hi] == s[..lo] + s[lo..hi];
  }

  /** What the additive EPS gives or takes per block. */
  function Lift(alpha: real): real {
    (alpha - 1.0) * EPS
  }

  lemma LiftIsSlack(alpha: real)
    ensures SlackPerBlock(alpha) == MaxReal(0.0, Lift(alpha))
  {
  }

  /** The most neural errors the test admits beside `certified` ones in a window of `blocks`. */
  function Admitted(alpha: real, certified: nat, blocks: nat): int {
    (alpha * (certified as real) + Lift(alpha) * (blocks as real)).Floor
  }

  /** The envelope test on counts: with `certified` of `blocks` blocks in error, it admits
      every neural count up to a whole number of blocks and no more. */
  lemma EnvelopeInCounts(neural: nat, certified: nat, blocks: nat, alpha: real)
    requires blocks > 0
    ensures var m := blocks as real;
            Satisfied((certified as real) / m, (neural as real) / m, alpha)
            <==> neural <= Admitted(alpha, certified, blocks)
  {
    var m := blocks as real;
    var n, c := neural as real, certified as real;
    if Satisfied(c / m, n / m, alpha) {
      ScaleUp(n, c, m, alpha);
    }
    if n <= alpha * c + (alpha - 1.0) * EPS * m {
      ScaleDown(n, c, m, alpha);
    }
  }

  lemma ScaleDown(n: real, c: real, m: real, alpha: real)
    requires m > 0.0 && n <= alpha * c + (alpha - 1.0) * EPS * m
    ensures n / m + EPS <= alpha * (c / m + EPS)
  {
    var x, y := n / m, c / m;
    assert n == x * m && c == y * m;
    var gap := alpha * (y + EPS) - (x + EPS);
    assert gap * m == alpha * (y * m) + (alpha - 1.0) * EPS * m - x * m;
    assert gap < 0.0 ==> gap * m < 0.0;
  }

  /** The neural errors that `k` certified ones can buy in one window. */
  function Budget(window: nat, alpha: real, k: nat): (n: nat)
    requires alpha > 0.0
  {
    var x := alpha * (k as real) + SlackPerBlock(alpha) * ((window + 1) as real);
    assert alpha * (k as real) >= 0.0 && SlackPerBlock(alpha) * ((window + 1) as real) >= 0.0;
    x.Floor
  }

  lemma WithinBudget(window: nat, alpha: real, neural: nat, k: nat, blocks: nat)
    requires alpha > 0.0 && blocks <= window + 1
    requires neural as real <= alpha * (k as real) + SlackPerBlock(alpha) * (blocks as real)
    ensures neural <= Budget(window, alpha, k)
  {
    TimesMonotone(SlackPerBlock(alpha), blocks as real, (window + 1) as real);
  }

  /** An upper bound on what a window with `k` certified errors can be served with. */
  function PerWindow(window: nat, alpha: real, k: nat): (n: nat)
    requires alpha > 0.0
    ensures n <= window + 1 && n <= k + Budget(window, alpha, k)
  {
    Min(window + 1, k + Budget(window, alpha, k))
  }

  /** `served` errors are at most `factor` times `certified`. */
  ghost predicate AtMost(served: nat, factor: real, certified: nat) {
    served as real <= factor * (certified as real)
  }

  ghost predicate IsRatio(factor: real, served: nat, certified: nat) {
    served as real == factor * (certified as real)
  }

  lemma LargerFactor(small: real, large: real, served: nat, certified: nat)
    requires small <= large && AtMost(served, small, certified)
    ensures AtMost(served, large, certified)
  {
    TimesMonotone(certified as real, small, large);
  }

  /** Served errors per certified error in a window with `k` certified ones. */
  function Ratio(window: nat, alpha: real, k: nat): (f: real)
    requires alpha > 0.0 && k >= 1
    ensures IsRatio(f, PerWindow(window, alpha, k), k)
  {
    (PerWindow(window, alpha, k) as real) / (k as real)
  }

  ghost predicate CoversUpTo(window: nat, alpha: real, f: real, k: nat)
    requires alpha > 0.0
  {
    forall j :: 1 <= j <= k ==> AtMost(PerWindow(window, alpha, j), f, j)
  }

  lemma CoversOneMore(window: nat, alpha: real, before: real, f: real, k: nat)
    requires alpha > 0.0 && k >= 1 && CoversUpTo(window, alpha, before, k - 1)
    requires before <= f && Ratio(window, alpha, k) <= f
    ensures CoversUpTo(window, alpha, f, k)
  {
    hide PerWindow, AtMost, Ratio;
    forall j | 1 <= j <= k
      ensures AtMost(PerWindow(window, alpha, j), f, j)
    {
      if j < k {
        LargerFactor(before, f, PerWindow(window, alpha, j), j);
      } else {
        RatioIsAtMost(Ratio(window, alpha, k), PerWindow(window, alpha, k), k);
        LargerFactor(Ratio(window, alpha, k), f, PerWindow(window, alpha, k), k);
      }
    }
  }

  lemma RatioIsAtMost(f: real, served: nat, certified: nat)
    requires IsRatio(f, served, certified)
    ensures AtMost(served, f, certified)
  {
  }

  /** The largest bound per certified error over windows with 1 to `k` of them. */
  function FactorUpTo(window: nat, alpha: real, k: nat): (f: real)
    requires alpha > 0.0 && k >= 1
    ensures CoversUpTo(window, alpha, f, k)
    ensures exists j :: 1 <= j <= k && IsRatio(f, PerWindow(window, alpha, j), j)
  {
    hide PerWindow, AtMost, Ratio, IsRatio, CoversUpTo;
    var here := Ratio(window, alpha, k);
    if k == 1 then
      assert CoversUpTo(window, alpha, here, 1) by { CoversNothing(window, alpha, here); CoversOneMore(window, alpha, here, here, 1); }
      here
    else
      var before := FactorUpTo(window, alpha, k - 1);
      CoversOneMore(window, alpha, before, MaxReal(before, here), k);
      MaxReal(before, here)
  }

  lemma CoversNothing(window: nat, alpha: real, f: real)
    requires alpha > 0.0
    ensures CoversUpTo(window, alpha, f, 0)
  {
  }

  /** The factor of the gate on block errors: an upper bound, sharp when its `k` fits into one window
      with what it buys (SharpWhenItFits), and not always (FactorIsNotAlwaysReached). */
  function Factor(window: nat, alpha: real): (f: real)
    requires alpha > 0.0
    ensures CoversUpTo(window, alpha, f, window + 1)
    ensures exists j :: 1 <= j <= window + 1 && IsRatio(f, PerWindow(window, alpha, j), j)
  {
    FactorUpTo(window, alpha, window + 1)
  }

  // ----- The bound -----

  lemma {:induction false} CountOfEither(e: seq<real>, a: seq<real>, b: seq<real>)
    requires |e| == |a| == |b|
    requires forall t :: 0 <= t < |e| ==> e[t] == a[t] || e[t] == b[t]
    ensures Count(e) <= Count(a) + Count(b)
  {
    if e != [] {
      var n := |e| - 1;
      CountOfEither(e[..n], a[..n], b[..n]);
    }
  }

  /** The bound of an accepted window, kept as one fact. */
  predicate WithinSlack(alpha: real, n: real, c: real, blocks: nat) {
    n <= alpha * c + SlackPerBlock(alpha) * (blocks as real)
  }

  lemma AcceptedWithin(neural: seq<real>, classical: seq<real>, window: nat, alpha: real, t: nat)
    requires t < |neural| == |classical| && Accepts(neural, classical, window, alpha, t)
    ensures var lo := WindowStart(t, window);
            WithinSlack(alpha, Sum(neural[lo..t + 1]), Sum(classical[lo..t + 1]), t + 1 - lo)
  {
    hide Accepts;
    AcceptedWindow(neural, classical, window, alpha, t);
  }

  /** An accepted block certifies the neural count of its whole window. */
  lemma AcceptedCount(neural: seq<real>, classical: seq<real>, window: nat, alpha: real, t: nat)
    requires IsBlockErrors(neural) && IsBlockErrors(classical) && alpha > 0.0
    requires t < |neural| == |classical| && Accepts(neural, classical, window, alpha, t)
    ensures var lo := WindowStart(t, window);
            Count(neural[lo..t + 1]) <= Budget(window, alpha, Count(classical[lo..t + 1]))
  {
    hide Accepts, Budget, WithinSlack;
    var lo := WindowStart(t, window);
    AcceptedWithin(neural, classical, window, alpha, t);
    SumIsCount(neural[lo..t + 1]);
    SumIsCount(classical[lo..t + 1]);
    SumWithinBudget(window, alpha, Sum(neural[lo..t + 1]), Sum(classical[lo..t + 1]),
                    Count(neural[lo..t + 1]), Count(classical[lo..t + 1]), t + 1 - lo);
  }

  lemma SumWithinBudget(window: nat, alpha: real, n: real, c: real, neural: nat, k: nat, blocks: nat)
    requires alpha > 0.0 && blocks <= window + 1 && n == neural as real && c == k as real
    requires WithinSlack(alpha, n, c, blocks)
    ensures neural <= Budget(window, alpha, k)
  {
    WithinBudget(window, alpha, neural, k, blocks);
  }

  /** One certified window, or one block that fell back. */
  lemma ServedCount(neural: seq<real>, classical: seq<real>, window: nat, alpha: real, lo: nat, n: nat)
    requires 0 < n <= |neural| == |classical| && IsBlockErrors(neural) && IsBlockErrors(classical) && alpha > 0.0
    requires TooShortForSlack(alpha, window + 1) && lo == GateStart(neural, classical, window, alpha, n)
    ensures var eff := Routed(neural, classical, window, alpha, neural, classical, n);
            AtMost(Count(eff[lo..n]), Factor(window, alpha), Count(classical[lo..n]))
  {
    hide Accepts, Factor, Budget, TooShortForSlack, AtMost;
    var eff := Routed(neural, classical, window, alpha, neural, classical, n);
    var c := Count(classical[lo..n]);
    CountOfEither(eff[lo..n], neural[lo..n], classical[lo..n]);
    if Accepts(neural, classical, window, alpha, n - 1) {
      AcceptedCount(neural, classical, window, alpha, n - 1);
    } else {
      assert eff[lo..n] == classical[lo..n];
    }
    NoBudgetForNothing(window, alpha);
    FactorCovers(window, alpha, Count(eff[lo..n]), c);
  }

  lemma NoBudgetForNothing(window: nat, alpha: real)
    requires alpha > 0.0 && TooShortForSlack(alpha, window + 1)
    ensures Budget(window, alpha, 0) == 0
  {
    assert alpha * (0 as real) == 0.0;
  }

  lemma FactorCovers(window: nat, alpha: real, served: nat, c: nat)
    requires alpha > 0.0 && Budget(window, alpha, 0) == 0
    requires served <= window + 1 && c <= window + 1 && served <= c + Budget(window, alpha, c)
    ensures AtMost(served, Factor(window, alpha), c)
  {
    hide Factor, Budget;
    if c > 0 {
      assert served <= PerWindow(window, alpha, c);
      assert AtMost(PerWindow(window, alpha, c), Factor(window, alpha), c);
    } else {
      assert Factor(window, alpha) * (0 as real) == 0.0;
    }
  }

  lemma AddServed(f: real, e0: nat, c0: nat, e1: nat, c1: nat)
    requires AtMost(e0, f, c0) && AtMost(e1, f, c1)
    ensures AtMost(e0 + e1, f, c0 + c1)
  {
    assert f * ((c0 + c1) as real) == f * (c0 as real) + f * (c1 as real);
  }

  /** The whole-run bound on block errors of 0 and 1, without any slack: on every prefix of every
      run, however long, the served errors are at most Factor times the certified ones. */
  lemma {:induction false} GateBoundInBlocks(neural: seq<real>, classical: seq<real>, window: nat, alpha: real, n: nat)
    requires n <= |neural| == |classical| && IsBlockErrors(neural) && IsBlockErrors(classical) && alpha > 0.0
    requires TooShortForSlack(alpha, window + 1)
    ensures AtMost(Count(Routed(neural, classical, window, alpha, neural, classical, n)), Factor(window, alpha), Count(classical[..n]))
    decreases n
  {
    hide Factor, TooShortForSlack, GateStart, Accepts;
    if n == 0 {
      assert Factor(window, alpha) * (0 as real) == 0.0;
    } else {
      hide AtMost;
      var lo := GateStart(neural, classical, window, alpha, n);
      var eff := Routed(neural, classical, window, alpha, neural, classical, n);
      GateBoundInBlocks(neural, classical, window, alpha, lo);
      ServedCount(neural, classical, window, alpha, lo, n);
      assert eff[..lo] == Routed(neural, classical, window, alpha, neural, classical, lo) && eff[..n] == eff;
      CountSplit(eff, lo, n);
      CountSplit(classical, lo, n);
      AddServed(Factor(window, alpha), Count(eff[..lo]), Count(classical[..lo]), Count(eff[lo..n]), Count(classical[lo..n]));
    }
  }

  // ----- Nothing out of nothing -----

  predicate NoErrors(s: seq<real>) {
    forall t :: 0 <= t < |s| ==> s[t] == 0.0
  }

  /** A certified receiver without errors keeps the served stream without errors. */
  ghost predicate KeepsClean(window: nat, alpha: real, neural: seq<real>) {
    IsBlockErrors(neural) ==>
      var zeros := Zeros(|neural|);
      NoErrors(Routed(neural, zeros, window, alpha, neural, zeros, |neural|))
  }

  function Zeros(n: nat): (s: seq<real>)
    ensures |s| == n && NoErrors(s)
  {
    seq(n, _ => 0.0)
  }

  /** On runs of every length, a certified stream without errors is served without errors exactly
      when the slack of one full window does not add up to a block. */
  lemma NoErrorsOutOfNothing(window: nat, alpha: real)
    requires alpha > 0.0
    ensures (forall neural :: KeepsClean(window, alpha, neural)) <==> TooShortForSlack(alpha, window + 1)
  {
    if TooShortForSlack(alpha, window + 1) {
      forall neural
        ensures KeepsClean(window, alpha, neural)
      {
        if IsBlockErrors(neural) {
          ServedClean(neural, window, alpha);
        }
      }
    } else {
      LoneErrorServed(window, alpha);
      assert !KeepsClean(window, alpha, Zeros(window) + [1.0]);
    }
  }

  lemma ServedClean(neural: seq<real>, window: nat, alpha: real)
    requires IsBlockErrors(neural) && alpha > 0.0 && TooShortForSlack(alpha, window + 1)
    ensures var zeros := Zeros(|neural|);
            NoErrors(Routed(neural, zeros, window, alpha, neural, zeros, |neural|))
  {
    hide Accepts, Budget, TooShortForSlack;
    var zeros := Zeros(|neural|);
    forall t | 0 <= t < |neural| && Accepts(neural, zeros, window, alpha, t)
      ensures neural[t] == 0.0
    {
      var lo := WindowStart(t, window);
      AcceptedCount(neural, zeros, window, alpha, t);
      CountOfClean(zeros[lo..t + 1]);
      NoBudgetForNothing(window, alpha);
      assert neural[lo..t + 1][..t - lo] == neural[lo..t];
    }
  }

  lemma {:induction false} CountOfClean(s: seq<real>)
    requires NoErrors(s)
    ensures Count(s) == 0
  {
    if s != [] {
      CountOfClean(s[..|s| - 1]);
    }
  }

  /** With more slack than that, a lone neural error after a clean window is accepted and served. */
  lemma LoneErrorServed(window: nat, alpha: real)
    requires alpha > 0.0 && !TooShortForSlack(alpha, window + 1)
    ensures var neural, zeros := Zeros(window) + [1.0], Zeros(window + 1);
            Routed(neural, zeros, window, alpha, neural, zeros, window + 1)[window] == 1.0
  {
    var neural, zeros := Zeros(window) + [1.0], Zeros(window + 1);
    OneErrorFits(window, alpha);
    CountOfClean(Zeros(window));
    CountOfClean(zeros);
    assert neural[..window] == Zeros(window);
    SumIsCount(neural);
    SumIsCount(zeros);
    assert neural[0..window + 1] == neural && zeros[0..window + 1] == zeros;
    hide Satisfied, TooShortForSlack, Sum, Count;
    assert Accepts(neural, zeros, window, alpha, window);
  }

  lemma OneErrorFits(window: nat, alpha: real)
    requires alpha > 0.0 && !TooShortForSlack(alpha, window + 1)
    ensures var m := (window + 1) as real; Satisfied((0 as real) / m, (1 as real) / m, alpha)
  {
    SlackBuysOne(alpha, window + 1);
    hide Satisfied, Admitted, TooShortForSlack;
    EnvelopeInCounts(1, 0, window + 1, alpha);
  }

  lemma SlackBuysOne(alpha: real, blocks: nat)
    requires !TooShortForSlack(alpha, blocks)
    ensures Admitted(alpha, 0, blocks) >= 1
  {
    LiftIsSlack(alpha);
    assert SlackPerBlock(alpha) * (blocks as real) >= 1.0;
    LargeSlackIsLift(SlackPerBlock(alpha), Lift(alpha), blocks as real);
    hide SlackPerBlock, Lift;
    assert alpha * (0 as real) == 0.0;
  }

  lemma LargeSlackIsLift(slack: real, x: real, m: real)
    requires slack == MaxReal(0.0, x) && slack * m >= 1.0
    ensures x * m >= 1.0
  {
    assert slack == 0.0 ==> slack * m == 0.0;
  }

  // ----- The factor is reached -----

  /** A burst of more neural errors than `k` certified ones can buy; then, a window's reach after its
      start, `k` certified errors; then, as the burst leaves the window block by block, what they buy. */
  function BurstNeural(window: nat, bought: nat): seq<real>
    requires bought <= window
  {
    Ones(bought + 1) + Zeros(window + 1 - bought) + Ones(bought)
  }

  function BurstClassical(window: nat, bought: nat, k: nat): seq<real>
    requires k <= window + 1
  {
    Zeros(window + 1 - k) + Ones(k) + Zeros(bought + 1)
  }

  function Ones(n: nat): (s: seq<real>)
    ensures |s| == n && forall t :: 0 <= t < n ==> s[t] == 1.0
  {
    seq(n, _ => 1.0)
  }

  /** Between `lo` and `hi` the stream has its errors exactly at a..b-1. */
  ghost predicate ErrorsExactly(s: seq<real>, lo: nat, hi: nat, a: nat, b: nat)
    requires lo <= hi <= |s|
  {
    forall t :: lo <= t < hi ==> s[t] == if a <= t < b then 1.0 else 0.0
  }

  lemma {:induction false} CountInterval(s: seq<real>, lo: nat, hi: nat, a: nat, b: nat)
    requires lo <= hi <= |s| && ErrorsExactly(s, lo, hi, a, b)
    ensures Count(s[lo..hi]) == Max(0, Min(hi, b) - Max(lo, a))
    decreases hi
  {
    if lo < hi {
      CountInterval(s, lo, hi - 1, a, b);
      assert s[lo..hi][..hi - 1 - lo] == s[lo..hi - 1];
    }
  }

  /** What the gate decides on counts. */
  lemma AcceptsByCount(neural: seq<real>, classical: seq<real>, window: nat, alpha: real, t: nat)
    requires IsBlockErrors(neural) && IsBlockErrors(classical) && t < |neural| == |classical|
    ensures var lo := WindowStart(t, window);
            var n, c := Count(neural[lo..t + 1]), Count(classical[lo..t + 1]);
            Accepts(neural, classical, window, alpha, t)
            <==> n <= Admitted(alpha, c, t + 1 - lo)
  {
    hide Satisfied, Sum, Admitted;
    var lo := WindowStart(t, window);
    SumIsCount(neural[lo..t + 1]);
    SumIsCount(classical[lo..t + 1]);
    EnvelopeInCounts(Count(neural[lo..t + 1]), Count(classical[lo..t + 1]), t + 1 - lo, alpha);
  }

  /** More neural errors than the budget are refused, the budget itself is accepted by a full window. */
  lemma BudgetDecides(window: nat, alpha: real, k: nat, c: nat, blocks: nat)
    requires alpha >= 1.0 && c <= k && blocks <= window + 1
    ensures Admitted(alpha, c, blocks) <= Budget(window, alpha, k)
    ensures Admitted(alpha, k, window + 1) == Budget(window, alpha, k)
  {
    var slack := SlackPerBlock(alpha);
    assert Lift(alpha) >= 0.0;
    LiftIsSlack(alpha);
    hide SlackPerBlock, Lift;
    TimesMonotone(alpha, c as real, k as real);
    TimesMonotone(slack, blocks as real, (window + 1) as real);
  }

  lemma BudgetAtLeast(window: nat, alpha: real, k: nat)
    requires alpha >= 1.0
    ensures Budget(window, alpha, k) >= k
  {
    TimesMonotone(k as real, 1.0, alpha);
  }

  /** Where the run has its errors. */
  lemma BurstShape(window: nat, bought: nat, k: nat, lo: nat, hi: nat)
    requires 1 <= k && k + bought <= window && lo <= hi <= window + bought + 2
    ensures var n, c := BurstNeural(window, bought), BurstClassical(window, bought, k);
            && |n| == |c| == window + bought + 2 && IsBlockErrors(n) && IsBlockErrors(c)
            && ErrorsExactly(c, lo, hi, window + 1 - k, window + 1)
            && (hi <= window + 2 ==> ErrorsExactly(n, lo, hi, 0, bought + 1))
            && (lo > bought ==> ErrorsExactly(n, lo, hi, window + 2, window + bought + 2))
  {
  }

  /** The certified count in the window that ends at block `t`. */
  lemma BurstCertified(window: nat, bought: nat, k: nat, t: nat)
    requires 1 <= k <= bought && k + bought <= window && t < window + bought + 2
    ensures var c, lo := BurstClassical(window, bought, k), WindowStart(t, window);
            && |c| == window + bought + 2
            && (t <= bought ==> Count(c[lo..t + 1]) == 0)
            && (t <= window ==> Count(c[lo..t + 1]) <= k)
            && (t > window + 1 ==> Count(c[lo..t + 1]) == k)
  {
    var c, lo := BurstClassical(window, bought, k), WindowStart(t, window);
    BurstShape(window, bought, k, lo, t + 1);
    hide BurstNeural, BurstClassical, ErrorsExactly;
    CountInterval(c, lo, t + 1, window + 1 - k, window + 1);
  }

  lemma CountJoined(s: seq<real>, lo: nat, mid: nat, hi: nat)
    requires lo <= mid <= hi <= |s|
    ensures Count(s[lo..hi]) == Count(s[lo..mid]) + Count(s[mid..hi])
  {
    CountConcat(s[lo..mid], s[mid..hi]);
    assert s[lo..hi] == s[lo..mid] + s[mid..hi];
  }

  /** The neural count in the same window. */
  lemma BurstTried(window: nat, bought: nat, k: nat, t: nat)
    requires 1 <= k <= bought && k + bought <= window && t <= window
    ensures var n, lo := BurstNeural(window, bought), WindowStart(t, window);
            && |n| == window + bought + 2
            && (t <= bought ==> Count(n[lo..t + 1]) == t + 1)
            && (window + 1 - k <= t ==> Count(n[lo..t + 1]) == bought + 1)
  {
    var n, lo := BurstNeural(window, bought), WindowStart(t, window);
    BurstShape(window, bought, k, lo, t + 1);
    hide BurstNeural, BurstClassical, ErrorsExactly;
    CountInterval(n, lo, t + 1, 0, bought + 1);
  }

  /** Past the certified errors it stays at what they buy: one error of the burst leaves the window
      for each new one. */
  lemma BurstRefilled(window: nat, bought: nat, k: nat, t: nat)
    requires 1 <= k <= bought && k + bought <= window && window + 1 < t < window + bought + 2
    ensures var n, lo := BurstNeural(window, bought), t - window;
            |n| == window + bought + 2 && Count(n[lo..t + 1]) == bought
  {
    hide BurstNeural, BurstClassical;
    BurstLeaves(window, bought, k, t - window);
    BurstReturns(window, bought, k, t + 1);
    CountJoined(BurstNeural(window, bought), t - window, window + 2, t + 1);
  }

  lemma BurstLeaves(window: nat, bought: nat, k: nat, lo: nat)
    requires 1 <= k <= bought && k + bought <= window && lo <= bought + 1
    ensures var n := BurstNeural(window, bought);
            |n| == window + bought + 2 && Count(n[lo..window + 2]) == bought + 1 - lo
  {
    BurstShape(window, bought, k, lo, window + 2);
    hide BurstNeural, BurstClassical, ErrorsExactly;
    CountInterval(BurstNeural(window, bought), lo, window + 2, 0, bought + 1);
  }

  lemma BurstReturns(window: nat, bought: nat, k: nat, hi: nat)
    requires 1 <= k <= bought && k + bought <= window && window + 2 <= hi <= window + bought + 2
    ensures var n := BurstNeural(window, bought);
            |n| == window + bought + 2 && Count(n[window + 2..hi]) == hi - (window + 2)
  {
    BurstShape(window, bought, k, window + 2, hi);
    hide BurstNeural, BurstClassical, ErrorsExactly;
    CountInterval(BurstNeural(window, bought), window + 2, hi, window + 2, window + bought + 2);
  }

  /** The run's decisions: it falls back on the burst and on every certified error, and accepts the last blocks. */
  lemma BurstDecisions(window: nat, alpha: real, k: nat, t: nat)
    requires alpha >= 1.0 && k >= 1 && TooShortForSlack(alpha, window + 1)
    requires k + Budget(window, alpha, k) <= window
    requires t < window + Budget(window, alpha, k) + 2
    ensures var bought := Budget(window, alpha, k);
            var n, c := BurstNeural(window, bought), BurstClassical(window, bought, k);
            && |n| == |c| == window + bought + 2 && IsBlockErrors(n) && IsBlockErrors(c)
            && (t <= bought || window + 1 - k <= t <= window ==> !Accepts(n, c, window, alpha, t))
            && (t > window + 1 ==> Accepts(n, c, window, alpha, t))
  {
    var bought := Budget(window, alpha, k);
    var n, c, lo := BurstNeural(window, bought), BurstClassical(window, bought, k), WindowStart(t, window);
    BudgetAtLeast(window, alpha, k);
    BurstShape(window, bought, k, lo, t + 1);
    NoBudgetForNothing(window, alpha);
    hide Accepts, Budget, BurstNeural, BurstClassical, ErrorsExactly, IsBlockErrors, TooShortForSlack, Admitted;
    AcceptsByCount(n, c, window, alpha, t);
    BurstCertified(window, bought, k, t);
    if t <= window {
      BurstTried(window, bought, k, t);
    } else if t > window + 1 {
      BurstRefilled(window, bought, k, t);
    }
    if t <= bought {
      BudgetDecides(window, alpha, 0, 0, t + 1 - lo);
    } else if t <= window {
      BudgetDecides(window, alpha, k, Count(c[lo..t + 1]), t + 1 - lo);
    } else if t > window + 1 {
      BudgetDecides(window, alpha, k, k, window + 1);
    }
  }

  /** What the run is served with. */
  lemma BurstServed(window: nat, alpha: real, k: nat)
    requires alpha >= 1.0 && k >= 1 && TooShortForSlack(alpha, window + 1)
    requires k + Budget(window, alpha, k) <= window
    ensures var bought := Budget(window, alpha, k);
            var n, c, size := BurstNeural(window, bought), BurstClassical(window, bought, k), window + bought + 2;
            && |n| == |c| == size && IsBlockErrors(n) && IsBlockErrors(c)
            && var eff := Routed(n, c, window, alpha, n, c, size);
            && ErrorsExactly(eff, 0, window + 1, window + 1 - k, window + 1)
            && ErrorsExactly(eff, window + 1, size, window + 2, size)
  {
    hide Accepts, Budget, TooShortForSlack;
    var bought := Budget(window, alpha, k);
    var n, c, size := BurstNeural(window, bought), BurstClassical(window, bought, k), window + bought + 2;
    BurstDecisions(window, alpha, k, 0);
    BurstShape(window, bought, k, 0, size);
    BurstShape(window, bought, k, 0, window + 1);
    BurstShape(window, bought, k, bought + 1, size);
    hide BurstNeural, BurstClassical;
    var eff := Routed(n, c, window, alpha, n, c, size);
    forall t | 0 <= t < size
      ensures eff[t] == if window + 1 - k <= t < window + 1 || t >= window + 2 then 1.0 else 0.0
    {
      BurstDecisions(window, alpha, k, t);
    }
  }

  lemma CountTwoIntervals(s: seq<real>, cut: nat, a: nat, b: nat, c: nat, d: nat)
    requires a <= b <= cut <= c <= d <= |s|
    requires ErrorsExactly(s, 0, cut, a, b) && ErrorsExactly(s, cut, |s|, c, d)
    ensures Count(s) == b - a + d - c
  {
    hide ErrorsExactly;
    CountInterval(s, 0, cut, a, b);
    CountInterval(s, cut, |s|, c, d);
    CountSplit(s, cut, |s|);
    assert s[0..cut] == s[..cut] && s[..|s|] == s;
  }

  lemma BurstCertifiedInAll(window: nat, bought: nat, k: nat)
    requires 1 <= k && k + bought <= window
    ensures Count(BurstClassical(window, bought, k)) == k
  {
    var c := BurstClassical(window, bought, k);
    BurstShape(window, bought, k, 0, |c|);
    CountInterval(c, 0, |c|, window + 1 - k, window + 1);
    assert c[0..|c|] == c;
  }

  /** The factor is reached by runs of 0 and 1: `k` certified errors, and every neural error they
      buy, are all served, whenever they fit into one window together. */
  lemma GateBoundIsReached(window: nat, alpha: real, k: nat)
    requires alpha >= 1.0 && k >= 1 && TooShortForSlack(alpha, window + 1)
    requires k + Budget(window, alpha, k) <= window
    ensures var bought := Budget(window, alpha, k);
            var n, c := BurstNeural(window, bought), BurstClassical(window, bought, k);
            var size := window + bought + 2;
            && |n| == |c| == size && IsBlockErrors(n) && IsBlockErrors(c)
            && Count(c) == k
            && Count(Routed(n, c, window, alpha, n, c, size)) == k + bought
  {
    var bought := Budget(window, alpha, k);
    BurstServed(window, alpha, k);
    BurstCertifiedInAll(window, bought, k);
    BurstServedCount(window, alpha, k);
    hide *;
  }

  lemma BurstServedCount(window: nat, alpha: real, k: nat)
    requires alpha >= 1.0 && k >= 1 && TooShortForSlack(alpha, window + 1)
    requires k + Budget(window, alpha, k) <= window
    ensures var bought := Budget(window, alpha, k);
            var n, c, size := BurstNeural(window, bought), BurstClassical(window, bought, k), window + bought + 2;
            |n| == |c| == size && Count(Routed(n, c, window, alpha, n, c, size)) == k + bought
  {
    hide Accepts, Budget, TooShortForSlack, BurstNeural, BurstClassical, Routed, ErrorsExactly, IsBlockErrors, SlackPerBlock;
    BurstServed(window, alpha, k);
    var bought := Budget(window, alpha, k);
    var n, c, size := BurstNeural(window, bought), BurstClassical(window, bought, k), window + bought + 2;
    CountTwoIntervals(Routed(n, c, window, alpha, n, c, size), window + 1, window + 1 - k, window + 1, window + 2, size);
  }

  // ----- Sharpness -----

  /** The factor is `f`, and a run reaches it. */
  ghost predicate IsSharp(window: nat, alpha: real, f: real)
    requires alpha > 0.0
  {
    Factor(window, alpha) == f &&
    exists neural: seq<real>, classical: seq<real> :: Reaches(neural, classical, window, alpha, f)
  }

  ghost predicate Reaches(neural: seq<real>, classical: seq<real>, window: nat, alpha: real, f: real) {
    && |neural| == |classical| && IsBlockErrors(neural) && IsBlockErrors(classical) && Count(classical) > 0
    && IsRatio(f, Count(Routed(neural, classical, window, alpha, neural, classical, |neural|)), Count(classical))
  }

  /** A factor that no window exceeds and one small window attains is sharp. */
  lemma SharpAt(window: nat, alpha: real, f: real, k: nat)
    requires alpha >= 1.0 && 1 <= k && TooShortForSlack(alpha, window + 1)
    requires k + Budget(window, alpha, k) <= window
    requires CoversUpTo(window, alpha, f, window + 1) && IsRatio(f, k + Budget(window, alpha, k), k)
    ensures IsSharp(window, alpha, f)
  {
    hide Budget, TooShortForSlack, Accepts;
    var bought := Budget(window, alpha, k);
    var n, c, size := BurstNeural(window, bought), BurstClassical(window, bought, k), window + bought + 2;
    GateBoundIsReached(window, alpha, k);
    hide BurstNeural, BurstClassical, Routed, Factor;
    assert Reaches(n, c, window, alpha, f);
    var best := Factor(window, alpha);
    var j :| 1 <= j <= window + 1 && IsRatio(best, PerWindow(window, alpha, j), j);
    assert AtMost(PerWindow(window, alpha, j), f, j) && AtMost(PerWindow(window, alpha, k), best, k);
    SameFactor(best, f, PerWindow(window, alpha, j), j, PerWindow(window, alpha, k), k);
  }

  /** The factor is sharp when a number of certified errors that attains it fits into one window
      together with what it buys. */
  lemma SharpWhenItFits(window: nat, alpha: real, k: nat)
    requires alpha >= 1.0 && 1 <= k && TooShortForSlack(alpha, window + 1)
    requires k + Budget(window, alpha, k) <= window
    requires IsRatio(Factor(window, alpha), PerWindow(window, alpha, k), k)
    ensures IsSharp(window, alpha, Factor(window, alpha))
  {
    hide Factor, Budget, TooShortForSlack;
    SharpAt(window, alpha, Factor(window, alpha), k);
  }

  lemma SameFactor(best: real, f: real, served: nat, j: nat, reached: nat, k: nat)
    requires j > 0 && k > 0
    requires IsRatio(best, served, j) && AtMost(served, f, j)
    requires IsRatio(f, reached, k) && AtMost(reached, best, k)
    ensures best == f
  {
    Cancel(best, f, j as real);
    Cancel(f, best, k as real);
  }

  lemma Cancel(x: real, y: real, k: real)
    requires k > 0.0 && x * k <= y * k
    ensures x <= y
  {
    assert x > y ==> (x - y) * k > 0.0;
  }

  /** With one block of history and a tolerance of 5/4, a window of two blocks admits as many neural
      errors as it has certified ones. */
  lemma AdmittedInTwo(certified: nat, blocks: nat)
    requires certified <= 2 && 1 <= blocks <= 2
    ensures Admitted(1.25, certified, blocks) == certified
  {
    var x := 1.25 * (certified as real) + Lift(1.25) * (blocks as real);
    assert certified as real <= x < certified as real + 1.0;
  }

  lemma CountOfTwo(s: seq<real>, t: nat)
    requires IsBlockErrors(s) && t < |s|
    ensures Count(s[WindowStart(t, 1)..t + 1]) as real == s[t] + if t > 0 then s[t - 1] else 0.0
  {
    var lo := WindowStart(t, 1);
    CountLast(s, lo, t);
    if t > 0 {
      CountLast(s, lo, t - 1);
      assert s[lo..lo] == [];
    }
  }

  lemma CountLast(s: seq<real>, lo: nat, t: nat)
    requires IsBlockErrors(s) && lo <= t < |s|
    ensures Count(s[lo..t + 1]) as real == Count(s[lo..t]) as real + s[t]
  {
    assert s[lo..t + 1][..t - lo] == s[lo..t];
  }

  /** So every served error has a certified one of its own, and an unspent one is left over when the
      last block has a certified error only. */
  lemma {:induction false} OneForOne(neural: seq<real>, classical: seq<real>, n: nat)
    requires n <= |neural| == |classical| && IsBlockErrors(neural) && IsBlockErrors(classical)
    ensures var eff := Routed(neural, classical, 1, 1.25, neural, classical, n);
            Count(eff) + (if n > 0 && classical[n - 1] == 1.0 && neural[n - 1] == 0.0 then 1 else 0) <= Count(classical[..n])
    decreases n
  {
    hide Accepts;
    if n > 0 {
      var t := n - 1;
      var eff := Routed(neural, classical, 1, 1.25, neural, classical, n);
      OneForOne(neural, classical, t);
      assert eff[..t] == Routed(neural, classical, 1, 1.25, neural, classical, t);
      assert classical[..n][..t] == classical[..t];
      DecidedByTwo(neural, classical, t);
      hide Routed;
      Leftover(neural[t], classical[t], if t > 0 then neural[t - 1] else 0.0, if t > 0 then classical[t - 1] else 0.0, eff[t]);
    }
  }

  /** What one decision does to the balance of served and certified errors. */
  lemma Leftover(n: real, c: real, n0: real, c0: real, e: real)
    requires (n == 0.0 || n == 1.0) && (c == 0.0 || c == 1.0) && (n0 == 0.0 || n0 == 1.0) && (c0 == 0.0 || c0 == 1.0)
    requires e == if n + n0 <= c + c0 then n else c
    ensures e <= c || (e == 1.0 && c0 == 1.0 && n0 == 0.0)
    ensures c == 1.0 && n == 0.0 ==> e == 0.0
  {
  }

  lemma DecidedByTwo(neural: seq<real>, classical: seq<real>, t: nat)
    requires t < |neural| == |classical| && IsBlockErrors(neural) && IsBlockErrors(classical)
    ensures Accepts(neural, classical, 1, 1.25, t)
            <==> neural[t] + (if t > 0 then neural[t - 1] else 0.0) <= classical[t] + (if t > 0 then classical[t - 1] else 0.0)
  {
    hide Accepts, Count, Admitted;
    AcceptsByCount(neural, classical, 1, 1.25, t);
    CountOfTwo(neural, t);
    CountOfTwo(classical, t);
    AdmittedInTwo(Count(classical[WindowStart(t, 1)..t + 1]), t + 1 - WindowStart(t, 1));
  }

  /** The factor is not always reached: at window 1 and a tolerance of 5/4 it is 2, and no run is
      served with more errors than the certified receiver makes. */
  lemma FactorIsNotAlwaysReached()
    ensures Factor(1, 1.25) == 2.0 && !IsSharp(1, 1.25, 2.0)
  {
    SmallBudgets();
    var f := Factor(1, 1.25);
    assert AtMost(PerWindow(1, 1.25, 1), f, 1);
    var j :| 1 <= j <= 2 && IsRatio(f, PerWindow(1, 1.25, j), j);
    hide Factor, Budget, Accepts, PerWindow;
    forall neural: seq<real>, classical: seq<real>
      ensures !Reaches(neural, classical, 1, 1.25, 2.0)
    {
      if |neural| == |classical| && IsBlockErrors(neural) && IsBlockErrors(classical) {
        NoMoreThanOneForOne(neural, classical);
      }
    }
  }

  lemma NoMoreThanOneForOne(neural: seq<real>, classical: seq<real>)
    requires |neural| == |classical| && IsBlockErrors(neural) && IsBlockErrors(classical)
    ensures Count(Routed(neural, classical, 1, 1.25, neural, classical, |neural|)) <= Count(classical)
  {
    hide Accepts;
    OneForOne(neural, classical, |neural|);
    assert classical[..|neural|] == classical;
  }

  lemma SmallBudgets()
    ensures PerWindow(1, 1.25, 1) == 2 && PerWindow(1, 1.25, 2) == 2
  {
    assert SlackPerBlock(1.25) * (2 as real) < 0.1;
    assert 1.25 * (1 as real) == 1.25 && 1.25 * (2 as real) == 2.5;
  }

  /** A tolerance in decibels and its factor. */
  ghost predicate IsTolerance(log10: real -> real, toleranceDb: real, alpha: real) {
    IsLog10(log10) && log10(10.0) == 1.0 && alpha > 0.0 && 10.0 * log10(alpha) == toleranceDb
  }

  lemma LogOrder(log10: real -> real, x: real, y: real)
    requires IsLog10(log10) && x > 0.0 && y > 0.0
    ensures log10(x) < log10(y) <==> x < y
  {
    assert x > y ==> log10(y) < log10(x);
  }

  /** Products rounded down or up. */
  lemma LogRounded(log10: real -> real, x: real, y: real, low: real, high: real)
    requires IsLog10(log10) && x > 0.0 && y > 0.0 && 0.0 < low < x * y < high
    ensures log10(low) < log10(x) + log10(y) < log10(high)
  {
    assert log10(x * y) == log10(x) + log10(y);
  }

  /** 1.25^10 < 10 < 1.26^10 */
  lemma OneDecibel(log10: real -> real, alpha: real)
    requires IsTolerance(log10, 1.0, alpha)
    ensures 1.25 < alpha < 1.26
  {
    hide IsLog10;
    LogRounded(log10, 1.25, 1.25, 1.0, 1.563);
    LogRounded(log10, 1.563, 1.563, 1.0, 2.443);
    LogRounded(log10, 2.443, 2.443, 1.0, 5.969);
    LogRounded(log10, 5.969, 1.563, 1.0, 10.0);
    LogOrder(log10, 1.25, alpha);
    LogRounded(log10, 1.26, 1.26, 1.587, 2.0);
    LogRounded(log10, 1.587, 1.587, 2.518, 3.0);
    LogRounded(log10, 2.518, 2.518, 6.34, 7.0);
    LogRounded(log10, 6.34, 1.587, 10.0, 11.0);
    LogOrder(log10, alpha, 1.26);
  }

  /** At the shipped tolerance of 1 dB, where alpha = 1.2589..., and the shipped window of 20 blocks
      the sharp factor is 9/4: four certified errors can be served with nine. */
  lemma SharpAtOneDecibel(log10: real -> real, alpha: real)
    requires IsTolerance(log10, 1.0, alpha)
    ensures IsSharp(20, alpha, 2.25)
  {
    OneDecibel(log10, alpha);
    hide Factor, Budget, IsLog10;
    TinySlack(alpha);
    forall j | 1 <= j <= 21
      ensures AtMost(PerWindow(20, alpha, j), 2.25, j)
    {
      BudgetBelow(alpha, j, 1.26);
      FiveForFour(Budget(20, alpha, j), j);
    }
    BudgetBelow(alpha, 4, 1.26);
    FiveForFour(Budget(20, alpha, 4), 4);
    BudgetAbove(alpha, 4, 5);
    SharpAt(20, alpha, 2.25, 4);
  }

  lemma FiveForFour(n: nat, k: nat)
    requires k <= 21 && (n as real) < 1.26 * (k as real) + 0.001
    ensures 4 * n <= 5 * k
  {
  }

  /** At the shipped tolerance of 0.5 dB, where alpha = 1.1220..., it is 19/9: nine certified errors
      can be served with nineteen. */
  lemma SharpAtHalfADecibel(log10: real -> real, alpha: real)
    requires IsTolerance(log10, 0.5, alpha)
    ensures IsSharp(20, alpha, 19.0 / 9.0)
  {
    HalfADecibel(log10, alpha);
    hide Factor, Budget, IsLog10;
    TinySlack(alpha);
    forall j | 1 <= j <= 21
      ensures AtMost(PerWindow(20, alpha, j), 19.0 / 9.0, j)
    {
      BudgetBelow(alpha, j, 1.123);
      NineteenForNine(Budget(20, alpha, j), PerWindow(20, alpha, j), j);
    }
    BudgetBelow(alpha, 9, 1.123);
    TenForNine(Budget(20, alpha, 9));
    BudgetAbove(alpha, 9, 10);
    SharpAt(20, alpha, 19.0 / 9.0, 9);
  }

  lemma TenForNine(n: nat)
    requires (n as real) < 1.123 * (9 as real) + 0.001
    ensures n <= 10
  {
  }

  /** Fewer than nine certified errors buy no more than themselves; more than nine do not fit into
      the window with what they buy. */
  lemma NineteenForNine(n: nat, served: nat, k: nat)
    requires 1 <= k <= 21 && (n as real) < 1.123 * (k as real) + 0.001 && served <= k + n && served <= 21
    ensures AtMost(served, 19.0 / 9.0, k)
  {
    assert k <= 8 ==> n <= k;
    assert k == 9 ==> n <= 10;
    assert 9 * served <= 19 * k;
    assert (9 * served) as real <= (19 * k) as real;
  }

  /** 1.12^20 < 10 < 1.123^20 */
  lemma HalfADecibel(log10: real -> real, alpha: real)
    requires IsTolerance(log10, 0.5, alpha)
    ensures 1.12 < alpha < 1.123
  {
    hide IsLog10;
    LogRounded(log10, 1.12, 1.12, 1.0, 1.2545);
    LogRounded(log10, 1.2545, 1.2545, 1.0, 1.5738);
    LogRounded(log10, 1.5738, 1.5738, 1.0, 2.4769);
    LogRounded(log10, 2.4769, 2.4769, 1.0, 6.1351);
    LogRounded(log10, 6.1351, 1.5738, 1.0, 10.0);
    LogOrder(log10, 1.12, alpha);
    LogRounded(log10, 1.123, 1.123, 1.2611, 2.0);
    LogRounded(log10, 1.2611, 1.2611, 1.5903, 2.0);
    LogRounded(log10, 1.5903, 1.5903, 2.529, 3.0);
    LogRounded(log10, 2.529, 2.529, 6.3958, 7.0);
    LogRounded(log10, 6.3958, 1.5903, 10.0, 11.0);
    LogOrder(log10, alpha, 1.123);
  }

  /** At the shipped tolerance of 0.2 dB, where alpha = 1.0471..., it is 2. */
  lemma SharpAtAFifthOfADecibel(log10: real -> real, alpha: real)
    requires IsTolerance(log10, 0.2, alpha)
    ensures IsSharp(20, alpha, 2.0)
  {
    AFifthOfADecibel(log10, alpha);
    hide Factor, Budget, IsLog10;
    TinySlack(alpha);
    forall j | 1 <= j <= 21
      ensures AtMost(PerWindow(20, alpha, j), 2.0, j)
    {
      BudgetBelow(alpha, j, 1.0475);
      NoMoreThanCertified(Budget(20, alpha, j), j);
    }
    BudgetBelow(alpha, 1, 1.0475);
    NoMoreThanCertified(Budget(20, alpha, 1), 1);
    BudgetAbove(alpha, 1, 1);
    SharpAt(20, alpha, 2.0, 1);
  }

  /** 10 < 1.0475^50 */
  lemma AFifthOfADecibel(log10: real -> real, alpha: real)
    requires IsTolerance(log10, 0.2, alpha)
    ensures 1.0 < alpha < 1.0475
  {
    hide IsLog10;
    LogOfOne(log10);
    LogOrder(log10, 1.0, alpha);
    LogRounded(log10, 1.0475, 1.0475, 1.0972, 2.0);
    LogRounded(log10, 1.0972, 1.0972, 1.2038, 2.0);
    LogRounded(log10, 1.2038, 1.2038, 1.4491, 2.0);
    LogRounded(log10, 1.4491, 1.4491, 2.0998, 3.0);
    LogRounded(log10, 2.0998, 2.0998, 4.409, 5.0);
    LogRounded(log10, 4.409, 2.0998, 9.2578, 10.0);
    LogRounded(log10, 9.2578, 1.0972, 10.0, 11.0);
    LogOrder(log10, alpha, 1.0475);
  }

  lemma LogOfOne(log10: real -> real)
    requires IsLog10(log10)
    ensures log10(1.0) == 0.0
  {
    assert log10(1.0 * 1.0) == log10(1.0) + log10(1.0);
  }

  lemma NoMoreThanCertified(n: nat, k: nat)
    requires k <= 21 && (n as real) < 1.0475 * (k as real) + 0.001
    ensures n <= k
  {
  }

  lemma TinySlack(alpha: real)
    requires 1.0 <= alpha <= 1.26
    ensures SlackPerBlock(alpha) * (21 as real) < 0.001 && TooShortForSlack(alpha, 21)
  {
  }

  lemma BudgetBelow(alpha: real, k: nat, top: real)
    requires 1.0 <= alpha <= top <= 1.26
    ensures (Budget(20, alpha, k) as real) < top * (k as real) + 0.001
  {
    TinySlack(alpha);
    TimesMonotone(k as real, alpha, top);
  }

  lemma BudgetAbove(alpha: real, k: nat, n: nat)
    requires alpha >= 1.0 && alpha * (k as real) >= n as real
    ensures Budget(20, alpha, k) >= n
  {
    assert SlackPerBlock(alpha) * (21 as real) >= 0.0;
  }

  // ----- Rows of symbols -----

  /** A certified receiver that gets every symbol right is served without a block error,
      on runs of every length, when the slack of one full window stays below a block. */
  lemma CleanRowsStayClean(nRows: seq<seq<bool>>, cRows: seq<seq<bool>>, window: nat, alpha: real)
    requires |nRows| == |cRows| && alpha > 0.0 && TooShortForSlack(alpha, window + 1)
    requires forall i :: 0 <= i < |cRows| ==> true !in cRows[i]
    ensures var n, c := BlockErrors(nRows), BlockErrors(cRows);
            NoErrors(Routed(n, c, window, alpha, n, c, |nRows|))
  {
    hide Accepts, TooShortForSlack, Routed;
    var n, c := BlockErrors(nRows), BlockErrors(cRows);
    assert c == Zeros(|n|);
    ServedClean(n, window, alpha);
  }
}
