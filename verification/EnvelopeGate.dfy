/** The Shield's neural-receiver gate: overlapping windows of measured block
    errors route each block to the neural or to the classical receiver
    (benchmarks/neural_rx_pgd_benchmark.py, src/horizon_ric/shield/invariants.py). */
module EnvelopeGate {
  import opened Common

  /** Added to both error rates before their ratio is taken. */
  const EPS: real := 0.000000001

  /** The envelope test with the decibel tolerance as a factor: alpha = 10^(tolerance/10). */
  predicate Satisfied(baseline: real, measured: real, alpha: real) {
    measured + EPS <= alpha * (baseline + EPS)
  }

  /** A base-10 logarithm, as far as the envelope test uses it. */
  ghost predicate IsLog10(log10: real -> real) {
    && (forall x, y :: x > 0.0 && y > 0.0 ==> log10(x * y) == log10(x) + log10(y))
    && (forall x, y :: 0.0 < x < y ==> log10(x) < log10(y))
  }

  /** The test as the invariant computes it, a ratio in decibels plus a tolerance,
      is the test with a factor. */
  lemma EnvelopeInDecibels(log10: real -> real, toleranceDb: real, alpha: real, baseline: real, measured: real)
    requires IsLog10(log10) && alpha > 0.0 && 10.0 * log10(alpha) == toleranceDb
    requires baseline >= 0.0 && measured >= 0.0
    ensures 10.0 * log10((baseline + EPS) / (measured + EPS)) + toleranceDb >= 0.0 <==> Satisfied(baseline, measured, alpha)
  {
    var b, m := baseline + EPS, measured + EPS;
    var ratio := b / m;
    assert ratio > 0.0;
    RatioAgainstFactor(b, m, alpha);
    LogSign(log10, alpha, ratio);
  }

  lemma RatioAgainstFactor(b: real, m: real, alpha: real)
    requires b > 0.0 && m > 0.0
    ensures alpha * (b / m) >= 1.0 <==> m <= alpha * b
  {
    var x := alpha * (b / m);
    assert x * m == alpha * b;
    assert x >= 1.0 ==> x * m >= m;
    assert x < 1.0 ==> x * m < m;
  }

  lemma LogSign(log10: real -> real, alpha: real, ratio: real)
    requires IsLog10(log10) && alpha > 0.0 && ratio > 0.0
    ensures log10(alpha) + log10(ratio) >= 0.0 <==> alpha * ratio >= 1.0
  {
    assert log10(alpha * ratio) == log10(alpha) + log10(ratio);
    assert log10(1.0 * 1.0) == log10(1.0) + log10(1.0);
    var x := alpha * ratio;
    if x < 1.0 {
      assert log10(x) < log10(1.0);
    } else if x > 1.0 {
      assert log10(1.0) < log10(x);
    }
  }

  /** The guarantee a satisfied test really gives, and the one it is usually read
      as: measured <= alpha * baseline follows for all rates exactly when the
      tolerance is not positive. */
  lemma EnvelopeSlack(baseline: real, measured: real, alpha: real)
    ensures Satisfied(baseline, measured, alpha) <==> measured <= alpha * baseline + (alpha - 1.0) * EPS
  {
  }

  lemma CleanContractExactly(alpha: real)
    requires alpha > 0.0
    ensures (forall b: real, m: real :: b >= 0.0 && m >= 0.0 && Satisfied(b, m, alpha) ==> m <= alpha * b) <==> alpha <= 1.0
  {
    if alpha > 1.0 {
      assert Satisfied(0.0, (alpha - 1.0) * EPS, alpha);
    } else {
      forall b: real, m: real | b >= 0.0 && m >= 0.0 && Satisfied(b, m, alpha)
        ensures m <= alpha * b
      {
        EnvelopeSlack(b, m, alpha);
        assert (alpha - 1.0) * EPS <= 0.0;
      }
    }
  }

  // ----- The routing -----

  /** The first block of the window that ends at block `t`: it reaches back `window` blocks. */
  function WindowStart(t: nat, window: nat): (lo: nat)
    ensures lo <= t
  {
    Max(0, t - window)
  }

  predicate Accepts(neural: seq<real>, classical: seq<real>, window: nat, alpha: real, t: nat)
    requires t < |neural| == |classical|
  {
    var lo := WindowStart(t, window);
    Satisfied(Mean(classical[lo..t + 1]), Mean(neural[lo..t + 1]), alpha)
  }

  /** The stream that is really served: neural where the gate accepts, classical elsewhere. */
  function Routed<T>(neural: seq<real>, classical: seq<real>, window: nat, alpha: real,
                     fromNeural: seq<T>, fromClassical: seq<T>, n: nat): (s: seq<T>)
    requires n <= |neural| == |classical| == |fromNeural| == |fromClassical|
    ensures |s| == n
    ensures forall t :: 0 <= t < n ==>
              s[t] == if Accepts(neural, classical, window, alpha, t) then fromNeural[t] else fromClassical[t]
  {
    seq(n, t requires 0 <= t < n => if Accepts(neural, classical, window, alpha, t) then fromNeural[t] else fromClassical[t])
  }

  function Fallbacks(neural: seq<real>, classical: seq<real>, window: nat, alpha: real, n: nat): nat
    requires n <= |neural| == |classical|
  {
    if n == 0 then 0
    else Fallbacks(neural, classical, window, alpha, n - 1)
         + if Accepts(neural, classical, window, alpha, n - 1) then 0 else 1
  }

  /** The fallbacks are the blocks the gate refuses; with those the neural receiver serves they are all. */
  lemma {:induction false} FallbacksAreRefusals(neural: seq<real>, classical: seq<real>, window: nat, alpha: real, n: nat)
    requires n <= |neural| == |classical|
    ensures var fallbacks := Fallbacks(neural, classical, window, alpha, n);
            && fallbacks == |set t: nat | t < n && !Accepts(neural, classical, window, alpha, t)|
            && fallbacks + |set t: nat | t < n && Accepts(neural, classical, window, alpha, t)| == n
  {
    hide Accepts;
    var refused := set t: nat | t < n && !Accepts(neural, classical, window, alpha, t);
    var accepted := set t: nat | t < n && Accepts(neural, classical, window, alpha, t);
    if n == 0 {
      assert refused == {} == accepted;
    } else {
      var m := n - 1;
      FallbacksAreRefusals(neural, classical, window, alpha, m);
      var refused0 := set t: nat | t < m && !Accepts(neural, classical, window, alpha, t);
      var accepted0 := set t: nat | t < m && Accepts(neural, classical, window, alpha, t);
      assert refused == if Accepts(neural, classical, window, alpha, m) then refused0 else refused0 + {m};
      assert accepted == if Accepts(neural, classical, window, alpha, m) then accepted0 + {m} else accepted0;
    }
  }

  /** The gate loop. */
  method ShieldGate<T>(neural: seq<real>, classical: seq<real>, neuralSym: seq<T>, classicalSym: seq<T>,
                       window: nat, alpha: real)
    returns (effective: seq<real>, effectiveSym: seq<T>, fallbacks: nat)
    requires |neural| == |classical| == |neuralSym| == |classicalSym|
    ensures effective == Routed(neural, classical, window, alpha, neural, classical, |neural|)
    ensures effectiveSym == Routed(neural, classical, window, alpha, neuralSym, classicalSym, |neural|)
    ensures fallbacks == Fallbacks(neural, classical, window, alpha, |neural|)
  {
    hide Satisfied, Mean;
    effective, effectiveSym, fallbacks := [], [], 0;
    for t := 0 to |neural|
      invariant effective == Routed(neural, classical, window, alpha, neural, classical, t)
      invariant effectiveSym == Routed(neural, classical, window, alpha, neuralSym, classicalSym, t)
      invariant fallbacks == Fallbacks(neural, classical, window, alpha, t)
    {
      var lo := WindowStart(t, window);
      var baseline, measured := Mean(classical[lo..t + 1]), Mean(neural[lo..t + 1]);
      assert Satisfied(baseline, measured, alpha) <==> Accepts(neural, classical, window, alpha, t);
      if !Satisfied(baseline, measured, alpha) {
        fallbacks := fallbacks + 1;
        effective, effectiveSym := effective + [classical[t]], effectiveSym + [classicalSym[t]];
      } else {
        effective, effectiveSym := effective + [neural[t]], effectiveSym + [neuralSym[t]];
      }
    }
  }

  // ----- The whole-run bound -----

  ghost predicate Nonnegative(s: seq<real>) {
    forall t :: 0 <= t < |s| ==> s[t] >= 0.0
  }

  /** What the additive EPS can admit per block, beyond the factor. */
  function SlackPerBlock(alpha: real): (s: real)
    ensures s >= 0.0 && s >= (alpha - 1.0) * EPS
  {
    MaxReal(0.0, (alpha - 1.0) * EPS)
  }

  /** At most (1 + alpha) times the certified errors, plus the slack of `blocks` blocks. */
  ghost predicate WithinBound(served: real, certified: real, alpha: real, blocks: nat) {
    served <= (1.0 + alpha) * certified + SlackPerBlock(alpha) * (blocks as real)
  }

  lemma {:induction false} SumNonnegative(s: seq<real>)
    requires Nonnegative(s)
    ensures Sum(s) >= 0.0
  {
    if s != [] {
      SumNonnegative(s[..|s| - 1]);
    }
  }

  lemma SumSplit(s: seq<real>, lo: nat, hi: nat)
    requires lo <= hi <= |s|
    ensures Sum(s[..hi]) == Sum(s[..lo]) + Sum(s[lo..hi])
  {
    SumConcat(s[..lo], s[lo..hi]);
    assert s[..hi] == s[..lo] + s[lo..hi];
  }

  lemma {:induction false} SumAtMostBoth(e: seq<real>, a: seq<real>, b: seq<real>)
    requires |e| == |a| == |b| && Nonnegative(a) && Nonnegative(b)
    requires forall t :: 0 <= t < |e| ==> e[t] == a[t] || e[t] == b[t]
    ensures Sum(e) <= Sum(a) + Sum(b)
  {
    if e != [] {
      var n := |e| - 1;
      SumAtMostBoth(e[..n], a[..n], b[..n]);
    }
  }

  /** An accepted block certifies its whole window, in sums. */
  lemma AcceptedWindow(neural: seq<real>, classical: seq<real>, window: nat, alpha: real, t: nat)
    requires t < |neural| == |classical| && Accepts(neural, classical, window, alpha, t)
    ensures var lo := WindowStart(t, window);
            Sum(neural[lo..t + 1]) <= alpha * Sum(classical[lo..t + 1]) + SlackPerBlock(alpha) * ((t + 1 - lo) as real)
  {
    var lo := WindowStart(t, window);
    var m := (t + 1 - lo) as real;
    var n, c := Sum(neural[lo..t + 1]), Sum(classical[lo..t + 1]);
    assert n / m + EPS <= alpha * (c / m + EPS);
    ScaleUp(n, c, m, alpha);
    assert (alpha - 1.0) * EPS * m <= SlackPerBlock(alpha) * m;
  }

  lemma ScaleUp(n: real, c: real, m: real, alpha: real)
    requires m > 0.0 && n / m + EPS <= alpha * (c / m + EPS)
    ensures n <= alpha * c + (alpha - 1.0) * EPS * m
  {
    var x, y := n / m, c / m;
    assert n == x * m && c == y * m;
    assert (x + EPS) * m <= (alpha * (y + EPS)) * m;
    assert (x + EPS) * m == n + EPS * m;
    assert (alpha * (y + EPS)) * m == alpha * (y * m) + alpha * EPS * m;
  }

  /** The gate accepts exactly when, over this block and up to `window` blocks before it, the neural errors
      are at most alpha times the certified ones, each sum taken with 1e-9 for every one of these blocks. */
  lemma AcceptedExactly(neural: seq<real>, classical: seq<real>, window: nat, alpha: real, t: nat)
    requires t < |neural| == |classical|
    ensures var blocks := if t < window then t + 1 else window + 1;
            var slack := 0.000000001 * (blocks as real);
            Accepts(neural, classical, window, alpha, t)
            <==> Sum(neural[t + 1 - blocks..t + 1]) + slack <= alpha * (Sum(classical[t + 1 - blocks..t + 1]) + slack)
  {
    hide Sum;
    var blocks := if t < window then t + 1 else window + 1;
    assert WindowStart(t, window) == t + 1 - blocks;
    RatesAgainstSums(Sum(neural[t + 1 - blocks..t + 1]), Sum(classical[t + 1 - blocks..t + 1]), blocks as real, alpha);
  }

  lemma RatesAgainstSums(n: real, c: real, m: real, alpha: real)
    requires m > 0.0
    ensures n / m + EPS <= alpha * (c / m + EPS) <==> n + EPS * m <= alpha * (c + EPS * m)
  {
    var x, y := n / m + EPS, c / m + EPS;
    assert n + EPS * m == x * m && c + EPS * m == y * m;
    assert alpha * (y * m) == (alpha * y) * m;
    SameOrder(m, x, alpha * y);
  }

  lemma SameOrder(m: real, x: real, y: real)
    requires m > 0.0
    ensures x <= y <==> x * m <= y * m
  {
    var d := y - x;
    assert y * m == x * m + d * m;
    assert d < 0.0 ==> d * m < 0.0;
  }

  /** The whole-run bound, on every prefix: whatever the neural receiver does, the
      served block errors are at most (1 + alpha) times the certified receiver's,
      plus the EPS slack. The induction jumps back one window at each accepted block. */
  lemma {:induction false} GateBound(neural: seq<real>, classical: seq<real>, window: nat, alpha: real, n: nat)
    requires n <= |neural| == |classical| && Nonnegative(neural) && Nonnegative(classical) && alpha > 0.0
    ensures WithinBound(Sum(Routed(neural, classical, window, alpha, neural, classical, n)), Sum(classical[..n]), alpha, n)
    decreases n
  {
    hide *;
    if n == 0 {
      NothingServed(neural, classical, window, alpha);
    } else {
      var lo := GateStart(neural, classical, window, alpha, n);
      GateBound(neural, classical, window, alpha, lo);
      GateStep(neural, classical, window, alpha, lo, n);
    }
  }

  lemma NothingServed(neural: seq<real>, classical: seq<real>, window: nat, alpha: real)
    requires |neural| == |classical|
    ensures WithinBound(Sum(Routed(neural, classical, window, alpha, neural, classical, 0)), Sum(classical[..0]), alpha, 0)
  {
    assert SlackPerBlock(alpha) * (0 as real) == 0.0;
  }

  /** Where the prefix of `n` blocks is cut: before the window its last block certifies, or before a fallback. */
  ghost function GateStart(neural: seq<real>, classical: seq<real>, window: nat, alpha: real, n: nat): (lo: nat)
    requires 0 < n <= |neural| == |classical|
    ensures lo < n
  {
    if Accepts(neural, classical, window, alpha, n - 1) then WindowStart(n - 1, window) else n - 1
  }

  lemma GateStep(neural: seq<real>, classical: seq<real>, window: nat, alpha: real, lo: nat, n: nat)
    requires 0 < n <= |neural| == |classical| && Nonnegative(neural) && Nonnegative(classical) && alpha > 0.0
    requires lo == GateStart(neural, classical, window, alpha, n)
    requires WithinBound(Sum(Routed(neural, classical, window, alpha, neural, classical, lo)), Sum(classical[..lo]), alpha, lo)
    ensures WithinBound(Sum(Routed(neural, classical, window, alpha, neural, classical, n)), Sum(classical[..n]), alpha, n)
  {
    hide Accepts, WithinBound, GateStart, Sum, Nonnegative;
    ServedInWindow(neural, classical, window, alpha, lo, n);
    var eff := Routed(neural, classical, window, alpha, neural, classical, n);
    assert eff[..lo] == Routed(neural, classical, window, alpha, neural, classical, lo);
    assert eff[..n] == eff;
    SumSplit(eff, lo, n);
    SumSplit(classical, lo, n);
    AddBounds(alpha, Sum(eff[..lo]), Sum(eff[lo..n]), Sum(classical[..lo]), Sum(classical[lo..n]), lo, n);
  }

  /** Inside the window certified by the last block, or on a last block that fell back, the bound holds by itself. */
  lemma ServedInWindow(neural: seq<real>, classical: seq<real>, window: nat, alpha: real, lo: nat, n: nat)
    requires 0 < n <= |neural| == |classical| && Nonnegative(neural) && Nonnegative(classical) && alpha > 0.0
    requires lo == GateStart(neural, classical, window, alpha, n)
    ensures var eff := Routed(neural, classical, window, alpha, neural, classical, n);
            WithinBound(Sum(eff[lo..n]), Sum(classical[lo..n]), alpha, n - lo)
  {
    hide Accepts, SlackPerBlock, WithinBound;
    var eff := Routed(neural, classical, window, alpha, neural, classical, n);
    SumNonnegative(classical[lo..n]);
    if Accepts(neural, classical, window, alpha, n - 1) {
      SumAtMostBoth(eff[lo..n], neural[lo..n], classical[lo..n]);
      AcceptedBound(neural, classical, window, alpha, n - 1, Sum(eff[lo..n]));
    } else {
      assert eff[lo..n] == [classical[n - 1]] && classical[lo..n] == [classical[n - 1]];
      LoosenBound(Sum(classical[lo..n]), alpha, SlackPerBlock(alpha));
    }
  }

  lemma AcceptedBound(neural: seq<real>, classical: seq<real>, window: nat, alpha: real, t: nat, served: real)
    requires t < |neural| == |classical| && Accepts(neural, classical, window, alpha, t)
    requires var lo := WindowStart(t, window); served <= Sum(neural[lo..t + 1]) + Sum(classical[lo..t + 1])
    ensures var lo := WindowStart(t, window); WithinBound(served, Sum(classical[lo..t + 1]), alpha, t + 1 - lo)
  {
    hide Accepts, SlackPerBlock;
    var lo := WindowStart(t, window);
    AcceptedWindow(neural, classical, window, alpha, t);
    JoinBounds(served, Sum(neural[lo..t + 1]), Sum(classical[lo..t + 1]), alpha, t + 1 - lo);
  }

  lemma JoinBounds(e: real, n: real, c: real, alpha: real, m: nat)
    requires e <= n + c && n <= alpha * c + SlackPerBlock(alpha) * (m as real)
    ensures WithinBound(e, c, alpha, m)
  {
    assert (1.0 + alpha) * c == c + alpha * c;
  }

  lemma LoosenBound(c: real, alpha: real, slack: real)
    requires c >= 0.0 && alpha > 0.0 && slack >= 0.0
    ensures slack == SlackPerBlock(alpha) ==> WithinBound(c, c, alpha, 1)
  {
    assert (1.0 + alpha) * c == c + alpha * c;
  }

  lemma AddBounds(alpha: real, e0: real, e1: real, c0: real, c1: real, lo: nat, n: nat)
    requires lo <= n && WithinBound(e0, c0, alpha, lo) && WithinBound(e1, c1, alpha, n - lo)
    ensures WithinBound(e0 + e1, c0 + c1, alpha, n)
  {
    var slack := SlackPerBlock(alpha);
    assert (n as real) == (lo as real) + ((n - lo) as real);
    assert slack * (n as real) == slack * (lo as real) + slack * ((n - lo) as real);
    assert (1.0 + alpha) * (c0 + c1) == (1.0 + alpha) * c0 + (1.0 + alpha) * c1;
  }

  // ----- Block errors and symbol errors -----

  /** The per-block rows of symbol errors; an incomplete last block is dropped. */
  function ErrorRows(pred: seq<int>, y: seq<int>, block: nat): (rows: seq<seq<bool>>)
    requires |pred| == |y| && block > 0
    ensures forall i :: 0 <= i < |rows| ==> |rows[i]| == block
  {
    if |y| < block then []
    else [seq(block, j requires 0 <= j < block => pred[j] != y[j])] + ErrorRows(pred[block..], y[block..], block)
  }

  /** The position of the first symbol of block `i`. */
  function Offset(i: nat, block: nat): nat {
    i * block
  }

  lemma OffsetStep(i: nat, block: nat)
    ensures Offset(i + 1, block) == Offset(i, block) + block && Offset(0, block) == 0
  {
  }

  /** The reshape: row i, column j is symbol i * block + j, and less than one block is dropped. */
  lemma {:induction false} ErrorRowsAt(pred: seq<int>, y: seq<int>, block: nat, i: nat, j: nat)
    requires |pred| == |y| && block > 0
    ensures var rows := ErrorRows(pred, y, block);
            && Offset(|rows|, block) <= |y| < Offset(|rows|, block) + block
            && (i < |rows| && j < block ==>
                  var at := Offset(i, block) + j;
                  at < |y| && (rows[i][j] <==> pred[at] != y[at]))
    decreases |y|
  {
    hide Offset;
    OffsetStep(0, block);
    if |y| >= block {
      var rest := ErrorRows(pred[block..], y[block..], block);
      OffsetStep(|rest|, block);
      if i == 0 {
        ErrorRowsAt(pred[block..], y[block..], block, 0, j);
      } else {
        OffsetStep(i - 1, block);
        ErrorRowsAt(pred[block..], y[block..], block, i - 1, j);
      }
    }
  }

  function Errors(row: seq<bool>): (n: nat)
    ensures n <= |row|
    ensures n > 0 <==> true in row
  {
    if row == [] then 0 else Errors(row[..|row| - 1]) + if row[|row| - 1] then 1 else 0
  }

  /** A block is in error if any of its symbols is. */
  function BlockErrors(rows: seq<seq<bool>>): (be: seq<real>)
    ensures |be| == |rows|
    ensures forall t :: 0 <= t < |rows| ==> be[t] == if true in rows[t] then 1.0 else 0.0
  {
    seq(|rows|, t requires 0 <= t < |rows| => if true in rows[t] then 1.0 else 0.0)
  }

  function TotalErrors(rows: seq<seq<bool>>): nat {
    if rows == [] then 0 else TotalErrors(rows[..|rows| - 1]) + Errors(rows[|rows| - 1])
  }

  /** A block error stands for at least one and at most `block` symbol errors. */
  ghost predicate SymbolsMatchBlocks(blocks: real, symbols: nat, block: nat) {
    blocks <= symbols as real <= (block as real) * blocks
  }

  lemma {:induction false} SymbolsPerBlock(rows: seq<seq<bool>>, block: nat)
    requires forall i :: 0 <= i < |rows| ==> |rows[i]| == block
    ensures SymbolsMatchBlocks(Sum(BlockErrors(rows)), TotalErrors(rows), block)
  {
    if rows != [] {
      hide SymbolsMatchBlocks;
      var n := |rows| - 1;
      SymbolsPerBlock(rows[..n], block);
      assert BlockErrors(rows)[..n] == BlockErrors(rows[..n]);
      AddRow(block, Sum(BlockErrors(rows[..n])), TotalErrors(rows[..n]), rows[n]);
    }
  }

  lemma AddRow(block: nat, blocks: real, symbols: nat, row: seq<bool>)
    requires |row| == block && SymbolsMatchBlocks(blocks, symbols, block)
    ensures SymbolsMatchBlocks(blocks + (if true in row then 1.0 else 0.0), symbols + Errors(row), block)
  {
    var here := if true in row then 1.0 else 0.0;
    assert (block as real) * (blocks + here) == (block as real) * blocks + (block as real) * here;
    assert (symbols + Errors(row)) as real == symbols as real + Errors(row) as real;
  }

  /** Routing the symbols routes the block errors with them. */
  lemma RoutedRows(nRows: seq<seq<bool>>, cRows: seq<seq<bool>>, window: nat, alpha: real)
    requires |nRows| == |cRows|
    ensures var n, c := BlockErrors(nRows), BlockErrors(cRows);
            BlockErrors(Routed(n, c, window, alpha, nRows, cRows, |nRows|)) == Routed(n, c, window, alpha, n, c, |nRows|)
  {
    hide Accepts;
  }

  /** At most block * (1 + alpha) times the certified receiver's symbol errors, plus the EPS slack. */
  ghost predicate WithinSymbolBound(served: nat, certified: nat, block: nat, alpha: real, blocks: nat) {
    served as real <= (block as real) * ((1.0 + alpha) * (certified as real) + SlackPerBlock(alpha) * (blocks as real))
  }

  /** End to end, in symbols: what is really served keeps the bound whatever the neural receiver decides. */
  lemma SymbolErrorBound(nRows: seq<seq<bool>>, cRows: seq<seq<bool>>, block: nat, window: nat, alpha: real)
    requires |nRows| == |cRows| && alpha > 0.0
    requires forall i :: 0 <= i < |nRows| ==> |nRows[i]| == block && |cRows[i]| == block
    ensures var n, c, k := BlockErrors(nRows), BlockErrors(cRows), |nRows|;
            WithinSymbolBound(TotalErrors(Routed(n, c, window, alpha, nRows, cRows, k)), TotalErrors(cRows), block, alpha, k)
  {
    hide Accepts, WithinBound, WithinSymbolBound, SymbolsMatchBlocks, TotalErrors, Sum;
    var n, c, k := BlockErrors(nRows), BlockErrors(cRows), |nRows|;
    var served := Routed(n, c, window, alpha, nRows, cRows, k);
    assert forall i :: 0 <= i < |served| ==> |served[i]| == block;
    RoutedRows(nRows, cRows, window, alpha);
    SymbolsPerBlock(served, block);
    SymbolsPerBlock(cRows, block);
    GateBound(n, c, window, alpha, k);
    assert c[..k] == c;
    ScaleBound(Sum(BlockErrors(served)), TotalErrors(served), Sum(c), TotalErrors(cRows), alpha, k, block);
  }

  function Mismatches(pred: seq<int>, y: seq<int>): (n: nat)
    requires |pred| == |y|
  {
    if y == [] then 0
    else
      var n := |y| - 1;
      Mismatches(pred[..n], y[..n]) + if pred[n] != y[n] then 1 else 0
  }

  lemma {:induction false} MismatchesConcat(p: seq<int>, y: seq<int>, p': seq<int>, y': seq<int>)
    requires |p| == |y| && |p'| == |y'|
    ensures Mismatches(p + p', y + y') == Mismatches(p, y) + Mismatches(p', y')
  {
    if y' == [] {
      assert p + p' == p && y + y' == y;
    } else {
      var n := |y'| - 1;
      assert (p + p')[..|p + p'| - 1] == p + p'[..n] && (y + y')[..|y + y'| - 1] == y + y'[..n];
      MismatchesConcat(p, y, p'[..n], y'[..n]);
    }
  }

  lemma {:induction false} ErrorsOfRow(pred: seq<int>, y: seq<int>, row: seq<bool>)
    requires |pred| == |y| == |row| && forall j :: 0 <= j < |row| ==> (row[j] <==> pred[j] != y[j])
    ensures Errors(row) == Mismatches(pred, y)
  {
    if row != [] {
      var n := |row| - 1;
      ErrorsOfRow(pred[..n], y[..n], row[..n]);
    }
  }

  lemma {:induction false} TotalErrorsConcat(a: seq<seq<bool>>, b: seq<seq<bool>>)
    ensures TotalErrors(a + b) == TotalErrors(a) + TotalErrors(b)
  {
    if b == [] {
      assert a + b == a;
    } else {
      var n := |b| - 1;
      assert (a + b)[..|a + b| - 1] == a + b[..n];
      TotalErrorsConcat(a, b[..n]);
    }
  }

  /** The rows count every wrong symbol of the whole blocks once. */
  lemma {:induction false} RowsCountMismatches(pred: seq<int>, y: seq<int>, block: nat)
    requires |pred| == |y| && block > 0
    ensures var k := Offset(|ErrorRows(pred, y, block)|, block);
            k <= |y| && TotalErrors(ErrorRows(pred, y, block)) == Mismatches(pred[..k], y[..k])
    decreases |y|
  {
    hide Offset, Errors;
    ErrorRowsAt(pred, y, block, 0, 0);
    if |y| >= block {
      RowsCountMismatches(pred[block..], y[block..], block);
      var rest := ErrorRows(pred[block..], y[block..], block);
      var row := seq(block, j requires 0 <= j < block => pred[j] != y[j]);
      var k := Offset(|rest|, block);
      OffsetStep(|rest|, block);
      ErrorsOfRow(pred[..block], y[..block], row);
      OneMoreRow(pred, y, block, row, rest, k);
    } else {
      OffsetStep(0, block);
    }
  }

  lemma OneMoreRow(pred: seq<int>, y: seq<int>, block: nat, row: seq<bool>, rest: seq<seq<bool>>, k: nat)
    requires |pred| == |y| && block + k <= |y| && Errors(row) == Mismatches(pred[..block], y[..block])
    requires TotalErrors(rest) == Mismatches(pred[block..][..k], y[block..][..k])
    ensures TotalErrors([row] + rest) == Mismatches(pred[..k + block], y[..k + block])
  {
    TotalErrorsConcat([row], rest);
    assert [row][..0] == [];
    MismatchesConcat(pred[..block], y[..block], pred[block..][..k], y[block..][..k]);
    assert pred[..k + block] == pred[..block] + pred[block..][..k];
    assert y[..k + block] == y[..block] + y[block..][..k];
  }

  lemma SameRowCount(pred: seq<int>, pred': seq<int>, y: seq<int>, block: nat)
    requires |pred| == |pred'| == |y| && block > 0
    ensures |ErrorRows(pred, y, block)| == |ErrorRows(pred', y, block)|
    decreases |y|
  {
    if |y| >= block {
      SameRowCount(pred[block..], pred'[block..], y[block..], block);
    }
  }

  /** From predictions to served symbols: over the whole blocks of any run, the symbol errors really
      served keep the bound against the certified receiver's wrong predictions. */
  lemma PredictionBound(neural: seq<int>, classical: seq<int>, y: seq<int>, block: nat, window: nat, alpha: real)
    requires |neural| == |classical| == |y| && block > 0 && alpha > 0.0
    ensures var nRows, cRows := ErrorRows(neural, y, block), ErrorRows(classical, y, block);
            && |nRows| == |cRows|
            && var n, c, k := BlockErrors(nRows), BlockErrors(cRows), |cRows|;
            var whole := Offset(k, block);
            && whole <= |y|
            && WithinSymbolBound(TotalErrors(Routed(n, c, window, alpha, nRows, cRows, k)),
                                 Mismatches(classical[..whole], y[..whole]), block, alpha, k)
  {
    hide WithinSymbolBound, Accepts, BlockErrors, Routed, Offset;
    SameRowCount(neural, classical, y, block);
    RowsCountMismatches(classical, y, block);
    SymbolErrorBound(ErrorRows(neural, y, block), ErrorRows(classical, y, block), block, window, alpha);
  }

  lemma ScaleBound(e: real, symbols: nat, c: real, certified: nat, alpha: real, k: nat, block: nat)
    requires WithinBound(e, c, alpha, k) && alpha > 0.0
    requires SymbolsMatchBlocks(e, symbols, block) && SymbolsMatchBlocks(c, certified, block)
    ensures WithinSymbolBound(symbols, certified, block, alpha, k)
  {
    var slack := SlackPerBlock(alpha) * (k as real);
    TimesMonotone(1.0 + alpha, c, certified as real);
    TimesMonotone(block as real, e, (1.0 + alpha) * (certified as real) + slack);
  }

  lemma TimesMonotone(k: real, x: real, y: real)
    requires k >= 0.0 && x <= y
    ensures k * x <= k * y
  {
    var d := y - x;
    assert k * d >= 0.0;
    assert k * (x + d) == k * x + k * d;
  }

  /** The EPS slack of `blocks` blocks does not add up to one block error. */
  ghost predicate TooShortForSlack(alpha: real, blocks: nat) {
    SlackPerBlock(alpha) * (blocks as real) < 1.0
  }
}
