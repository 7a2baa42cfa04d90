/** The two bisections of the privacy audit (benchmarks/privacy_real_subjects.py):
    the least epsilon of the Gaussian mechanism and the inverse of a distribution function. */
module EpsilonSearch {
  import opened Common

  function Pow2(k: nat): (r: real)
    ensures r >= 1.0
  {
    if k == 0 then 1.0 else 2.0 * Pow2(k - 1)
  }

  lemma Doubling(k: nat)
    ensures Pow2(0) == 1.0 && Pow2(k + 1) == 2.0 * Pow2(k)
  {
  }

  /** `x` halved `n` times. */
  function Halved(x: real, n: nat): (r: real)
    ensures x >= 0.0 ==> r >= 0.0
  {
    if n == 0 then x else Halved(x, n - 1) / 2.0
  }

  lemma {:induction false} HalvedIsDivided(x: real, n: nat)
    ensures Halved(x, n) == x / Pow2(n)
  {
    if n > 0 {
      HalvedIsDivided(x, n - 1);
      var p := Pow2(n - 1);
      assert x / p / 2.0 == x / (2.0 * p);
    }
  }

  /** The doublings the search tries before it gives up: 2^0 .. 2^19, the powers up to 1e6. */
  const DOUBLINGS: nat := 20
  const HALVINGS: nat := 200

  lemma DoublingLimit(k: nat)
    requires k <= DOUBLINGS
    ensures Pow2(k) > 1000000.0 <==> k == DOUBLINGS
  {
    assert Pow2(5) == 32.0;
    assert Pow2(10) == 1024.0;
    assert Pow2(15) == 32768.0;
    assert Pow2(19) == 524288.0;
    assert Pow2(20) == 1048576.0;
    if k < 19 {
      Pow2Monotone(k, 19);
    }
  }

  lemma {:induction false} Pow2Monotone(j: nat, k: nat)
    requires j <= k
    ensures Pow2(j) <= Pow2(k)
  {
    if j < k {
      Pow2Monotone(j, k - 1);
    }
  }

  ghost predicate FailsUpTo(delta: real -> real, target: real, k: nat) {
    forall j: nat :: j < k ==> delta(Pow2(j)) > target
  }

  /** A bracket of the search: the returned end is valid, the other end is 0 or
      invalid, and they are 2^k / 2^200 apart, 2^k being the first valid doubling. */
  ghost predicate Brackets(delta: real -> real, target: real, k: nat, lo: real, eps: real) {
    && k < DOUBLINGS && FailsUpTo(delta, target, k) && delta(Pow2(k)) <= target
    && 0.0 <= lo && eps - lo == Pow2(k) / Pow2(HALVINGS)
    && delta(eps) <= target && (lo == 0.0 || delta(lo) > target)
  }

  lemma HalvedToABracket(delta: real -> real, target: real, k: nat, lo: real, hi: real)
    requires k < DOUBLINGS && FailsUpTo(delta, target, k) && delta(Pow2(k)) <= target
    requires 0.0 <= lo && hi - lo == Halved(Pow2(k), HALVINGS)
    requires delta(hi) <= target && (lo == 0.0 || delta(lo) > target)
    ensures Brackets(delta, target, k, lo, hi)
  {
    hide Pow2, Halved;
    HalvedIsDivided(Pow2(k), HALVINGS);
  }

  /** `None` is the infinite epsilon: every doubling up to the limit failed. For
      any delta function at all, a finite answer is valid and tightly bracketed. */
  method AnalyticGaussianEpsilon(delta: real -> real, target: real) returns (eps: Option<real>)
    ensures eps.None? <==> FailsUpTo(delta, target, DOUBLINGS)
    ensures eps.Some? ==> exists k: nat, lo: real :: Brackets(delta, target, k, lo, eps.value)
  {
    Doubling(0);
    hide Pow2, Brackets;
    var lo, hi := 0.0, 1.0;
    ghost var k := 0;
    while delta(hi) > target
      invariant k < DOUBLINGS && hi == Pow2(k) && FailsUpTo(delta, target, k)
      decreases DOUBLINGS - k
    {
      Doubling(k);
      hi := hi * 2.0;
      k := k + 1;
      DoublingLimit(k);
      if hi > 1000000.0 {
        return None;
      }
    }
    for i := 0 to HALVINGS
      invariant 0.0 <= lo && hi - lo == Halved(Pow2(k), i)
      invariant delta(hi) <= target && (lo == 0.0 || delta(lo) > target)
    {
      var mid := 0.5 * (lo + hi);
      if delta(mid) > target {
        lo := mid;
      } else {
        hi := mid;
      }
    }
    HalvedToABracket(delta, target, k, lo, hi);
    eps := Some(hi);
  }

  ghost predicate Nonincreasing(delta: real -> real) {
    forall x, y :: x <= y ==> delta(y) <= delta(x)
  }

  /** When delta decreases with epsilon, the answer exceeds no valid epsilon by more than 2^19 / 2^200. */
  lemma BracketsTheLeast(delta: real -> real, target: real, k: nat, lo: real, eps: real, valid: real)
    requires Nonincreasing(delta) && Brackets(delta, target, k, lo, eps)
    requires valid >= 0.0 && delta(valid) <= target
    ensures eps - valid <= Pow2(k) / Pow2(HALVINGS) && Pow2(k) <= Pow2(19)
  {
    hide Halved, FailsUpTo;
    Pow2Monotone(k, 19);
    assert valid < lo ==> delta(lo) <= delta(valid);
  }

  /** When delta decreases, the infinite answer is right for every epsilon the search covers. */
  lemma InfiniteIsRight(delta: real -> real, target: real, e: real)
    requires Nonincreasing(delta) && FailsUpTo(delta, target, DOUBLINGS) && e <= Pow2(19)
    ensures delta(e) > target
  {
    assert delta(Pow2(19)) > target;
  }

  // ----- The inverse distribution function -----

  /** The final bracket of 60 halvings of [0, 1]; the midpoint is returned. */
  ghost predicate BracketsQuantile(cdf: real -> real, p: real, lo: real, hi: real) {
    0.0 <= lo && hi <= 1.0 && hi - lo == 1.0 / Pow2(60) && (lo == 0.0 || cdf(lo) < p) && (hi == 1.0 || cdf(hi) >= p)
  }

  method BetaPpf(cdf: real -> real, p: real) returns (x: real)
    ensures exists lo, hi :: BracketsQuantile(cdf, p, lo, hi) && x == 0.5 * (lo + hi)
  {
    var lo, hi := 0.0, 1.0;
    for i := 0 to 60
      invariant 0.0 <= lo && hi <= 1.0 && hi - lo == Halved(1.0, i)
      invariant (lo == 0.0 || cdf(lo) < p) && (hi == 1.0 || cdf(hi) >= p)
    {
      var mid := 0.5 * (lo + hi);
      if cdf(mid) < p {
        lo := mid;
      } else {
        hi := mid;
      }
    }
    HalvedIsDivided(1.0, 60);
    assert BracketsQuantile(cdf, p, lo, hi);
    x := 0.5 * (lo + hi);
  }

  /** For an increasing distribution function the answer is within half a bracket of the quantile. */
  lemma QuantileError(cdf: real -> real, p: real, lo: real, hi: real, q: real)
    requires BracketsQuantile(cdf, p, lo, hi) && 0.0 <= q <= 1.0 && cdf(q) == p
    requires forall x, y :: 0.0 <= x < y <= 1.0 ==> cdf(x) < cdf(y)
    ensures Abs(0.5 * (lo + hi) - q) <= 0.5 / Pow2(60)
  {
    assert q < lo ==> cdf(q) < cdf(lo);
    assert hi < q ==> cdf(hi) < cdf(q);
    assert 0.5 / Pow2(60) == 0.5 * (1.0 / Pow2(60));
  }
}
