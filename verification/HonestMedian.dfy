/** The norm a stealthy upload is sent at (benchmarks/federated_unlearning_suite.py:112-119), in ranks
    of the honest clients' norms, and when there is none to match. */
module HonestMedian {
  import opened Common
  import opened LinearAlgebra
  import opened SuffStats
  import opened Federation
  import opened Unlearning
  import opened OrderStatistics

  ghost function Honest(ups: seq<Mat>, malicious: set<nat>): set<nat> {
    set j: nat | j < |ups| && j !in malicious
  }

  ghost function HonestWith(norm: Norm, ups: seq<Mat>, malicious: set<nat>, p: real -> bool): set<nat> {
    set j: nat | j < |ups| && j !in malicious && p(norm(ups[j]))
  }

  /** Counting the norms that are kept is counting honest clients. */
  lemma {:induction false} KeptNorms(norm: Norm, ups: seq<Mat>, malicious: set<nat>, p: real -> bool)
    ensures |HonestWith(norm, ups, malicious, p)| == CountOf(NormsOf(norm, Others(ups, malicious)), p)
    ensures |Honest(ups, malicious)| == |Others(ups, malicious)|
  {
    if ups == [] {
      assert HonestWith(norm, ups, malicious, p) == {} == Honest(ups, malicious);
    } else {
      var n := |ups| - 1;
      KeptNorms(norm, ups[..n], malicious, p);
      KeptOneMore(norm, ups, malicious, p);
      HonestOneMore(ups, malicious);
      var kept, before := NormsOf(norm, Others(ups, malicious)), NormsOf(norm, Others(ups[..n], malicious));
      if n !in malicious {
        assert kept[..|kept| - 1] == before;
      }
    }
  }

  lemma KeptOneMore(norm: Norm, ups: seq<Mat>, malicious: set<nat>, p: real -> bool)
    requires ups != []
    ensures var n := |ups| - 1;
            |HonestWith(norm, ups, malicious, p)|
            == |HonestWith(norm, ups[..n], malicious, p)| + (if n !in malicious && p(norm(ups[n])) then 1 else 0)
  {
    var n := |ups| - 1;
    var before := HonestWith(norm, ups[..n], malicious, p);
    assert HonestWith(norm, ups, malicious, p) == if n !in malicious && p(norm(ups[n])) then before + {n} else before;
  }

  lemma HonestOneMore(ups: seq<Mat>, malicious: set<nat>)
    requires ups != []
    ensures var n := |ups| - 1;
            |Honest(ups, malicious)| == |Honest(ups[..n], malicious)| + (if n !in malicious then 1 else 0)
  {
    var n := |ups| - 1;
    var all := Honest(ups[..n], malicious);
    assert Honest(ups, malicious) == if n !in malicious then all + {n} else all;
  }

  /** Every kept norm is an honest client's. */
  lemma {:induction false} KeptNormIsHonest(norm: Norm, ups: seq<Mat>, malicious: set<nat>, i: nat) returns (j: nat)
    requires i < |Others(ups, malicious)|
    ensures j < |ups| && j !in malicious && norm(ups[j]) == NormsOf(norm, Others(ups, malicious))[i]
    decreases |ups|
  {
    var n := |ups| - 1;
    if n in malicious || i < |Others(ups[..n], malicious)| {
      j := KeptNormIsHonest(norm, ups[..n], malicious, i);
    } else {
      j := n;
    }
  }

  /** Among the honest norms, client j's has rank r: at most r are smaller, more than r no larger. */
  ghost predicate HonestRank(norm: Norm, ups: seq<Mat>, malicious: set<nat>, j: nat, r: nat) {
    j < |ups| && j !in malicious
    && |set i: nat | i < |ups| && i !in malicious && norm(ups[i]) < norm(ups[j])| <= r
       < |set i: nat | i < |ups| && i !in malicious && norm(ups[i]) <= norm(ups[j])|
  }

  lemma RankCarries(norm: Norm, ups: seq<Mat>, malicious: set<nat>, i: nat, r: nat) returns (j: nat)
    requires HasRank(NormsOf(norm, Others(ups, malicious)), i, r)
    ensures HonestRank(norm, ups, malicious, j, r) && norm(ups[j]) == NormsOf(norm, Others(ups, malicious))[i]
  {
    var es := NormsOf(norm, Others(ups, malicious));
    j := KeptNormIsHonest(norm, ups, malicious, i);
    var v := norm(ups[j]);
    hide Others, NormsOf, CountOf;
    CardinalitiesCarry(norm, ups, malicious, x => x < v);
    CardinalitiesCarry(norm, ups, malicious, x => x <= v);
    assert IndexesOf(es, x => x < v) == set k: nat | k < |es| && es[k] < es[i];
    assert IndexesOf(es, x => x <= v) == set k: nat | k < |es| && es[k] <= es[i];
    assert HonestWith(norm, ups, malicious, x => x < v) == set i: nat | i < |ups| && i !in malicious && norm(ups[i]) < norm(ups[j]);
    assert HonestWith(norm, ups, malicious, x => x <= v) == set i: nat | i < |ups| && i !in malicious && norm(ups[i]) <= norm(ups[j]);
  }

  lemma CardinalitiesCarry(norm: Norm, ups: seq<Mat>, malicious: set<nat>, p: real -> bool)
    ensures |HonestWith(norm, ups, malicious, p)| == |IndexesOf(NormsOf(norm, Others(ups, malicious)), p)|
  {
    KeptNorms(norm, ups, malicious, p);
    CountIsCardinality(NormsOf(norm, Others(ups, malicious)), p);
  }

  /** The norm of one honest client with as many below as above, or the middle of two neighbouring ones. */
  ghost predicate IsHonestMiddle(norm: Norm, ups: seq<Mat>, malicious: set<nat>, m: real) {
    var n := |Honest(ups, malicious)|;
    if n % 2 == 1 then exists j: nat :: HonestRank(norm, ups, malicious, j, n / 2) && m == norm(ups[j])
    else n > 0 && exists i: nat, j: nat ::
           HonestRank(norm, ups, malicious, i, n / 2 - 1) && HonestRank(norm, ups, malicious, j, n / 2)
           && m == (norm(ups[i]) + norm(ups[j])) / 2.0
  }

  /** A nonzero malicious upload is sent at the middle of the honest norms: at least half of them are
      no larger, at least half no smaller; for an odd number it is one of them, for an even number half
      the sum of the two in the middle. */
  lemma SentAtTheHonestMedian(norm: Norm, ups: seq<Mat>, malicious: set<nat>, p: nat, s: nat, k: nat)
    requires IsNorm(norm) && IsMats(ups, p, s) && k < |ups| && k in malicious && norm(ups[k]) > 0.0
    requires Honest(ups, malicious) != {}
    ensures |NormMatched(norm, malicious, p, s)(ups)| == |ups|
    ensures var m := norm(NormMatched(norm, malicious, p, s)(ups)[k]);
            && 2 * |set j: nat | j < |ups| && j !in malicious && norm(ups[j]) <= m| >= |Honest(ups, malicious)|
            && 2 * |set j: nat | j < |ups| && j !in malicious && norm(ups[j]) >= m| >= |Honest(ups, malicious)|
            && IsHonestMiddle(norm, ups, malicious, m)
  {
    KeptNorms(norm, ups, malicious, x => true);
    StealthMatchesTheHonestNorm(norm, ups, malicious, p, s, k);
    MiddleCarries(norm, ups, malicious);
    hide NormMatched, Others, Median, IsHonestMiddle, IsNorm;
  }

  lemma MiddleCarries(norm: Norm, ups: seq<Mat>, malicious: set<nat>)
    requires Others(ups, malicious) != []
    ensures var m := HonestNorm(norm, ups, malicious);
            && 2 * |set j: nat | j < |ups| && j !in malicious && norm(ups[j]) <= m| >= |Honest(ups, malicious)|
            && 2 * |set j: nat | j < |ups| && j !in malicious && norm(ups[j]) >= m| >= |Honest(ups, malicious)|
            && IsHonestMiddle(norm, ups, malicious, m)
  {
    var es, m := NormsOf(norm, Others(ups, malicious)), HonestNorm(norm, ups, malicious);
    KeptNorms(norm, ups, malicious, x => true);
    hide Others, NormsOf, CountOf, Median, HasRank, HonestRank, IsMiddle, IsHonestMiddle;
    MedianIsMiddle(es);
    MedianSplits(es);
    CardinalitiesCarry(norm, ups, malicious, x => x <= m);
    CardinalitiesCarry(norm, ups, malicious, x => x >= m);
    assert IndexesOf(es, x => x <= m) == set k: nat | k < |es| && es[k] <= m;
    assert IndexesOf(es, x => x >= m) == set k: nat | k < |es| && es[k] >= m;
    assert HonestWith(norm, ups, malicious, x => x <= m) == set j: nat | j < |ups| && j !in malicious && norm(ups[j]) <= m;
    assert HonestWith(norm, ups, malicious, x => x >= m) == set j: nat | j < |ups| && j !in malicious && norm(ups[j]) >= m;
    MiddleIsHonest(norm, ups, malicious, m);
  }

  lemma MiddleIsHonest(norm: Norm, ups: seq<Mat>, malicious: set<nat>, m: real)
    requires IsMiddle(NormsOf(norm, Others(ups, malicious)), m)
    ensures IsHonestMiddle(norm, ups, malicious, m)
  {
    var es := NormsOf(norm, Others(ups, malicious));
    KeptNorms(norm, ups, malicious, x => true);
    hide Others, NormsOf, CountOf, HonestRank;
    var n := |es|;
    if n % 2 == 1 {
      var i: nat :| HasRank(es, i, n / 2) && m == es[i];
      var j := RankCarries(norm, ups, malicious, i, n / 2);
    } else {
      var i: nat, j: nat :| HasRank(es, i, n / 2 - 1) && HasRank(es, j, n / 2) && m == (es[i] + es[j]) / 2.0;
      var i' := RankCarries(norm, ups, malicious, i, n / 2 - 1);
      var j' := RankCarries(norm, ups, malicious, j, n / 2);
    }
  }

  // ----- When there is nothing to match -----

  lemma NobodyHonestExactly(malicious: set<nat>, clients: nat)
    ensures NobodyHonest(malicious, clients) <==> clients > 0 && forall k: nat :: k in malicious <==> k < clients
  {
    if clients > 0 && forall k: nat :: k in malicious <==> k < clients {
      assert 0 in malicious;
    }
  }

  lemma {:induction false} NoSquaresExactly(m: Mat, p: nat, s: nat)
    requires IsMat(m, p, s)
    ensures SumOfSquares(m) >= 0.0 && (SumOfSquares(m) == 0.0 <==> m == ZeroMat(p, s))
    decreases p
  {
    if p > 0 {
      NoSquaresExactly(m[..p - 1], p - 1, s);
      SquareNorm(m[p - 1]);
      DotZeros(Zeros(s));
      assert ZeroMat(p, s)[..p - 1] == ZeroMat(p - 1, s);
      assert m == m[..p - 1] + [m[p - 1]];
      assert ZeroMat(p, s) == ZeroMat(p - 1, s) + [Zeros(s)];
    }
  }

  /** A round turns NaN exactly when some upload is not zero. */
  lemma AnyPositiveExactly(norm: Norm, ups: seq<Mat>, p: nat, s: nat)
    requires IsNorm(norm) && IsMats(ups, p, s)
    ensures AnyPositive(norm, ups) <==> exists k :: 0 <= k < |ups| && ups[k] != ZeroMat(p, s)
  {
    forall k | 0 <= k < |ups|
      ensures norm(ups[k]) > 0.0 <==> ups[k] != ZeroMat(p, s)
    {
      NoSquaresExactly(ups[k], p, s);
      assert IsRoot(norm(ups[k]), SumOfSquares(ups[k]));
      SquareLaws(norm(ups[k]));
      TimesLaws(norm(ups[k]), 0.0, 0.0);
      hide SumOfSquares, ZeroMat;
    }
  }
}
