/** The median as a function of one of its values: it follows the value between the two middle ones
    of the others and stands still outside. */
module OrderStatistics {
  import opened Common
  import opened SuffStats
  import opened Federation

  lemma {:induction false} InsertCommutes(x: real, y: real, s: seq<real>)
    ensures Insert(x, Insert(y, s)) == Insert(y, Insert(x, s))
  {
    if s != [] {
      InsertCommutes(x, y, s[1..]);
    }
  }

  /** Sorting after a replacement is inserting into the others, sorted. */
  lemma {:induction false} SortedReplaced(es: seq<real>, k: nat, x: real)
    requires k < |es|
    ensures Sorted(es[k := x]) == Insert(x, Sorted(RemoveAt(es, k)))
  {
    if k == 0 {
      assert es[0 := x][1..] == es[1..] == RemoveAt(es, 0);
    } else {
      var others := Sorted(RemoveAt(es[1..], k - 1));
      SortedReplaced(es[1..], k - 1, x);
      assert es[k := x][1..] == es[1..][k - 1 := x];
      assert RemoveAt(es, k)[0] == es[0] && RemoveAt(es, k)[1..] == RemoveAt(es[1..], k - 1);
      InsertCommutes(es[0], x, others);
    }
  }

  function Between(x: real, lo: real, hi: real): real {
    MinReal(MaxReal(x, lo), hi)
  }

  /** What stands at position `j` once `x` is inserted. */
  function Landing(o: seq<real>, j: nat, x: real): real
    requires j <= |o|
  {
    if |o| == 0 then x
    else if j == 0 then MinReal(x, o[0])
    else if j == |o| then MaxReal(x, o[j - 1])
    else Between(x, o[j - 1], o[j])
  }

  lemma {:induction false} InsertedAt(o: seq<real>, j: nat, x: real)
    requires Ascending(o) && j <= |o|
    ensures Insert(x, o)[j] == Landing(o, j, x)
  {
    if o != [] && x > o[0] {
      assert Insert(x, o) == [o[0]] + Insert(x, o[1..]);
      if j > 0 {
        InsertedAt(o[1..], j - 1, x);
        LandsAlike(o, j, x);
      }
    } else {
      assert Insert(x, o) == [x] + o;
    }
  }

  lemma LandsAlike(o: seq<real>, j: nat, x: real)
    requires 0 < j <= |o| && x > o[0]
    ensures Landing(o[1..], j - 1, x) == Landing(o, j, x)
  {
  }

  /** `x`, confined to the two middle values of the others. */
  function Confined(o: seq<real>, x: real): real {
    if |o| < 2 then x else Between(x, o[|o| / 2 - 1], o[(|o| + 1) / 2])
  }

  /** The median of the others and `x`. */
  function Settled(o: seq<real>, x: real): real {
    if |o| % 2 == 0 then Confined(o, x) else (o[|o| / 2] + Confined(o, x)) / 2.0
  }

  /** The other values, in ascending order. */
  function OthersSorted(es: seq<real>, k: nat): (o: seq<real>)
    requires k < |es|
    ensures |o| == |es| - 1
  {
    Sorted(RemoveAt(es, k))
  }

  /** The median once value `k` is replaced by `x`, for odd and even numbers of values. */
  lemma MedianReplaced(es: seq<real>, k: nat, x: real)
    requires k < |es|
    ensures Ascending(OthersSorted(es, k)) && Median(es[k := x]) == Settled(OthersSorted(es, k), x)
  {
    var o := OthersSorted(es, k);
    var half := |es| / 2;
    SortedReplaced(es, k, x);
    SortedIsOrdered(RemoveAt(es, k));
    InsertedAt(o, half, x);
    if |es| % 2 == 0 {
      InsertedAt(o, half - 1, x);
    }
    hide Sorted, Insert;
    MiddleLands(o, x);
  }

  lemma MiddleLands(o: seq<real>, x: real)
    requires Ascending(o)
    ensures var n := |o| + 1;
            Settled(o, x) == if n % 2 == 1 then Landing(o, n / 2, x) else (Landing(o, n / 2 - 1, x) + Landing(o, n / 2, x)) / 2.0
  {
  }

  /** The same side of the middle: where a change of the value is not felt. */
  predicate SameSide(o: seq<real>, x: real, y: real) {
    x == y ||
    (|o| >= 2 && var lo, hi := o[|o| / 2 - 1], o[(|o| + 1) / 2];
     lo == hi || (x <= lo && y <= lo) || (x >= hi && y >= hi))
  }

  /** Replacing one value leaves the median where it was exactly when it stays on its side of the
      middle of the others. */
  lemma MedianUnmovedExactly(es: seq<real>, k: nat, x: real)
    requires k < |es|
    ensures Median(es[k := x]) == Median(es) <==> SameSide(OthersSorted(es, k), x, es[k])
  {
    MedianReplaced(es, k, x);
    MedianReplaced(es, k, es[k]);
    assert es[k := es[k]] == es;
    hide Median, OthersSorted;
    ConfinedAlike(OthersSorted(es, k), x, es[k]);
  }

  lemma ConfinedAlike(o: seq<real>, x: real, y: real)
    requires Ascending(o)
    ensures Settled(o, x) == Settled(o, y) <==> SameSide(o, x, y)
  {
  }

  /** It moves by half the confined change for an even number of values, by all of it for an odd one. */
  lemma MedianMoves(es: seq<real>, k: nat, x: real)
    requires k < |es|
    ensures var o := OthersSorted(es, k);
            var moved := Confined(o, x) - Confined(o, es[k]);
            Median(es[k := x]) - Median(es) == if |es| % 2 == 1 then moved else moved / 2.0
  {
    hide Median, OthersSorted, Confined, Settled;
    MedianReplaced(es, k, x);
    MedianReplaced(es, k, es[k]);
    assert es[k := es[k]] == es;
    SettledMoves(OthersSorted(es, k), x, es[k]);
  }

  lemma SettledMoves(o: seq<real>, x: real, y: real)
    ensures var moved := Confined(o, x) - Confined(o, y);
            Settled(o, x) - Settled(o, y) == if |o| % 2 == 0 then moved else moved / 2.0
  {
    hide Confined;
    if |o| % 2 != 0 {
      Halves(o[|o| / 2], Confined(o, x), Confined(o, y));
    }
  }

  lemma Halves(a: real, x: real, y: real)
    ensures (a + x) / 2.0 - (a + y) / 2.0 == (x - y) / 2.0
  {
  }

  // ----- Ranks -----

  /** How many values satisfy `p`. */
  function CountOf(es: seq<real>, p: real -> bool): (n: nat)
    ensures n <= |es|
  {
    if es == [] then 0 else CountOf(es[..|es| - 1], p) + if p(es[|es| - 1]) then 1 else 0
  }

  ghost function IndexesOf(es: seq<real>, p: real -> bool): set<nat> {
    set i: nat | i < |es| && p(es[i])
  }

  lemma {:induction false} CountIsCardinality(es: seq<real>, p: real -> bool)
    ensures CountOf(es, p) == |IndexesOf(es, p)|
  {
    if es == [] {
      assert IndexesOf(es, p) == {};
    } else {
      var n := |es| - 1;
      CountIsCardinality(es[..n], p);
      var before := IndexesOf(es[..n], p);
      assert IndexesOf(es, p) == if p(es[n]) then before + {n} else before;
    }
  }

  lemma {:induction false} CountOfConcat(a: seq<real>, b: seq<real>, p: real -> bool)
    ensures CountOf(a + b, p) == CountOf(a, p) + CountOf(b, p)
  {
    if b == [] {
      assert a + b == a;
    } else {
      var n := |b| - 1;
      CountOfConcat(a, b[..n], p);
      assert (a + b)[..|a + b| - 1] == a + b[..n];
    }
  }

  lemma {:induction false} CountOfInserted(x: real, s: seq<real>, p: real -> bool)
    ensures CountOf(Insert(x, s), p) == CountOf(s, p) + if p(x) then 1 else 0
  {
    CountOfConcat([x], s, p);
    assert CountOf([x], p) == if p(x) then 1 else 0;
    if s != [] && x > s[0] {
      CountOfInserted(x, s[1..], p);
      CountOfConcat([s[0]], Insert(x, s[1..]), p);
      CountOfConcat([s[0]], s[1..], p);
      assert s == [s[0]] + s[1..];
    }
  }

  lemma {:induction false} CountOfSorted(es: seq<real>, p: real -> bool)
    ensures CountOf(Sorted(es), p) == CountOf(es, p)
  {
    if es != [] {
      CountOfSorted(es[1..], p);
      CountOfInserted(es[0], Sorted(es[1..]), p);
      CountOfConcat([es[0]], es[1..], p);
      assert CountOf([es[0]], p) == if p(es[0]) then 1 else 0;
      assert es == [es[0]] + es[1..];
    }
  }

  /** Value `i` has rank `r`: at most `r` values are smaller, and more than `r` are no larger. */
  ghost predicate HasRank(es: seq<real>, i: nat, r: nat) {
    i < |es| && |set k: nat | k < |es| && es[k] < es[i]| <= r < |set k: nat | k < |es| && es[k] <= es[i]|
  }

  lemma {:induction false} CountOfFront(o: seq<real>, r: nat, p: real -> bool)
    requires r <= |o| && forall i :: 0 <= i < r ==> p(o[i])
    ensures CountOf(o, p) >= r
  {
    if o != [] {
      CountOfFront(o[..|o| - 1], Min(r, |o| - 1), p);
    }
  }

  lemma {:induction false} CountOfBack(o: seq<real>, r: nat, p: real -> bool)
    requires r <= |o| && forall i :: r <= i < |o| ==> p(o[i])
    ensures CountOf(o, p) >= |o| - r
  {
    if r < |o| {
      CountOfBack(o[..|o| - 1], r, p);
    }
  }

  lemma {:induction false} CountOutsideBack(o: seq<real>, r: nat, p: real -> bool)
    requires r <= |o| && forall i :: r <= i < |o| ==> !p(o[i])
    ensures CountOf(o, p) <= r
  {
    if r < |o| {
      CountOutsideBack(o[..|o| - 1], r, p);
    }
  }

  /** As many values satisfy `p` before sorting as after. */
  lemma CardinalityOfSorted(es: seq<real>, p: real -> bool)
    ensures |IndexesOf(es, p)| == CountOf(Sorted(es), p)
  {
    CountOfSorted(es, p);
    CountIsCardinality(es, p);
  }

  lemma RankOfPlace(o: seq<real>, r: nat)
    requires Ascending(o) && r < |o|
    ensures CountOf(o, x => x < o[r]) <= r < CountOf(o, x => x <= o[r])
  {
    CountOutsideBack(o, r, x => x < o[r]);
    CountOfFront(o, r + 1, x => x <= o[r]);
  }

  /** Sorting puts a value of every rank in its place. */
  lemma RankedAt(es: seq<real>, r: nat) returns (i: nat)
    requires r < |es|
    ensures HasRank(es, i, r) && es[i] == Sorted(es)[r]
  {
    var v := Sorted(es)[r];
    SortedIsOrdered(es);
    assert v in multiset(Sorted(es)) && v in es;
    i :| 0 <= i < |es| && es[i] == v;
    hide Sorted, CountOf;
    RankOfPlace(Sorted(es), r);
    CardinalityOfSorted(es, x => x < v);
    CardinalityOfSorted(es, x => x <= v);
    assert IndexesOf(es, x => x < v) == set k: nat | k < |es| && es[k] < es[i];
    assert IndexesOf(es, x => x <= v) == set k: nat | k < |es| && es[k] <= es[i];
  }

  /** The value of a rank, or the middle of the values of two neighbouring ones. */
  ghost predicate IsMiddle(es: seq<real>, m: real) {
    var n := |es|;
    if n % 2 == 1 then exists i: nat :: HasRank(es, i, n / 2) && m == es[i]
    else n > 0 && exists i: nat, j: nat :: HasRank(es, i, n / 2 - 1) && HasRank(es, j, n / 2) && m == (es[i] + es[j]) / 2.0
  }

  /** The median in ranks, with no sorting in it. */
  lemma MedianIsMiddle(es: seq<real>)
    requires es != []
    ensures IsMiddle(es, Median(es))
  {
    hide HasRank, Sorted;
    var n := |es|;
    var j := RankedAt(es, n / 2);
    if n % 2 == 0 {
      var i := RankedAt(es, n / 2 - 1);
    }
  }

  lemma MedianInPlace(o: seq<real>, m: real)
    requires Ascending(o) && o != []
    requires m == if |o| % 2 == 1 then o[|o| / 2] else (o[|o| / 2 - 1] + o[|o| / 2]) / 2.0
    ensures 2 * CountOf(o, x => x <= m) >= |o| && 2 * CountOf(o, x => x >= m) >= |o|
  {
    var half := |o| / 2;
    CountOfFront(o, |o| - half, x => x <= m);
    CountOfBack(o, half, x => x >= m);
  }

  /** At least half of the values are no larger than it, and at least half are no smaller. */
  lemma MedianSplits(es: seq<real>)
    requires es != []
    ensures var m := Median(es);
            && 2 * |set k: nat | k < |es| && es[k] <= m| >= |es|
            && 2 * |set k: nat | k < |es| && es[k] >= m| >= |es|
  {
    hide Sorted, CountOf;
    var m := Median(es);
    SortedIsOrdered(es);
    MedianInPlace(Sorted(es), m);
    CardinalityOfSorted(es, x => x <= m);
    CardinalityOfSorted(es, x => x >= m);
    assert IndexesOf(es, x => x <= m) == set k: nat | k < |es| && es[k] <= m;
    assert IndexesOf(es, x => x >= m) == set k: nat | k < |es| && es[k] >= m;
  }
}
