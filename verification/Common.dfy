/** Vocabulary shared by the models: optional values, raised errors, and the
    sums and maxima that numpy supplies to the original loops. */
module Common {

  /** `None` stands for a NaN table entry or an absent value. */
  datatype Option<+T> = None | Some(value: T) {
    function GetOr(default: T): T {
      if Some? then value else default
    }
  }

  /** `Err` stands for a raised exception. */
  datatype Result<+T> = Ok(value: T) | Err(error: string)

  function Max(x: int, y: int): int {
    if x < y then y else x
  }

  function Min(x: int, y: int): int {
    if x < y then x else y
  }

  function MinReal(x: real, y: real): real {
    if x < y then x else y
  }

  function MaxReal(x: real, y: real): real {
    if x < y then y else x
  }

  function Abs(x: real): real {
    if x < 0.0 then -x else x
  }

  /** Python's round on a real: to the nearest integer, ties to even. */
  function RoundHalfEven(x: real): (n: int)
    ensures -0.5 <= x - n as real <= 0.5
  {
    var f := x.Floor;
    var d := x - f as real;
    if d < 0.5 || (d == 0.5 && f % 2 == 0) then f else f + 1
  }

  /** The random stream: position `i` holds a uniform draw and an arbitrary index
      draw, and every rng call consumes one position. */
  datatype Draws = Draws(uniform: nat -> real, index: nat -> nat)

  /** An element drawn from a non-empty list by an arbitrary index draw. */
  function Pick<T>(s: seq<T>, draw: nat): (x: T)
    requires |s| > 0
    ensures x in s
  {
    s[draw % |s|]
  }

  lemma PickInOrder<T>(s: seq<T>, i: nat)
    requires i < |s|
    ensures Pick(s, i) == s[i]
  {
    SmallRemainder(i, |s|);
  }

  lemma SmallRemainder(i: nat, n: nat)
    requires i < n
    ensures i % n == i
  {
  }

  /** numpy's argmax: the first index attaining the maximum. */
  function ArgMax(row: seq<real>): (r: nat)
    requires |row| > 0
    ensures r < |row|
    ensures forall j :: 0 <= j < |row| ==> row[j] <= row[r]
    ensures forall j :: 0 <= j < r ==> row[j] < row[r]
  {
    if |row| == 1 then 0
    else
      var i := ArgMax(row[..|row| - 1]);
      if row[i] < row[|row| - 1] then |row| - 1 else i
  }

  /** numpy's argmin: the first index attaining the minimum. */
  function ArgMin(row: seq<real>): (r: nat)
    requires |row| > 0
    ensures r < |row|
    ensures forall j :: 0 <= j < |row| ==> row[r] <= row[j]
    ensures forall j :: 0 <= j < r ==> row[r] < row[j]
  {
    if |row| == 1 then 0
    else
      var i := ArgMin(row[..|row| - 1]);
      if row[|row| - 1] < row[i] then |row| - 1 else i
  }

  function Sum(s: seq<real>): real {
    if s == [] then 0.0 else Sum(s[..|s| - 1]) + s[|s| - 1]
  }

  function Mean(s: seq<real>): real
    requires |s| > 0
  {
    Sum(s) / (|s| as real)
  }

  lemma {:induction false} SumConcat(a: seq<real>, b: seq<real>)
    ensures Sum(a + b) == Sum(a) + Sum(b)
  {
    if b == [] {
      assert a + b == a;
    } else {
      var n := |b| - 1;
      assert (a + b)[..|a + b| - 1] == a + b[..n];
      SumConcat(a, b[..n]);
    }
  }

  /** Deleting the entry at an arbitrary position subtracts exactly that entry. */
  lemma {:induction false} SumRemove(s: seq<real>, k: nat)
    requires k < |s|
    ensures Sum(s[..k] + s[k + 1..]) == Sum(s) - s[k]
  {
    SumConcat(s[..k], s[k + 1..]);
    SumConcat(s[..k + 1], s[k + 1..]);
    assert s == s[..k + 1] + s[k + 1..];
    assert s[..k + 1][..k] == s[..k];
  }

  /** The indexes at which the mask is set, in order. */
  function Flatnonzero(mask: seq<bool>): (r: seq<nat>)
    ensures forall b: nat :: b in r <==> (b < |mask| && mask[b])
  {
    if mask == [] then []
    else
      var n := |mask| - 1;
      Flatnonzero(mask[..n]) + if mask[n] then [n] else []
  }

  ghost predicate Increasing(s: seq<nat>) {
    forall i, j :: 0 <= i < j < |s| ==> s[i] < s[j]
  }

  lemma {:induction false} FlatnonzeroIncreasing(mask: seq<bool>)
    ensures Increasing(Flatnonzero(mask))
  {
    if mask != [] {
      var n := |mask| - 1;
      FlatnonzeroIncreasing(mask[..n]);
      var r, r' := Flatnonzero(mask[..n]), Flatnonzero(mask);
      forall i, j | 0 <= i < j < |r'|
        ensures r'[i] < r'[j]
      {
        assert r[i] in r;
        assert j < |r| ==> r'[j] == r[j];
      }
    }
  }
}
