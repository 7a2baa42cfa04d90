/** The recursive comparison of a reproduced document with the committed one
    (scripts/verify_deepmimo_reproduction.py). Acceptance is a predicate; every
    raised assertion is a rejection. */
module Reproduction {
  import opened Common

  datatype FloatValue = Finite(value: real) | NaN | PosInf | NegInf

  datatype Json =
    | Null
    | Bool(b: bool)
    | Int(n: int)
    | Float(x: FloatValue)
    | Str(s: string)
    | Arr(items: seq<Json>)
    | Obj(fields: map<string, Json>)

  const FEATURE_HASH := "features_sha256"
  const RUNTIME_BLOCK := "runtime"

  /** Keys both documents must have but whose values are not compared. */
  predicate Uncompared(key: string) {
    key == FEATURE_HASH || key == RUNTIME_BLOCK
  }

  /** A number as a float; a bool is not a number here. */
  function Numeric(j: Json): Option<FloatValue> {
    match j
    case Int(n) => Some(Finite(n as real))
    case Float(x) => Some(x)
    case _ => None
  }

  predicate IsClose(expected: FloatValue, actual: FloatValue, tolerance: real) {
    expected.Finite? && actual.Finite? && Abs(expected.value - actual.value) <= tolerance
  }

  /** The recursive comparison, for the nonnegative tolerances its caller admits. */
  predicate Accepts(expected: Json, actual: Json, tolerance: real)
    requires tolerance >= 0.0
    decreases expected
  {
    match expected
    case Obj(fields) =>
      && actual.Obj? && fields.Keys == actual.fields.Keys
      && forall key :: key in fields.Keys && !Uncompared(key) ==> Accepts(fields[key], actual.fields[key], tolerance)
    case Arr(items) =>
      && actual.Arr? && |items| == |actual.items|
      && forall i :: 0 <= i < |items| ==> Accepts(items[i], actual.items[i], tolerance)
    case Float(x) => Numeric(actual).Some? && IsClose(x, Numeric(actual).value, tolerance)
    case _ => actual == expected
  }

  /** Every float at a compared position is finite. */
  predicate ComparedFloatsFinite(j: Json)
    decreases j
  {
    match j
    case Obj(fields) => forall key :: key in fields.Keys && !Uncompared(key) ==> ComparedFloatsFinite(fields[key])
    case Arr(items) => forall i :: 0 <= i < |items| ==> ComparedFloatsFinite(items[i])
    case Float(x) => x.Finite?
    case _ => true
  }

  /** No compared position holds a float in `a` and an int in `b`. */
  predicate SameNumberKinds(a: Json, b: Json)
    decreases a
  {
    match a
    case Obj(fields) =>
      b.Obj? ==> forall key :: key in fields.Keys && key in b.fields.Keys && !Uncompared(key) ==>
                   SameNumberKinds(fields[key], b.fields[key])
    case Arr(items) =>
      b.Arr? ==> forall i :: 0 <= i < |items| && i < |b.items| ==> SameNumberKinds(items[i], b.items[i])
    case Float(_) => !b.Int?
    case _ => true
  }

  /** Drift adds up: comparing along a chain of reproductions loses nothing but tolerance. */
  lemma {:induction false} AcceptanceComposes(a: Json, b: Json, c: Json, t1: real, t2: real)
    requires t1 >= 0.0 && t2 >= 0.0 && Accepts(a, b, t1) && Accepts(b, c, t2)
    ensures Accepts(a, c, t1 + t2)
    decreases a
  {
    match a
    case Obj(fields) =>
      forall key | key in fields.Keys && !Uncompared(key)
        ensures Accepts(fields[key], c.fields[key], t1 + t2)
      {
        AcceptanceComposes(fields[key], b.fields[key], c.fields[key], t1, t2);
      }
    case Arr(items) =>
      forall i | 0 <= i < |items|
        ensures Accepts(items[i], c.items[i], t1 + t2)
      {
        AcceptanceComposes(items[i], b.items[i], c.items[i], t1, t2);
      }
    case _ =>
  }

  lemma {:induction false} AcceptanceIsMonotone(a: Json, b: Json, t1: real, t2: real)
    requires 0.0 <= t1 <= t2 && Accepts(a, b, t1)
    ensures Accepts(a, b, t2)
    decreases a
  {
    match a
    case Obj(fields) =>
      forall key | key in fields.Keys && !Uncompared(key)
        ensures Accepts(fields[key], b.fields[key], t2)
      {
        AcceptanceIsMonotone(fields[key], b.fields[key], t1, t2);
      }
    case Arr(items) =>
      forall i | 0 <= i < |items|
        ensures Accepts(items[i], b.items[i], t2)
      {
        AcceptanceIsMonotone(items[i], b.items[i], t1, t2);
      }
    case _ =>
  }

  /** A document reproduces itself exactly when every compared float is finite. */
  lemma {:induction false} AcceptsItself(a: Json, tolerance: real)
    requires tolerance >= 0.0
    ensures Accepts(a, a, tolerance) <==> ComparedFloatsFinite(a)
    decreases a
  {
    match a
    case Obj(fields) =>
      forall key | key in fields.Keys && !Uncompared(key)
        ensures Accepts(fields[key], fields[key], tolerance) <==> ComparedFloatsFinite(fields[key])
      {
        AcceptsItself(fields[key], tolerance);
      }
    case Arr(items) =>
      forall i | 0 <= i < |items|
        ensures Accepts(items[i], items[i], tolerance) <==> ComparedFloatsFinite(items[i])
      {
        AcceptsItself(items[i], tolerance);
      }
    case _ =>
  }

  /** Acceptance can be turned around exactly when no float was matched by an int. */
  lemma {:induction false} SymmetryExactly(a: Json, b: Json, tolerance: real)
    requires tolerance >= 0.0 && Accepts(a, b, tolerance)
    ensures Accepts(b, a, tolerance) <==> SameNumberKinds(a, b)
    decreases a
  {
    match a
    case Obj(fields) =>
      forall key | key in fields.Keys && !Uncompared(key)
        ensures Accepts(b.fields[key], fields[key], tolerance) <==> SameNumberKinds(fields[key], b.fields[key])
      {
        SymmetryExactly(fields[key], b.fields[key], tolerance);
      }
    case Arr(items) =>
      forall i | 0 <= i < |items|
        ensures Accepts(b.items[i], items[i], tolerance) <==> SameNumberKinds(items[i], b.items[i])
      {
        SymmetryExactly(items[i], b.items[i], tolerance);
      }
    case _ =>
  }

  lemma AcceptanceIsNotSymmetric()
    ensures Accepts(Float(Finite(1.0)), Int(1), 0.0) && !Accepts(Int(1), Float(Finite(1.0)), 0.0)
  {
    assert 1 as real == 1.0;
  }

  // ----- The comparison, position by position -----

  datatype Step = Key(key: string) | Index(i: nat)

  /** The value at a path, if the document has one. */
  function At(j: Json, path: seq<Step>): Option<Json>
    decreases |path|
  {
    if path == [] then Some(j)
    else
      match path[0]
      case Key(key) => if j.Obj? && key in j.fields then At(j.fields[key], path[1..]) else None
      case Index(i) => if j.Arr? && i < |j.items| then At(j.items[i], path[1..]) else None
  }

  /** A path that goes through no uncompared key. */
  predicate Compared(path: seq<Step>) {
    forall k :: 0 <= k < |path| ==> path[k].Key? ==> !Uncompared(path[k].key)
  }

  /** What one position demands: the same keys, the same length, the same scalar, a float within tolerance. */
  predicate PositionMatches(a: Json, b: Json, tolerance: real) {
    match a
    case Obj(fields) => b.Obj? && fields.Keys == b.fields.Keys
    case Arr(items) => b.Arr? && |items| == |b.items|
    case Float(x) => Numeric(b).Some? && IsClose(x, Numeric(b).value, tolerance)
    case _ => b == a
  }

  ghost predicate MatchesEverywhere(a: Json, b: Json, tolerance: real) {
    forall path :: Compared(path) && At(a, path).Some? ==> MatchesAt(a, b, path, tolerance)
  }

  predicate MatchesAt(a: Json, b: Json, path: seq<Step>, tolerance: real)
    requires At(a, path).Some?
  {
    At(b, path).Some? && PositionMatches(At(a, path).value, At(b, path).value, tolerance)
  }

  /** The recursion accepts exactly the documents that match at every compared position. */
  lemma {:induction false} AcceptsByPosition(a: Json, b: Json, tolerance: real)
    requires tolerance >= 0.0
    ensures Accepts(a, b, tolerance) <==> MatchesEverywhere(a, b, tolerance)
  {
    if Accepts(a, b, tolerance) {
      forall path | Compared(path) && At(a, path).Some?
        ensures MatchesAt(a, b, path, tolerance)
      {
        AcceptedAt(a, b, path, tolerance);
      }
    }
    if MatchesEverywhere(a, b, tolerance) {
      MatchedIsAccepted(a, b, tolerance);
    }
  }

  lemma {:induction false} AcceptedAt(a: Json, b: Json, path: seq<Step>, tolerance: real)
    requires tolerance >= 0.0 && Accepts(a, b, tolerance) && Compared(path) && At(a, path).Some?
    ensures MatchesAt(a, b, path, tolerance)
    decreases |path|
  {
    if path != [] {
      assert path[0].Key? ==> !Uncompared(path[0].key);
      match path[0]
      case Key(key) => AcceptedAt(a.fields[key], b.fields[key], path[1..], tolerance);
      case Index(i) => AcceptedAt(a.items[i], b.items[i], path[1..], tolerance);
    }
  }

  lemma {:induction false} MatchedIsAccepted(a: Json, b: Json, tolerance: real)
    requires tolerance >= 0.0 && MatchesEverywhere(a, b, tolerance)
    ensures Accepts(a, b, tolerance)
    decreases a
  {
    assert MatchesAt(a, b, [], tolerance);
    match a
    case Obj(fields) =>
      forall key | key in fields.Keys && !Uncompared(key)
        ensures Accepts(fields[key], b.fields[key], tolerance)
      {
        Descend(a, b, Key(key), fields[key], b.fields[key], tolerance);
        MatchedIsAccepted(fields[key], b.fields[key], tolerance);
      }
    case Arr(items) =>
      forall i | 0 <= i < |items|
        ensures Accepts(items[i], b.items[i], tolerance)
      {
        Descend(a, b, Index(i), items[i], b.items[i], tolerance);
        MatchedIsAccepted(items[i], b.items[i], tolerance);
      }
    case _ =>
  }

  lemma Descend(a: Json, b: Json, step: Step, a': Json, b': Json, tolerance: real)
    requires MatchesEverywhere(a, b, tolerance) && Compared([step])
    requires At(a, [step]) == Some(a') && At(b, [step]) == Some(b')
    ensures MatchesEverywhere(a', b', tolerance)
  {
    forall path | Compared(path) && At(a', path).Some?
      ensures MatchesAt(a', b', path, tolerance)
    {
      var longer := [step] + path;
      assert longer[1..] == path && [step][1..] == [];
      assert At(a, longer) == At(a', path) && At(b, longer) == At(b', path);
      assert Compared(longer);
      assert MatchesAt(a, b, longer, tolerance);
    }
  }

  // ----- Whole documents -----

  predicate IsSha256(s: string) {
    |s| == 64 && forall i :: 0 <= i < |s| ==> '0' <= s[i] <= '9' || 'a' <= s[i] <= 'f'
  }

  /** The manifest names a feature file and the result is bound to that very file. */
  predicate FeatureBound(manifest: map<string, Json>, result: map<string, Json>) {
    && FEATURE_HASH in manifest && manifest[FEATURE_HASH].Str? && IsSha256(manifest[FEATURE_HASH].s)
    && FEATURE_HASH in result && result[FEATURE_HASH] == manifest[FEATURE_HASH]
  }

  datatype Documents = Documents(manifest: map<string, Json>, result: map<string, Json>)

  /** A tolerance the verifier works with; any other is a usage error. */
  predicate IsTolerance(t: FloatValue) {
    t.Finite? && t.value >= 0.0
  }

  predicate VerifyDocuments(expected: Documents, actual: Documents, tolerance: FloatValue) {
    && IsTolerance(tolerance)
    && FeatureBound(expected.manifest, expected.result)
    && FeatureBound(actual.manifest, actual.result)
    && Accepts(Obj(expected.manifest), Obj(actual.manifest), tolerance.value)
    && Accepts(Obj(expected.result), Obj(actual.result), tolerance.value)
  }

  /** Verification composes over hosts: each host binds its own feature file, and tolerances add. */
  lemma VerificationComposes(a: Documents, b: Documents, c: Documents, t1: real, t2: real)
    requires VerifyDocuments(a, b, Finite(t1)) && VerifyDocuments(b, c, Finite(t2))
    ensures VerifyDocuments(a, c, Finite(t1 + t2))
  {
    AcceptanceComposes(Obj(a.manifest), Obj(b.manifest), Obj(c.manifest), t1, t2);
    AcceptanceComposes(Obj(a.result), Obj(b.result), Obj(c.result), t1, t2);
  }

  /** A committed pair verifies against itself exactly when it is bound and its compared floats are finite. */
  lemma SelfVerification(d: Documents, tolerance: FloatValue)
    ensures VerifyDocuments(d, d, tolerance) <==>
            && IsTolerance(tolerance) && FeatureBound(d.manifest, d.result)
            && ComparedFloatsFinite(Obj(d.manifest)) && ComparedFloatsFinite(Obj(d.result))
  {
    if IsTolerance(tolerance) {
      AcceptsItself(Obj(d.manifest), tolerance.value);
      AcceptsItself(Obj(d.result), tolerance.value);
    }
  }

  /** The hash itself never has to match: rebinding both files to another feature
      file is accepted at every tolerance. */
  lemma HashIsFree(d: Documents, hash: string, tolerance: real)
    requires tolerance >= 0.0 && IsSha256(hash) && FeatureBound(d.manifest, d.result)
    requires ComparedFloatsFinite(Obj(d.manifest)) && ComparedFloatsFinite(Obj(d.result))
    ensures var d' := Documents(d.manifest[FEATURE_HASH := Str(hash)], d.result[FEATURE_HASH := Str(hash)]);
            VerifyDocuments(d, d', Finite(tolerance))
  {
    SwapHash(d.manifest, hash, tolerance);
    SwapHash(d.result, hash, tolerance);
  }

  lemma SwapHash(fields: map<string, Json>, hash: string, tolerance: real)
    requires tolerance >= 0.0 && FEATURE_HASH in fields && ComparedFloatsFinite(Obj(fields))
    ensures Accepts(Obj(fields), Obj(fields[FEATURE_HASH := Str(hash)]), tolerance)
  {
    var fields' := fields[FEATURE_HASH := Str(hash)];
    assert fields'.Keys == fields.Keys;
    forall key | key in fields.Keys && !Uncompared(key)
      ensures Accepts(fields[key], fields'[key], tolerance)
    {
      AcceptsItself(fields[key], tolerance);
    }
  }

  // ----- What verification demands -----

  /** Verification succeeds exactly for a finite tolerance of at least zero, two files that carry one
      lowercase hash of 64 digits on either host, and documents that match everywhere. */
  lemma VerificationExactly(expected: Documents, actual: Documents, tolerance: FloatValue)
    ensures VerifyDocuments(expected, actual, tolerance)
            <==> && (exists t: real :: t >= 0.0 && tolerance == Finite(t)
                                       && MatchesEverywhere(Obj(expected.manifest), Obj(actual.manifest), t)
                                       && MatchesEverywhere(Obj(expected.result), Obj(actual.result), t))
                 && (exists hash :: CarriesHash(expected, hash)) && (exists hash :: CarriesHash(actual, hash))
  {
    BoundExactly(expected);
    BoundExactly(actual);
    if IsTolerance(tolerance) {
      AcceptsByPosition(Obj(expected.manifest), Obj(actual.manifest), tolerance.value);
      AcceptsByPosition(Obj(expected.result), Obj(actual.result), tolerance.value);
    }
  }

  /** Manifest and result carry the same hash, 64 characters out of sixteen. */
  predicate CarriesHash(d: Documents, hash: string) {
    && |hash| == 64 && (forall c :: c in hash ==> c in "0123456789abcdef")
    && "features_sha256" in d.manifest && d.manifest["features_sha256"] == Str(hash)
    && "features_sha256" in d.result && d.result["features_sha256"] == Str(hash)
  }

  lemma BoundExactly(d: Documents)
    ensures FeatureBound(d.manifest, d.result) <==> exists hash :: CarriesHash(d, hash)
  {
    forall hash: string
      ensures IsSha256(hash) <==> |hash| == 64 && forall c :: c in hash ==> c in "0123456789abcdef"
    {
      DigitsExactly(hash);
    }
    if FeatureBound(d.manifest, d.result) {
      assert CarriesHash(d, d.manifest[FEATURE_HASH].s);
    }
  }

  lemma DigitsExactly(hash: string)
    ensures (forall i :: 0 <= i < |hash| ==> '0' <= hash[i] <= '9' || 'a' <= hash[i] <= 'f')
            <==> forall c :: c in hash ==> c in "0123456789abcdef"
  {
    var digits := "0123456789abcdef";
    forall c: char
      ensures c in digits <==> '0' <= c <= '9' || 'a' <= c <= 'f'
    {
      if '0' <= c <= '9' {
        assert digits[c as int - '0' as int] == c;
      } else if 'a' <= c <= 'f' {
        assert digits[10 + c as int - 'a' as int] == c;
      }
    }
    if forall c :: c in hash ==> c in digits {
      forall i | 0 <= i < |hash|
        ensures '0' <= hash[i] <= '9' || 'a' <= hash[i] <= 'f'
      {
        assert hash[i] in digits;
      }
    }
  }

  /** The document with the value at a path replaced. */
  function Put(j: Json, path: seq<Step>, value: Json): Json
    requires At(j, path).Some?
    decreases |path|
  {
    if path == [] then value
    else
      match path[0]
      case Key(key) => Obj(j.fields[key := Put(j.fields[key], path[1..], value)])
      case Index(i) => Arr(j.items[i := Put(j.items[i], path[1..], value)])
  }

  /** The path leads through the feature hash or the runtime block. */
  ghost predicate Exempt(path: seq<Step>) {
    Key("features_sha256") in path || Key("runtime") in path
  }

  /** Changing one value anywhere in a document that reproduces itself is accepted exactly when the path
      is exempt, or the new value reproduces the old one. */
  lemma {:induction false} ChangedValuePasses(j: Json, path: seq<Step>, value: Json, tolerance: real)
    requires tolerance >= 0.0 && At(j, path).Some? && Accepts(j, j, tolerance)
    ensures Accepts(j, Put(j, path, value), tolerance)
            <==> Exempt(path) || Accepts(At(j, path).value, value, tolerance)
    decreases |path|
  {
    if path != [] {
      var rest := path[1..];
      assert path == [path[0]] + rest;
      match path[0]
      case Key(key) =>
        var fields, fields' := j.fields, Put(j, path, value).fields;
        assert fields'.Keys == fields.Keys;
        if !Uncompared(key) {
          ChangedValuePasses(fields[key], rest, value, tolerance);
        }
        assert Accepts(j, Obj(fields'), tolerance)
               <==> forall k :: k in fields.Keys && !Uncompared(k) ==> Accepts(fields[k], fields'[k], tolerance);
      case Index(i) =>
        var items, items' := j.items, Put(j, path, value).items;
        ChangedValuePasses(items[i], rest, value, tolerance);
        assert Accepts(j, Arr(items'), tolerance)
               <==> forall k :: 0 <= k < |items| ==> Accepts(items[k], items'[k], tolerance);
    }
  }

  /** A float anywhere may drift to any float or int within the tolerance and to nothing else. */
  lemma DriftPassesExactly(j: Json, path: seq<Step>, value: Json, tolerance: real)
    requires tolerance >= 0.0 && Accepts(j, j, tolerance)
    requires At(j, path).Some? && At(j, path).value.Float? && At(j, path).value.x.Finite?
    ensures var x := At(j, path).value.x.value;
            Accepts(j, Put(j, path, value), tolerance)
            <==> || Exempt(path)
                 || (exists y :: value == Float(Finite(y)) && x - tolerance <= y <= x + tolerance)
                 || (exists n :: value == Int(n) && x - tolerance <= n as real <= x + tolerance)
  {
    ChangedValuePasses(j, path, value, tolerance);
  }

  /** Text, flags, counts and nulls may not change at all outside the exempt keys. */
  lemma OtherScalarsAreFixed(j: Json, path: seq<Step>, value: Json, tolerance: real)
    requires tolerance >= 0.0 && Accepts(j, j, tolerance) && At(j, path).Some?
    requires !At(j, path).value.Float? && !At(j, path).value.Obj? && !At(j, path).value.Arr?
    ensures Accepts(j, Put(j, path, value), tolerance) <==> Exempt(path) || value == At(j, path).value
  {
    ChangedValuePasses(j, path, value, tolerance);
  }

  /** Leaving out a key, exempt or not, is never accepted, and neither is a further one. */
  lemma KeysAreDemanded(fields: map<string, Json>, fields': map<string, Json>, tolerance: real)
    requires tolerance >= 0.0 && Accepts(Obj(fields), Obj(fields'), tolerance)
    ensures forall key :: key in fields <==> key in fields'
  {
    assert forall key :: key in fields.Keys <==> key in fields'.Keys;
  }
}
