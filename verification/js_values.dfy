/**
 * The JavaScript values the signing server handles: JSON data as parsed by the
 * HTTP layer, `undefined`, and the few language operations the server applies to
 * them (truthiness, `typeof`, `||`, property reads and object spread).
 */
module JsValues {
  import opened Wrappers

  /** A JSON value. Numbers are kept as exact reals: the server never computes with them. */
  datatype Value =
    | Null
    | Bool(b: bool)
    | Num(x: real)
    | Str(s: string)
    | Arr(items: seq<Value>)
    | Obj(props: map<string, Value>)

  /** A value a handler reads: a JSON value, or `undefined` for a missing one. */
  datatype JsValue = Undefined | Def(v: Value)

  /** What a handler can throw: an `Error` with a message, or an engine `TypeError`
      (reading a property of null, calling a method a value does not have). */
  datatype Thrown = Error(message: string) | TypeError

  /** JavaScript truthiness. JSON numbers are never NaN, so only zero is falsy. */
  predicate Truthy(j: JsValue) {
    match j
    case Undefined => false
    case Def(Null) => false
    case Def(Bool(b)) => b
    case Def(Num(x)) => x != 0.0
    case Def(Str(s)) => s != ""
    case Def(Arr(_)) => true
    case Def(Obj(_)) => true
  }

  /** JavaScript's `a || b`. */
  function Or(a: JsValue, b: JsValue): JsValue {
    if Truthy(a) then a else b
  }

  /** JavaScript's `typeof`; note that both null and arrays are "object". */
  function TypeOf(j: JsValue): string {
    match j
    case Undefined => "undefined"
    case Def(Null) => "object"
    case Def(Bool(_)) => "boolean"
    case Def(Num(_)) => "number"
    case Def(Str(_)) => "string"
    case Def(Arr(_)) => "object"
    case Def(Obj(_)) => "object"
  }

  /** Reading `j[key]`: a TypeError on undefined and null, an own property of an
      object, and `undefined` otherwise. The keys the server reads ("payload",
      "publicKey", "data") are not inherited by strings, arrays, numbers or booleans. */
  function Member(j: JsValue, key: string): Result<JsValue, Thrown> {
    match j
    case Undefined => Err(TypeError)
    case Def(Null) => Err(TypeError)
    case Def(Obj(m)) => Ok(if key in m then Def(m[key]) else Undefined)
    case Def(_) => Ok(Undefined)
  }

  /** The property key of array index `n`: its shortest decimal numeral. */
  function Decimal(n: nat): (s: string)
    ensures |s| > 0
    ensures forall i :: 0 <= i < |s| ==> '0' <= s[i] <= '9'
    ensures n < 10 <==> |s| == 1
    ensures n > 0 ==> s[0] != '0'
  {
    if n < 10 then [(48 + n) as char] else Decimal(n / 10) + [(48 + n % 10) as char]
  }

  /** The number a string of decimal digits denotes. */
  function DigitsValue(s: string): nat
    requires forall i :: 0 <= i < |s| ==> '0' <= s[i] <= '9'
  {
    if s == [] then 0 else 10 * DigitsValue(s[..|s| - 1]) + (s[|s| - 1] as int - 48)
  }

  /** `Decimal(n)` is a numeral of n. */
  lemma {:induction false} DecimalDenotes(n: nat)
    ensures DigitsValue(Decimal(n)) == n
  {
    if n >= 10 {
      var s := Decimal(n);
      assert s[..|s| - 1] == Decimal(n / 10);
      DecimalDenotes(n / 10);
    }
  }

  /** Distinct indices have distinct property keys. */
  lemma {:induction false} DecimalInjective(a: nat, b: nat)
    requires Decimal(a) == Decimal(b)
    ensures a == b
  {
    if a >= 10 && b >= 10 {
      var sa, sb := Decimal(a), Decimal(b);
      assert Decimal(a / 10) == sa[..|sa| - 1];
      assert Decimal(b / 10) == sb[..|sb| - 1];
      assert (48 + a % 10) as char == sa[|sa| - 1] == sb[|sb| - 1] == (48 + b % 10) as char;
      DecimalInjective(a / 10, b / 10);
    } else if a < 10 && b < 10 {
      assert Decimal(a)[0] == Decimal(b)[0];
    }
  }

  /** The key of index `n` differs from the key of every smaller index. */
  lemma DecimalsBelowDiffer(n: nat)
    ensures forall i :: 0 <= i < n ==> Decimal(i) != Decimal(n)
  {
    forall i | 0 <= i < n
      ensures Decimal(i) != Decimal(n)
    {
      if Decimal(i) == Decimal(n) {
        DecimalInjective(i, n);
      }
    }
  }

  /** A key made of decimal digits only, as every array index key is. */
  predicate IsIndexKey(k: string) {
    forall i :: 0 <= i < |k| ==> '0' <= k[i] <= '9'
  }

  /** The own enumerable properties of an array-like with elements `xs`: "0", "1", … */
  function IndexedProps(xs: seq<Value>): (m: map<string, Value>)
    ensures forall k :: k in m ==> IsIndexKey(k)
    ensures forall i :: 0 <= i < |xs| ==> Decimal(i) in m && m[Decimal(i)] == xs[i]
  {
    if xs == [] then map[]
    else
      var n := |xs| - 1;
      DecimalsBelowDiffer(n);
      var prefix := IndexedProps(xs[..n]);
      assert forall i :: 0 <= i < n ==> xs[..n][i] == xs[i];
      prefix[Decimal(n) := xs[n]]
  }

  /** `k` is the key of some index below `n`. */
  ghost predicate IsKeyOfIndexBelow(k: string, n: nat) {
    exists i :: 0 <= i < n && k == Decimal(i)
  }

  /** Spreading an array-like creates no key other than its indices'. */
  lemma {:induction false} IndexedPropsHasOnlyIndices(xs: seq<Value>)
    ensures forall k :: k in IndexedProps(xs) ==> IsKeyOfIndexBelow(k, |xs|)
  {
    if xs != [] {
      var n := |xs| - 1;
      IndexedPropsHasOnlyIndices(xs[..n]);
      forall k | k in IndexedProps(xs)
        ensures IsKeyOfIndexBelow(k, |xs|)
      {
        if k == Decimal(n) {
          assert 0 <= n < |xs| && k == Decimal(n);
        } else {
          assert k in IndexedProps(xs[..n]);
          assert IsKeyOfIndexBelow(k, n);
          var i :| 0 <= i < n && k == Decimal(i);
          assert 0 <= i < |xs| && k == Decimal(i);
        }
      }
    }
  }

  /** The properties `{...j}` copies: an object's own properties, the indexed
      elements of an array or the characters of a string, and none for the rest. */
  function OwnProps(j: JsValue): (props: map<string, Value>)
    ensures j.Def? && j.v.Obj? ==> props == j.v.props
    ensures !(j.Def? && j.v.Obj?) ==> forall k :: k in props ==> IsIndexKey(k)
    ensures j.Def? && j.v.Arr? ==> forall k :: k in props ==> IsKeyOfIndexBelow(k, |j.v.items|)
    ensures j.Def? && j.v.Str? ==> forall k :: k in props ==> IsKeyOfIndexBelow(k, |j.v.s|)
    ensures j.Def? && j.v.Arr? ==>
              forall i :: 0 <= i < |j.v.items| ==> Decimal(i) in props && props[Decimal(i)] == j.v.items[i]
    ensures j.Def? && j.v.Str? ==>
              forall i :: 0 <= i < |j.v.s| ==> Decimal(i) in props && props[Decimal(i)] == Str([j.v.s[i]])
    ensures j.Undefined? || j.v.Null? || j.v.Bool? || j.v.Num? ==> props == map[]
  {
    match j
    case Def(Obj(m)) => m
    case Def(Arr(xs)) =>
      IndexedPropsHasOnlyIndices(xs);
      IndexedProps(xs)
    case Def(Str(s)) =>
      var chars := seq(|s|, i requires 0 <= i < |s| => Str([s[i]]));
      IndexedPropsHasOnlyIndices(chars);
      IndexedProps(chars)
    case _ => map[]
  }
}
