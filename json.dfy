/** JSON values as the handlers hold them after `request.json` has parsed a
    request body, and Python's `==` on such values, which is what `in` and
    `list.remove` compare items with. */
module Json {

  /** A parsed JSON value. Numbers are kept as their exact value, so an
      integer and a float with the same value are the same number; objects
      are maps, since a Python dict has no order that `==` looks at. */
  datatype Value =
    | Null
    | Bool(b: bool)
    | Number(n: real)
    | Str(s: string)
    | Array(elems: seq<Value>)
    | Object(members: map<string, Value>)

  /** Python treats `True` and `False` as the integers 1 and 0. */
  predicate IsNumeric(a: Value) {
    a.Bool? || a.Number?
  }

  function NumericValue(a: Value): real
    requires IsNumeric(a)
  {
    match a
    case Bool(b) => if b then 1.0 else 0.0
    case Number(n) => n
  }

  /** Python's `==` on parsed JSON values: `None` equals only `None`; bools and
      numbers compare by numeric value (so `True == 1 == 1.0`); strings by
      their characters; lists by length and element by element; dicts by their
      key sets and value by value. */
  function Equal(a: Value, b: Value): (r: bool)
    ensures r ==> (a.Null? <==> b.Null?) && (a.Str? <==> b.Str?)
    ensures r ==> (a.Array? <==> b.Array?) && (a.Object? <==> b.Object?)
    ensures r ==> (IsNumeric(a) <==> IsNumeric(b))
  {
    match a
    case Null => b.Null?
    case Bool(_) => IsNumeric(b) && NumericValue(a) == NumericValue(b)
    case Number(_) => IsNumeric(b) && NumericValue(a) == NumericValue(b)
    case Str(s) => b.Str? && s == b.s
    case Array(xs) =>
      b.Array? && |xs| == |b.elems| &&
      forall i :: 0 <= i < |xs| ==> Equal(xs[i], b.elems[i])
    case Object(m) =>
      b.Object? && m.Keys == b.members.Keys &&
      forall k :: k in m ==> Equal(m[k], b.members[k])
  }

  lemma {:induction false} EqualReflexive(a: Value)
    ensures Equal(a, a)
  {
    match a
    case Array(xs) =>
      forall i | 0 <= i < |xs| ensures Equal(xs[i], xs[i]) {
        EqualReflexive(xs[i]);
      }
    case Object(m) =>
      forall k | k in m ensures Equal(m[k], m[k]) {
        EqualReflexive(m[k]);
      }
    case _ =>
  }

  lemma {:induction false} EqualSymmetric(a: Value, b: Value)
    requires Equal(a, b)
    ensures Equal(b, a)
  {
    match a
    case Array(xs) =>
      forall i | 0 <= i < |xs| ensures Equal(b.elems[i], xs[i]) {
        EqualSymmetric(xs[i], b.elems[i]);
      }
    case Object(m) =>
      forall k | k in b.members ensures Equal(b.members[k], m[k]) {
        EqualSymmetric(m[k], b.members[k]);
      }
    case _ =>
  }

  lemma {:induction false} EqualTransitive(a: Value, b: Value, c: Value)
    requires Equal(a, b) && Equal(b, c)
    ensures Equal(a, c)
  {
    match a
    case Array(xs) =>
      forall i | 0 <= i < |xs| ensures Equal(xs[i], c.elems[i]) {
        EqualTransitive(xs[i], b.elems[i], c.elems[i]);
      }
    case Object(m) =>
      forall k | k in m ensures Equal(m[k], c.members[k]) {
        EqualTransitive(m[k], b.members[k], c.members[k]);
      }
    case _ =>
  }
}
