/**
 * The JavaScript values that flow through the catalogue: request payloads,
 * SQL parameters and database rows. An object is a list of key/value
 * entries in insertion order. For keys that are not integer-like, this is the
 * order `Object.keys` reports and the order in which the spread operator
 * `{...o, [k]: v}` keeps existing keys; integer-like keys ("0", "12"), which
 * JavaScript lists first in ascending order, are outside this model.
 */
module JsValue {
  import opened Wrappers
  import opened Text

  /** A JavaScript value; `List` is an array of strings (the photo list). */
  datatype Value =
    | Undefined
    | Null
    | NaN
    | Bool(b: bool)
    | Num(x: real)
    | Str(s: string)
    | List(items: seq<string>)

  /** JavaScript truthiness: what `if (v)` and `v || d` test. */
  predicate Truthy(v: Value)
  {
    match v
    case Undefined => false
    case Null => false
    case NaN => false
    case Bool(b) => b
    case Num(x) => x != 0.0
    case Str(s) => s != ""
    case List(_) => true
  }

  /** An integral JavaScript number. */
  function Int(i: int): Value
  {
    Num(i as real)
  }

  /** Truncation toward zero, the integral part `parseInt` keeps of a number. */
  function Trunc(x: real): (t: int)
    ensures x >= 0.0 ==> t as real <= x < t as real + 1.0
    ensures x < 0.0 ==> t as real - 1.0 < x <= t as real
  {
    if x >= 0.0 then x.Floor else -((-x).Floor)
  }

  /** `parseInt(v)` with no radix; `None` stands for NaN. */
  function ParseInt(v: Value): Option<int>
  {
    match v
    case Num(x) => Some(Trunc(x))
    case Str(s) => ParseIntText(s)
    case List(items) => ParseIntText(Join(",", items))
    case _ => None
  }

  /**
   * `String(x)` of a number. Integral values print as their decimal digits;
   * a fraction prints as its integer part, which is where this model stops.
   */
  function NumberText(x: real): string
  {
    IntToString(Trunc(x))
  }

  lemma ParseIntOfInt(i: int)
    ensures ParseInt(Int(i)) == Some(i)
  {
    assert (i as real).Floor == i;
    assert (-(i as real)).Floor == -i;
  }

  /** `String(v)`: the text a value becomes in a template literal, a query string or `new Error(v)`. */
  function StringOf(v: Value): string
  {
    match v
    case Undefined => "undefined"
    case Null => "null"
    case NaN => "NaN"
    case Bool(b) => if b then "true" else "false"
    case Num(x) => NumberText(x)
    case Str(s) => s
    case List(items) => Join(",", items)
  }

  /** An integral number prints as its decimal digits, which `parseInt` reads back. */
  lemma StringOfInt(i: int)
    ensures StringOf(Int(i)) == IntToString(i)
    ensures ParseIntText(StringOf(Int(i))) == Some(i)
  {
    assert (i as real).Floor == i;
    assert (-(i as real)).Floor == -i;
    ParseIntOfIntToString(i);
  }

  // ---------------------------------------------------------------------
  // Objects

  type Object = seq<(string, Value)>

  /** `Object.keys(o)`. */
  function Keys(o: Object): (ks: seq<string>)
    ensures |ks| == |o| && forall i :: 0 <= i < |o| ==> ks[i] == o[i].0
  {
    if o == [] then [] else [o[0].0] + Keys(o[1..])
  }

  lemma KeysAppend(a: Object, b: Object)
    ensures Keys(a + b) == Keys(a) + Keys(b)
  {
  }

  /** No key occurs twice: what every JavaScript object satisfies. */
  predicate DistinctKeys(o: Object)
  {
    forall i, j :: 0 <= i < j < |o| ==> o[i].0 != o[j].0
  }

  /** `o[k]`: the value of the entry for `k`, `undefined` when there is none. */
  function Get(o: Object, k: string): (v: Value)
    ensures k !in Keys(o) ==> v == Undefined
    ensures forall i :: 0 <= i < |o| && o[i].0 == k && DistinctKeys(o) ==> v == o[i].1
  {
    if o == [] then Undefined else if o[0].0 == k then o[0].1 else Get(o[1..], k)
  }

  /** `{...o, [k]: v}`: an existing key keeps its place, a new key goes last. */
  function With(o: Object, k: string, v: Value): (r: Object)
    ensures |r| == (if k in Keys(o) then |o| else |o| + 1)
  {
    if o == [] then [(k, v)]
    else if o[0].0 == k then [(k, v)] + o[1..]
    else [o[0]] + With(o[1..], k, v)
  }

  /** Reading back after a spread: the overridden key has the new value, every other key its old one. */
  lemma {:induction false} GetWith(o: Object, k: string, v: Value, k': string)
    ensures Get(With(o, k, v), k') == if k' == k then v else Get(o, k')
  {
    if o != [] && o[0].0 != k {
      GetWith(o[1..], k, v, k');
    }
  }

  /** The keys after a spread: unchanged when `k` was present, otherwise `k` appended. */
  lemma {:induction false} KeysWith(o: Object, k: string, v: Value)
    ensures Keys(With(o, k, v)) == if k in Keys(o) then Keys(o) else Keys(o) + [k]
  {
    if o != [] && o[0].0 != k {
      KeysWith(o[1..], k, v);
      assert Keys(o) == [o[0].0] + Keys(o[1..]);
    }
  }

  lemma {:induction false} WithKeepsDistinct(o: Object, k: string, v: Value)
    requires DistinctKeys(o)
    ensures DistinctKeys(With(o, k, v))
  {
    KeysWith(o, k, v);
    var r := With(o, k, v);
    forall i, j | 0 <= i < j < |r| ensures r[i].0 != r[j].0 {
      assert Keys(r)[i] == r[i].0 && Keys(r)[j] == r[j].0;
      if k !in Keys(o) && j == |o| {
        assert Keys(o)[i] == o[i].0;
      } else {
        assert Keys(o)[i] == o[i].0 && Keys(o)[j] == o[j].0;
      }
    }
  }
}
