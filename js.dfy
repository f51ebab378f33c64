/**
 * The few JavaScript value rules the components lean on: which optional
 * props count as set (truthiness) and the tag `typeof` gives a value.
 */
module Js {
  import opened Text

  /** An optional string prop is truthy when it is given and not empty. */
  predicate Truthy(s: Option<string>) {
    s.Some? && s.value != ""
  }

  /** An optional boolean prop is truthy only when it is given as `true`. */
  predicate IsTrue(b: Option<bool>) {
    b == Some(true)
  }

  /** The kinds of value `typeof` tells apart. */
  datatype Value =
    | Undefined
    | Null
    | Boolean(b: bool)
    | Number(n: int)
    | BigInt(i: int)
    | String(s: string)
    | Symbol
    | Function
    | Object

  /** `typeof v`; `null` reports `"object"`. */
  function TypeOf(v: Value): (tag: string)
    ensures tag in {"undefined", "object", "boolean", "number", "bigint", "string", "symbol", "function"}
    ensures tag == "object" <==> v.Null? || v.Object?
  {
    match v
    case Undefined => "undefined"
    case Null => "object"
    case Boolean(_) => "boolean"
    case Number(_) => "number"
    case BigInt(_) => "bigint"
    case String(_) => "string"
    case Symbol => "symbol"
    case Function => "function"
    case Object => "object"
  }

  /** `s` occurs in `text` starting at position i. */
  predicate OccursAt(text: string, s: string, i: nat) {
    i + |s| <= |text| && text[i..i + |s|] == s
  }

  /** `s` occurs in `text` as a contiguous run. */
  predicate Contains(text: string, s: string) {
    exists i: nat :: i <= |text| && OccursAt(text, s, i)
  }

  /** Whatever sits between two strings occurs in their concatenation. */
  lemma ContainsMiddle(a: string, s: string, b: string)
    ensures Contains(a + s + b, s)
  {
    var text := a + s + b;
    assert OccursAt(text, s, |a|);
  }
}
