/**
 * Parsed JSON as the relay and its client see it. Strings are compared by
 * content and `null` is told apart; numbers and booleans are carried as their
 * canonical JavaScript text, arrays and nested objects as opaque text.
 */
module Json {
  import opened Wrappers

  /** A JSON value stored in a field of a message object. */
  datatype Value =
    | Str(s: string)
    | Null
      /** A number or boolean, as `String(v)` spells it (so `1.0` is "1"). */
    | Scalar(text: string)
      /** An array or an object, compared by reference. */
    | Compound(text: string)

  /** The fields of a JSON object, by key. */
  type Object = map<string, Value>

  /**
   * What `JSON.parse` produced from a text frame: an object, the literal
   * `null`, an array, or a primitive (number, string, boolean). The `in`
   * operator finds none of the protocol's keys in an array and throws on a
   * primitive or `null`.
   */
  datatype Message = Obj(fields: Object) | NullMessage | ArrayMessage | Primitive

  /** `o[key]`: the field's value, or None where JavaScript gives `undefined`. */
  function Get(o: Object, key: string): (r: Option<Value>)
    ensures r.Some? <==> key in o
    ensures r.Some? ==> o[key] == r.value
  {
    if key in o then Some(o[key]) else None
  }

  /**
   * JavaScript's `===` on two values: strings by content, `null` equals only
   * `null`, numbers and booleans by value. Arrays and objects compare by
   * reference, and no two parsed values share one, so they are never equal.
   */
  predicate StrictEquals(a: Value, b: Value)
  {
    match (a, b)
    case (Str(x), Str(y)) => x == y
    case (Null, Null) => true
    case (Scalar(x), Scalar(y)) => x == y
    case _ => false
  }
}
