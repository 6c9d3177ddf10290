/**
 * The few JavaScript values the Houndify express helper looks at: header
 * values, request bodies and optional configuration, with JavaScript's
 * notion of truthiness and its `||` operator.
 */
module JsValues {

  /** An optional argument: `undefined` or a value. */
  datatype Option<T> = None | Some(value: T)

  /**
   * A value as the handlers see it. Inbound header values are strings;
   * a parsed request body is a string (text body) or an object or array,
   * which the model stands for by its JSON text; a missing property reads
   * as `undefined`.
   */
  datatype JsValue = Undefined | Str(s: string) | Object(json: string)

  /** JavaScript truthiness: `undefined` and the empty string are falsy, objects never are. */
  predicate Truthy(v: JsValue)
    ensures Truthy(v) <==> v != Undefined && v != Str("")
  {
    match v
    case Undefined => false
    case Str(s) => s != ""
    case Object(_) => true
  }

  /** JavaScript's `a || b`: the left operand when it is truthy, else the right one. */
  function Or(a: JsValue, b: JsValue): (r: JsValue)
    ensures Truthy(a) ==> r == a
    ensures !Truthy(a) ==> r == b
    ensures Truthy(r) <==> Truthy(a) || Truthy(b)
  {
    if Truthy(a) then a else b
  }
}
