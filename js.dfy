/**
 * JSON values as they arrive in an Express request body after `express.json()`,
 * and the JavaScript truthiness test the handlers apply to them.
 */
module Js {
  import opened Wrappers

  /** A JSON value of a body field. A key absent from the body reads as `Undefined`.
      Nested objects and arrays are not modelled as field values. */
  datatype JsValue = Undefined | Null | Str(s: string) | Num(x: real) | Bool(b: bool)

  /** A parsed JSON request body: field name to value. */
  type Body = map<string, JsValue>

  /** `req.body.key`: the value of a key, `Undefined` when the key is absent. */
  function Get(body: Body, key: string): (v: JsValue)
    ensures key !in body ==> v == Undefined
    ensures key in body ==> v == body[key]
  {
    if key in body then body[key] else Undefined
  }

  /** JavaScript truthiness: `undefined`, `null`, `""`, `0` and `false` are falsy.
      (NaN cannot occur in JSON.) */
  predicate Truthy(v: JsValue)
  {
    match v
    case Undefined => false
    case Null => false
    case Str(s) => s != ""
    case Num(x) => x != 0.0
    case Bool(b) => b
  }
}
