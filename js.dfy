/**
 * The JavaScript values the handlers inspect: parsed request bodies, claim values and
 * user-record fields.  Only what the handlers rely on is modelled: truthiness (`!x`,
 * `x || y`), property access on a parsed body (`body.email`) and strict equality.
 */
module Js {
  import opened Wrappers

  /** A JSON value as produced by `request.json()`; numbers are integers (NaN is not modelled). */
  datatype JsValue =
    | Undefined
    | Null
    | Bool(b: bool)
    | Number(n: int)
    | Str(s: string)
    | Obj(fields: map<string, JsValue>)

  /** The failure of `request.json()` on a body that is not JSON. */
  datatype SyntaxError = SyntaxError

  /** JavaScript truthiness: `false`, `0`, `""`, `null` and `undefined` are falsy. */
  predicate Truthy(v: JsValue) {
    match v
    case Undefined => false
    case Null => false
    case Bool(b) => b
    case Number(n) => n != 0
    case Str(s) => s != ""
    case Obj(_) => true
  }

  /** `v || fallback` */
  function Or(v: JsValue, fallback: JsValue): JsValue {
    if Truthy(v) then v else fallback
  }

  /**
   * `v.key`: `None` stands for the TypeError thrown when `v` is `null` or `undefined`;
   * a missing key, or any key of a primitive, reads as `undefined`.
   */
  function Property(v: JsValue, key: string): Option<JsValue> {
    match v
    case Undefined => None
    case Null => None
    case Obj(fields) => Some(if key in fields then fields[key] else Undefined)
    case _ => Some(Undefined)
  }
}
