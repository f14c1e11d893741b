/** The values a JSON request body (parsed by `express.json()`) or a decoded
    token can hold, and the JavaScript notion of a truthy value. */
module JsValues {

  datatype JsValue =
    | Undefined
    | Null
    | Bool(b: bool)
    | Number(n: real)
    | Str(s: string)
    | Arr(elems: seq<JsValue>)
    | Obj(fields: map<string, JsValue>)

  /** `!!v`: false exactly for the five falsy JSON-representable values
      `undefined`, `null`, `false`, `0` and `""`. */
  function Truthy(v: JsValue): (b: bool)
    ensures !b <==> v in {Undefined, Null, Bool(false), Number(0.0), Str("")}
  {
    match v
    case Undefined => false
    case Null => false
    case Bool(b) => b
    case Number(n) => n != 0.0
    case Str(s) => s != ""
    case Arr(_) => true
    case Obj(_) => true
  }

  /** Reading `key` out of a plain object; `undefined` when absent. */
  function Get(fields: map<string, JsValue>, key: string): (v: JsValue)
    ensures key !in fields ==> v == Undefined
  {
    if key in fields then fields[key] else Undefined
  }

  /** Values whose properties can be read: `v.key` on `null` or `undefined`
      throws a `TypeError`. */
  predicate HasProperties(v: JsValue) { !v.Null? && !v.Undefined? }

  /** `v.key` for a value that is not `null` or `undefined`: only an object
      carries the named fields this code reads. */
  function Property(v: JsValue, key: string): (r: JsValue)
    requires HasProperties(v)
    ensures !v.Obj? ==> r == Undefined
    ensures v.Obj? && key in v.fields ==> r == v.fields[key]
    ensures v.Obj? && key !in v.fields ==> r == Undefined
  {
    if v.Obj? then Get(v.fields, key) else Undefined
  }
}
