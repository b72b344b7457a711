/**
 * JSON values as a request body or a parsed localStorage entry hold them,
 * with JavaScript's truthiness and property lookup.
 */
module JsValue {

  /** A JavaScript value that can come out of `JSON.parse` (plus `undefined`,
      what a missing property reads as). Numbers are integers here. */
  datatype Value =
    | Undefined
    | Null
    | Bool(b: bool)
    | Num(n: int)
    | Str(s: string)
    | Arr(items: seq<Value>)
    | Obj(fields: map<string, Value>)

  /** `!!v`: false for undefined, null, false, 0 and "", true otherwise
      (arrays and objects, even empty ones, are truthy). */
  predicate Truthy(v: Value) {
    match v
    case Undefined => false
    case Null => false
    case Bool(b) => b
    case Num(n) => n != 0
    case Str(s) => s != ""
    case Arr(_) => true
    case Obj(_) => true
  }

  /** `v.key` for a value that is neither null nor undefined: only objects
      carry the keys the core reads. */
  function Prop(v: Value, key: string): (r: Value)
    ensures !v.Obj? ==> r == Undefined
    ensures v.Obj? && key in v.fields ==> r == v.fields[key]
  {
    if v.Obj? && key in v.fields then v.fields[key] else Undefined
  }

  /** A request body: the fields of the parsed JSON object. */
  type Body = map<string, Value>

  /** Destructuring `const { key } = body`. */
  function Field(body: Body, key: string): (r: Value)
    ensures key !in body ==> r == Undefined
  {
    if key in body then body[key] else Undefined
  }

  /** `!v || typeof v !== 'string'` fails exactly for a non-empty string. */
  predicate IsNonEmptyString(v: Value) {
    v.Str? && v.s != ""
  }
}
