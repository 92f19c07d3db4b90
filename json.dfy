/**
 * The values `response.json()` hands back for a catalog entry, and Python's
 * truth test on them, which decides whether a key "exists".
 */
module Json {

  /** A decoded JSON value. Floating-point numbers are not part of the model. */
  datatype JsonValue =
    | Null
    | Bool(b: bool)
    | Int(i: int)
    | Str(s: string)
    | List(items: seq<JsonValue>)
    | Obj(fields: map<string, JsonValue>)

  /** Python's `bool(v)` for the decoded value: `None`, `False`, `0` and empty containers are false. */
  predicate Truthy(v: JsonValue) {
    match v
    case Null => false
    case Bool(b) => b
    case Int(i) => i != 0
    case Str(s) => |s| > 0
    case List(items) => |items| > 0
    case Obj(fields) => |fields| > 0
  }

  /** The six falsy values, written out one by one. */
  predicate IsEmptyValue(v: JsonValue) {
    || v == Null
    || v == Bool(false)
    || v == Int(0)
    || v == Str("")
    || v == List([])
    || v == Obj(map[])
  }

  /** A value is truthy exactly when it is none of the six empty values. */
  lemma TruthyIffNotEmptyValue(v: JsonValue)
    ensures Truthy(v) <==> !IsEmptyValue(v)
  {
  }
}
