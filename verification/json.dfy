/**
 * The already-decoded JSON request body, and the two pieces of Python
 * semantics every handler leans on: truthiness, and `dict.get`, which
 * answers None both for a missing key and for an explicit `null`.
 */
module Json {

  /** A decoded JSON value. Numbers are integers only (see README). */
  datatype Value =
    | Null
    | Bool(b: bool)
    | Int(n: int)
    | Str(s: string)
    | Array(items: seq<Value>)
    | Object(fields: map<string, Value>)

  /** Python truthiness of the decoded value: None, False, 0, "", [] and {} are falsy. */
  predicate Truthy(v: Value) {
    match v
    case Null => false
    case Bool(b) => b
    case Int(n) => n != 0
    case Str(s) => s != ""
    case Array(items) => |items| != 0
    case Object(fields) => |fields| != 0
  }

  /** True when Python's `len` accepts the value (str, list, dict); otherwise it raises TypeError. */
  predicate HasLen(v: Value) {
    v.Str? || v.Array? || v.Object?
  }

  /** `data.get(key)` on a body that is a JSON object; Null for a missing key, as in Python. */
  function Member(body: Value, key: string): (v: Value)
    ensures body.Object? && key !in body.fields ==> v == Null
    ensures body.Object? && key in body.fields ==> v == body.fields[key]
  {
    if body.Object? && key in body.fields then body.fields[key] else Null
  }

  /** The falsy values are exactly the ones Python treats as absent in an `if data.get(...)` test. */
  lemma FalsyValues(v: Value)
    ensures !Truthy(v) <==> v in {Null, Bool(false), Int(0), Str(""), Array([]), Object(map[])}
  {
  }
}
