/**
 * JSON values as the service receives them in request bodies and keeps them
 * in its two data files, with JavaScript's notion of truthiness.
 */
module Json {

  /** A JSON value. Numbers are the parsed values, held as reals (JSON never yields NaN). */
  datatype Value =
    | Null
    | Bool(b: bool)
    | Num(n: real)
    | Str(s: string)
    | Arr(items: seq<Value>)
    | Obj(fields: map<string, Value>)

  /** A JSON object: one stored job or target, a request body, or a patch. */
  type Record = map<string, Value>

  /**
   * JavaScript truthiness of a value that is present: `null`, `false`, `0`
   * and `""` are falsy, every array and object is truthy. An absent key
   * (`undefined`) is falsy too; callers test `k in body` for that.
   */
  predicate Truthy(v: Value)
    ensures Truthy(v) <==> !(v == Null || v == Bool(false) || v == Num(0.0) || v == Str(""))
  {
    match v
    case Null => false
    case Bool(b) => b
    case Num(n) => n != 0.0
    case Str(s) => s != ""
    case Arr(_) => true
    case Obj(_) => true
  }
}
