/** Plain values shared by every part of the state container: the usual
    Option/Result wrappers and the JavaScript values that payloads, errors,
    decoded token claims and catalogue items carry. */
module Values {

  /** `None` stands for JavaScript's `undefined` where a field may be absent. */
  datatype Option<+T> = None | Some(value: T) {
    function GetOr(fallback: T): T {
      match this
      case Some(v) => v
      case None => fallback
    }
  }

  datatype Result<+T, +E> = Ok(value: T) | Err(error: E)

  /** An opaque JavaScript value, as far as the state container looks into it. */
  datatype Value =
    | Undefined
    | Null
    | Bool(b: bool)
    | Num(n: int)
    | Str(s: string)
    | Arr(items: seq<Value>)
    | Obj(fields: map<string, Value>)
}
