/** Raw JSON values as the marketplace returns them, and the per-field
    inclusion rule shared by every whitelist of the projection. */
module Values {

  datatype Option<T> = None | Some(value: T)

  /** A decoded JSON value. Numbers are opaque here: the client never does
      arithmetic on them, so integers stand for every JSON number. Lists and
      anything else the client never inspects are `Other`. */
  datatype Value =
    | Null
    | Str(s: string)
    | Num(n: int)
    | Bool(b: bool)
    | Obj(fields: map<string, Value>)
    | Other

  /** A JSON object: one raw item, or one flat output row. */
  type Item = map<string, Value>

  /** Python's `dict.get(key)`: a missing key reads as `None`. */
  function Get(m: map<string, Value>, key: string): Value
  {
    if key in m then m[key] else Null
  }

  /** The inclusion rule: a value is copied when it is not `None` and, when
      it is a string, when it is not empty. */
  predicate Kept(v: Value)
  {
    v != Null && (v.Str? ==> |v.s| > 0)
  }
}
