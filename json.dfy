/**
 * Decoded JSON messages as both ends of the WebSocket channel see them.
 * Values are kept opaque except for what routing inspects: strings and integers.
 */
module Json {
  import opened Wrappers

  datatype Value = Str(s: string) | Num(n: int) | Other(raw: string)

  /** A decoded JSON object: field name to value. */
  type Object = map<string, Value>

  /** `obj.get(key)` in Python, `obj[key]` in JavaScript: absent keys give None. */
  function Get(obj: Object, key: string): (r: Option<Value>)
    ensures r.Some? <==> key in obj
    ensures r.Some? ==> obj[key] == r.value
  {
    if key in obj then Some(obj[key]) else None
  }

  /** True when the object's "type" field is the string `t`. */
  predicate HasType(obj: Object, t: string)
  {
    Get(obj, "type") == Some(Str(t))
  }
}
