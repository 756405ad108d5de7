/**
 * The already-parsed JSON value tree (`serde_json::Value`) and the accessors the
 * Rust code chains on it: `get`, `as_str`, `as_object`, `as_array`, `as_bool`.
 * Parsing JSON text is not modelled; the tree is the input.
 */
module Json {
  import opened Wrappers

  datatype Value =
    | Null
    | Bool(b: bool)
    | Number(n: real)
    | Str(s: string)
    | Array(elems: seq<Value>)
    | Object(fields: map<string, Value>)

  /** `value.get(key)`: the member of an object; nothing for any other kind of value. */
  function Get(v: Value, key: string): Option<Value> {
    if v.Object? && key in v.fields then Some(v.fields[key]) else None
  }

  /** `o.and_then(|v| v.get(key))` */
  function GetIn(o: Option<Value>, key: string): Option<Value> {
    match o
    case Some(v) => Get(v, key)
    case None => None
  }

  /** `o.and_then(|v| v.as_str())` */
  function AsStr(o: Option<Value>): Option<string> {
    match o
    case Some(Str(s)) => Some(s)
    case _ => None
  }

  /** `o.and_then(|v| v.as_object())` */
  function AsObject(o: Option<Value>): Option<map<string, Value>> {
    match o
    case Some(Object(m)) => Some(m)
    case _ => None
  }

  /** `o.and_then(|v| v.as_array())` */
  function AsArray(o: Option<Value>): Option<seq<Value>> {
    match o
    case Some(Array(a)) => Some(a)
    case _ => None
  }

  /** `o.and_then(|v| v.as_bool())` */
  function AsBool(o: Option<Value>): Option<bool> {
    match o
    case Some(Bool(b)) => Some(b)
    case _ => None
  }
}
