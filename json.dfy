/**
 * The decoded JSON values the pipeline reads, and Python's `dict.get`
 * and truthiness over them. Decoding itself (`json.loads`) is not
 * modelled: it is a parameter, see `Normalization.Decoders`.
 */
module JsonValue {
  import opened Wrappers

  /** A value as `json.loads` returns it; objects are dicts keyed by strings. */
  datatype Json =
    | JNull
    | JBool(b: bool)
    | JNum(n: real)
    | JStr(s: string)
    | JArr(items: seq<Json>)
    | JObj(fields: map<string, Json>)

  const EmptyObject: Json := JObj(map[])

  /** `d.get(key, default)` on a dict `d`. */
  function Get(d: map<string, Json>, key: string, default: Json): Json {
    if key in d then d[key] else default
  }

  /** Python's `bool(v)` for a decoded value: null, false, zero and empty containers are falsy. */
  predicate Truthy(v: Json) {
    match v
    case JNull => false
    case JBool(b) => b
    case JNum(n) => n != 0.0
    case JStr(s) => s != ""
    case JArr(items) => items != []
    case JObj(fields) => fields != map[]
  }

  /**
   * One step down a path of nested objects: the member `key` of `o` when `o`
   * is an object that has it, and None otherwise. Used to state where a
   * value sits in a document, independently of the `.get` chains that read it.
   */
  function Member(o: Option<Json>, key: string): Option<Json> {
    if o.Some? && o.value.JObj? && key in o.value.fields then Some(o.value.fields[key]) else None
  }

  /** A member that is present but is not an object, so calling `.get` on it raises. */
  predicate PresentNonObject(o: Option<Json>) {
    o.Some? && !o.value.JObj?
  }
}
