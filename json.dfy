/** JSON values as they travel through request bodies and the `content` column,
    with the JavaScript notions the routes rely on: truthiness and property reads. */
module Json {

  datatype Option<+T> = None | Some(value: T)

  /** A JSON value. Numbers are integers: the model does not follow floating point. */
  datatype Json =
    | JNull
    | JBool(b: bool)
    | JNum(n: int)
    | JStr(s: string)
    | JArr(elems: seq<Json>)
    | JObj(fields: map<string, Json>)

  /** JavaScript truthiness of a JSON value. */
  predicate Truthy(v: Json)
  {
    match v
    case JNull => false
    case JBool(b) => b
    case JNum(n) => n != 0
    case JStr(s) => s != ""
    case JArr(_) => true
    case JObj(_) => true
  }

  /** Truthiness of a property read; `None` stands for `undefined`. */
  predicate Present(v: Option<Json>)
  {
    v.Some? && Truthy(v.value)
  }

  /** `v?.k`: only objects carry properties that a JSON value can hold. */
  function Field(v: Option<Json>, k: string): Option<Json>
  {
    if v.Some? && v.value.JObj? && k in v.value.fields then Some(v.value.fields[k]) else None
  }

  /** `o.k` on a JSON object, `undefined` when the key is absent. */
  function Get(o: map<string, Json>, k: string): Option<Json>
  {
    if k in o then Some(o[k]) else None
  }

  /** `v === JStr(s)` on a possibly undefined read. */
  predicate IsString(v: Option<Json>, s: string)
  {
    v == Some(JStr(s))
  }

  /** `Boolean(v)` on a read value. */
  function ToBoolean(v: Option<Json>): bool
  {
    Present(v)
  }
}
