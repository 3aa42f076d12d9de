/** JSON documents as the client holds them after `response.json()`, and the
    few Python operations the client applies to them: `d.get(k, default)`,
    `d[k]`, truthiness and numeric comparison. An operation Python would raise
    on yields a `Fault`; the client never catches one of these. */
module JsonValues {

  datatype Option<+T> = None | Some(value: T)

  /** A decoded JSON value. Numbers are kept as reals: the client only compares them. */
  datatype Json =
    | JNull
    | JBool(b: bool)
    | JNum(n: real)
    | JStr(s: string)
    | JArr(items: seq<Json>)
    | JObj(fields: map<string, Json>)

  /** The Python exceptions the modelled code can raise outside its
      `except requests.exceptions.RequestException` handler. */
  datatype Fault =
    | KeyError(key: string)   // `d[k]` on a dict without `k`
    | TypeError               // subscripting, iterating or comparing a value of the wrong type
    | AttributeError          // `.get` on a value that is not a dict

  /** A value, or the exception that escaped while computing it. */
  datatype Result<+T> = Ok(value: T) | Raised(fault: Fault)

  /** What one HTTP call yields: the decoded body, or a `RequestException`
      (connection failure, time-out, an error status from `raise_for_status`,
      a body that is not JSON). */
  datatype Response = Transport | Body(json: Json)

  const EmptyList: Json := JArr([])
  const EmptyDict: Json := JObj(map[])

  /** The value `get` finds in a dict's fields: the key's own, else the default. */
  function FieldOr(fields: map<string, Json>, key: string, default: Json): Json
  {
    if key in fields then fields[key] else default
  }

  /** `j.get(key, default)`: only a dict has `get`. */
  function Get(j: Json, key: string, default: Json): Result<Json>
  {
    if !j.JObj? then Raised(AttributeError)
    else Ok(FieldOr(j.fields, key, default))
  }

  /** `j[key]` with a string key: only a dict can be subscripted by a string. */
  function Index(j: Json, key: string): Result<Json>
  {
    if !j.JObj? then Raised(TypeError)
    else if key in j.fields then Ok(j.fields[key])
    else Raised(KeyError(key))
  }

  /** Python's `bool(j)`. */
  predicate Truthy(j: Json)
  {
    match j
    case JNull => false
    case JBool(b) => b
    case JNum(n) => n != 0.0
    case JStr(s) => s != []
    case JArr(items) => items != []
    case JObj(fields) => fields != map[]
  }

  /** The number `j` stands for in a comparison with a float; `bool` is a
      subclass of `int` in Python, so `True` compares as 1. Any other value
      makes the comparison raise `TypeError`. */
  function AsNumber(j: Json): Option<real>
  {
    match j
    case JNum(n) => Some(n)
    case JBool(b) => Some(if b then 1.0 else 0.0)
    case _ => None
  }
}
