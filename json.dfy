/** JSON values as the Python and JavaScript sides exchange them. */
module Json {

  /** A JSON value; numbers are restricted to integers. */
  datatype Json =
    | JNull
    | JBool(b: bool)
    | JNum(n: int)
    | JStr(s: string)
    | JArr(items: seq<Json>)
    | JObj(fields: map<string, Json>)

  /** Python truthiness of a decoded value: `None`, `False`, `0`, `""`, `[]` and `{}`
      are false, everything else is true. */
  predicate Truthy(j: Json)
  {
    match j
    case JNull => false
    case JBool(b) => b
    case JNum(n) => n != 0
    case JStr(s) => s != ""
    case JArr(items) => items != []
    case JObj(fields) => fields != map[]
  }

  /** Python `data.get(key)` on a request body: a missing key reads as `None`, which is
      also what JSON `null` decodes to. */
  function Get(data: map<string, Json>, key: string): Json
  {
    if key in data then data[key] else JNull
  }

  /** JavaScript truthiness of a decoded value: `null`, `false`, `0` and `""` are
      false; every array and object, even an empty one, is true. */
  predicate JsTruthy(j: Json)
  {
    match j
    case JNull => false
    case JBool(b) => b
    case JNum(n) => n != 0
    case JStr(s) => s != ""
    case JArr(_) => true
    case JObj(_) => true
  }
}
