/** Parsed JSON, with the two library conversions the source calls on text. */
module Json {
  import opened Text

  datatype Json =
    | JNull
    | JBool(b: bool)
    | JInt(n: int)
    | JFloat(r: real)
    | JStr(s: string)
    | JArr(items: seq<Json>)
    | JObj(fields: map<string, Json>)
  {
    /** `value.get(key)` on a dict, `None` for a missing key. */
    function Get(key: string): Json
      requires JObj?
    {
      if key in fields then fields[key] else JNull
    }

    /** Python truth value. */
    predicate Truthy() {
      match this
      case JNull => false
      case JBool(b) => b
      case JInt(n) => n != 0
      case JFloat(r) => r != 0.0
      case JStr(s) => s != ""
      case JArr(items) => items != []
      case JObj(fields) => |fields| != 0
    }
  }

  /** `json.loads` (None: JSONDecodeError) and `int(text)` (None: ValueError). */
  datatype Lib = Lib(loads: string -> Option<Json>, toInt: string -> Option<int>)
}
