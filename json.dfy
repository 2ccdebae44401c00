/** JSON values as the dashboard holds them in its state. Numbers are carried, never computed with. */
module Json {

  datatype Json =
    | JNull
    | JBool(b: bool)
    | JNum(n: real)
    | JStr(s: string)
    | JArr(items: seq<Json>)
    | JObj(fields: map<string, Json>)

  /** A JSON object: its fields by name. */
  type Obj = map<string, Json>

  /** The values JavaScript treats as false: `null`, `false`, `0` and `""`. */
  predicate Falsy(v: Json) {
    v.JNull? || v == JBool(false) || v == JNum(0.0) || v == JStr("")
  }
}
