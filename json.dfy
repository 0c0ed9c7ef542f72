/** The JSON values stored in the `summary` column of the meetings table. */
module Json {

  datatype JsonValue =
    | JNull
    | JBool(b: bool)
    | JNum(n: int)
    | JStr(s: string)
    | JArr(items: seq<JsonValue>)
    | JObj(fields: map<string, JsonValue>)

  /** A Python `Dict[str, Any]` value. */
  type JsonObject = map<string, JsonValue>
}
