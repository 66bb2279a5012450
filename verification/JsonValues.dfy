/** JSON values as Python's `json` module builds them: an object keeps its keys in order. */
module JsonValues {

  datatype Json =
    | JNull
    | JBool(b: bool)
    | JNumber(text: string)
    | JString(s: string)
    | JArray(items: seq<Json>)
    | JObject(fields: seq<(string, Json)>)
}
