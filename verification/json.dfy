/** A parsed JSON value, as both `json.loads` and `response.json()` hand it to the modelled code.
    Parsing itself is not modelled: callers receive either a value or a decoding failure. */
module Json {

  datatype Json =
    | JNull
    | JBool(b: bool)
    | JNumber(n: int)
    | JString(s: string)
    | JArray(items: seq<Json>)
    | JObject(fields: map<string, Json>)

}
