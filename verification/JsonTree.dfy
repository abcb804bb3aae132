/** Decoded JSON values, as `encoding/json` gives them to the code. */
module JsonTree {
  datatype Json =
    | JsonNull | JsonBool(b: bool) | JsonNumber(n: real) | JsonString(s: string)
    | JsonArray(items: seq<Json>) | JsonObject(fields: map<string, Json>)
}
