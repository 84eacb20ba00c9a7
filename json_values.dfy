/** The structured payload of a message, and the codec the adaptor uses to move
    between its text form and its value form. */
module JsonValues {
  import opened Wrappers

  /** A decoded JSON document. Only objects are ever looked into by the adaptor;
      numbers are kept as their literal text. */
  datatype Json =
    | JNull
    | JBool(b: bool)
    | JNumber(literal: string)
    | JString(s: string)
    | JArray(items: seq<Json>)
    | JObject(members: map<string, Json>)

  /** `parse` stands for `json.loads(text, strict=False)` (an `Err` carries the
      decoder's message) and `dump` for `json.dumps`. */
  datatype Codec = Codec(parse: string -> Result<Json, string>, dump: Json -> string)
}
