/** The two kinds of JSON value the template data holds: strings and booleans. */
module Json {

  datatype Value = Str(text: string) | Bool(flag: bool)

  /** A JSON object: keys to values (`serde_json::Map`). */
  type Object = map<string, Value>
}
