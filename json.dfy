/** The parsed JSON document that `json.load` hands to the category map builder. */
module Json {

  /** A JSON value, restricted to the three kinds the category file is made of:
      strings, arrays and objects (an object maps member names to values). */
  datatype Value =
    | JString(str: string)
    | JArray(elems: seq<Value>)
    | JObject(fields: map<string, Value>)
}
