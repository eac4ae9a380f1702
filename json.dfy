/**
 * JSON as the associated-data code sees it: an array of values, where the
 * interesting values are objects. Text rendering (`toString`) is not modelled;
 * a property that holds the rendering of an array holds that array here.
 */
module Json {

  /** A JSON object; member values are kept as their rendered text. */
  datatype JsonObject = JsonObject(members: map<string, string>)

  /** An element of a JSON array: an object, or any other JSON value kept opaque. */
  datatype JsonValue = ObjectValue(obj: JsonObject) | OtherValue(text: string)

  type JsonArray = seq<JsonValue>
}
