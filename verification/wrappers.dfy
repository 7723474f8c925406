/** Optional values and the JSON request body shared by the HTTP handlers. */
module Wrappers {

  datatype Option<+T> = None | Some(value: T)

  /** A JSON value as far as the handlers look at it: a string, or anything else. */
  datatype Json = JString(s: string) | JOther

  /** The body of a POST request: a JSON object, or None when `request.get_json()`
      gives None or raises (missing or unparsable body). JSON arrays and scalars as
      bodies are not represented. */
  type Body = Option<map<string, Json>>
}
