/** Small shared datatypes: optional values, the state of a JSON file on
    disk as the service sees it, and the outcome of an HTTP endpoint. */
module Base {

  datatype Option<+T> = None | Some(value: T)

  /** One JSON file read as UTF-8: absent, present but not valid UTF-8,
      valid text that is not the expected JSON, or decoded. */
  datatype FileState<+T> = Missing | NotUtf8 | Undecodable | Decoded(contents: T)
  {
    /** `json.load` of an existing file raises: `UnicodeDecodeError` for
        bytes that are not UTF-8, `JSONDecodeError` for text that is not
        JSON. */
    predicate Raises()
    {
      NotUtf8? || Undecodable?
    }
  }

  /** What an operation hands back: its value, or an exception it does
      not catch, which the web framework turns into a server error. */
  datatype Outcome<+T> = Ok(value: T) | ServerError
}

/** The part of JSON the feedback code reads. */
module Json {

  /** A JSON value: strings and integers are told apart, every other kind
      (float, boolean, null, list, object) is opaque. */
  datatype JsonValue = JString(str: string) | JInt(num: int) | JOther

  type JsonObject = map<string, JsonValue>

  /** `obj.get(key, "")` */
  function GetOrEmpty(obj: JsonObject, key: string): JsonValue
  {
    if key in obj then obj[key] else JString("")
  }
}
