/**
 * The JSON documents the configuration files hold, at the level of the values
 * `json.load` returns, and what a `load` classmethod can end in.
 */
module Json {

  datatype Json =
    | JNull
    | JBool(b: bool)
    | JInt(i: int)
    | JStr(s: string)
    | JArray(items: seq<Json>)
    | JObject(fields: map<string, Json>)

  /**
   * An existing config file, as `json.load` on the file opened as UTF-8 sees
   * it: it fails with an I/O error or a `JSONDecodeError`; its bytes are not
   * UTF-8, so reading raises `UnicodeDecodeError` (a `ValueError` that is
   * neither of those); or it yields a value.
   */
  datatype FileBody = Unreadable | BadEncoding | Parsed(json: Json)

  /**
   * How a `load` ends: a config object; `None` (no file, or an error the
   * method catches); an exception the method does not catch; or a file whose
   * values have types the record fields do not declare, which Python keeps
   * as they are and this model does not follow.
   */
  datatype LoadOutcome<T> = Loaded(config: T) | NoConfig | Raises | Unmodelled
}
