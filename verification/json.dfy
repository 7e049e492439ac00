/** The JSON values that request bodies and responses are made of. */
module Json {

  /**
   * A JSON value as `jsonify` produces it. `Date` stands for a Python
   * `datetime` (a movie's release date), which Flask renders as an HTTP
   * date string; that rendering is not part of this model.
   */
  datatype Value =
    | Null
    | Bool(b: bool)
    | Int(i: int)
    | Str(s: string)
    | Date(d: string)
    | Array(items: seq<Value>)
    | Object(fields: map<string, Value>)
}
