/** Small value wrappers shared by every module of the model. */
module Wrappers {

  /** A value that may be absent: a missing request field, an unset date, a JavaScript `null`. */
  datatype Option<+T> = None | Some(value: T) {
    function GetOr(default: T): T {
      match this
      case Some(v) => v
      case None => default
    }
  }

  /** The outcome of a store lookup such as `findById` or `findOne`: the record, no record, or a
      thrown error (a malformed id, a lost connection), which every handler turns into a 500. */
  datatype Fetch<+T> = Found(record: T) | Missing | Failed

  /** JavaScript truthiness of an optional string field of a request body or query:
      `undefined`, `null` and `""` are falsy, every other string is truthy. */
  predicate Truthy(o: Option<string>) {
    o.Some? && o.value != ""
  }
}
