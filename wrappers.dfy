/** Option and Result values, used wherever the source returns None or raises. */
module Wrappers {

  datatype Option<+T> = None | Some(value: T) {
    /** `x or default` on a value that may be absent. */
    function GetOr(default: T): T {
      match this
      case Some(v) => v
      case None => default
    }
  }

  /** The outcome of an operation that can raise: a value, or the error it raises. */
  datatype Result<+T, +E> = Ok(value: T) | Err(error: E)
}

/** JSON values as the source's `json.loads` produces them (numbers restricted to integers). */
module Json {

  datatype JsonValue =
    | JNull
    | JBool(b: bool)
    | JNumber(n: int)
    | JString(s: string)
    | JArray(items: seq<JsonValue>)
    | JObject(fields: map<string, JsonValue>)
}

/** What a child process returned: its exit code and its captured output. */
module Process {

  datatype ProcessResult = ProcessResult(code: int, stdout: string, stderr: string)
}
