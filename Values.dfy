/** JavaScript values that the suite's functions hand back to their callers. */
module Values {

  /** An optional value: `None` stands for JavaScript's `undefined` (or `null`). */
  datatype Option<+T> = None | Some(value: T) {
    function GetOr(default: T): T {
      match this
      case Some(v) => v
      case None => default
    }
  }

  /** How an `async` function settles: it returns a value, or it throws an error with a message. */
  datatype Completion<+T> = Normal(value: T) | Abrupt(message: string)
}
