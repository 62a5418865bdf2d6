/** The optional value used wherever the source returns `null` or a value. */
module Wrappers {

  datatype Option<+T> = None | Some(value: T) {

    /** Returns the value encapsulated in Some, or `default` if None. */
    function GetOr(default: T): T {
      match this
      case Some(v) => v
      case None => default
    }
  }

  /** The settlement of an awaited call: its value, or the message of the error it threw. */
  datatype Attempt<+T> = Done(value: T) | Threw(error: string)

  /** JavaScript truthiness of an optional string: `null` and `""` are falsy. */
  predicate Truthy(o: Option<string>) {
    o.Some? && o.value != ""
  }
}
