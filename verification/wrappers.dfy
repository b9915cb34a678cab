/** Failure-carrying datatypes shared by the whole model. */
module Wrappers {

  /** A value that may be absent: the model's rendering of a nullable column,
      a nullable C# reference or an `undefined` JavaScript value. */
  datatype Option<+T> = None | Some(value: T) {
    function GetOr(default: T): T {
      match this
      case Some(v) => v
      case None => default
    }
  }

  /** The outcome of a call into code this model cannot see (the database
      driver, the identity provider): it returns a value, or it throws an
      exception whose `Message` is `message`. */
  datatype Outcome<+T> = Done(value: T) | Threw(message: string)
}
