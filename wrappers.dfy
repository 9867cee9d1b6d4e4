/** Failure-compatible result types shared by the other modules. */
module Wrappers {

  /** A value or nothing: used for the not-a-number sentinel of the math layer. */
  datatype Option<+T> = None | Some(value: T)

  /** Success without a value, or a failure carrying an error (a thrown `Error`). */
  datatype Outcome<+E> = Pass | Fail(error: E)
}
