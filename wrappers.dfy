/** The optional value used where the app returns `null` or `undefined`, and
    the outcome of a JavaScript call that may throw instead of returning. */
module Wrappers {

  datatype Option<+T> = None | Some(value: T)

  /** A call either returns a value or throws (a TypeError, for the calls
      modelled here). */
  datatype Outcome<+T> = Returned(value: T) | Threw
}
