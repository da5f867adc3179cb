/** The failure-carrying shapes the model uses in place of `undefined`
    results and thrown errors. */
module Wrappers {

  /** A value that may be absent (`undefined` in the system's terms). */
  datatype Option<+T> = None | Some(value: T)

  /** The outcome of an operation that returns nothing on success and
      throws on failure. */
  datatype Outcome<+E> = Pass | Fail(error: E)
}
