/** The two wrappers the model uses: `Option` for a JavaScript value that may be
    missing (`undefined` or `null`), and `Outcome` for a middleware check that
    either lets the request through or raises an error. */
module Wrappers {

  datatype Option<+T> = None | Some(value: T)

  datatype Outcome<+E> = Pass | Fail(error: E)
}
