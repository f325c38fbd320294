/** Option for partial operations (a decode that may fail). */
module Wrappers {

  datatype Option<+T> = None | Some(value: T)

  /** The Python exceptions the pipeline can raise and does not catch. */
  datatype PyError =
    | AttributeError  // `.get` or `.replace` called on something that is not a dict / str
    | TypeError       // `json.loads` or `strptime` handed something that is not a str
    | ValueError      // `float(...)` or `strptime(...)` given text it cannot parse

  /** A computation that either yields a value or raises an uncaught exception. */
  datatype Result<+T> = Ok(value: T) | Err(error: PyError)
}
