/** Result and option types, and the outcome of a Rust call that may panic. */
module Wrappers {

  datatype Option<+T> = None | Some(value: T)

  datatype Result<+T, +E> = Ok(value: T) | Err(error: E)

  /** Why a call panicked: `unwrap` on an `Err`, or an explicit `panic!`/`expect` message. */
  datatype Panic = UnwrapOnErr | Explicit(message: string)

  /** The outcome of a Rust function that returns its value or panics. */
  datatype Conversion<+T> = Converted(value: T) | Panicked(panic: Panic)
}
