/** Option and Result, the two sum types the connection's interface is written in. */
module Wrappers {

  datatype Option<T> = None | Some(value: T)

  datatype Result<T, E> = Ok(value: T) | Err(error: E) {

    /** Rust's `Result::and_then`: feeds a success value to `f`, passes an error through. */
    function AndThen<U>(f: T -> Result<U, E>): Result<U, E>
    {
      match this
      case Ok(v) => f(v)
      case Err(e) => Err(e)
    }
  }
}
