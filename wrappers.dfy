/** Option and Result values shared by the modules of this model. */
module Wrappers {
  datatype Option<T> = None | Some(value: T)

  /** An error the Python code would raise as an exception. */
  datatype Error = KeyError(key: string) | IndexError

  datatype Result<T> = Ok(value: T) | Err(error: Error)
}
