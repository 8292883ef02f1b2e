/** Optional values and the success-or-failure outcome that stands for a thrown JavaScript error. */
module Wrappers {

  datatype Option<+T> = None | Some(value: T)

  /** `Err` models a rejected promise or a thrown value; `Ok` a normal return. */
  datatype Result<+T, +E> = Ok(value: T) | Err(error: E)
}
