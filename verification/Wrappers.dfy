/** Optional values and the outcome of an operation that can fail. */
module Wrappers {

  datatype Option<+T> = None | Some(value: T)

  datatype Result<+T, +E> = Ok(value: T) | Err(error: E)
}

/** The smaller of two numbers. */
module Bounds {

  function Min(a: nat, b: nat): nat { if a <= b then a else b }

  function MinReal(a: real, b: real): real { if a <= b then a else b }
}
