/** Optional values, fallible results, and the lesser of two numbers. */
module Wrappers {
  datatype Option<+T> = None | Some(value: T)

  datatype Result<+T> = Ok(value: T) | Err

  function Least(a: nat, b: nat): nat {
    if a <= b then a else b
  }
}
