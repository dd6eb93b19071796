/** Small value types shared by every module of the model. */
module Wrappers {
  /** A C pointer that may be NULL, seen as a value. */
  datatype Option<T> = None | Some(value: T)

  function Min(a: int, b: int): int { if a <= b then a else b }
}
