/** Results that may fail, and the arithmetic every module shares. */
module Wrappers {
  datatype Option<+T> = None | Some(value: T)

  datatype Result<+T, +E> = Success(value: T) | Failure(error: E)

  function Max(a: int, b: int): int { if a < b then b else a }

  function Min(a: int, b: int): int { if a < b then a else b }

  /** A condition counted. */
  function One(b: bool): nat { if b then 1 else 0 }
}
