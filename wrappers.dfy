/** Optional values and JavaScript truthiness, shared by every module of the model. */
module Wrappers {

  /** A value that may be absent: an optional field, or the `undefined` returned by `find`. */
  datatype Option<+T> = None | Some(value: T)

  /** The outcome of an operation that can throw. */
  datatype Result<+R, +E> = Success(value: R) | Failure(error: E)

  /** JavaScript truthiness of an optional boolean: `undefined` and `false` are falsy. */
  predicate IsTrue(b: Option<bool>) {
    b == Some(true)
  }

  /** JavaScript truthiness of an optional string: `null`, `undefined` and `''` are falsy. */
  predicate IsNonEmpty(s: Option<string>) {
    s.Some? && s.value != ""
  }

  /** JavaScript `x || d` on an integer: `0` is falsy, every other integer is returned as it is. */
  function OrDefault(x: int, d: int): (r: int)
    ensures x != 0 ==> r == x
    ensures x == 0 ==> r == d
  {
    if x == 0 then d else x
  }

  /** The number of elements of `Array.from({length: n})`: a negative length is clamped to zero. */
  function ArrayLength(n: int): (r: nat)
    ensures n >= 0 ==> r == n
    ensures n <= 0 ==> r == 0
  {
    if n < 0 then 0 else n
  }
}
