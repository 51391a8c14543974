/** What several modules share: C's octet, an optional value, and distances. */
module Basics {

  /** uint8_t as a value; arithmetic on it that may leave its range is written out. */
  type Octet = x: int | 0 <= x < 256

  datatype Option<+T> = None | Some(value: T)

  function Abs(x: int): (r: nat) {
    if x < 0 then -x else x
  }

  predicate Between(a: int, x: int, b: int) {
    a <= x <= b || b <= x <= a
  }
}
