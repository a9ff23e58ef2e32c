/** An optional value, an octet, and a condition as a number. */
module Wrappers {

  datatype Option<T> = None | Some(value: T)

  type Octet = x: int | 0 <= x < 256

  function One(b: bool): nat { if b then 1 else 0 }
}
