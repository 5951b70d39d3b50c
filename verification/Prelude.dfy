/** Types that several components share. */
module Prelude {
  datatype Option<T> = None | Some(value: T)

  const TWO_32: nat := 0x1_0000_0000

  type uint32 = n: nat | n < 0x1_0000_0000

  /** How many elements are of this kind. */
  function Count<T>(s: seq<T>, kind: T -> bool): nat {
    if s == [] then 0 else Count(s[..|s| - 1], kind) + if kind(s[|s| - 1]) then 1 else 0
  }
}
