// Small things that several modules use.

module Wrappers {
  datatype Option<+T> = None | Some(value: T)

  const TWO_63 := 0x8000_0000_0000_0000

  predicate IsDigit(c: char) {
    '0' <= c <= '9'
  }
}
