/** Types and small functions shared by the models of the individual source files. */
module Common {
  datatype Option<+T> = None | Some(value: T)

  type Byte = b: int | 0 <= b < 256

  const U16_RANGE := 0x1_0000
  const U32_RANGE := 0x1_0000_0000

  /** The conversion C performs when an integer is stored in a `uint16_t`. */
  function ToU16(x: int): (r: nat)
    ensures r < U16_RANGE
    ensures 0 <= x < U16_RANGE ==> r == x
  {
    x % U16_RANGE
  }

  /** The conversion C performs when an integer is stored in a 32-bit unsigned variable. */
  function ToU32(x: int): (r: nat)
    ensures r < U32_RANGE
    ensures 0 <= x < U32_RANGE ==> r == x
  {
    x % U32_RANGE
  }

  function Min(a: int, b: int): int {
    if a < b then a else b
  }

  function Max(a: int, b: int): int {
    if a < b then b else a
  }

  /** No value occurs twice in `s`. */
  ghost predicate Distinct<T>(s: seq<T>) {
    forall i, j :: 0 <= i < j < |s| ==> s[i] != s[j]
  }
}
