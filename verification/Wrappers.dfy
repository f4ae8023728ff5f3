/** Optional values and results, shared by every module. */
module Wrappers {

  datatype Option<+T> = None | Some(value: T)

  datatype Result<+T, +E> = Ok(value: T) | Err(error: E)

  type Byte = b: int | 0 <= b < 256

  const U32 := 0x1_0000_0000
  const U64 := 0x1_0000_0000_0000_0000

  function FromBe16(high: int, low: int): nat
    requires 0 <= high < 256 && 0 <= low < 256
  {
    high * 256 + low
  }

  type Index32 = i: int | 0 <= i < U32 witness 0
}
