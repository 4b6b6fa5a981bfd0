/** Small datatypes shared by the other modules. */
module Wrappers {

  datatype Option<+T> = None | Some(value: T)

  const TWO_32: int := 0x1_0000_0000
  const TWO_31: int := 0x8000_0000

  /** The int32_t with the same 32 bits as x modulo 2^32. */
  function Wrap32(x: int): (r: int)
    ensures -0x8000_0000 <= r < 0x8000_0000
    ensures (x - r) % 0x1_0000_0000 == 0
    ensures -TWO_31 <= x < TWO_31 ==> r == x
  {
    var u := x % TWO_32;
    if u < TWO_31 then u else u - TWO_32
  }
}
