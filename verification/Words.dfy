/** Machine words and the few general helpers the other modules share. */
module Words {

  /** One more than the largest `uint64_t`. */
  const WORD: nat := 0x1_0000_0000_0000_0000

  /** `std::numeric_limits<uint32_t>::max()`. */
  const UINT32_MAX: nat := 0xFFFF_FFFF

  type Word = w: nat | w < 0x1_0000_0000_0000_0000

  datatype Option<+T> = None | Some(value: T)

  function Min(a: int, b: int): (m: int)
    ensures m <= a && m <= b && (m == a || m == b)
  {
    if a < b then a else b
  }
}
