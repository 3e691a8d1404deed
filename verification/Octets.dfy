/** Words as the octets they are sent as. */
module Octets {
  import opened Common

  /** A 16-bit word in network order. */
  datatype Word = Word(hi: byte, lo: byte)

  const ZERO: Word := Word(0, 0)

  function Split(n: uint16): (w: Word)
    ensures Value(w) == n
  {
    Word(n / 0x100, n % 0x100)
  }

  function Value(w: Word): uint16 { w.hi * 0x100 + w.lo }
}
