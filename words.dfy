/** Bytes and 16-bit words as the sensor's registers deliver them. */
module Words {

  /** An unsigned 8-bit value (`uint8_t` / `u8`). */
  newtype byte = x: int | 0 <= x < 256

  predicate IsInt16(x: int) { -0x8000 <= x < 0x8000 }
  predicate IsUInt16(x: int) { 0 <= x < 0x1_0000 }

  /** `(hi << 8) | lo` on two bytes promoted to `int`: the bits of `hi` and `lo`
      do not overlap, so the bitwise or is the sum. */
  function Be16(hi: byte, lo: byte): (w: int)
    ensures IsUInt16(w)
    ensures w / 256 == hi as int && w % 256 == lo as int
  {
    hi as int * 256 + lo as int
  }

  /** `(b0 << 16) | (b1 << 8) | b2`: a 24-bit big-endian value. */
  function Be24(b0: byte, b1: byte, b2: byte): (w: int)
    ensures 0 <= w < 0x100_0000
    ensures w / 65536 == b0 as int && w % 65536 == Be16(b1, b2)
  {
    b0 as int * 65536 + Be16(b1, b2)
  }

  /** The `(int16_t)` conversion of a 16-bit pattern: the two's-complement value,
      i.e. the one 16-bit signed value congruent to `w` modulo 2^16. */
  function ToInt16(w: int): (v: int)
    requires IsUInt16(w)
    ensures IsInt16(v)
    ensures (w - v) % 0x1_0000 == 0
    ensures v < 0 <==> w >= 0x8000
  {
    if w < 0x8000 then w else w - 0x1_0000
  }

  /** The bit pattern of a signed 16-bit value (the inverse of ToInt16). */
  function FromInt16(v: int): (w: int)
    requires IsInt16(v)
    ensures IsUInt16(w)
    ensures (w - v) % 0x1_0000 == 0
  {
    if v < 0 then v + 0x1_0000 else v
  }

  /** The `(int16_t)` cast recovers a signed value from its pattern. */
  lemma CastOfPattern(v: int)
    requires IsInt16(v)
    ensures ToInt16(FromInt16(v)) == v
  {
  }

  /** The pattern of a cast value is the pattern that was cast. */
  lemma PatternOfCast(w: int)
    requires IsUInt16(w)
    ensures FromInt16(ToInt16(w)) == w
  {
  }

  /** The high byte of a 16-bit pattern. */
  function High(w: int): (b: byte)
    requires IsUInt16(w)
    ensures b as int * 256 <= w < b as int * 256 + 256
  {
    (w / 256) as byte
  }

  /** The low byte of a 16-bit pattern. */
  function Low(w: int): (b: byte)
    requires IsUInt16(w)
    ensures (w - b as int) % 256 == 0
  {
    (w % 256) as byte
  }

  /** Splitting a word into bytes and assembling it again gives the word back. */
  lemma {:induction false} SplitAssemble(w: int)
    requires IsUInt16(w)
    ensures Be16(High(w), Low(w)) == w
  {
  }

  /** Assembling two bytes and splitting the word gives the bytes back. */
  lemma {:induction false} AssembleSplit(hi: byte, lo: byte)
    ensures High(Be16(hi, lo)) == hi && Low(Be16(hi, lo)) == lo
  {
  }
}
