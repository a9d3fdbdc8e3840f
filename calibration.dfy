/** The factory calibration block: 22 bytes read from the sensor, eleven
    big-endian 16-bit coefficients in the order AC1, AC2, AC3, AC4, AC5, AC6, B1,
    B2, MB, MC, MD. AC4, AC5 and AC6 are unsigned; the others are two's
    complement. */
module Calibration {
  import opened Words

  /** The coefficients as the library's `BMP180_CalibrationData` holds them. */
  datatype Coefficients = Coefficients(
    ac1: int, ac2: int, ac3: int, ac4: int, ac5: int, ac6: int,
    b1: int, b2: int, mb: int, mc: int, md: int)

  const BlockSize: nat := 22
  const FieldCount: nat := 11

  /** Whether the field at position `k` of the block is read as signed. */
  predicate SignedField(k: nat)
  {
    k !in {3, 4, 5}
  }

  /** The coefficient at position `k` of the block layout. */
  function FieldAt(c: Coefficients, k: nat): int
    requires k < FieldCount
  {
    match k
    case 0 => c.ac1 case 1 => c.ac2 case 2 => c.ac3
    case 3 => c.ac4 case 4 => c.ac5 case 5 => c.ac6
    case 6 => c.b1 case 7 => c.b2 case 8 => c.mb
    case 9 => c.mc case _ => c.md
  }

  /** Every coefficient lies in the range of its C type. */
  predicate InRange(c: Coefficients)
  {
    forall k :: 0 <= k < FieldCount ==>
      if SignedField(k) then IsInt16(FieldAt(c, k)) else IsUInt16(FieldAt(c, k))
  }

  /** The 16-bit word at field position `k` of a block. */
  function Word(block: seq<byte>, k: nat): (w: int)
    requires |block| == BlockSize && k < FieldCount
    ensures IsUInt16(w)
  {
    Be16(block[2 * k], block[2 * k + 1])
  }

  /** The value of field `k`: the word, as two's complement for signed fields. */
  function FieldValue(block: seq<byte>, k: nat): int
    requires |block| == BlockSize && k < FieldCount
  {
    if SignedField(k) then ToInt16(Word(block, k)) else Word(block, k)
  }

  /** The decoding of bmp180_read_calibration_data: field `k` is built from bytes
      `2k` (high) and `2k + 1` (low), signed fields lie in [-32768, 32767] and
      unsigned ones in [0, 65535]. */
  function Decode(block: seq<byte>): (c: Coefficients)
    requires |block| == BlockSize
    ensures InRange(c)
    ensures forall k :: 0 <= k < FieldCount ==>
      FieldAt(c, k) == if SignedField(k) then ToInt16(block[2 * k] as int * 256 + block[2 * k + 1] as int)
                       else block[2 * k] as int * 256 + block[2 * k + 1] as int
  {
    var c := Coefficients(
      FieldValue(block, 0), FieldValue(block, 1), FieldValue(block, 2),
      FieldValue(block, 3), FieldValue(block, 4), FieldValue(block, 5),
      FieldValue(block, 6), FieldValue(block, 7), FieldValue(block, 8),
      FieldValue(block, 9), FieldValue(block, 10));
    FieldsInOrder(block, c);
    c
  }

  /** The eleven fields, taken in block order, land in the coefficients'
      layout positions. */
  lemma FieldsInOrder(block: seq<byte>, c: Coefficients)
    requires |block| == BlockSize
    requires c == Coefficients(
      FieldValue(block, 0), FieldValue(block, 1), FieldValue(block, 2),
      FieldValue(block, 3), FieldValue(block, 4), FieldValue(block, 5),
      FieldValue(block, 6), FieldValue(block, 7), FieldValue(block, 8),
      FieldValue(block, 9), FieldValue(block, 10))
    ensures forall k :: 0 <= k < FieldCount ==> FieldAt(c, k) == FieldValue(block, k)
  {
  }

  /** The 16-bit pattern that stores field `k`. */
  function Pattern(c: Coefficients, k: nat): (w: int)
    requires InRange(c) && k < FieldCount
    ensures IsUInt16(w)
  {
    if SignedField(k) then FromInt16(FieldAt(c, k)) else FieldAt(c, k)
  }

  /** The block a sensor with coefficients `c` holds (the inverse of Decode). */
  function Encode(c: Coefficients): (block: seq<byte>)
    requires InRange(c)
    ensures |block| == BlockSize
    ensures forall k :: 0 <= k < FieldCount ==>
      block[2 * k] == High(Pattern(c, k)) && block[2 * k + 1] == Low(Pattern(c, k))
  {
    seq(BlockSize, i requires 0 <= i < BlockSize =>
      if i % 2 == 0 then High(Pattern(c, i / 2)) else Low(Pattern(c, i / 2)))
  }

  /** Two coefficient sets that agree field by field are equal. */
  lemma {:induction false} FieldsDetermine(c: Coefficients, d: Coefficients)
    requires forall k :: 0 <= k < FieldCount ==> FieldAt(c, k) == FieldAt(d, k)
    ensures c == d
  {
    assert FieldAt(c, 0) == FieldAt(d, 0) && FieldAt(c, 1) == FieldAt(d, 1);
    assert FieldAt(c, 2) == FieldAt(d, 2) && FieldAt(c, 3) == FieldAt(d, 3);
    assert FieldAt(c, 4) == FieldAt(d, 4) && FieldAt(c, 5) == FieldAt(d, 5);
    assert FieldAt(c, 6) == FieldAt(d, 6) && FieldAt(c, 7) == FieldAt(d, 7);
    assert FieldAt(c, 8) == FieldAt(d, 8) && FieldAt(c, 9) == FieldAt(d, 9);
    assert FieldAt(c, 10) == FieldAt(d, 10);
  }

  /** Decoding the block of a coefficient set gives the coefficients back. */
  lemma {:induction false} DecodeEncode(c: Coefficients)
    requires InRange(c)
    ensures Decode(Encode(c)) == c
  {
    var block := Encode(c);
    forall k | 0 <= k < FieldCount ensures FieldAt(Decode(block), k) == FieldAt(c, k) {
      SplitAssemble(Pattern(c, k));
      assert Word(block, k) == Pattern(c, k);
      if SignedField(k) {
        CastOfPattern(FieldAt(c, k));
      }
    }
    FieldsDetermine(Decode(block), c);
  }

  /** Encoding the decoded coefficients gives the block back: no two blocks
      decode to the same coefficients. */
  lemma {:induction false} EncodeDecode(block: seq<byte>)
    requires |block| == BlockSize
    ensures Encode(Decode(block)) == block
  {
    var c := Decode(block);
    var again := Encode(c);
    forall k | 0 <= k < FieldCount
      ensures again[2 * k] == block[2 * k] && again[2 * k + 1] == block[2 * k + 1]
    {
      assert Pattern(c, k) == Word(block, k) by {
        if SignedField(k) {
          PatternOfCast(Word(block, k));
        }
      }
      AssembleSplit(block[2 * k], block[2 * k + 1]);
    }
    forall i | 0 <= i < BlockSize ensures again[i] == block[i] {
      var k := i / 2;
      assert i == 2 * k || i == 2 * k + 1;
    }
  }

  /** The coefficients of the sample device in the BMP180 datasheet, decoded
      from its calibration block. */
  lemma DatasheetSample()
    ensures Decode([0x01, 0x98, 0xFF, 0xB8, 0xC7, 0xD1, 0x7F, 0xE5, 0x7F, 0xF5, 0x5A, 0x71,
                    0x18, 0x2E, 0x00, 0x04, 0x80, 0x00, 0xDD, 0xF9, 0x0B, 0x34])
         == Coefficients(408, -72, -14383, 32741, 32757, 23153, 6190, 4, -32768, -8711, 2868)
  {
    var block: seq<byte> := [0x01, 0x98, 0xFF, 0xB8, 0xC7, 0xD1, 0x7F, 0xE5, 0x7F, 0xF5, 0x5A, 0x71,
                             0x18, 0x2E, 0x00, 0x04, 0x80, 0x00, 0xDD, 0xF9, 0x0B, 0x34];
    assert FieldValue(block, 0) == 408 && FieldValue(block, 1) == -72 && FieldValue(block, 2) == -14383;
    assert FieldValue(block, 3) == 32741 && FieldValue(block, 4) == 32757 && FieldValue(block, 5) == 23153;
    assert FieldValue(block, 6) == 6190 && FieldValue(block, 7) == 4 && FieldValue(block, 8) == -32768;
    assert FieldValue(block, 9) == -8711 && FieldValue(block, 10) == 2868;
  }
}
