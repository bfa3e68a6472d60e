/** Bytes, and 32-bit words in little-endian order. */
module Bytes {

  type Byte = x: int | 0 <= x < 256

  const TWO_32 := 0x1_0000_0000

  type Word32 = x: int | 0 <= x < 0x1_0000_0000

  function ToLittleEndian(u: Word32): (b: seq<Byte>)
    ensures |b| == 4
  {
    [u % 256, (u / 256) % 256, (u / 0x1_0000) % 256, u / 0x100_0000]
  }

  function FromLittleEndian(b0: Byte, b1: Byte, b2: Byte, b3: Byte): Word32 {
    (b0 as int) + 256 * (b1 as int) + 0x1_0000 * (b2 as int) + 0x100_0000 * (b3 as int)
  }

  /** The lowest byte comes first. */
  lemma LowestByteFirst(u: Word32)
    ensures var b := ToLittleEndian(u);
            u == b[0] as int + 0x100 * (b[1] as int) + 0x1_0000 * (b[2] as int) + 0x100_0000 * (b[3] as int)
  {
    assert u == u % 256 + 256 * (u / 256);
    assert u / 256 == (u / 256) % 256 + 256 * (u / 0x1_0000);
    assert u / 0x1_0000 == (u / 0x1_0000) % 256 + 256 * (u / 0x100_0000);
  }

  lemma WordComesBack(u: Word32)
    ensures var b := ToLittleEndian(u); FromLittleEndian(b[0], b[1], b[2], b[3]) == u
  {
    hide ToLittleEndian;
    LowestByteFirst(u);
  }

  lemma BytesComeBack(b0: Byte, b1: Byte, b2: Byte, b3: Byte)
    ensures ToLittleEndian(FromLittleEndian(b0, b1, b2, b3)) == [b0, b1, b2, b3]
  {
    var u := FromLittleEndian(b0, b1, b2, b3);
    assert u / 256 == b1 as int + 256 * (b2 as int) + 0x1_0000 * (b3 as int);
    assert u / 0x1_0000 == b2 as int + 256 * (b3 as int);
    assert u / 0x100_0000 == b3 as int;
  }
}
