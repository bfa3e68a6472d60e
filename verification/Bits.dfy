/** The `BITS` mask, which separates the version byte of a test-mode command word from its index. */
module Bits {

  function Bit(n: bv32): bv32
    requires n < 32
  {
    1 << n
  }

  /** The macro: bits `m` to `n`. */
  function BitRange(m: bv32, n: bv32): bv32
    requires m < 32 && n < 32
  {
    !(Bit(m) - 1) & ((Bit(n) - 1) | Bit(n))
  }

  predicate HasBit(x: bv32, i: bv32)
    requires i < 32
  {
    (x >> i) & 1 == 1
  }

  /** `BITS(m,n)` has exactly the bits from `m` to `n`. */
  lemma BitRangeMeaning(m: bv32, n: bv32, i: bv32)
    requires m < 32 && n < 32 && i < 32
    ensures HasBit(BitRange(m, n), i) <==> m <= i <= n
  {
  }

  /** The command word the driver is sent. */
  function Tag(index: bv32, version: bv8): bv32 { index | ((version as bv32) << 24) }

  /** Tagging an index with any version byte and masking with `BITS(0, 23)` gives the index back. */
  lemma MaskRecoversIndex(index: bv32, version: bv8)
    requires index < 0x100_0000
    ensures Tag(index, version) & BitRange(0, 23) == index
    ensures Tag(index, version) >> 24 == version as bv32
  {
    assert BitRange(0, 23) == 0x00FF_FFFF;
  }

  /** Which reply decoder the driver attaches to a command word. */
  datatype Decoder = StaStatisticsReply | BeamplusReply | LinkDetectReply | NoReply

  function DecoderFor(word: bv32): Decoder {
    var index := word & BitRange(0, 23);
    if index == 0x10 then StaStatisticsReply
    else if index == 0x12 then BeamplusReply
    else if index == 0x20 then LinkDetectReply
    else NoReply
  }

  /** The decoder depends on the command alone, never on the version. */
  lemma DecoderIgnoresVersion(index: bv32, v: bv8, w: bv8)
    requires index < 0x100_0000
    ensures DecoderFor(Tag(index, v)) == DecoderFor(Tag(index, w))
    ensures DecoderFor(Tag(index, v)) == StaStatisticsReply <==> index == 0x10
    ensures DecoderFor(Tag(index, v)) == BeamplusReply <==> index == 0x12
    ensures DecoderFor(Tag(index, v)) == LinkDetectReply <==> index == 0x20
  {
    MaskRecoversIndex(index, v);
    MaskRecoversIndex(index, w);
  }
}
