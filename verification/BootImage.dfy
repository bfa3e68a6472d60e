/** pack.pl: a 512-byte MediaTek header in front of a ramdisk. */
module BootImage {
  import opened Bytes
  import opened Options

  const HEADER := 512
  const MAGIC: seq<Byte> := [0x88, 0x16, 0x88, 0x58]

  // ----- Reading the file

  const NEWLINE: Byte := 10

  /** Length of the line that starts at `pos`, its newline included. */
  function LineLength(file: seq<Byte>, pos: nat): (n: nat)
    requires pos < |file|
    ensures 0 < n && pos + n <= |file|
    ensures forall i :: pos <= i < pos + n - 1 ==> file[i] != NEWLINE
    ensures pos + n < |file| ==> file[pos + n - 1] == NEWLINE
    decreases |file| - pos
  {
    if file[pos] == NEWLINE || pos + 1 == |file| then 1 else 1 + LineLength(file, pos + 1)
  }

  /** The read loop: one line at a time, appended to what was read before. */
  method ReadRamdisk(file: seq<Byte>) returns (ramdisk: seq<Byte>)
    ensures ramdisk == file
  {
    ramdisk := [];
    var pos := 0;
    while pos < |file|
      invariant 0 <= pos <= |file| && ramdisk == file[..pos]
    {
      var n := LineLength(file, pos);
      var line := file[pos..pos + n];
      ramdisk := ramdisk + line;
      pos := pos + n;
    }
  }

  // ----- The header

  function Fill(n: nat, b: Byte): (s: seq<Byte>)
    ensures |s| == n && forall i :: 0 <= i < n ==> s[i] == b
  {
    seq(n, _ => b)
  }

  /** Perl's `aN`: cut off at N bytes, or padded with NULs. */
  function Padded(s: seq<Byte>, n: nat): (r: seq<Byte>)
    ensures |r| == n
  {
    if |s| >= n then s[..n] else s + Fill(n - |s|, 0)
  }

  /** Perl's `L` on a little-endian machine: the low 32 bits. */
  function Long(v: nat): (r: seq<Byte>)
    ensures |r| == 4
  {
    ToLittleEndian(v % TWO_32)
  }

  function GenHeader(name: seq<Byte>, length: nat): (h: seq<Byte>)
    ensures |h| == HEADER
  {
    Padded(MAGIC, 4) + Long(length) + Padded(name, 32) + Padded(Fill(472, 0xFF), 472)
  }

  /** The file that replaces the ramdisk. */
  function Pack(name: seq<Byte>, ramdisk: seq<Byte>): (image: seq<Byte>)
    ensures |image| == HEADER + |ramdisk|
  {
    GenHeader(name, |ramdisk|) + ramdisk
  }

  method RepackBoot(name: seq<Byte>, file: seq<Byte>) returns (image: seq<Byte>)
    ensures image == Pack(name, file)
  {
    var ramdisk := ReadRamdisk(file);
    var sizeramdisk := |ramdisk|;
    var header := GenHeader(name, sizeramdisk);
    image := header + ramdisk;
  }

  // ----- The inverse

  function StripNuls(s: seq<Byte>): (r: seq<Byte>)
    ensures r <= s
    ensures r == [] || r[|r| - 1] != 0
    ensures forall i :: |r| <= i < |s| ==> s[i] == 0
  {
    if s == [] || s[|s| - 1] != 0 then s else StripNuls(s[..|s| - 1])
  }

  function FromLong(b: seq<Byte>): nat
    requires |b| == 4
  {
    FromLittleEndian(b[0], b[1], b[2], b[3])
  }

  /** Name and payload of an image whose magic, length and filler are right. */
  function Unpack(image: seq<Byte>): Option<(seq<Byte>, seq<Byte>)> {
    if |image| < HEADER || image[..4] != MAGIC then None
    else if FromLong(image[4..8]) != |image| - HEADER then None
    else if image[40..512] != Fill(472, 0xFF) then None
    else Some((StripNuls(image[8..40]), image[HEADER..]))
  }

  predicate PackableName(name: seq<Byte>) { |name| <= 32 && (name == [] || name[|name| - 1] != 0) }

  lemma LongRoundTrip(v: nat)
    ensures FromLong(Long(v)) == v % TWO_32
  {
    WordComesBack(v % TWO_32);
  }

  lemma {:induction false} StripUndoesPad(name: seq<Byte>, n: nat)
    requires name == [] || name[|name| - 1] != 0
    ensures StripNuls(name + Fill(n, 0)) == name
  {
    var s := name + Fill(n, 0);
    if n == 0 {
      assert s == name;
    } else {
      StripUndoesPad(name, n - 1);
      assert s[..|s| - 1] == name + Fill(n - 1, 0);
    }
  }

  lemma PackLayout(name: seq<Byte>, ramdisk: seq<Byte>)
    ensures var i := Pack(name, ramdisk);
            && i[..4] == MAGIC && i[4..8] == Long(|ramdisk|) && i[8..40] == Padded(name, 32)
            && i[40..512] == Fill(472, 0xFF) && i[512..] == ramdisk
  {
    hide Long, Fill;
    var h := GenHeader(name, |ramdisk|);
    assert Padded(MAGIC, 4) == MAGIC && Padded(Fill(472, 0xFF), 472) == Fill(472, 0xFF);
    assert h[..4] == MAGIC && h[4..8] == Long(|ramdisk|) && h[8..40] == Padded(name, 32) && h[40..512] == Fill(472, 0xFF);
    assert Pack(name, ramdisk)[..512] == h;
  }

  /** Every byte of the image: magic, length lowest byte first, name padded with NULs, filler, payload. */
  lemma ImageBytes(name: seq<Byte>, ramdisk: seq<Byte>)
    ensures var i := Pack(name, ramdisk);
            && |i| == 512 + |ramdisk|
            && i[..4] == [0x88, 0x16, 0x88, 0x58]
            && |ramdisk| % 0x1_0000_0000 ==
               (i[4] as int) + 0x100 * (i[5] as int) + 0x1_0000 * (i[6] as int) + 0x100_0000 * (i[7] as int)
            && (forall k :: 0 <= k < 32 ==> i[8 + k] == if k < |name| then name[k] else 0)
            && (forall k :: 40 <= k < 512 ==> i[k] == 0xFF)
            && i[512..] == ramdisk
  {
    hide GenHeader, ToLittleEndian;
    var i := Pack(name, ramdisk);
    PackLayout(name, ramdisk);
    LowestByteFirst(|ramdisk| % TWO_32);
    assert i[4] == i[4..8][0] && i[5] == i[4..8][1] && i[6] == i[4..8][2] && i[7] == i[4..8][3];
    assert forall k :: 0 <= k < 32 ==> i[8 + k] == i[8..40][k];
    assert forall k :: 40 <= k < 512 ==> i[k] == i[40..512][k - 40];
  }

  /** Name and payload come back exactly when the name fits its field without trailing NULs and the
      payload's length fits 32 bits; the empty payload included. */
  lemma UnpackUndoesPack(name: seq<Byte>, ramdisk: seq<Byte>)
    ensures Unpack(Pack(name, ramdisk)) == Some((name, ramdisk)) <==> PackableName(name) && |ramdisk| < TWO_32
    ensures Unpack(Pack(name, ramdisk)).Some? <==> |ramdisk| < TWO_32
  {
    hide Pack, Long, Fill, FromLong;
    PackLayout(name, ramdisk);
    LongRoundTrip(|ramdisk|);
    if PackableName(name) {
      StripUndoesPad(name, 32 - |name|);
      assert Padded(name, 32) == name + Fill(32 - |name|, 0);
    }
  }

  // ----- Packing again

  /** Pack with the first name, then the result with the second, and so on. */
  function PackAll(names: seq<seq<Byte>>, ramdisk: seq<Byte>): (image: seq<Byte>)
    ensures |image| == HEADER * |names| + |ramdisk|
  {
    if names == [] then ramdisk else Pack(names[|names| - 1], PackAll(names[..|names| - 1], ramdisk))
  }

  /** Peel `k` headers off, outermost first. */
  function Peel(image: seq<Byte>, k: nat): Option<(seq<seq<Byte>>, seq<Byte>)> {
    if k == 0 then Some(([], image))
    else
      match Unpack(image)
      case None => None
      case Some((name, inner)) =>
        match Peel(inner, k - 1)
        case None => None
        case Some((names, ramdisk)) => Some((names + [name], ramdisk))
  }

  /** k packings peel off in k steps exactly when every name is packable and every packed size stays
      below 2^32. */
  lemma {:induction false} PeelUndoesPackAll(names: seq<seq<Byte>>, ramdisk: seq<Byte>)
    ensures Peel(PackAll(names, ramdisk), |names|) == Some((names, ramdisk)) <==>
            && (forall i :: 0 <= i < |names| ==> PackableName(names[i]))
            && (names == [] || HEADER * (|names| - 1) + |ramdisk| < TWO_32)
  {
    hide Unpack, Pack, PackableName;
    if names == [] {
    } else {
      var front, last := names[..|names| - 1], names[|names| - 1];
      var inner := PackAll(front, ramdisk);
      PeelUndoesPackAll(front, ramdisk);
      UnpackUndoesPack(last, inner);
      UnpackPayload(last, inner);
      assert names == front + [last];
      var u, rest := Unpack(Pack(last, inner)), Peel(inner, |front|);
      if u.Some? && rest.Some? && rest.value.0 + [u.value.0] == names {
        assert (rest.value.0 + [u.value.0])[|names| - 1] == u.value.0;
        assert rest.value.0 == names[..|names| - 1];
      }
    }
  }

  lemma UnpackPayload(name: seq<Byte>, ramdisk: seq<Byte>)
    ensures Unpack(Pack(name, ramdisk)).Some? ==> Unpack(Pack(name, ramdisk)).value.1 == ramdisk
  {
    hide GenHeader, FromLong, Fill;
    PackLayout(name, ramdisk);
  }
}
