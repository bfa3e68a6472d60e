/** Java strings as UTF-16 code units, the RIL's hexadecimal reader and the UCS-2 name decoder. */
module JavaText {
  import opened Bytes

  type Unit = x: int | 0 <= x < 0x1_0000
  type JString = seq<Unit>

  datatype Nullable<+T> = Null | Ref(get: T)

  /** A value, or an exception. */
  datatype Result<+T> = Ok(value: T) | Throws {
    predicate IsFailure() { Throws? }
    function PropagateFailure<U>(): Result<U> requires Throws? { Throws }
    function Extract(): T requires Ok? { value }
  }

  // ----- Hexadecimal

  function HexCharToInt(c: Unit): Result<nat> {
    if '0' as int <= c <= '9' as int then Ok(c - '0' as int)
    else if 'A' as int <= c <= 'F' as int then Ok(c - 'A' as int + 10)
    else if 'a' as int <= c <= 'f' as int then Ok(c - 'a' as int + 10)
    else Throws
  }

  /** `c` is the hexadecimal digit of `d`, in either letter case. */
  predicate IsDigitFor(c: Unit, d: nat)
    requires d < 16
  {
    || c == "0123456789ABCDEF"[d] as int
    || c == "0123456789abcdef"[d] as int
  }

  lemma HexCharMeaning(c: Unit, d: nat)
    requires d < 16
    ensures HexCharToInt(c) == Ok(d) <==> IsDigitFor(c, d)
    ensures HexCharToInt(c).Ok? ==> HexCharToInt(c).value < 16
  {
    assert "0123456789ABCDEF"[d] as int == (if d < 10 then 48 + d else 55 + d);
    assert "0123456789abcdef"[d] as int == (if d < 10 then 48 + d else 87 + d);
  }

  /** `s` spells the bytes, two digits each, every digit in either case. */
  ghost predicate Spells(s: JString, bytes: seq<Byte>) {
    && |s| == 2 * |bytes|
    && forall i :: 0 <= i < |bytes| ==> IsDigitFor(s[2 * i], bytes[i] / 16) && IsDigitFor(s[2 * i + 1], bytes[i] % 16)
  }

  function HexPair(hi: Unit, lo: Unit): Result<Byte> {
    var a :- HexCharToInt(hi);
    var b :- HexCharToInt(lo);
    Ok((16 * a + b) % 256)
  }

  lemma HexPairMeaning(hi: Unit, lo: Unit, b: Byte)
    ensures HexPair(hi, lo) == Ok(b) <==> IsDigitFor(hi, b / 16) && IsDigitFor(lo, b % 16)
  {
    hide HexCharToInt, IsDigitFor;
    HexCharMeaning(hi, b / 16);
    HexCharMeaning(lo, b % 16);
  }

  /** The bytes of the first `k` digit pairs. */
  function HexPrefix(s: JString, k: nat): (r: Result<seq<Byte>>)
    requires 2 * k <= |s|
    ensures r.Ok? ==> |r.value| == k
  {
    if k == 0 then Ok([])
    else
      var front :- HexPrefix(s, k - 1);
      var b :- HexPair(s[2 * k - 2], s[2 * k - 1]);
      Ok(front + [b])
  }

  /** An odd-length text runs off its end. */
  function HexDecode(s: JString): Result<seq<Byte>> {
    if |s| % 2 == 1 then Throws else HexPrefix(s, |s| / 2)
  }

  /** The reader of the source, filling its byte array pair by pair. */
  method HexStringToBytes(s: Nullable<JString>) returns (r: Result<Nullable<seq<Byte>>>)
    ensures s.Null? ==> r == Ok(Null)
    ensures s.Ref? ==> r == match HexDecode(s.get) case Ok(b) => Ok(Ref(b)) case Throws => Throws
  {
    hide HexCharToInt, HexPair, HexPrefix, IsDigitFor;
    if s.Null? {
      return Ok(Null);
    }
    var text := s.get;
    var len := |text|;
    var ret := new Byte[len / 2](_ => 0);
    var i := 0;
    NoPairs(text);
    while i < len
      invariant 0 <= i <= len && i % 2 == 0
      invariant HexPrefix(text, i / 2) == Ok(ret[..i / 2])
    {
      var hi := HexCharToInt(text[i]);
      if hi.Throws? {
        HexPrefixFails(text, i / 2);
        return Throws;
      }
      if i + 1 >= len {
        return Throws;
      }
      var lo := HexCharToInt(text[i + 1]);
      if lo.Throws? {
        HexPrefixFails(text, i / 2);
        return Throws;
      }
      HexCharMeaning(text[i], 0);
      HexCharMeaning(text[i + 1], 0);
      ghost var k, front := i / 2, ret[..i / 2];
      ret[i / 2] := (16 * hi.value + lo.value) % 256;
      i := i + 2;
      OnePairMore(text, k, front);
      assert ret[..k + 1] == front + [ret[k]];
    }
    assert ret[..len / 2] == ret[..];
    r := Ok(Ref(ret[..]));
  }

  lemma NoPairs(s: JString)
    ensures HexPrefix(s, 0) == Ok([])
  {
  }

  lemma OnePairMore(s: JString, k: nat, front: seq<Byte>)
    requires 2 * k + 2 <= |s| && HexPrefix(s, k) == Ok(front)
    requires HexCharToInt(s[2 * k]).Ok? && HexCharToInt(s[2 * k + 1]).Ok?
    ensures var b := 16 * HexCharToInt(s[2 * k]).value + HexCharToInt(s[2 * k + 1]).value;
            HexPrefix(s, k + 1) == Ok(front + [b % 256])
  {
    hide HexCharToInt;
  }

  lemma {:induction false} HexPrefixFailsAt(s: JString, j: nat, k: nat)
    requires j < k && 2 * k <= |s| && HexPair(s[2 * j], s[2 * j + 1]).Throws?
    ensures HexPrefix(s, k).Throws?
  {
    if j < k - 1 {
      HexPrefixFailsAt(s, j, k - 1);
    }
  }

  lemma HexPrefixFails(s: JString, j: nat)
    requires 2 * j < |s| && (HexCharToInt(s[2 * j]).Throws? || (2 * j + 1 < |s| && HexCharToInt(s[2 * j + 1]).Throws?))
    ensures HexDecode(s).Throws?
  {
    if |s| % 2 == 0 {
      HexPrefixFailsAt(s, j, |s| / 2);
    }
  }

  lemma SnocInjective(a: seq<Byte>, x: Byte, b: seq<Byte>, y: Byte)
    ensures a + [x] == b + [y] <==> a == b && x == y
  {
    if a + [x] == b + [y] {
      assert |a| == |a + [x]| - 1 && |b| == |b + [y]| - 1;
      assert (a + [x])[..|a|] == a && (b + [y])[..|b|] == b;
      assert (a + [x])[|a|] == x && (b + [y])[|b|] == y;
    }
  }

  ghost predicate SpellsFirst(s: JString, k: nat, bytes: seq<Byte>)
    requires 2 * k <= |s| && |bytes| == k
  {
    forall i :: 0 <= i < k ==> IsDigitFor(s[2 * i], bytes[i] / 16) && IsDigitFor(s[2 * i + 1], bytes[i] % 16)
  }

  lemma {:induction false} HexPrefixMeaning(s: JString, k: nat, bytes: seq<Byte>)
    requires 2 * k <= |s| && |bytes| == k
    ensures HexPrefix(s, k) == Ok(bytes) <==> SpellsFirst(s, k, bytes)
  {
    hide IsDigitFor, HexPair;
    if k == 0 {
      assert bytes == [];
    } else {
      var front, b := bytes[..k - 1], bytes[k - 1];
      assert bytes == front + [b];
      assert SpellsFirst(s, k, bytes) <==>
             SpellsFirst(s, k - 1, front) && IsDigitFor(s[2 * k - 2], b / 16) && IsDigitFor(s[2 * k - 1], b % 16) by {
        assert forall i :: 0 <= i < k - 1 ==> front[i] == bytes[i];
      }
      HexPrefixMeaning(s, k - 1, front);
      HexPairMeaning(s[2 * k - 2], s[2 * k - 1], b);
      hide SpellsFirst;
      var h, p := HexPrefix(s, k - 1), HexPair(s[2 * k - 2], s[2 * k - 1]);
      if h.Ok? && p.Ok? {
        SnocInjective(h.value, p.value, front, b);
      }
    }
  }

  /** The reader accepts exactly the spellings of byte sequences, and returns the bytes spelled. */
  lemma HexDecodeInvertsSpelling(s: JString, bytes: seq<Byte>)
    ensures HexDecode(s) == Ok(bytes) <==> Spells(s, bytes)
  {
    if |s| == 2 * |bytes| {
      HexPrefixMeaning(s, |bytes|, bytes);
    }
  }

  // ----- UTF-16

  const REPLACEMENT: Unit := 0xFFFD

  predicate IsHigh(u: Unit) { 0xD800 <= u <= 0xDBFF }
  predicate IsLow(u: Unit) { 0xDC00 <= u <= 0xDFFF }

  function EncodeBE(t: JString): (b: seq<Byte>)
    ensures |b| == 2 * |t|
  {
    if t == [] then [] else [t[0] / 256, t[0] % 256] + EncodeBE(t[1..])
  }

  /** Byte pairs as units; an odd last byte is replaced. */
  function UnitsOf(b: seq<Byte>, bigEndian: bool): (u: seq<Unit>)
    ensures |u| == (|b| + 1) / 2
  {
    if b == [] then []
    else if |b| == 1 then [REPLACEMENT]
    else
      var u: Unit := if bigEndian then 256 * (b[0] as int) + b[1] else 256 * (b[1] as int) + b[0];
      [u] + UnitsOf(b[2..], bigEndian)
  }

  /** Unpaired surrogates are replaced. */
  function Repair(u: seq<Unit>): (r: seq<Unit>)
    ensures |r| == |u|
  {
    if u == [] then []
    else if IsHigh(u[0]) && |u| > 1 && IsLow(u[1]) then [u[0], u[1]] + Repair(u[2..])
    else if IsHigh(u[0]) || IsLow(u[0]) then [REPLACEMENT] + Repair(u[1..])
    else [u[0]] + Repair(u[1..])
  }

  /** `new String(bytes, "UTF-16")`: a byte-order mark selects the order and is dropped; without one
      the text is big-endian. */
  function DecodeUtf16(b: seq<Byte>): JString {
    if |b| >= 2 && b[0] == 0xFE && b[1] == 0xFF then Repair(UnitsOf(b[2..], true))
    else if |b| >= 2 && b[0] == 0xFF && b[1] == 0xFE then Repair(UnitsOf(b[2..], false))
    else Repair(UnitsOf(b, true))
  }

  lemma {:induction false} UnitsOfEncode(t: JString)
    ensures UnitsOf(EncodeBE(t), true) == t
  {
    if t != [] {
      UnitsOfEncode(t[1..]);
      assert EncodeBE(t)[2..] == EncodeBE(t[1..]);
    }
  }

  function EncodeLE(t: JString): (b: seq<Byte>)
    ensures |b| == 2 * |t|
  {
    if t == [] then [] else [t[0] % 256, t[0] / 256] + EncodeLE(t[1..])
  }

  /** Big-endian puts the high byte of every unit first, little-endian the low one. */
  lemma {:induction false} EncodingOrder(t: JString, i: nat)
    requires i < |t|
    ensures 256 * (EncodeBE(t)[2 * i] as int) + EncodeBE(t)[2 * i + 1] == t[i]
    ensures EncodeLE(t)[2 * i] == EncodeBE(t)[2 * i + 1] && EncodeLE(t)[2 * i + 1] == EncodeBE(t)[2 * i]
  {
    if i > 0 {
      EncodingOrder(t[1..], i - 1);
    }
  }

  lemma {:induction false} UnitsOfEncodeLE(t: JString)
    ensures UnitsOf(EncodeLE(t), false) == t
  {
    if t != [] {
      UnitsOfEncodeLE(t[1..]);
      assert EncodeLE(t)[2..] == EncodeLE(t[1..]);
    }
  }

  /** Every high surrogate is followed by a low one and every low one preceded by a high one. */
  ghost predicate WellFormed(t: JString) {
    && (forall i :: 0 <= i < |t| && IsHigh(t[i]) ==> i + 1 < |t| && IsLow(t[i + 1]))
    && (forall i :: 0 <= i < |t| && IsLow(t[i]) ==> 0 < i && IsHigh(t[i - 1]))
  }

  /** A text splits off a plain unit or a surrogate pair. */
  predicate IsScalar(p: JString) {
    || (|p| == 1 && !IsHigh(p[0]) && !IsLow(p[0]))
    || (|p| == 2 && IsHigh(p[0]) && IsLow(p[1]))
  }

  lemma WellFormedAfterScalar(p: JString, r: JString)
    requires IsScalar(p)
    ensures WellFormed(p + r) <==> WellFormed(r)
  {
    var t, n := p + r, |p|;
    assert forall i :: 0 <= i < |r| ==> t[n + i] == r[i];
    if WellFormed(t) {
      forall i | 0 <= i < |r| && IsHigh(r[i]) ensures i + 1 < |r| && IsLow(r[i + 1]) {
        assert IsHigh(t[n + i]) && IsLow(t[n + i + 1]);
      }
      forall i | 0 <= i < |r| && IsLow(r[i]) ensures 0 < i && IsHigh(r[i - 1]) {
        assert IsLow(t[n + i]) && IsHigh(t[n + i - 1]);
      }
    }
    if WellFormed(r) {
      forall i | 0 <= i < |t| && IsHigh(t[i]) ensures i + 1 < |t| && IsLow(t[i + 1]) {
        if i >= n { assert IsHigh(r[i - n]) && IsLow(r[i - n + 1]); }
      }
      forall i | 0 <= i < |t| && IsLow(t[i]) ensures 0 < i && IsHigh(t[i - 1]) {
        if i >= n { assert IsLow(r[i - n]) && IsHigh(r[i - n - 1]); }
      }
    }
  }

  /** A surrogate without its other half. */
  predicate IsLone(t: JString, i: nat)
    requires i < |t|
  {
    || (IsHigh(t[i]) && !(i + 1 < |t| && IsLow(t[i + 1])))
    || (IsLow(t[i]) && !(0 < i && IsHigh(t[i - 1])))
  }

  /** Unit by unit: exactly the unpaired surrogates become U+FFFD. */
  lemma {:induction false} RepairMeaning(t: JString, i: nat)
    requires i < |t|
    ensures Repair(t)[i] == if IsLone(t, i) then 0xFFFD else t[i]
  {
    var n := if IsHigh(t[0]) && |t| > 1 && IsLow(t[1]) then 2 else 1;
    if i >= n {
      RepairMeaning(t[n..], i - n);
      assert Repair(t)[n..] == Repair(t[n..]);
    }
  }

  lemma WellFormedMeaning(t: JString)
    ensures WellFormed(t) <==> forall i :: 0 <= i < |t| ==> !IsLone(t, i)
  {
    if forall i :: 0 <= i < |t| ==> !IsLone(t, i) {
      forall i | 0 <= i < |t| && IsHigh(t[i]) ensures i + 1 < |t| && IsLow(t[i + 1]) { assert !IsLone(t, i); }
      forall i | 0 <= i < |t| && IsLow(t[i]) ensures 0 < i && IsHigh(t[i - 1]) { assert !IsLone(t, i); }
    }
  }

  lemma RepairFixesOnlyBroken(t: JString)
    ensures Repair(t) == t <==> WellFormed(t)
  {
    hide Repair, WellFormed;
    WellFormedMeaning(t);
    forall i | 0 <= i < |t| ensures Repair(t)[i] == t[i] <==> !IsLone(t, i) { RepairMeaning(t, i); }
    hide IsLone;
    if !WellFormed(t) {
      var i :| 0 <= i < |t| && IsLone(t, i);
      assert Repair(t)[i] != t[i];
    } else {
      forall i | 0 <= i < |t| ensures Repair(t)[i] == t[i] { assert !IsLone(t, i); }
    }
  }

  /** U+FEFF, or U+FFFE, whose big-endian bytes are the other byte-order mark. */
  predicate StartsWithMark(t: JString) { t != [] && (t[0] == 0xFEFF || t[0] == 0xFFFE) }

  /** Big-endian UTF-16 without a mark decodes to the text exactly when the text is well formed
      and does not itself start like a mark. */
  lemma Utf16RoundTrip(t: JString)
    ensures DecodeUtf16(EncodeBE(t)) == t <==> WellFormed(t) && !StartsWithMark(t)
  {
    var b := EncodeBE(t);
    if StartsWithMark(t) {
      assert |DecodeUtf16(b)| == |t| - 1;
    } else {
      if t != [] {
        assert b[0] == t[0] / 256 && b[1] == t[0] % 256;
      }
      UnitsOfEncode(t);
      RepairFixesOnlyBroken(t);
    }
  }

  /** Behind a byte-order mark, a text decodes to itself in either order iff it is well formed. */
  lemma MarkedRoundTrip(t: JString)
    ensures DecodeUtf16([0xFE, 0xFF] + EncodeBE(t)) == t <==> WellFormed(t)
    ensures DecodeUtf16([0xFF, 0xFE] + EncodeLE(t)) == t <==> WellFormed(t)
  {
    hide EncodeBE, EncodeLE, UnitsOf, Repair, WellFormed;
    var be: seq<Byte>, le: seq<Byte> := [0xFE, 0xFF] + EncodeBE(t), [0xFF, 0xFE] + EncodeLE(t);
    assert be[2..] == EncodeBE(t) && le[2..] == EncodeLE(t);
    UnitsOfEncode(t);
    UnitsOfEncodeLE(t);
    RepairFixesOnlyBroken(t);
  }

  /** An odd last byte becomes U+FFFD. */
  lemma {:induction false} OddByteIsReplaced(t: JString, last: Byte)
    ensures UnitsOf(EncodeBE(t) + [last], true) == t + [0xFFFD]
  {
    if t == [] {
      assert EncodeBE(t) + [last] == [last];
    } else {
      OddByteIsReplaced(t[1..], last);
      assert (EncodeBE(t) + [last])[2..] == EncodeBE(t[1..]) + [last];
    }
  }

  /** A Unicode scalar value. */
  type Scalar = x: int | 0 <= x < 0xD800 || 0xE000 <= x <= 0x10_FFFF

  /** Section 2.1 of RFC 2781. */
  function ScalarUnits(u: int): (p: JString)
    requires 0 <= u < 0xD800 || 0xE000 <= u <= 0x10_FFFF
    ensures IsScalar(p)
  {
    if u < 0x1_0000 then [u] else [0xD800 + (u - 0x1_0000) / 0x400, 0xDC00 + (u - 0x1_0000) % 0x400]
  }

  /** Section 2.2 of RFC 2781 read backwards: the units of a scalar give the scalar back. */
  lemma ScalarComesBack(u: int)
    requires 0 <= u < 0xD800 || 0xE000 <= u <= 0x10_FFFF
    ensures var p := ScalarUnits(u);
            u == if |p| == 1 then p[0] as int else 0x1_0000 + 0x400 * (p[0] as int - 0xD800) + (p[1] as int - 0xDC00)
  {
  }

  function Utf16(text: seq<Scalar>): JString {
    if text == [] then [] else ScalarUnits(text[0]) + Utf16(text[1..])
  }

  /** The UTF-16 form of a text is always well formed, and starts like a mark only if the text does. */
  lemma {:induction false} Utf16WellFormed(text: seq<Scalar>)
    ensures WellFormed(Utf16(text))
    ensures StartsWithMark(Utf16(text)) <==> text != [] && (text[0] == 0xFEFF || text[0] == 0xFFFE)
  {
    if text != [] {
      Utf16WellFormed(text[1..]);
      WellFormedAfterScalar(ScalarUnits(text[0]), Utf16(text[1..]));
    }
  }

  // ----- Operator names

  /** The prefix "uCs2". */
  const UCS2: JString := [0x75, 0x43, 0x73, 0x32]

  /** A name with the prefix is hexadecimal UTF-16; any other name, or none, is kept. */
  function DecodeName(name: Nullable<JString>): Result<Nullable<JString>> {
    if name.Ref? && UCS2 <= name.get then
      var bytes :- HexDecode(name.get[4..]);
      Ok(Ref(DecodeUtf16(bytes)))
    else Ok(name)
  }

  /** A name that does not start with the four characters of "uCs2", or no name, is kept. */
  lemma PlainNameIsKept(name: Nullable<JString>)
    requires name.Ref? ==> !([0x75, 0x43, 0x73, 0x32] <= name.get)
    ensures DecodeName(name) == Ok(name)
  {
  }

  /** A name with the prefix throws exactly when what follows spells no bytes. */
  lemma BadHexThrows(hex: JString)
    ensures DecodeName(Ref([0x75, 0x43, 0x73, 0x32] + hex)).Throws? <==> forall b: seq<Byte> :: !Spells(hex, b)
  {
    hide Spells, DecodeUtf16;
    var name: JString := [0x75, 0x43, 0x73, 0x32] + hex;
    assert name[4..] == hex && UCS2 <= name;
    forall b: seq<Byte> ensures HexDecode(hex) == Ok(b) <==> Spells(hex, b) { HexDecodeInvertsSpelling(hex, b); }
    if HexDecode(hex).Ok? {
      assert Spells(hex, HexDecode(hex).value);
    }
  }

  /** For a text `t` spelled in hexadecimal behind the prefix, in any letter case, the decoded name is
      `t` iff `t` is well-formed UTF-16 that does not start with a byte-order mark. */
  lemma Ucs2NameRoundTrip(t: JString, hex: JString)
    requires Spells(hex, EncodeBE(t))
    ensures DecodeName(Ref(UCS2 + hex)).Ok?
    ensures DecodeName(Ref(UCS2 + hex)) == Ok(Ref(t)) <==> WellFormed(t) && !StartsWithMark(t)
  {
    assert (UCS2 + hex)[4..] == hex;
    HexDecodeInvertsSpelling(hex, EncodeBE(t));
    Utf16RoundTrip(t);
  }

  /** So every Unicode text that does not start with U+FEFF or U+FFFE comes back from its name. */
  lemma TextNameRoundTrip(text: seq<Scalar>, hex: JString)
    requires Spells(hex, EncodeBE(Utf16(text)))
    ensures DecodeName(Ref(UCS2 + hex)) == Ok(Ref(Utf16(text))) <==>
            !(text != [] && (text[0] == 0xFEFF || text[0] == 0xFFFE))
  {
    hide WellFormed, Spells, DecodeName, StartsWithMark;
    Ucs2NameRoundTrip(Utf16(text), hex);
    Utf16WellFormed(text);
  }
}
