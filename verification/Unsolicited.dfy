/** Unsolicited messages of the RIL: `processUnsolicited`, which rewrites the code of some vendor
    messages inside the parcel and hands the parcel to the superclass. */
module Unsolicited {
  import opened Bytes
  import opened JavaText

  type Text = Nullable<JString>

  // ----- Parcels

  type Int = x: int | -0x8000_0000 <= x < 0x8000_0000

  /** A Java int in a parcel: two's complement, little-endian. */
  function Le32(v: Int): (b: seq<Byte>)
    ensures |b| == 4
  {
    ToLittleEndian(if v < 0 then v + TWO_32 else v)
  }

  function FromLe32(b0: Byte, b1: Byte, b2: Byte, b3: Byte): Int {
    var u := FromLittleEndian(b0, b1, b2, b3);
    if u >= 0x8000_0000 then u - TWO_32 else u
  }

  lemma LeRoundTrip(b0: Byte, b1: Byte, b2: Byte, b3: Byte)
    ensures Le32(FromLe32(b0, b1, b2, b3)) == [b0, b1, b2, b3]
  {
    hide ToLittleEndian, FromLittleEndian;
    BytesComeBack(b0, b1, b2, b3);
  }

  lemma LeInverse(v: Int)
    ensures var b := Le32(v); FromLe32(b[0], b[1], b[2], b[3]) == v
  {
    hide ToLittleEndian, FromLittleEndian;
    WordComesBack(if v < 0 then v + TWO_32 else v);
  }

  /** The int at a position, 0 when fewer than four bytes are left. */
  function IntAt(data: seq<Byte>, pos: nat): Int {
    if pos + 4 <= |data| then FromLe32(data[pos], data[pos + 1], data[pos + 2], data[pos + 3]) else 0
  }

  function After(data: seq<Byte>, pos: nat): nat { if pos + 4 <= |data| then pos + 4 else pos }

  /** The parcel with the int at `pos` overwritten. */
  function Overwrite(data: seq<Byte>, pos: nat, v: Int): seq<Byte>
    requires pos <= |data|
  {
    data[..pos] + Le32(v) + if pos + 4 <= |data| then data[pos + 4..] else []
  }

  class Parcel {
    var data: seq<Byte>
    var pos: nat

    constructor (bytes: seq<Byte>)
      ensures data == bytes && pos == 0
    {
      data, pos := bytes, 0;
    }

    method ReadInt() returns (v: Int)
      modifies this`pos
      ensures v == IntAt(data, old(pos)) && pos == After(data, old(pos))
    {
      if pos + 4 > |data| {
        return 0;
      }
      v := FromLe32(data[pos], data[pos + 1], data[pos + 2], data[pos + 3]);
      pos := pos + 4;
    }

    method WriteInt(v: Int)
      requires pos <= |data|
      modifies this
      ensures data == Overwrite(old(data), old(pos), v) && pos == old(pos) + 4
    {
      data := data[..pos] + Le32(v) + if pos + 4 <= |data| then data[pos + 4..] else [];
      pos := pos + 4;
    }
  }

  // ----- Codes

  const CALL_PROGRESS_INFO: Int := 3004
  const SIM_INSERTED_STATUS: Int := 3007
  const INCOMING_CALL_INDICATION: Int := 3014
  const SIM_MISSING: Int := 3015
  const PS_NETWORK_STATE_CHANGED: Int := 3022
  const SIM_PLUG_OUT: Int := 3027
  const SIM_PLUG_IN: Int := 3028

  const RADIO_STATE_CHANGED: Int := 1000
  const CALL_STATE_CHANGED: Int := 1001
  const VOICE_NETWORK_STATE_CHANGED: Int := 1002
  const SIM_STATUS_CHANGED: Int := 1019

  const SET_GPRS_CONNECT_TYPE := 2016
  const SET_GPRS_TRANSFER_TYPE := 2017
  const SET_CALL_INDICATION := 2036

  /** Codes with a case in the first switch: the vendor range but for 3017, and the radio state. */
  predicate Listed(code: int) { (3000 <= code <= 3031 && code != 3017) || code == RADIO_STATE_CHANGED }

  datatype Reader = Strings | Ints | Nothing

  function ReaderOf(code: int): Reader {
    if code in {3000, 3001, 3004, 3014, 3021, 3030} then Strings
    else if code in {3003, 3005, 3009, 3010, 3013, 3016, 3022, 3025, 3029, 1000} then Nothing
    else Ints
  }

  /** The Android code that a forwarded message is given. */
  function Translation(code: int): Nullable<Int> {
    if code in {CALL_PROGRESS_INFO, INCOMING_CALL_INDICATION} then Ref(CALL_STATE_CHANGED)
    else if code == PS_NETWORK_STATE_CHANGED then Ref(VOICE_NETWORK_STATE_CHANGED)
    else if code in {SIM_INSERTED_STATUS, SIM_MISSING, SIM_PLUG_OUT, SIM_PLUG_IN} then Ref(SIM_STATUS_CHANGED)
    else if code == RADIO_STATE_CHANGED then Ref(RADIO_STATE_CHANGED)
    else Null
  }

  /** What the outside world sees: a request sent to the modem, or the parcel the superclass is given. */
  datatype Effect = SendRequest(code: int, args: seq<int>) | Forward(data: seq<Byte>, pos: nat)

  /** The superclass decoders and `Integer.parseInt`: each reads from a position, or throws. */
  datatype Library = Library(strings: (seq<Byte>, nat) -> Result<(seq<Text>, nat)>,
                             ints: (seq<Byte>, nat) -> Result<nat>,
                             parseInt: Text -> Result<int>)

  // ----- What goes out

  /** The call indication: mode 0, with the call and sequence numbers of the message. */
  function CallIndication(info: seq<Text>, lib: Library): Result<Effect> {
    if |info| < 5 then Throws
    else
      var callId :- lib.parseInt(info[0]);
      var mode :- lib.parseInt(info[3]);
      var seqNumber :- lib.parseInt(info[4]);
      Ok(SendRequest(SET_CALL_INDICATION, [3, 0, callId, seqNumber]))
  }

  /** The two GPRS requests that follow a radio that is not off. */
  function GprsRequests(state: int): seq<Effect> {
    if state == 0 || state == 1 then []
    else [SendRequest(SET_GPRS_TRANSFER_TYPE, [1, 1]), SendRequest(SET_GPRS_CONNECT_TYPE, [1, 1])]
  }

  /** Whether the payload decodes. */
  predicate Decodes(data: seq<Byte>, pos: nat, lib: Library) {
    match ReaderOf(IntAt(data, pos))
    case Strings =>
      var r := lib.strings(data, After(data, pos));
      r.Ok? && (IntAt(data, pos) == INCOMING_CALL_INDICATION ==> CallIndication(r.value.0, lib).Ok?)
    case Ints => lib.ints(data, After(data, pos)).Ok?
    case Nothing => true
  }

  /** The requests sent before the parcel is handed on. */
  function Requests(data: seq<Byte>, pos: nat, lib: Library): seq<Effect>
    requires Decodes(data, pos, lib)
  {
    var code := IntAt(data, pos);
    if code == RADIO_STATE_CHANGED then GprsRequests(IntAt(data, After(data, pos)))
    else if code == INCOMING_CALL_INDICATION then [CallIndication(lib.strings(data, After(data, pos)).value.0, lib).value]
    else []
  }

  /** Everything a handled message sends out, in order. */
  function Outgoing(data: seq<Byte>, pos: nat, lib: Library): seq<Effect>
    requires pos <= |data| && (Listed(IntAt(data, pos)) ==> Decodes(data, pos, lib))
  {
    if !Listed(IntAt(data, pos)) then [Forward(data, pos)]
    else
      Requests(data, pos, lib) +
      match Translation(IntAt(data, pos))
      case Null => []
      case Ref(c) => [Forward(Overwrite(data, pos, c), pos)]
  }

  method SetCallIndication(info: seq<Text>, lib: Library) returns (r: Result<Effect>)
    ensures r == CallIndication(info, lib)
  {
    if |info| == 0 {
      return Throws;
    }
    var callId := lib.parseInt(info[0]);
    if callId.Throws? || |info| < 4 {
      return Throws;
    }
    var callMode := lib.parseInt(info[3]);
    if callMode.Throws? || |info| < 5 {
      return Throws;
    }
    var seqNumber := lib.parseInt(info[4]);
    if seqNumber.Throws? {
      return Throws;
    }
    r := Ok(SendRequest(SET_CALL_INDICATION, [3, 0, callId.value, seqNumber.value]));
  }

  method ProcessUnsolicited(p: Parcel, lib: Library) returns (ok: bool, effects: seq<Effect>)
    requires p.pos <= |p.data|
    modifies p
    ensures var d, at := old(p.data), old(p.pos);
            var code := IntAt(d, at);
            && (ok <==> !Listed(code) || Decodes(d, at, lib))
            && (ok ==> effects == Outgoing(d, at, lib))
  {
    effects := [];
    var dataPosition := p.pos;
    var response := p.ReadInt();
    var strings: seq<Text> := [];
    if !Listed(response) {
      p.pos := dataPosition;
      return true, [Forward(p.data, p.pos)];
    }
    match ReaderOf(response) {
      case Strings =>
        var r := lib.strings(p.data, p.pos);
        if r.Throws? {
          return false, effects;
        }
        strings, p.pos := r.value.0, r.value.1;
      case Ints =>
        var r := lib.ints(p.data, p.pos);
        if r.Throws? {
          return false, effects;
        }
        p.pos := r.value;
      case Nothing =>
    }
    var rewindAndReplace := false;
    var newResponseCode: Int := 0;
    if response == CALL_PROGRESS_INFO {
      rewindAndReplace, newResponseCode := true, CALL_STATE_CHANGED;
    } else if response == INCOMING_CALL_INDICATION {
      var r := SetCallIndication(strings, lib);
      if r.Throws? {
        return false, effects;
      }
      effects := effects + [r.value];
      rewindAndReplace, newResponseCode := true, CALL_STATE_CHANGED;
    } else if response == PS_NETWORK_STATE_CHANGED {
      rewindAndReplace, newResponseCode := true, VOICE_NETWORK_STATE_CHANGED;
    } else if response == SIM_INSERTED_STATUS || response == SIM_MISSING
              || response == SIM_PLUG_OUT || response == SIM_PLUG_IN {
      rewindAndReplace, newResponseCode := true, SIM_STATUS_CHANGED;
    } else if response == RADIO_STATE_CHANGED {
      var state := p.ReadInt();
      if state != 0 && state != 1 {
        effects := effects + [SendRequest(SET_GPRS_TRANSFER_TYPE, [1, 1])];
        effects := effects + [SendRequest(SET_GPRS_CONNECT_TYPE, [1, 1])];
      }
      rewindAndReplace, newResponseCode := true, RADIO_STATE_CHANGED;
    }
    if rewindAndReplace {
      p.pos := dataPosition;
      p.WriteInt(newResponseCode);
      p.pos := dataPosition;
      effects := effects + [Forward(p.data, p.pos)];
    }
    ok := true;
  }

  // ----- What the superclass sees

  /** A rewritten parcel has the same length, the new code at the old position, and every other byte
      unchanged. */
  lemma OverwriteKeepsPayload(data: seq<Byte>, pos: nat, v: Int)
    requires pos + 4 <= |data|
    ensures var d := Overwrite(data, pos, v);
            |d| == |data| && IntAt(d, pos) == v && d[..pos] == data[..pos] && d[pos + 4..] == data[pos + 4..]
  {
    LeInverse(v);
  }

  /** A listed code is never the 0 of a short parcel, so the rewrite never grows the parcel. */
  lemma ListedHasRoom(data: seq<Byte>, pos: nat)
    requires Listed(IntAt(data, pos))
    ensures pos + 4 <= |data|
  {
  }

  /** Rewriting a code by itself is the identity on the buffer. */
  lemma RewriteIdentity(data: seq<Byte>, pos: nat)
    requires pos + 4 <= |data|
    ensures Overwrite(data, pos, IntAt(data, pos)) == data
  {
    LeRoundTrip(data[pos], data[pos + 1], data[pos + 2], data[pos + 3]);
  }

  /** The second switch only ever sees codes that the first one lists, and translates into codes that
      the first one either leaves to the superclass or maps to themselves. */
  lemma TranslationStaysInside(code: int)
    ensures Translation(code).Ref? ==> Listed(code)
    ensures Translation(code).Ref? && Listed(Translation(code).get) ==> Translation(code).get == code
  {
  }

  lemma RequestsAreNotForwards(data: seq<Byte>, pos: nat, lib: Library)
    requires Decodes(data, pos, lib)
    ensures forall i :: 0 <= i < |Requests(data, pos, lib)| ==> Requests(data, pos, lib)[i].SendRequest?
  {
  }

  lemma TranslationMeaning(code: int)
    ensures Listed(code) <==> (3000 <= code <= 3031 && code != 3017) || code == 1000
    ensures Translation(code) ==
            if code in {3004, 3014} then Ref(1001)
            else if code == 3022 then Ref(1002)
            else if code in {3007, 3015, 3027, 3028} then Ref(1019)
            else if code == 1000 then Ref(1000)
            else Null
  {
  }

  /** For every message that is handled, the superclass is called at most once and last. On the bytes it
      is given: the original position, no byte changed but the four of the code, and the code itself, with
      3004 and 3014 seen as 1001, 3022 as 1002, 3007, 3015, 3027 and 3028 as 1019, the other vendor
      messages but 3017 not at all, and every other code as itself. */
  lemma SuperclassSees(data: seq<Byte>, pos: nat, lib: Library)
    requires pos <= |data| && (Listed(IntAt(data, pos)) ==> Decodes(data, pos, lib))
    ensures var out, code := Outgoing(data, pos, lib), IntAt(data, pos);
            && (forall i :: 0 <= i < |out| - 1 ==> out[i].SendRequest?)
            && (out != [] && out[|out| - 1].Forward? <==>
                !(3000 <= code <= 3031) || code in {3004, 3007, 3014, 3015, 3017, 3022, 3027, 3028})
            && (out != [] && out[|out| - 1].Forward? ==>
                  var f := out[|out| - 1];
                  && f.pos == pos && |f.data| == |data|
                  && IntAt(f.data, pos) == (if code in {3004, 3014} then 1001
                                            else if code == 3022 then 1002
                                            else if code in {3007, 3015, 3027, 3028} then 1019
                                            else code)
                  && f.data[..pos] == data[..pos]
                  && f.data[After(data, pos)..] == data[After(data, pos)..])
  {
    hide Requests, Translation, Listed, Le32, FromLe32;
    var out, code := Outgoing(data, pos, lib), IntAt(data, pos);
    TranslationMeaning(code);
    if Listed(code) {
      ListedHasRoom(data, pos);
      RequestsAreNotForwards(data, pos, lib);
      if Translation(code).Ref? {
        OverwriteKeepsPayload(data, pos, Translation(code).get);
      }
    }
  }

  /** Which decoder reads which message, code by code. */
  lemma DecodesMeaning(data: seq<Byte>, pos: nat, lib: Library)
    ensures var code, from := IntAt(data, pos), After(data, pos);
            && (code in {3000, 3001, 3004, 3021, 3030} ==> (Decodes(data, pos, lib) <==> lib.strings(data, from).Ok?))
            && (code in {3002, 3006, 3007, 3008, 3011, 3012, 3015, 3018, 3019, 3020, 3023, 3024, 3026, 3027, 3028, 3031} ==>
                  (Decodes(data, pos, lib) <==> lib.ints(data, from).Ok?))
            && (code in {3003, 3005, 3009, 3010, 3013, 3016, 3022, 3025, 3029, 1000} ==> Decodes(data, pos, lib))
  {
  }

  /** An incoming call: the message decodes iff it has five strings with numbers in the first, fourth and
      fifth, and then request 2036 with the words 3, 0, first number, fifth number goes out before the
      message is forwarded as a call-state change. */
  lemma IncomingCall(data: seq<Byte>, pos: nat, lib: Library)
    requires pos <= |data| && IntAt(data, pos) == 3014
    ensures var r := lib.strings(data, After(data, pos));
            && (Decodes(data, pos, lib) <==>
                r.Ok? && |r.value.0| >= 5
                && lib.parseInt(r.value.0[0]).Ok? && lib.parseInt(r.value.0[3]).Ok? && lib.parseInt(r.value.0[4]).Ok?)
            && (Decodes(data, pos, lib) ==>
                  Outgoing(data, pos, lib) ==
                  [SendRequest(2036, [3, 0, lib.parseInt(r.value.0[0]).value, lib.parseInt(r.value.0[4]).value]),
                   Forward(Overwrite(data, pos, 1001), pos)])
  {
    hide Overwrite;
  }

  /** A radio-state message is forwarded byte for byte, after both GPRS requests if the radio is not off. */
  lemma RadioStateForwarded(data: seq<Byte>, pos: nat, lib: Library)
    requires pos <= |data| && IntAt(data, pos) == 1000
    ensures Decodes(data, pos, lib)
    ensures var state := IntAt(data, pos + 4);
            Outgoing(data, pos, lib) ==
            (if state == 0 || state == 1 then []
             else [SendRequest(2017, [1, 1]), SendRequest(2016, [1, 1])])
            + [Forward(data, pos)]
  {
    ListedHasRoom(data, pos);
    RewriteIdentity(data, pos);
  }
}
