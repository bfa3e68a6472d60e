/** Decoding of operator lists: the in-place stride-5 loop of `responseOperatorInfos`, and
    `responseOperator` for a single operator. */
module OperatorInfos {
  import opened JavaText

  type Text = Nullable<JString>

  /** `Operators.unOptimizedOperatorReplace`, a table outside this repository. */
  type Lookup = Text -> Text

  datatype OperatorInfo = OperatorInfo(longName: Text, shortName: Text, numeric: Text, state: Text)

  // ----- What happens to one operator

  /** The two names of an operator: UCS-2 decoded, then looked up when empty or merely numeric. */
  function Names(long: Text, short: Text, numeric: Text, lookup: Lookup): Result<(Text, Text)> {
    var name :- DecodeName(long);
    if name.Ref? && (name.get == [] || name == numeric) then Ok((lookup(numeric), lookup(numeric)))
    else Ok((name, short))
  }

  const SPACE: JString := [0x20]
  const NULL_TEXT: JString := [0x6E, 0x75, 0x6C, 0x6C]

  /** `a.concat(" " + b)`. */
  function WithSuffix(a: Text, b: Text): Result<Text> {
    if a.Null? then Throws else Ok(Ref(a.get + SPACE + if b.Null? then NULL_TEXT else b.get))
  }

  /** One group of five strings: long name, short name, numeric, state, access technology. */
  type Group = g: seq<Text> | |g| == 5 witness [Null, Null, Null, Null, Null]

  function Transform(g: Group, lookup: Lookup, capability: int): Result<OperatorInfo> {
    var names :- Names(g[0], g[1], g[2], lookup);
    if capability > 3 then
      var a :- WithSuffix(names.0, g[4]);
      var b :- WithSuffix(names.1, g[4]);
      Ok(OperatorInfo(a, b, g[2], g[3]))
    else Ok(OperatorInfo(names.0, names.1, g[2], g[3]))
  }

  /** Numeric code and state are never touched; up to capability 3 the names are those of a single operator. */
  lemma TransformKeeps(g: Group, lookup: Lookup, capability: int)
    ensures var r := Transform(g, lookup, capability);
            && (r.Ok? ==> r.value.numeric == g[2] && r.value.state == g[3])
            && (capability <= 3 ==>
                  match Names(g[0], g[1], g[2], lookup)
                  case Ok((a, b)) => r.Ok? && (r.value.longName, r.value.shortName) == (a, b)
                  case Throws => r.Throws?)
  {
  }

  /** An access technology as it appears in a name; a missing one reads "null". */
  function Shown(tech: Text): JString { if tech.Null? then [0x6E, 0x75, 0x6C, 0x6C] else tech.get }

  /** Above capability 3 both names get a space and the access technology behind them; a missing name
      throws, and everything else is as at capability 3. */
  lemma TransformAboveThree(g: Group, lookup: Lookup, capability: int)
    requires capability > 3
    ensures Transform(g, lookup, capability) ==
            match Transform(g, lookup, 3)
            case Ok(OperatorInfo(Ref(a), Ref(b), numeric, state)) =>
              Ok(OperatorInfo(Ref(a + [0x20] + Shown(g[4])), Ref(b + [0x20] + Shown(g[4])), numeric, state))
            case _ => Throws
  {
    hide Names;
  }

  /** A plain name is kept with its short name, unless it is empty or the numeric code itself: then both
      come from the operator table. A missing name is kept missing. */
  lemma TransformPlainName(g: Group, lookup: Lookup, capability: int)
    requires capability <= 3 && (g[0].Ref? ==> !([0x75, 0x43, 0x73, 0x32] <= g[0].get))
    ensures Transform(g, lookup, capability) ==
            if g[0] == Ref([]) || (g[0].Ref? && g[0] == g[2])
            then Ok(OperatorInfo(lookup(g[2]), lookup(g[2]), g[2], g[3]))
            else Ok(OperatorInfo(g[0], g[1], g[2], g[3]))
  {
    PlainNameIsKept(g[0]);
  }

  /** A name sent as hexadecimal UCS-2 of a text reaches the caller as that text with its own short name,
      or, when the text is empty or the numeric code, as the operator table's name twice; above
      capability 3 both names have the access technology behind them, and a missing one throws. */
  lemma Ucs2NameIsShown(g: Group, lookup: Lookup, capability: int, text: seq<Scalar>, hex: JString)
    requires g[0] == Ref(UCS2 + hex) && Spells(hex, EncodeBE(Utf16(text)))
    requires text != [] ==> text[0] != 0xFEFF && text[0] != 0xFFFE
    ensures var named := text != [] && g[2] != Ref(Utf16(text));
            var long, short := if named then Ref(Utf16(text)) else lookup(g[2]), if named then g[1] else lookup(g[2]);
            Transform(g, lookup, capability) ==
            if capability <= 3 then Ok(OperatorInfo(long, short, g[2], g[3]))
            else if long.Null? || short.Null? then Throws
            else Ok(OperatorInfo(Ref(long.get + [0x20] + Shown(g[4])), Ref(short.get + [0x20] + Shown(g[4])), g[2], g[3]))
  {
    hide Spells, DecodeName, EncodeBE;
    TextNameRoundTrip(text, hex);
    assert Utf16(text) == [] <==> text == [];
    if capability > 3 {
      TransformAboveThree(g, lookup, capability);
    }
  }

  // ----- Area codes

  function GroupAt(ss: seq<Text>, k: nat): Group
    requires 5 * k + 5 <= |ss|
  {
    ss[5 * k..5 * k + 5]
  }

  /** How many of the first `k` groups have a name. */
  function Named(ss: seq<Text>, k: nat): (c: nat)
    requires 5 * k <= |ss|
    ensures c <= k
  {
    if k == 0 then 0 else Named(ss, k - 1) + if ss[5 * (k - 1)].Ref? then 1 else 0
  }

  predicate LacValid(lac: JString, n: nat) { |lac| > 0 && |lac| % 4 == 0 && |lac| / 4 == n / 5 }

  /** Area codes are in use iff there are four characters for every group, and at least one group. */
  lemma LacValidMeaning(lac: JString, n: nat)
    ensures LacValid(lac, n) <==> |lac| == 4 * (n / 5) && n >= 5
  {
  }

  ghost function NamedGroups(ss: seq<Text>, k: nat): set<nat>
    requires 5 * k <= |ss|
  {
    set j: nat | j < k && ss[5 * j].Ref?
  }

  lemma {:induction false} NamedCounts(ss: seq<Text>, k: nat)
    requires 5 * k <= |ss|
    ensures Named(ss, k) == |NamedGroups(ss, k)|
  {
    if k == 0 {
      assert NamedGroups(ss, k) == {};
    } else {
      NamedCounts(ss, k - 1);
      if ss[5 * (k - 1)].Ref? {
        assert NamedGroups(ss, k) == NamedGroups(ss, k - 1) + {k - 1};
      } else {
        assert NamedGroups(ss, k) == NamedGroups(ss, k - 1);
      }
    }
  }

  /** In the group `k`, the four characters read lie inside the text. */
  lemma LacSliceInRange(lac: JString, ss: seq<Text>, k: nat)
    requires |ss| % 5 == 0 && LacValid(lac, |ss|) && 5 * k + 5 <= |ss|
    ensures 4 * Named(ss, k) + 4 <= |lac|
  {
    assert k + 1 <= |ss| / 5;
  }

  /** The four characters that fall to group `k`. */
  function LacOf(lac: JString, ss: seq<Text>, k: nat): (r: JString)
    requires |ss| % 5 == 0 && LacValid(lac, |ss|) && 5 * k + 5 <= |ss|
    ensures |r| == 4
  {
    LacSliceInRange(lac, ss, k);
    lac[4 * Named(ss, k)..4 * Named(ss, k) + 4]
  }

  /** Those are the characters behind four for every earlier group with a name. */
  lemma LacOfMeaning(lac: JString, ss: seq<Text>, k: nat)
    requires |ss| % 5 == 0 && LacValid(lac, |ss|) && 5 * k + 5 <= |ss|
    ensures var c := |NamedGroups(ss, k)|; 4 * c + 4 <= |lac| && LacOf(lac, ss, k) == lac[4 * c..4 * c + 4]
  {
    LacSliceInRange(lac, ss, k);
    NamedCounts(ss, k);
  }

  /** Group `k` is handled without an exception: its names decode and carry their suffix, and when
      area codes are in use, the one that falls to it is a number. */
  predicate GroupFine(ss: seq<Text>, k: nat, lac: JString, isNumber: JString -> bool, lookup: Lookup, capability: int)
    requires |ss| % 5 == 0 && 5 * k + 5 <= |ss|
  {
    && Transform(GroupAt(ss, k), lookup, capability).Ok?
    && (LacValid(lac, |ss|) && ss[5 * k].Ref? ==> isNumber(LacOf(lac, ss, k)))
  }

  // ----- The code

  /** A UCS-2 name is replaced by its text. */
  method DecodeInPlace(strings: array<Text>, i: nat) returns (ok: bool)
    requires i < strings.Length
    modifies strings
    ensures ok <==> DecodeName(old(strings[i])).Ok?
    ensures ok ==> DecodeName(old(strings[i])) == Ok(strings[i])
    ensures forall j :: 0 <= j < strings.Length && j != i ==> strings[j] == old(strings[j])
  {
    hide HexDecode, DecodeUtf16;
    if strings[i].Ref? && UCS2 <= strings[i].get {
      var bytes := HexStringToBytes(Ref(strings[i].get[4..]));
      if bytes.Throws? {
        return false;
      }
      strings[i] := Ref(DecodeUtf16(bytes.value.get));
    }
    ok := true;
  }

  /** A name that is empty or equal to the numeric code is replaced from the operator table. */
  method LookupInPlace(strings: array<Text>, i: nat, lookup: Lookup)
    requires i + 2 < strings.Length
    modifies strings
    ensures (strings[i], strings[i + 1]) ==
            if old(strings[i]).Ref? && (old(strings[i]).get == [] || old(strings[i]) == old(strings[i + 2]))
            then (lookup(old(strings[i + 2])), lookup(old(strings[i + 2])))
            else (old(strings[i]), old(strings[i + 1]))
    ensures forall j :: 0 <= j < strings.Length && j != i && j != i + 1 ==> strings[j] == old(strings[j])
  {
    if strings[i].Ref? && (strings[i].get == [] || strings[i] == strings[i + 2]) {
      var temp := lookup(strings[i + 2]);
      strings[i] := temp;
      strings[i + 1] := temp;
    }
  }

  /** `responseOperator`: a null name needs no other entry, any other name needs three. */
  method ResponseOperator(response: array<Text>, lookup: Lookup) returns (ok: bool)
    modifies response
    ensures var n := response.Length;
            ok <==> n > 0 && DecodeName(old(response[..])[0]).Ok? && (old(response[..])[0].Ref? ==> n >= 3)
    ensures ok && response.Length >= 3 ==>
              && Names(old(response[0]), old(response[1]), old(response[2]), lookup) == Ok((response[0], response[1]))
              && response[2..] == old(response[2..])
    ensures ok && response.Length < 3 ==> response[..] == old(response[..])
  {
    hide DecodeName;
    if response.Length == 0 {
      return false;
    }
    DecodeKeepsNull(response[0]);
    ok := DecodeInPlace(response, 0);
    if !ok {
      return;
    }
    if response[0].Ref? && response.Length < 3 {
      return false;
    }
    if response.Length >= 3 {
      LookupInPlace(response, 0, lookup);
    }
  }

  lemma DecodeKeepsNull(name: Text)
    ensures DecodeName(name).Ok? ==> (DecodeName(name).value.Null? <==> name.Null?)
  {
  }

  /** One turn of the loop, in place: decode, consume an area code, look up, append the suffix. */
  method OneGroup(strings: array<Text>, i: nat, lac: JString, lacValid: bool, lacIndex: nat,
                  isNumber: JString -> bool, lookup: Lookup, capability: int)
    returns (r: Result<OperatorInfo>, next: nat)
    requires i + 5 <= strings.Length && (lacValid ==> lacIndex + 4 <= |lac|)
    modifies strings
    ensures var g: Group := old(strings[i..i + 5]);
            && (r.Ok? <==> Transform(g, lookup, capability).Ok? && (lacValid && g[0].Ref? ==> isNumber(lac[lacIndex..lacIndex + 4])))
            && (r.Ok? ==> r == Transform(g, lookup, capability)
                          && next == lacIndex + if lacValid && g[0].Ref? then 4 else 0)
    ensures forall j :: 0 <= j < strings.Length && !(i <= j < i + 5) ==> strings[j] == old(strings[j])
  {
    hide DecodeName;
    ghost var g: Group := strings[i..i + 5];
    next := lacIndex;
    DecodeKeepsNull(strings[i]);
    var ok := DecodeInPlace(strings, i);
    if !ok {
      return Throws, next;
    }
    if lacValid && strings[i].Ref? {
      if !isNumber(lac[lacIndex..lacIndex + 4]) {
        return Throws, next;
      }
      next := lacIndex + 4;
    }
    LookupInPlace(strings, i, lookup);
    if capability > 3 {
      var a := WithSuffix(strings[i], strings[i + 4]);
      if a.Throws? {
        return Throws, next;
      }
      strings[i] := a.value;
      var b := WithSuffix(strings[i + 1], strings[i + 4]);
      if b.Throws? {
        return Throws, next;
      }
      strings[i + 1] := b.value;
    }
    r := Ok(OperatorInfo(strings[i], strings[i + 1], strings[i + 2], strings[i + 3]));
  }

  /** The whole list: it fails exactly when some group fails by itself, and otherwise every group is
      transformed on its own. */
  method ResponseOperatorInfos(strings: array<Text>, lac: JString, isNumber: JString -> bool, lookup: Lookup, capability: int)
    returns (r: Result<seq<OperatorInfo>>)
    modifies strings
    ensures var ss := old(strings[..]);
            && (r.Ok? <==> |ss| % 5 == 0 && forall k :: 0 <= k < |ss| / 5 ==> GroupFine(ss, k, lac, isNumber, lookup, capability))
            && (r.Ok? ==> |r.value| == |ss| / 5
                          && forall k :: 0 <= k < |ss| / 5 ==> Transform(GroupAt(ss, k), lookup, capability) == Ok(r.value[k]))
  {
    hide Transform;
    ghost var ss := strings[..];
    if strings.Length % 5 != 0 {
      return Throws;
    }
    var lacValid := |lac| > 0 && |lac| % 4 == 0 && |lac| / 4 == strings.Length / 5;
    var lacIndex := 0;
    var ret: seq<OperatorInfo> := [];
    var i := 0;
    while i < strings.Length
      invariant 0 <= i <= strings.Length && i % 5 == 0 && i == 5 * |ret|
      invariant forall j :: i <= j < strings.Length ==> strings[j] == ss[j]
      invariant lacValid ==> lacIndex == 4 * Named(ss, |ret|)
      invariant forall k :: 0 <= k < |ret| ==> GroupFine(ss, k, lac, isNumber, lookup, capability)
      invariant forall k :: 0 <= k < |ret| ==> Transform(GroupAt(ss, k), lookup, capability) == Ok(ret[k])
    {
      ghost var k := |ret|;
      if lacValid {
        LacSliceInRange(lac, ss, k);
      }
      assert strings[i..i + 5] == GroupAt(ss, k);
      var info, next := OneGroup(strings, i, lac, lacValid, lacIndex, isNumber, lookup, capability);
      assert info.Ok? <==> GroupFine(ss, k, lac, isNumber, lookup, capability);
      if info.Throws? {
        return Throws;
      }
      lacIndex := next;
      ret := ret + [info.value];
      i := i + 5;
    }
    r := Ok(ret);
  }
}
