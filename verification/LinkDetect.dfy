/** GET_STA_LINK_DETECT: the reply decoder and the bounded report of eight 64-bit counters. */
module LinkDetect {
  import opened Options
  import opened Printf
  import opened Report

  const TWO_63 := 0x8000_0000_0000_0000
  const TWO_64 := 0x1_0000_0000_0000_0000

  type U64 = x: int | 0 <= x < 0x1_0000_0000_0000_0000

  datatype Counters = Counters(txFail: U64, txRetry: U64, txMultiRetry: U64, ackFail: U64,
                               fcsErr: U64, tx: U64, txOk: U64, txOs: U64)

  // ----- Decoding

  /** The nested attribute table: entry `i` is attribute number `i`, present or not. */
  type Attributes = a: seq<Option<U64>> | |a| == 9 witness seq(9, _ => None)

  /** A u64 read into an s64. */
  function AsS64(v: U64): int { if v < TWO_63 then v else v - TWO_64 }

  /** Negation in s64; -2^63 wraps to itself. */
  function NegS64(x: int): int { if x == -TWO_63 then x else -x }

  /** An s64 stored into a u64. */
  function AsU64(x: int): U64
    requires -TWO_63 <= x < TWO_64
  {
    if x < 0 then x + TWO_64 else x
  }

  function AckValue(v: U64): U64 {
    var ack := AsS64(v);
    if ack < 0 then AsU64(NegS64(ack)) else AsU64(ack)
  }

  function Abs(x: int): int { if x < 0 then -x else x }

  lemma AckIsMagnitude(v: U64)
    ensures AckValue(v) == Abs(AsS64(v))
  {
  }

  function Pick(a: Attributes, i: nat, keep: U64): U64
    requires i < 9
  {
    if a[i].Some? then a[i].value else keep
  }

  /** Field by field: a present attribute replaces its own field, an absent one leaves it. */
  function Decoded(a: Attributes, c: Counters): Counters {
    Counters(Pick(a, 1, c.txFail), Pick(a, 2, c.txRetry), Pick(a, 3, c.txMultiRetry),
             if a[4].Some? then AckValue(a[4].value) else c.ackFail,
             Pick(a, 5, c.fcsErr), Pick(a, 6, c.tx), Pick(a, 7, c.txOk), Pick(a, 8, c.txOs))
  }

  /** An absent attribute keeps what its own field held, a present one is what the field holds now. */
  lemma DecodedFields(a: Attributes, c: Counters)
    ensures var d := Decoded(a, c);
            && (a[1] == None ==> d.txFail == c.txFail) && (a[1] == None || a[1] == Some(d.txFail))
            && (a[2] == None ==> d.txRetry == c.txRetry) && (a[2] == None || a[2] == Some(d.txRetry))
            && (a[3] == None ==> d.txMultiRetry == c.txMultiRetry) && (a[3] == None || a[3] == Some(d.txMultiRetry))
            && (a[4] == None ==> d.ackFail == c.ackFail)
            && (a[4] == None || d.ackFail == (if a[4].value < TWO_63 then a[4].value else TWO_64 - a[4].value))
            && (a[5] == None ==> d.fcsErr == c.fcsErr) && (a[5] == None || a[5] == Some(d.fcsErr))
            && (a[6] == None ==> d.tx == c.tx) && (a[6] == None || a[6] == Some(d.tx))
            && (a[7] == None ==> d.txOk == c.txOk) && (a[7] == None || a[7] == Some(d.txOk))
            && (a[8] == None ==> d.txOs == c.txOs) && (a[8] == None || a[8] == Some(d.txOs))
  {
  }

  function Upto(a: Attributes, n: nat): (b: Attributes)
    requires n <= 9
  {
    a[..n] + seq(9 - n, _ => None)
  }

  class StaLinkDetect {
    var txFail: U64
    var txRetry: U64
    var txMultiRetry: U64
    var ackFail: U64
    var fcsErr: U64
    var tx: U64
    var txOk: U64
    var txOs: U64

    function Value(): Counters
      reads this
    {
      Counters(txFail, txRetry, txMultiRetry, ackFail, fcsErr, tx, txOk, txOs)
    }

    /** The handler's loop over attribute numbers. */
    method Decode(a: Attributes)
      modifies this
      ensures Value() == Decoded(a, old(Value()))
    {
      var i := 1;
      while i < 9
        invariant 1 <= i <= 9
        invariant Value() == Decoded(Upto(a, i), old(Value()))
      {
        if a[i].Some? {
          var v := a[i].value;
          if i == 1 {
            txFail := v;
          } else if i == 2 {
            txRetry := v;
          } else if i == 3 {
            txMultiRetry := v;
          } else if i == 4 {
            ackFail := AckValue(v);
          } else if i == 5 {
            fcsErr := v;
          } else if i == 6 {
            tx := v;
          } else if i == 7 {
            txOk := v;
          } else {
            txOs := v;
          }
        }
        i := i + 1;
      }
      assert Upto(a, 9) == a;
    }
  }

  // ----- Printing

  function Line(name: string, v: U64): Piece { Piece([Lit(name), Unsigned, Lit("\n")], [0, v, 0]) }

  const NAMES := ["rFailedCount=", "rRetryCount=", "rMultipleRetryCount=", "rACKFailureCount=",
                  "rFCSErrorCount=", "tx_total=", "tx_ok=", "tx_os="]

  function Values(c: Counters): seq<U64> {
    [c.txFail, c.txRetry, c.txMultiRetry, c.ackFail, c.fcsErr, c.tx, c.txOk, c.txOs]
  }

  function NamedLines(names: seq<string>, vs: seq<U64>): (ps: seq<Piece>)
    requires |names| == |vs|
    ensures |ps| == |names|
  {
    seq(|names|, i requires 0 <= i < |names| => Line(names[i], vs[i]))
  }

  function Lines(c: Counters): seq<Piece> { NamedLines(NAMES, Values(c)) }

  /** The printer: the buffer ends up with the longest prefix of whole lines that fits. */
  method PrintLinkDetect(c: Counters, buf: array<char>) returns (r: nat)
    modifies buf
    ensures r <= buf.Length
    ensures buf[..r] == Full(Lines(c)[..FitCount(Lines(c), buf.Length)])
  {
    hide Line, Full, FitCount, Holds;
    ghost var ps := Lines(c);
    StartEmpty(buf, ps);
    var ok, pos := Append(buf, 0, Line("rFailedCount=", c.txFail), ps, 0);
    if !ok { return pos; }
    ok, pos := Append(buf, pos, Line("rRetryCount=", c.txRetry), ps, 1);
    if !ok { return pos; }
    ok, pos := Append(buf, pos, Line("rMultipleRetryCount=", c.txMultiRetry), ps, 2);
    if !ok { return pos; }
    ok, pos := Append(buf, pos, Line("rACKFailureCount=", c.ackFail), ps, 3);
    if !ok { return pos; }
    ok, pos := Append(buf, pos, Line("rFCSErrorCount=", c.fcsErr), ps, 4);
    if !ok { return pos; }
    ok, pos := Append(buf, pos, Line("tx_total=", c.tx), ps, 5);
    if !ok { return pos; }
    ok, pos := Append(buf, pos, Line("tx_ok=", c.txOk), ps, 6);
    if !ok { return pos; }
    ok, pos := Append(buf, pos, Line("tx_os=", c.txOs), ps, 7);
    if !ok { return pos; }
    HoldsAll(buf, pos, ps);
    assert ps[..8] == ps;
    return pos;
  }

  lemma LineText(name: string, v: U64)
    ensures Text(Line(name, v)) == name + Decimal(v) + "\n"
  {
    var fmt, vs := Line(name, v).fmt, Line(name, v).args;
    assert Print(fmt[1..][1..][1..], vs[1..][1..][1..]) == "";
    assert Print(fmt[1..][1..], vs[1..][1..]) == "\n" + "";
    assert Print(fmt[1..], vs[1..]) == Decimal(v) + ("\n" + "");
  }

  /** The text of every line. */
  lemma ReportText(c: Counters)
    ensures Texts(Lines(c)) ==
            [ "rFailedCount=" + Decimal(c.txFail) + "\n",
              "rRetryCount=" + Decimal(c.txRetry) + "\n",
              "rMultipleRetryCount=" + Decimal(c.txMultiRetry) + "\n",
              "rACKFailureCount=" + Decimal(c.ackFail) + "\n",
              "rFCSErrorCount=" + Decimal(c.fcsErr) + "\n",
              "tx_total=" + Decimal(c.tx) + "\n",
              "tx_ok=" + Decimal(c.txOk) + "\n",
              "tx_os=" + Decimal(c.txOs) + "\n" ]
  {
    hide Line, Text, Flat;
    LineText("rFailedCount=", c.txFail);
    LineText("rRetryCount=", c.txRetry);
    LineText("rMultipleRetryCount=", c.txMultiRetry);
    LineText("rACKFailureCount=", c.ackFail);
    LineText("rFCSErrorCount=", c.fcsErr);
    LineText("tx_total=", c.tx);
    LineText("tx_ok=", c.txOk);
    LineText("tx_os=", c.txOs);
  }

  // ----- Sizes

  lemma Pow10Values()
    ensures Pow10(19) == 10_000_000_000_000_000_000
    ensures Pow10(20) == 100_000_000_000_000_000_000
  {
    assert Pow10(2) == 100;
    assert Pow10(4) == 10_000;
    assert Pow10(6) == 1_000_000;
    assert Pow10(8) == 100_000_000;
    assert Pow10(10) == 10_000_000_000;
    assert Pow10(12) == 1_000_000_000_000;
    assert Pow10(14) == 100_000_000_000_000;
    assert Pow10(16) == 10_000_000_000_000_000;
    assert Pow10(18) == 1_000_000_000_000_000_000;
  }

  const FULL: U64 := TWO_64 - 1

  lemma LineLength(name: string, v: U64)
    ensures |Text(Line(name, v))| <= |name| + 21
    ensures v == FULL ==> |Text(Line(name, v))| == |name| + 21
  {
    LineText(name, v);
    Pow10Values();
    DecimalLength(v, 20);
  }

  lemma NameSizes()
    ensures Sum(seq(8, k requires 0 <= k < 8 => |NAMES[k]| + 21)) == 266
  {
    var caps := [34, 33, 41, 38, 36, 30, 27, 27];
    assert seq(8, k requires 0 <= k < 8 => |NAMES[k]| + 21) == caps;
    assert Sum(caps[1..][1..][1..][1..]) == 120 by {
      assert caps[4..] == [36, 30, 27, 27] && caps[1..][1..][1..][1..] == caps[4..];
      assert [36, 30, 27, 27][1..] == [30, 27, 27] && [30, 27, 27][1..] == [27, 27] && [27, 27][1..] == [27];
    }
  }

  /** Eight names, twenty digits each and eight newlines: 266 characters, and no more. */
  lemma ReportLength(c: Counters)
    ensures |Full(Lines(c))| <= 266
    ensures (forall i :: 0 <= i < 8 ==> Values(c)[i] == FULL) ==> |Full(Lines(c))| == 266
  {
    var caps := seq(8, k requires 0 <= k < 8 => |NAMES[k]| + 21);
    forall k | 0 <= k < 8
      ensures |Text(Lines(c)[k])| <= caps[k]
      ensures Values(c)[k] == FULL ==> |Text(Lines(c)[k])| == caps[k]
    {
      LineLength(NAMES[k], Values(c)[k]);
    }
    FullLength(Lines(c), caps);
    NameSizes();
  }

  /** A buffer holds every possible report iff it has at least 267 bytes. */
  lemma BufferThatAlwaysFits(buflen: nat)
    ensures (forall c: Counters :: FitCount(Lines(c), buflen) == 8) <==> buflen >= 267
  {
    forall c: Counters | buflen >= 267
      ensures FitCount(Lines(c), buflen) == 8
    {
      ReportLength(c);
      assert Lines(c)[..8] == Lines(c);
      FitCountIs(Lines(c), buflen, 8);
    }
    if buflen < 267 {
      var c := Counters(FULL, FULL, FULL, FULL, FULL, FULL, FULL, FULL);
      ReportLength(c);
      assert Lines(c)[..8] == Lines(c);
      FitCountIsLongest(Lines(c), buflen, 8);
      assert FitCount(Lines(c), buflen) != 8;
    }
  }

  // ----- Round trip

  function LineFormats(names: seq<string>): seq<seq<Conv>> {
    seq(|names|, i requires 0 <= i < |names| => [Lit(names[i]), Unsigned, Lit("\n")])
  }

  function Parse(s: string): Option<Counters> {
    match ReadBack(LineFormats(NAMES), s)
    case None => None
    case Some(vs) =>
      if |vs| == 8 && forall i :: 0 <= i < 8 ==> |vs[i]| == 3 && 0 <= vs[i][1] < TWO_64 then
        Some(Counters(vs[0][1], vs[1][1], vs[2][1], vs[3][1], vs[4][1], vs[5][1], vs[6][1], vs[7][1]))
      else None
  }

  lemma NamedLinesReadBack(names: seq<string>, vs: seq<U64>)
    requires |names| == |vs|
    ensures ReadBack(LineFormats(names), Full(NamedLines(names, vs))) ==
            Some(seq(|names|, i requires 0 <= i < |names| => [0, vs[i], 0]))
  {
    var ps := NamedLines(names, vs);
    assert Formats(ps) == LineFormats(names);
    assert Arguments(ps) == seq(|names|, i requires 0 <= i < |names| => [0, vs[i], 0]);
    forall i | 0 <= i < |ps|
      ensures WellFormed(ps[i])
    {
    }
    ReadBackUndoesFull(ps);
  }

  /** The text of a report yields the counters that were printed. */
  lemma ParseUndoesPrint(c: Counters)
    ensures Parse(Full(Lines(c))) == Some(c)
  {
    NamedLinesReadBack(NAMES, Values(c));
  }

  /** Decoding a reply with all eight counters, printing it and parsing the text back yields every counter
      the driver sent, the acknowledge failures as a magnitude, whatever the struct held before. */
  lemma DecodePrintParse(a: Attributes, garbage: Counters)
    requires forall i :: 1 <= i < 9 ==> a[i].Some?
    ensures Parse(Full(Lines(Decoded(a, garbage)))) ==
            Some(Counters(a[1].value, a[2].value, a[3].value, Abs(AsS64(a[4].value)),
                          a[5].value, a[6].value, a[7].value, a[8].value))
  {
    hide Parse, Full, Lines;
    ParseUndoesPrint(Decoded(a, garbage));
    AckIsMagnitude(a[4].value);
  }

  /** The whole command: -1 without a reply, else the longest prefix of lines that fits; in 267 bytes or
      more, a complete reply is parsed back from the buffer whatever the struct held before. */
  method GetStaLinkDetect(reply: Option<Attributes>, garbage: Counters, buf: array<char>) returns (r: int)
    modifies buf
    ensures reply.None? ==> r == -1 && buf[..] == old(buf[..])
    ensures reply.Some? ==>
              var ps := Lines(Decoded(reply.value, garbage));
              0 <= r <= buf.Length && buf[..r] == Full(ps[..FitCount(ps, buf.Length)])
    ensures reply.Some? && buf.Length >= 267 && (forall i :: 1 <= i < 9 ==> reply.value[i].Some?) ==>
              var a := reply.value;
              0 <= r <= buf.Length &&
              Parse(buf[..r]) == Some(Counters(a[1].value, a[2].value, a[3].value, Abs(AsS64(a[4].value)),
                                               a[5].value, a[6].value, a[7].value, a[8].value))
  {
    hide Parse, Full, Lines, FitCount, Decoded;
    if reply.None? {
      return -1;
    }
    var s := new StaLinkDetect;
    s.txFail, s.txRetry, s.txMultiRetry, s.ackFail := garbage.txFail, garbage.txRetry, garbage.txMultiRetry, garbage.ackFail;
    s.fcsErr, s.tx, s.txOk, s.txOs := garbage.fcsErr, garbage.tx, garbage.txOk, garbage.txOs;
    s.Decode(reply.value);
    var c := s.Value();
    r := PrintLinkDetect(c, buf);
    if buf.Length >= 267 && forall i :: 1 <= i < 9 ==> reply.value[i].Some? {
      BufferThatAlwaysFits(buf.Length);
      EightLines(c);
      DecodePrintParse(reply.value, garbage);
    }
  }

  lemma EightLines(c: Counters)
    ensures |Lines(c)| == 8 && Lines(c)[..8] == Lines(c)
  {
  }
}
