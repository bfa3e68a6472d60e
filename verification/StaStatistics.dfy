/** GET_STA_STATISTICS: the all-or-nothing report of `print_sta_statistics`. */
module StaStatistics {
  import opened Options
  import opened Printf
  import opened Report

  type U8 = x: int | 0 <= x < 256
  type U32 = x: int | 0 <= x < 0x1_0000_0000
  type S32 = x: int | -0x8000_0000 <= x < 0x8000_0000

  /** One counter per data traffic class. */
  datatype PerClass = PerClass(tc0: U32, tc1: U32, tc2: U32, tc3: U32)

  type Mac = a: seq<U8> | |a| == 6 witness [0, 0, 0, 0, 0, 0]

  type Reserved = r: seq<U8> | |r| == 32 witness seq(32, _ => 0)

  /** The printed part of the struct; `txRate2` is the rate in halves. */
  datatype Stats = Stats(addr: Mac, linkScore: U8, per: U8, rssi: S32, phyMode: U32, txRate2: nat,
                         totalCnt: U32, thresholdCnt: U32, failCnt: U32, timeoutCnt: U32,
                         avgProcessTime: U32, avgAirTime: U32,
                         bufFull: PerClass, queLen: PerClass, avgQueLen: PerClass, curQueLen: PerClass,
                         flag: U32, reserved: Reserved)

  /** A u32 argument read by `%d`: the S32 that is congruent to it. */
  function AsInt(x: U32): (v: S32)
    ensures (v - x) % 0x1_0000_0000 == 0
  {
    if x < 0x8000_0000 then x else x - 0x1_0000_0000
  }

  function Ints(c: PerClass): seq<int> { [AsInt(c.tc0), AsInt(c.tc1), AsInt(c.tc2), AsInt(c.tc3)] }

  // ----- The calls

  function Plain(text: string): Piece { Piece([Lit(text)], [0]) }

  /** A conversion with the text behind it. */
  function Field(c: Conv, v: int, behind: string): Piece { Piece([c, Lit(behind)], [v, 0]) }

  function Join(p: Piece, q: Piece): Piece { Piece(p.fmt + q.fmt, p.args + q.args) }

  function IntPiece(name: string, v: int): Piece { Join(Plain(name), Field(Signed, v, "\n")) }

  function WordPiece(name: string, v: U32): Piece { Join(Plain(name), Field(Hex(8, true), v, "\n")) }

  function RatePiece(halves: nat): Piece { Join(Plain("rate="), Field(Halves, halves, "\n")) }

  function Four(c: Conv, v0: int, v1: int, v2: int, v3: int, last: string): Piece {
    Join(Join(Field(c, v0, ":"), Field(c, v1, ":")), Join(Field(c, v2, ":"), Field(c, v3, last)))
  }

  function MacPiece(a: Mac): Piece {
    var h := Hex(2, false);
    Join(Plain("sta_addr="), Join(Four(h, a[0], a[1], a[2], a[3], ":"), Join(Field(h, a[4], ":"), Field(h, a[5], "\n"))))
  }

  function ClassPiece(name: string, c: PerClass): Piece {
    Join(Plain(name), Four(Signed, AsInt(c.tc0), AsInt(c.tc1), AsInt(c.tc2), AsInt(c.tc3), "\n"))
  }

  function BytePiece(b: U8): Piece { Piece([Hex(2, true)], [b]) }

  /** Sixteen bytes in hexadecimal, a space behind every fourth. */
  function HexPieces(r: Reserved, i: nat, end: nat): seq<Piece>
    requires i <= end <= 32
    decreases end - i
  {
    if i == end then []
    else [BytePiece(r[i])] + (if (i + 1) % 4 == 0 then [Plain(" ")] else []) + HexPieces(r, i + 1, end)
  }

  function RadioPieces(s: Stats): (ps: seq<Piece>)
    ensures |ps| == 6
  {
    [ MacPiece(s.addr),
      IntPiece("link_score=", s.linkScore),
      IntPiece("per=", s.per),
      IntPiece("rssi=", s.rssi),
      WordPiece("phy=0x", s.phyMode),
      RatePiece(s.txRate2) ]
  }

  function CounterPieces(s: Stats): (ps: seq<Piece>)
    ensures |ps| == 6
  {
    [ IntPiece("total_cnt=", AsInt(s.totalCnt)),
      IntPiece("threshold_cnt=", AsInt(s.thresholdCnt)),
      IntPiece("fail_cnt=", AsInt(s.failCnt)),
      IntPiece("timeout_cnt=", AsInt(s.timeoutCnt)),
      IntPiece("apt=", AsInt(s.avgProcessTime)),
      IntPiece("aat=", AsInt(s.avgAirTime)) ]
  }

  function QueuePieces(s: Stats): (ps: seq<Piece>)
    ensures |ps| == 6
  {
    [ ClassPiece("TC_buf_full_cnt=", s.bufFull),
      ClassPiece("TC_sta_que_len=", s.queLen),
      ClassPiece("TC_avg_que_len=", s.avgQueLen),
      ClassPiece("TC_cur_que_len=", s.curQueLen),
      WordPiece("flag=0x", s.flag),
      Plain("reserved0=") ]
  }

  function HeadPieces(s: Stats): (ps: seq<Piece>)
    ensures |ps| == 18
  {
    RadioPieces(s) + CounterPieces(s) + QueuePieces(s)
  }

  function Pieces(s: Stats): seq<Piece> {
    HeadPieces(s) + HexPieces(s.reserved, 0, 16) + [Plain("\n"), Plain("reserved1=")]
    + HexPieces(s.reserved, 16, 32) + [Plain("\n"), Plain("====\n")]
  }

  // ----- The text determines the fields

  lemma Pow16Values()
    ensures Pow16(2) == 256 && Pow16(8) == 0x1_0000_0000
  {
    assert Pow16(2) == 256 && Pow16(4) == 0x1_0000;
    assert Pow16(6) == 0x100_0000;
  }

  lemma PlainWellFormed(text: string)
    ensures WellFormed(Plain(text))
  {
  }

  lemma FieldWellFormed(c: Conv, v: int, behind: string)
    requires !c.Lit? && Fits(c, v) && behind != [] && DigitFree(behind)
    ensures WellFormed(Field(c, v, behind))
  {
  }

  lemma JoinWellFormed(p: Piece, q: Piece)
    requires WellFormed(p) && WellFormed(q)
    ensures WellFormed(Join(p, q))
  {
    var j := Join(p, q);
    forall i | 0 <= i < |j.fmt| && (j.fmt[i].Signed? || j.fmt[i].Unsigned?)
      ensures i + 1 < |j.fmt| && j.fmt[i + 1].Lit? && j.fmt[i + 1].text != [] && DigitFree(j.fmt[i + 1].text)
    {
      if i < |p.fmt| {
        assert j.fmt[i] == p.fmt[i];
        assert j.fmt[i + 1] == p.fmt[i + 1];
      } else {
        assert j.fmt[i] == q.fmt[i - |p.fmt|];
        assert j.fmt[i + 1] == q.fmt[i + 1 - |p.fmt|];
      }
    }
  }

  lemma OneFieldWellFormed(name: string, c: Conv, v: int)
    requires !c.Lit? && Fits(c, v)
    ensures WellFormed(Join(Plain(name), Field(c, v, "\n")))
  {
    PlainWellFormed(name);
    FieldWellFormed(c, v, "\n");
    JoinWellFormed(Plain(name), Field(c, v, "\n"));
  }

  lemma FourWellFormed(c: Conv, v0: int, v1: int, v2: int, v3: int, last: string)
    requires !c.Lit? && Fits(c, v0) && Fits(c, v1) && Fits(c, v2) && Fits(c, v3)
    requires last != [] && DigitFree(last)
    ensures WellFormed(Four(c, v0, v1, v2, v3, last))
  {
    FieldWellFormed(c, v0, ":");
    FieldWellFormed(c, v1, ":");
    FieldWellFormed(c, v2, ":");
    FieldWellFormed(c, v3, last);
    JoinWellFormed(Field(c, v0, ":"), Field(c, v1, ":"));
    JoinWellFormed(Field(c, v2, ":"), Field(c, v3, last));
    JoinWellFormed(Join(Field(c, v0, ":"), Field(c, v1, ":")), Join(Field(c, v2, ":"), Field(c, v3, last)));
  }

  lemma ClassWellFormed(name: string, c: PerClass)
    ensures WellFormed(ClassPiece(name, c))
  {
    PlainWellFormed(name);
    FourWellFormed(Signed, AsInt(c.tc0), AsInt(c.tc1), AsInt(c.tc2), AsInt(c.tc3), "\n");
    JoinWellFormed(Plain(name), Four(Signed, AsInt(c.tc0), AsInt(c.tc1), AsInt(c.tc2), AsInt(c.tc3), "\n"));
  }

  lemma MacWellFormed(a: Mac)
    ensures WellFormed(MacPiece(a))
  {
    var h := Hex(2, false);
    Pow16Values();
    FourWellFormed(h, a[0], a[1], a[2], a[3], ":");
    FieldWellFormed(h, a[4], ":");
    FieldWellFormed(h, a[5], "\n");
    JoinWellFormed(Field(h, a[4], ":"), Field(h, a[5], "\n"));
    JoinWellFormed(Four(h, a[0], a[1], a[2], a[3], ":"), Join(Field(h, a[4], ":"), Field(h, a[5], "\n")));
    PlainWellFormed("sta_addr=");
    JoinWellFormed(Plain("sta_addr="),
                   Join(Four(h, a[0], a[1], a[2], a[3], ":"), Join(Field(h, a[4], ":"), Field(h, a[5], "\n"))));
  }

  // ----- A reader that knows the labels

  /** What stands behind a label, up to the end of the line. */
  datatype Shape = MacShape | IntShape | WordShape | RateShape | FourShape | BytesShape

  const QUAD: seq<Conv> := [Hex(2, true), Hex(2, true), Hex(2, true), Hex(2, true), Lit(" ")]

  function ShapeFormat(k: Shape): seq<Conv> {
    match k
    case MacShape =>
      [Hex(2, false), Lit(":"), Hex(2, false), Lit(":"), Hex(2, false), Lit(":"),
       Hex(2, false), Lit(":"), Hex(2, false), Lit(":"), Hex(2, false), Lit("\n")]
    case IntShape => [Signed, Lit("\n")]
    case WordShape => [Hex(8, true), Lit("\n")]
    case RateShape => [Halves, Lit("\n")]
    case FourShape => [Signed, Lit(":"), Signed, Lit(":"), Signed, Lit(":"), Signed, Lit("\n")]
    case BytesShape => QUAD + QUAD + QUAD + QUAD + [Lit("\n")]
  }

  datatype Label = Label(text: string, shape: Shape)

  /** A label and the numbers behind it. */
  datatype Entry = Entry(text: string, values: seq<int>)

  const RADIO: seq<Label> :=
    [ Label("sta_addr=", MacShape), Label("link_score=", IntShape), Label("per=", IntShape),
      Label("rssi=", IntShape), Label("phy=0x", WordShape), Label("rate=", RateShape) ]

  const COUNTERS: seq<Label> :=
    [ Label("total_cnt=", IntShape), Label("threshold_cnt=", IntShape), Label("fail_cnt=", IntShape),
      Label("timeout_cnt=", IntShape), Label("apt=", IntShape), Label("aat=", IntShape) ]

  const QUEUES: seq<Label> :=
    [ Label("TC_buf_full_cnt=", FourShape), Label("TC_sta_que_len=", FourShape), Label("TC_avg_que_len=", FourShape),
      Label("TC_cur_que_len=", FourShape), Label("flag=0x", WordShape) ]

  const RESERVED: seq<Label> := [ Label("reserved0=", BytesShape), Label("reserved1=", BytesShape) ]

  const LAYOUT: seq<Label> := RADIO + (COUNTERS + (QUEUES + RESERVED))

  /** The scanned numbers, without the unused entries of the literals. */
  function Values(fmt: seq<Conv>, vs: seq<int>): seq<int> {
    if fmt == [] || vs == [] then []
    else Own(fmt[0], vs[0]) + Values(fmt[1..], vs[1..])
  }

  function Own(c: Conv, v: int): seq<int> { if c.Lit? then [] else [v] }

  /** Reads label after label, then the closing line. */
  function ReadEntries(layout: seq<Label>, s: string): Option<seq<Entry>> {
    if layout == [] then (if s == "====\n" then Some([]) else None)
    else
      var fmt := [Lit(layout[0].text)] + ShapeFormat(layout[0].shape);
      match Scan(fmt, s)
      case None => None
      case Some((vs, rest)) =>
        match ReadEntries(layout[1..], rest)
        case None => None
        case Some(more) => Some([Entry(layout[0].text, Values(fmt, vs))] + more)
  }

  /** A piece that prints what the label expects. */
  ghost predicate Suits(l: Label, p: Piece) {
    WellFormed(p) && p.fmt == [Lit(l.text)] + ShapeFormat(l.shape)
  }

  /** The numbers a piece prints. */
  function Printed(p: Piece): seq<int> { Values(p.fmt, p.args) }

  /** Pieces that suit their labels and read as these entries. */
  ghost predicate Reads(layout: seq<Label>, ps: seq<Piece>, es: seq<Entry>) {
    && |layout| == |ps| == |es|
    && forall i :: 0 <= i < |ps| ==> Suits(layout[i], ps[i]) && es[i] == Entry(layout[i].text, Printed(ps[i]))
  }

  lemma ReadsConcat(l: seq<Label>, ps: seq<Piece>, es: seq<Entry>, l': seq<Label>, ps': seq<Piece>, es': seq<Entry>)
    requires Reads(l, ps, es) && Reads(l', ps', es')
    ensures Reads(l + l', ps + ps', es + es')
  {
    hide Suits, Printed;
  }

  lemma ReadsTail(l: seq<Label>, ps: seq<Piece>, es: seq<Entry>)
    requires Reads(l, ps, es) && ps != []
    ensures Reads(l[1..], ps[1..], es[1..])
  {
    hide Suits, Printed;
  }

  lemma EntryComesBack(l: Label, p: Piece, rest: string)
    requires Suits(l, p)
    ensures var fmt := [Lit(l.text)] + ShapeFormat(l.shape);
            Scan(fmt, Text(p) + rest) == Some((p.args, rest)) && Values(fmt, p.args) == Printed(p)
  {
    PieceComesBack(p, rest);
  }

  lemma {:induction false} EntriesComeBack(layout: seq<Label>, ps: seq<Piece>, es: seq<Entry>)
    requires Reads(layout, ps, es)
    ensures ReadEntries(layout, Full(ps) + "====\n") == Some(es)
  {
    if ps == [] {
      assert Full(ps) == "";
    } else {
      hide Suits, Printed, Text, Full, Scan, Values, ShapeFormat;
      var rest := Full(ps[1..]) + "====\n";
      FullCons(ps);
      Assoc(Text(ps[0]), Full(ps[1..]), "====\n");
      EntryComesBack(layout[0], ps[0], rest);
      ReadsTail(layout, ps, es);
      EntriesComeBack(layout[1..], ps[1..], es[1..]);
      assert [es[0]] + es[1..] == es;
    }
  }

  lemma ValuesUnfold(fmt: seq<Conv>, vs: seq<int>)
    requires fmt != [] && vs != []
    ensures Values(fmt, vs) == Own(fmt[0], vs[0]) + Values(fmt[1..], vs[1..])
  {
  }

  lemma {:induction false} ValuesConcat(f: seq<Conv>, g: seq<Conv>, vs: seq<int>, ws: seq<int>)
    requires |f| == |vs|
    ensures Values(f + g, vs + ws) == Values(f, vs) + Values(g, ws)
  {
    if f == [] {
      assert f + g == g && vs + ws == ws;
    } else {
      hide Values, Own;
      ValuesConcat(f[1..], g, vs[1..], ws);
      ValuesUnfold(f, vs);
      ValuesUnfold(f + g, vs + ws);
      TailOfConcat(f, g);
      TailOfConcat(vs, ws);
      Assoc(Own(f[0], vs[0]), Values(f[1..], vs[1..]), Values(g, ws));
    }
  }

  lemma JoinPrinted(p: Piece, q: Piece)
    requires |p.fmt| == |p.args|
    ensures Printed(Join(p, q)) == Printed(p) + Printed(q)
  {
    ValuesConcat(p.fmt, q.fmt, p.args, q.args);
  }

  lemma PlainPrinted(text: string)
    ensures Printed(Plain(text)) == []
  {
    var p := Plain(text);
    assert p.fmt[1..] == [] && Values(p.fmt[1..], p.args[1..]) == [];
  }

  lemma FieldPrinted(c: Conv, v: int, behind: string)
    requires !c.Lit?
    ensures Printed(Field(c, v, behind)) == [v]
  {
    var p := Field(c, v, behind);
    assert p.fmt[1..] == [Lit(behind)] && p.args[1..] == [0];
    PlainPrinted(behind);
  }

  lemma OneFieldSuits(l: Label, c: Conv, v: int)
    requires !c.Lit? && Fits(c, v) && ShapeFormat(l.shape) == [c, Lit("\n")]
    ensures Suits(l, Join(Plain(l.text), Field(c, v, "\n")))
    ensures Printed(Join(Plain(l.text), Field(c, v, "\n"))) == [v]
  {
    hide WellFormed, ShapeFormat;
    OneFieldWellFormed(l.text, c, v);
    PlainPrinted(l.text);
    FieldPrinted(c, v, "\n");
    JoinPrinted(Plain(l.text), Field(c, v, "\n"));
  }

  lemma FourPrinted(c: Conv, v0: int, v1: int, v2: int, v3: int, last: string)
    requires !c.Lit?
    ensures Printed(Four(c, v0, v1, v2, v3, last)) == [v0, v1, v2, v3]
  {
    hide Printed;
    FieldPrinted(c, v0, ":");
    FieldPrinted(c, v1, ":");
    FieldPrinted(c, v2, ":");
    FieldPrinted(c, v3, last);
    JoinPrinted(Field(c, v0, ":"), Field(c, v1, ":"));
    JoinPrinted(Field(c, v2, ":"), Field(c, v3, last));
    JoinPrinted(Join(Field(c, v0, ":"), Field(c, v1, ":")), Join(Field(c, v2, ":"), Field(c, v3, last)));
  }

  lemma ClassSuits(name: string, c: PerClass)
    ensures Suits(Label(name, FourShape), ClassPiece(name, c))
    ensures Printed(ClassPiece(name, c)) == Ints(c)
  {
    hide WellFormed;
    var four := Four(Signed, AsInt(c.tc0), AsInt(c.tc1), AsInt(c.tc2), AsInt(c.tc3), "\n");
    ClassWellFormed(name, c);
    FourPrinted(Signed, AsInt(c.tc0), AsInt(c.tc1), AsInt(c.tc2), AsInt(c.tc3), "\n");
    PlainPrinted(name);
    JoinPrinted(Plain(name), four);
  }

  lemma MacSuits(a: Mac)
    ensures Suits(Label("sta_addr=", MacShape), MacPiece(a)) && Printed(MacPiece(a)) == a
  {
    hide WellFormed, Values;
    var h := Hex(2, false);
    var four, five, six := Four(h, a[0], a[1], a[2], a[3], ":"), Field(h, a[4], ":"), Field(h, a[5], "\n");
    MacWellFormed(a);
    FourPrinted(h, a[0], a[1], a[2], a[3], ":");
    FieldPrinted(h, a[4], ":");
    FieldPrinted(h, a[5], "\n");
    PlainPrinted("sta_addr=");
    JoinPrinted(five, six);
    JoinPrinted(four, Join(five, six));
    JoinPrinted(Plain("sta_addr="), Join(four, Join(five, six)));
    assert [a[0], a[1], a[2], a[3]] + ([a[4]] + [a[5]]) == a;
  }

  // ----- The grouped bytes as one piece

  function QuadPiece(r: Reserved, i: nat): Piece
    requires i + 4 <= 32
  {
    Piece([Hex(2, true), Hex(2, true), Hex(2, true), Hex(2, true), Lit(" ")], [r[i], r[i + 1], r[i + 2], r[i + 3], 0])
  }

  function SixteenPiece(r: Reserved, lo: nat): Piece
    requires lo <= 16
  {
    Join(Join(QuadPiece(r, lo), QuadPiece(r, lo + 4)), Join(QuadPiece(r, lo + 8), QuadPiece(r, lo + 12)))
  }

  function ReservedPiece(name: string, r: Reserved, lo: nat): Piece
    requires lo <= 16
  {
    Join(Plain(name), Join(SixteenPiece(r, lo), Plain("\n")))
  }

  lemma QuadWellFormed(r: Reserved, i: nat)
    requires i + 4 <= 32
    ensures WellFormed(QuadPiece(r, i))
  {
    Pow16Values();
  }

  lemma BytesWellFormed(r: Reserved, lo: nat)
    requires lo <= 16
    ensures WellFormed(SixteenPiece(r, lo))
  {
    hide WellFormed;
    QuadWellFormed(r, lo);
    QuadWellFormed(r, lo + 4);
    QuadWellFormed(r, lo + 8);
    QuadWellFormed(r, lo + 12);
    JoinWellFormed(QuadPiece(r, lo), QuadPiece(r, lo + 4));
    JoinWellFormed(QuadPiece(r, lo + 8), QuadPiece(r, lo + 12));
    JoinWellFormed(Join(QuadPiece(r, lo), QuadPiece(r, lo + 4)), Join(QuadPiece(r, lo + 8), QuadPiece(r, lo + 12)));
  }

  lemma QuadPrinted(r: Reserved, i: nat)
    requires i + 4 <= 32
    ensures Printed(QuadPiece(r, i)) == r[i..i + 4]
  {
    hide Values;
    var a, b, c, d := BytePiece(r[i]), BytePiece(r[i + 1]), BytePiece(r[i + 2]), Field(Hex(2, true), r[i + 3], " ");
    BytePrinted(r[i]);
    BytePrinted(r[i + 1]);
    BytePrinted(r[i + 2]);
    FieldPrinted(Hex(2, true), r[i + 3], " ");
    JoinPrinted(c, d);
    JoinPrinted(b, Join(c, d));
    JoinPrinted(a, Join(b, Join(c, d)));
    assert QuadPiece(r, i) == Join(a, Join(b, Join(c, d)));
  }

  lemma BytePrinted(b: U8)
    ensures Printed(BytePiece(b)) == [b]
  {
    var p := BytePiece(b);
    assert p.fmt[1..] == [] && Values(p.fmt[1..], p.args[1..]) == [];
  }

  lemma SixteenPrinted(r: Reserved, lo: nat)
    requires lo <= 16
    ensures Printed(SixteenPiece(r, lo)) == r[lo..lo + 16]
  {
    hide Printed;
    var a, b, c, d := QuadPiece(r, lo), QuadPiece(r, lo + 4), QuadPiece(r, lo + 8), QuadPiece(r, lo + 12);
    QuadPrinted(r, lo);
    QuadPrinted(r, lo + 4);
    QuadPrinted(r, lo + 8);
    QuadPrinted(r, lo + 12);
    JoinPrinted(a, b);
    JoinPrinted(c, d);
    JoinPrinted(Join(a, b), Join(c, d));
  }

  lemma ReservedSuits(name: string, r: Reserved, lo: nat)
    requires lo <= 16
    ensures Suits(Label(name, BytesShape), ReservedPiece(name, r, lo))
    ensures Printed(ReservedPiece(name, r, lo)) == r[lo..lo + 16]
  {
    hide WellFormed, Values;
    var bytes := SixteenPiece(r, lo);
    BytesWellFormed(r, lo);
    PlainWellFormed(name);
    PlainWellFormed("\n");
    JoinWellFormed(bytes, Plain("\n"));
    JoinWellFormed(Plain(name), Join(bytes, Plain("\n")));
    SixteenPrinted(r, lo);
    PlainPrinted(name);
    PlainPrinted("\n");
    JoinPrinted(bytes, Plain("\n"));
    JoinPrinted(Plain(name), Join(bytes, Plain("\n")));
    assert ReservedPiece(name, r, lo).fmt == [Lit(name)] + (bytes.fmt + [Lit("\n")]);
  }

  lemma JoinText(p: Piece, q: Piece)
    requires |p.fmt| == |p.args| && |q.fmt| == |q.args|
    ensures Text(Join(p, q)) == Text(p) + Text(q)
  {
    PrintConcat(p.fmt, p.args, q.fmt, q.args);
  }

  predicate Sized(p: Piece) { |p.fmt| == |p.args| }

  lemma JoinFront(p: Piece, q: Piece, ps: seq<Piece>, rest: string)
    requires Sized(p) && Sized(q) && Full(ps) == Text(q) + rest
    ensures Sized(Join(p, q))
    ensures Full([p] + ps) == Text(Join(p, q)) + rest
  {
    hide Full, Text;
    JoinText(p, q);
    FullPrepend(p, ps);
    Assoc(Text(p), Text(q), rest);
  }

  lemma QuadIsJoin(r: Reserved, i: nat)
    requires i + 4 <= 32
    ensures var a, b, c, d := BytePiece(r[i]), BytePiece(r[i + 1]), BytePiece(r[i + 2]), BytePiece(r[i + 3]);
            QuadPiece(r, i) == Join(a, Join(b, Join(c, Join(d, Plain(" ")))))
  {
  }

  lemma FiveText(a: Piece, b: Piece, c: Piece, d: Piece, e: Piece, rest: seq<Piece>)
    requires Sized(a) && Sized(b) && Sized(c) && Sized(d) && Sized(e)
    ensures Full([a] + ([b] + ([c] + ([d] + ([e] + rest))))) ==
            Text(Join(a, Join(b, Join(c, Join(d, e))))) + Full(rest)
  {
    hide *;
    var tail := Full(rest);
    FullPrepend(e, rest);
    JoinFront(d, e, [e] + rest, tail);
    JoinFront(c, Join(d, e), [d] + ([e] + rest), tail);
    JoinFront(b, Join(c, Join(d, e)), [c] + ([d] + ([e] + rest)), tail);
    JoinFront(a, Join(b, Join(c, Join(d, e))), [b] + ([c] + ([d] + ([e] + rest))), tail);
  }

  lemma HexByte(r: Reserved, i: nat, end: nat)
    requires i < end <= 32 && i % 4 != 3
    ensures HexPieces(r, i, end) == [BytePiece(r[i])] + HexPieces(r, i + 1, end)
  {
    hide BytePiece, Plain;
    assert (i + 1) % 4 != 0;
    assert [BytePiece(r[i])] + [] == [BytePiece(r[i])];
  }

  lemma HexByteSpace(r: Reserved, i: nat, end: nat)
    requires i < end <= 32 && i % 4 == 3
    ensures HexPieces(r, i, end) == [BytePiece(r[i])] + ([Plain(" ")] + HexPieces(r, i + 1, end))
  {
    hide BytePiece, Plain;
    assert (i + 1) % 4 == 0;
  }

  lemma HexUnfold(r: Reserved, i: nat, end: nat)
    requires i + 4 <= end <= 32 && i % 4 == 0
    ensures var a, b, c, d := BytePiece(r[i]), BytePiece(r[i + 1]), BytePiece(r[i + 2]), BytePiece(r[i + 3]);
            HexPieces(r, i, end) == [a] + ([b] + ([c] + ([d] + ([Plain(" ")] + HexPieces(r, i + 4, end)))))
  {
    hide BytePiece, Plain, HexPieces;
    HexByte(r, i, end);
    HexByte(r, i + 1, end);
    HexByte(r, i + 2, end);
    HexByteSpace(r, i + 3, end);
  }

  /** Four byte calls and the space behind them. */
  lemma QuadText(r: Reserved, i: nat, end: nat)
    requires i + 4 <= end <= 32 && i % 4 == 0
    ensures Full(HexPieces(r, i, end)) == Text(QuadPiece(r, i)) + Full(HexPieces(r, i + 4, end))
  {
    hide Full, Text, HexPieces, QuadPiece, Join;
    HexUnfold(r, i, end);
    QuadIsJoin(r, i);
    var a, b, c, d := BytePiece(r[i]), BytePiece(r[i + 1]), BytePiece(r[i + 2]), BytePiece(r[i + 3]);
    FiveText(a, b, c, d, Plain(" "), HexPieces(r, i + 4, end));
  }

  lemma SixteenText(r: Reserved, lo: nat)
    requires lo <= 16 && lo % 4 == 0
    ensures Full(HexPieces(r, lo, lo + 16)) == Text(SixteenPiece(r, lo))
  {
    hide Text, HexPieces;
    var a, b, c, d := QuadPiece(r, lo), QuadPiece(r, lo + 4), QuadPiece(r, lo + 8), QuadPiece(r, lo + 12);
    var end := lo + 16;
    QuadText(r, lo, end);
    QuadText(r, lo + 4, end);
    QuadText(r, lo + 8, end);
    QuadText(r, lo + 12, end);
    NoBytes(r, end);
    JoinText(a, b);
    JoinText(c, d);
    JoinText(Join(a, b), Join(c, d));
  }

  lemma NoBytes(r: Reserved, end: nat)
    requires end <= 32
    ensures Full(HexPieces(r, end, end)) == ""
  {
  }

  lemma ReservedText(name: string, r: Reserved, lo: nat)
    requires lo <= 16 && lo % 4 == 0
    ensures Full([Plain(name)] + HexPieces(r, lo, lo + 16) + [Plain("\n")]) == Text(ReservedPiece(name, r, lo))
  {
    hide Full, Text, HexPieces, SixteenPiece;
    var hex, bytes, end := HexPieces(r, lo, lo + 16), SixteenPiece(r, lo), Plain("\n");
    FullPrepend(Plain(name), hex + [end]);
    assert [Plain(name)] + (hex + [end]) == [Plain(name)] + hex + [end];
    FullConcat(hex, [end]);
    FullOne(end);
    SixteenText(r, lo);
    BytesWellFormed(r, lo);
    JoinText(bytes, end);
    JoinText(Plain(name), Join(bytes, end));
  }

  // ----- The whole report

  function ReservedPieces(r: Reserved): (ps: seq<Piece>)
    ensures |ps| == 2
  {
    [ReservedPiece("reserved0=", r, 0), ReservedPiece("reserved1=", r, 16)]
  }

  /** The report with each reserved line as one piece. */
  function LinePieces(s: Stats): seq<Piece> {
    RadioPieces(s) + (CounterPieces(s) + (QueuePieces(s)[..5] + ReservedPieces(s.reserved)))
  }

  lemma LinesText(s: Stats)
    ensures Full(Pieces(s)) == Full(LinePieces(s)) + "====\n"
  {
    hide Full, Text, HexPieces, RadioPieces, CounterPieces, ReservedPiece, ClassPiece, WordPiece;
    var r := s.reserved;
    var head := RadioPieces(s) + CounterPieces(s) + QueuePieces(s)[..5];
    var a := [Plain("reserved0=")] + HexPieces(r, 0, 16) + [Plain("\n")];
    var b := [Plain("reserved1=")] + HexPieces(r, 16, 32) + [Plain("\n")];
    var end := Plain("====\n");
    assert QueuePieces(s) == QueuePieces(s)[..5] + [Plain("reserved0=")];
    assert Pieces(s) == head + (a + (b + [end]));
    FullConcat(head, a + (b + [end]));
    FullConcat(a, b + [end]);
    FullConcat(b, [end]);
    FullOne(end);
    PlainText("====\n");
    ReservedText("reserved0=", r, 0);
    ReservedText("reserved1=", r, 16);
    var p, q := ReservedPiece("reserved0=", r, 0), ReservedPiece("reserved1=", r, 16);
    assert LinePieces(s) == head + [p, q] && [p, q] == [p] + [q];
    FullConcat(head, [p, q]);
    FullConcat([p], [q]);
    FullOne(p);
    FullOne(q);
  }

  lemma PlainText(text: string)
    ensures Text(Plain(text)) == text
  {
    var p := Plain(text);
    assert p.fmt[1..] == [] && Print(p.fmt[1..], p.args[1..]) == "";
  }

  function RadioEntries(s: Stats): seq<Entry> {
    [ Entry("sta_addr=", s.addr),
      Entry("link_score=", [s.linkScore]),
      Entry("per=", [s.per]),
      Entry("rssi=", [s.rssi]),
      Entry("phy=0x", [s.phyMode]),
      Entry("rate=", [s.txRate2]) ]
  }

  function CounterEntries(s: Stats): seq<Entry> {
    [ Entry("total_cnt=", [AsInt(s.totalCnt)]),
      Entry("threshold_cnt=", [AsInt(s.thresholdCnt)]),
      Entry("fail_cnt=", [AsInt(s.failCnt)]),
      Entry("timeout_cnt=", [AsInt(s.timeoutCnt)]),
      Entry("apt=", [AsInt(s.avgProcessTime)]),
      Entry("aat=", [AsInt(s.avgAirTime)]) ]
  }

  function QueueEntries(s: Stats): seq<Entry> {
    [ Entry("TC_buf_full_cnt=", Ints(s.bufFull)),
      Entry("TC_sta_que_len=", Ints(s.queLen)),
      Entry("TC_avg_que_len=", Ints(s.avgQueLen)),
      Entry("TC_cur_que_len=", Ints(s.curQueLen)),
      Entry("flag=0x", [s.flag]) ]
  }

  function ReservedEntries(s: Stats): seq<Entry> {
    [ Entry("reserved0=", s.reserved[..16]),
      Entry("reserved1=", s.reserved[16..]) ]
  }

  function Entries(s: Stats): seq<Entry> {
    RadioEntries(s) + (CounterEntries(s) + (QueueEntries(s) + ReservedEntries(s)))
  }

  lemma RadioReads(s: Stats)
    ensures Reads(RADIO, RadioPieces(s), RadioEntries(s))
  {
    hide Suits, Printed, MacPiece, Field, Join, Plain;
    Pow16Values();
    MacSuits(s.addr);
    OneFieldSuits(Label("link_score=", IntShape), Signed, s.linkScore);
    OneFieldSuits(Label("per=", IntShape), Signed, s.per);
    OneFieldSuits(Label("rssi=", IntShape), Signed, s.rssi);
    OneFieldSuits(Label("phy=0x", WordShape), Hex(8, true), s.phyMode);
    OneFieldSuits(Label("rate=", RateShape), Halves, s.txRate2);
  }

  lemma CountersRead(s: Stats)
    ensures Reads(COUNTERS, CounterPieces(s), CounterEntries(s))
  {
    hide Suits, Printed, Field, Join, Plain;
    OneFieldSuits(Label("total_cnt=", IntShape), Signed, AsInt(s.totalCnt));
    OneFieldSuits(Label("threshold_cnt=", IntShape), Signed, AsInt(s.thresholdCnt));
    OneFieldSuits(Label("fail_cnt=", IntShape), Signed, AsInt(s.failCnt));
    OneFieldSuits(Label("timeout_cnt=", IntShape), Signed, AsInt(s.timeoutCnt));
    OneFieldSuits(Label("apt=", IntShape), Signed, AsInt(s.avgProcessTime));
    OneFieldSuits(Label("aat=", IntShape), Signed, AsInt(s.avgAirTime));
  }

  lemma QueuesRead(s: Stats)
    ensures Reads(QUEUES, QueuePieces(s)[..5], QueueEntries(s))
  {
    hide Suits, Printed, Field, Join, Plain, ClassPiece, Ints;
    Pow16Values();
    ClassSuits("TC_buf_full_cnt=", s.bufFull);
    ClassSuits("TC_sta_que_len=", s.queLen);
    ClassSuits("TC_avg_que_len=", s.avgQueLen);
    ClassSuits("TC_cur_que_len=", s.curQueLen);
    OneFieldSuits(Label("flag=0x", WordShape), Hex(8, true), s.flag);
  }

  lemma ReservedReads(s: Stats)
    ensures Reads(RESERVED, ReservedPieces(s.reserved), ReservedEntries(s))
  {
    hide Suits, Printed, ReservedPiece;
    ReservedSuits("reserved0=", s.reserved, 0);
    ReservedSuits("reserved1=", s.reserved, 16);
  }

  lemma LinesRead(s: Stats)
    ensures Reads(LAYOUT, LinePieces(s), Entries(s))
  {
    hide Reads, RadioPieces, CounterPieces, QueuePieces, ReservedPieces;
    hide RadioEntries, CounterEntries, QueueEntries, ReservedEntries;
    var cs, qs, rs := CounterPieces(s), QueuePieces(s)[..5], ReservedPieces(s.reserved);
    var ce, qe, re := CounterEntries(s), QueueEntries(s), ReservedEntries(s);
    RadioReads(s);
    CountersRead(s);
    QueuesRead(s);
    ReservedReads(s);
    ReadsConcat(QUEUES, qs, qe, RESERVED, rs, re);
    ReadsConcat(COUNTERS, cs, ce, QUEUES + RESERVED, qs + rs, qe + re);
    ReadsConcat(RADIO, RadioPieces(s), RadioEntries(s), COUNTERS + (QUEUES + RESERVED), cs + (qs + rs), ce + (qe + re));
  }

  /** Read by its labels, the report gives behind every label the value of its own field. */
  lemma ReportReadsBack(s: Stats)
    ensures var read := ReadEntries(LAYOUT, Full(Pieces(s)));
            read.Some? && |read.value| == 19 &&
            var es := read.value;
            && es[0] == Entry("sta_addr=", s.addr)
            && es[1] == Entry("link_score=", [s.linkScore])
            && es[2] == Entry("per=", [s.per])
            && es[3] == Entry("rssi=", [s.rssi])
            && es[4] == Entry("phy=0x", [s.phyMode])
            && es[5] == Entry("rate=", [s.txRate2])
            && es[6] == Entry("total_cnt=", [AsInt(s.totalCnt)])
            && es[7] == Entry("threshold_cnt=", [AsInt(s.thresholdCnt)])
            && es[8] == Entry("fail_cnt=", [AsInt(s.failCnt)])
            && es[9] == Entry("timeout_cnt=", [AsInt(s.timeoutCnt)])
            && es[10] == Entry("apt=", [AsInt(s.avgProcessTime)])
            && es[11] == Entry("aat=", [AsInt(s.avgAirTime)])
            && es[12] == Entry("TC_buf_full_cnt=", Ints(s.bufFull))
            && es[13] == Entry("TC_sta_que_len=", Ints(s.queLen))
            && es[14] == Entry("TC_avg_que_len=", Ints(s.avgQueLen))
            && es[15] == Entry("TC_cur_que_len=", Ints(s.curQueLen))
            && es[16] == Entry("flag=0x", [s.flag])
            && es[17] == Entry("reserved0=", s.reserved[..16])
            && es[18] == Entry("reserved1=", s.reserved[16..])
  {
    hide ReadEntries, Full, Pieces, LinePieces, Reads, AsInt, Ints;
    LinesText(s);
    LinesRead(s);
    EntriesComeBack(LAYOUT, LinePieces(s), Entries(s));
  }

  /** The full report determines every printed field, the 32 reserved bytes included. */
  lemma ReportDeterminesStats(s: Stats, t: Stats)
    ensures Full(Pieces(s)) == Full(Pieces(t)) ==> s == t
  {
    hide ReadEntries, Full, Pieces;
    if Full(Pieces(s)) == Full(Pieces(t)) {
      ReportReadsBack(s);
      ReportReadsBack(t);
      var es := ReadEntries(LAYOUT, Full(Pieces(s))).value;
      assert s.reserved == es[17].values + es[18].values == t.reserved;
      IntsInjective(s.bufFull, t.bufFull);
      IntsInjective(s.queLen, t.queLen);
      IntsInjective(s.avgQueLen, t.avgQueLen);
      IntsInjective(s.curQueLen, t.curQueLen);
    }
  }

  lemma IntsInjective(c: PerClass, d: PerClass)
    requires Ints(c) == Ints(d)
    ensures c == d
  {
    assert Ints(c)[0] == Ints(d)[0] && Ints(c)[1] == Ints(d)[1] && Ints(c)[2] == Ints(d)[2] && Ints(c)[3] == Ints(d)[3];
  }

  // ----- The printer

  /** Address, score, error rate, signal, mode and rate. */
  method PrintRadio(s: Stats, buf: array<char>, from: nat, ghost ps: seq<Piece>, ghost k: nat) returns (ok: bool, pos: nat)
    requires k + 6 <= |ps| && Holds(buf, from, ps, k) && RadioPieces(s) == ps[k..k + 6]
    modifies buf
    ensures ok ==> Holds(buf, pos, ps, k + 6)
    ensures !ok ==> FitCount(ps, buf.Length) < |ps|
  {
    hide MacPiece, IntPiece, WordPiece, RatePiece, ClassPiece, Plain, Full, FitCount, Kept, Holds;
    assert forall i :: 0 <= i < 6 ==> ps[k + i] == RadioPieces(s)[i];
    pos := from;
    ok, pos := Append(buf, pos, MacPiece(s.addr), ps, k);
    if !ok { return; }
    ok, pos := Append(buf, pos, IntPiece("link_score=", s.linkScore), ps, k + 1);
    if !ok { return; }
    ok, pos := Append(buf, pos, IntPiece("per=", s.per), ps, k + 2);
    if !ok { return; }
    ok, pos := Append(buf, pos, IntPiece("rssi=", s.rssi), ps, k + 3);
    if !ok { return; }
    ok, pos := Append(buf, pos, WordPiece("phy=0x", s.phyMode), ps, k + 4);
    if !ok { return; }
    ok, pos := Append(buf, pos, RatePiece(s.txRate2), ps, k + 5);
  }

  /** The transmit counters. */
  method PrintCounters(s: Stats, buf: array<char>, from: nat, ghost ps: seq<Piece>, ghost k: nat) returns (ok: bool, pos: nat)
    requires k + 6 <= |ps| && Holds(buf, from, ps, k) && CounterPieces(s) == ps[k..k + 6]
    modifies buf
    ensures ok ==> Holds(buf, pos, ps, k + 6)
    ensures !ok ==> FitCount(ps, buf.Length) < |ps|
  {
    hide MacPiece, IntPiece, WordPiece, RatePiece, ClassPiece, Plain, Full, FitCount, Kept, Holds;
    assert forall i :: 0 <= i < 6 ==> ps[k + i] == CounterPieces(s)[i];
    pos := from;
    ok, pos := Append(buf, pos, IntPiece("total_cnt=", AsInt(s.totalCnt)), ps, k);
    if !ok { return; }
    ok, pos := Append(buf, pos, IntPiece("threshold_cnt=", AsInt(s.thresholdCnt)), ps, k + 1);
    if !ok { return; }
    ok, pos := Append(buf, pos, IntPiece("fail_cnt=", AsInt(s.failCnt)), ps, k + 2);
    if !ok { return; }
    ok, pos := Append(buf, pos, IntPiece("timeout_cnt=", AsInt(s.timeoutCnt)), ps, k + 3);
    if !ok { return; }
    ok, pos := Append(buf, pos, IntPiece("apt=", AsInt(s.avgProcessTime)), ps, k + 4);
    if !ok { return; }
    ok, pos := Append(buf, pos, IntPiece("aat=", AsInt(s.avgAirTime)), ps, k + 5);
  }

  /** The per-class counters, the flag word and the first heading. */
  method PrintQueues(s: Stats, buf: array<char>, from: nat, ghost ps: seq<Piece>, ghost k: nat) returns (ok: bool, pos: nat)
    requires k + 6 <= |ps| && Holds(buf, from, ps, k) && QueuePieces(s) == ps[k..k + 6]
    modifies buf
    ensures ok ==> Holds(buf, pos, ps, k + 6)
    ensures !ok ==> FitCount(ps, buf.Length) < |ps|
  {
    hide MacPiece, IntPiece, WordPiece, RatePiece, ClassPiece, Plain, Full, FitCount, Kept, Holds;
    assert forall i :: 0 <= i < 6 ==> ps[k + i] == QueuePieces(s)[i];
    pos := from;
    ok, pos := Append(buf, pos, ClassPiece("TC_buf_full_cnt=", s.bufFull), ps, k);
    if !ok { return; }
    ok, pos := Append(buf, pos, ClassPiece("TC_sta_que_len=", s.queLen), ps, k + 1);
    if !ok { return; }
    ok, pos := Append(buf, pos, ClassPiece("TC_avg_que_len=", s.avgQueLen), ps, k + 2);
    if !ok { return; }
    ok, pos := Append(buf, pos, ClassPiece("TC_cur_que_len=", s.curQueLen), ps, k + 3);
    if !ok { return; }
    ok, pos := Append(buf, pos, WordPiece("flag=0x", s.flag), ps, k + 4);
    if !ok { return; }
    ok, pos := Append(buf, pos, Plain("reserved0="), ps, k + 5);
  }

  /** One of the two grouped hexadecimal loops. */
  method PrintBytes(r: Reserved, start: nat, end: nat, buf: array<char>, from: nat, ghost ps: seq<Piece>, ghost k: nat)
    returns (ok: bool, pos: nat)
    requires start <= end <= 32 && k <= |ps| && Holds(buf, from, ps, k)
    requires HexPieces(r, start, end) <= ps[k..]
    modifies buf
    ensures ok ==> Holds(buf, pos, ps, k + |HexPieces(r, start, end)|)
    ensures !ok ==> FitCount(ps, buf.Length) < |ps|
  {
    hide BytePiece, Plain, Full, FitCount, Kept, Holds;
    ok, pos := true, from;
    ghost var j: nat := k;
    var i := start;
    while i < end
      invariant start <= i <= end
      invariant j <= |ps| && Holds(buf, pos, ps, j)
      invariant HexPieces(r, i, end) <= ps[j..]
      invariant j + |HexPieces(r, i, end)| == k + |HexPieces(r, start, end)|
    {
      assert ps[j] == ps[j..][0] == BytePiece(r[i]);
      ok, pos := Append(buf, pos, BytePiece(r[i]), ps, j);
      if !ok { return; }
      if (i + 1) % 4 == 0 {
        assert ps[j + 1] == ps[j..][1] == Plain(" ");
        ok, pos := Append(buf, pos, Plain(" "), ps, j + 1);
        if !ok { return; }
        assert ps[j..][2..] == ps[j + 2..];
        j := j + 2;
      } else {
        assert ps[j..][1..] == ps[j + 1..];
        j := j + 1;
      }
      i := i + 1;
    }
    ok := true;
  }

  /** All or nothing: the whole report and its length if it is shorter than the buffer, else 0. */
  method PrintStaStatistics(s: Stats, buf: array<char>) returns (r: nat)
    modifies buf
    ensures r != 0 <==> |Full(Pieces(s))| < buf.Length
    ensures r != 0 ==> r < buf.Length && buf[..r] == Full(Pieces(s)) && buf[r] == '\0'
  {
    hide HeadPieces, RadioPieces, CounterPieces, QueuePieces, HexPieces, Plain, Full, FitCount, Kept, Holds;
    ghost var ps := Pieces(s);
    ghost var n, m := |HexPieces(s.reserved, 0, 16)|, |HexPieces(s.reserved, 16, 32)|;
    TooLong(s, buf.Length);
    HeadParts(s);
    StartEmpty(buf, ps);
    var ok, pos := PrintRadio(s, buf, 0, ps, 0);
    if !ok { return 0; }
    ok, pos := PrintCounters(s, buf, pos, ps, 6);
    if !ok { return 0; }
    ok, pos := PrintQueues(s, buf, pos, ps, 12);
    if !ok { return 0; }
    assert HexPieces(s.reserved, 0, 16) <= ps[18..];
    ok, pos := PrintBytes(s.reserved, 0, 16, buf, pos, ps, 18);
    if !ok { return 0; }
    ok, pos := Append(buf, pos, Plain("\n"), ps, 18 + n);
    if !ok { return 0; }
    ok, pos := Append(buf, pos, Plain("reserved1="), ps, 19 + n);
    if !ok { return 0; }
    assert HexPieces(s.reserved, 16, 32) <= ps[20 + n..];
    ok, pos := PrintBytes(s.reserved, 16, 32, buf, pos, ps, 20 + n);
    if !ok { return 0; }
    ok, pos := Append(buf, pos, Plain("\n"), ps, 20 + n + m);
    if !ok { return 0; }
    ok, pos := Append(buf, pos, Plain("====\n"), ps, 21 + n + m);
    if !ok { return 0; }
    HoldsAll(buf, pos, ps);
    NonEmpty(s);
    return pos;
  }

  lemma HeadParts(s: Stats)
    ensures var ps := Pieces(s);
            |ps| > 18 && RadioPieces(s) == ps[0..6] && CounterPieces(s) == ps[6..12] && QueuePieces(s) == ps[12..18]
  {
    hide RadioPieces, CounterPieces, QueuePieces, HexPieces, Plain;
  }

  lemma TooLong(s: Stats, room: nat)
    ensures FitCount(Pieces(s), room) < |Pieces(s)| ==> |Full(Pieces(s))| >= room
  {
    hide Pieces, Full, FitCount;
    FitCountIsLongest(Pieces(s), room, |Pieces(s)|);
    assert Pieces(s)[..|Pieces(s)|] == Pieces(s);
  }

  lemma NonEmpty(s: Stats)
    ensures |Full(Pieces(s))| > 0
  {
    hide Full, HexPieces, CounterPieces, QueuePieces;
    var ps := Pieces(s);
    FullCons(ps);
    assert ps[0] == MacPiece(s.addr) && ps[0].fmt[0] == Lit("sta_addr=");
  }
}
