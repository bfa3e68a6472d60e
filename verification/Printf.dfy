/** The conversions that the Wi-Fi reports hand to `snprintf`, and a scanner that undoes them. */
module Printf {
  import opened Options

  /** A literal or a conversion: `%d`, `%llu`, `%0wX` / `%0wx`, and `%.1f` of a number of halves. */
  datatype Conv =
    | Lit(text: string)
    | Signed
    | Unsigned
    | Hex(width: nat, upper: bool)
    | Halves

  // ----- Digits

  predicate IsDigit(c: char) { '0' <= c <= '9' }

  function DigitChar(d: nat): (c: char)
    requires d < 10
    ensures IsDigit(c)
  {
    '0' + d as char
  }

  function DigitValue(c: char): nat
    requires IsDigit(c)
  {
    (c - '0') as int
  }

  function Decimal(n: nat): (s: string)
    ensures |s| > 0 && forall i :: 0 <= i < |s| ==> IsDigit(s[i])
  {
    if n < 10 then [DigitChar(n)] else Decimal(n / 10) + [DigitChar(n % 10)]
  }

  function DecimalValue(s: string): nat
    requires forall i :: 0 <= i < |s| ==> IsDigit(s[i])
  {
    if s == [] then 0 else 10 * DecimalValue(s[..|s| - 1]) + DigitValue(s[|s| - 1])
  }

  lemma {:induction false} DecimalRoundTrip(n: nat)
    ensures DecimalValue(Decimal(n)) == n
  {
    var s := Decimal(n);
    if n < 10 {
      assert s[..0] == [];
    } else {
      DecimalRoundTrip(n / 10);
      assert s[..|s| - 1] == Decimal(n / 10);
    }
  }

  function Pow10(k: nat): (r: nat)
    ensures r >= 1
  {
    if k == 0 then 1 else 10 * Pow10(k - 1)
  }

  /** A number below 10^k prints in at most k digits, and one of at least 10^(k-1) in at least k. */
  lemma {:induction false} DecimalLength(n: nat, k: nat)
    requires k > 0
    ensures n < Pow10(k) ==> |Decimal(n)| <= k
    ensures n >= Pow10(k - 1) ==> |Decimal(n)| >= k
  {
    if k == 1 {
      assert Pow10(1) == 10 && Pow10(0) == 1;
    } else {
      assert Pow10(k) == 10 * Pow10(k - 1) && Pow10(k - 1) == 10 * Pow10(k - 2);
      if n >= 10 {
        DecimalLength(n / 10, k - 1);
      } else {
        assert Pow10(k - 2) >= 1;
      }
    }
  }

  function HexChar(d: nat, upper: bool): char
    requires d < 16
  {
    if d < 10 then '0' + d as char
    else if upper then 'A' + (d - 10) as char
    else 'a' + (d - 10) as char
  }

  function HexCharValue(c: char): Option<nat> {
    if '0' <= c <= '9' then Some((c - '0') as int)
    else if 'A' <= c <= 'F' then Some((c - 'A') as int + 10)
    else if 'a' <= c <= 'f' then Some((c - 'a') as int + 10)
    else None
  }

  function Pow16(k: nat): nat { if k == 0 then 1 else 16 * Pow16(k - 1) }

  /** Zero-padded hexadecimal of a number that fits the width. */
  function HexText(n: nat, width: nat, upper: bool): (s: string)
    ensures |s| == width
  {
    if width == 0 then [] else HexText(n / 16, width - 1, upper) + [HexChar(n % 16, upper)]
  }

  function HexScan(s: string): Option<nat> {
    if s == [] then Some(0)
    else
      var hi, lo := HexScan(s[..|s| - 1]), HexCharValue(s[|s| - 1]);
      if hi.None? || lo.None? then None else Some(16 * hi.value + lo.value)
  }

  lemma {:induction false} HexRoundTrip(n: nat, width: nat, upper: bool)
    requires n < Pow16(width)
    ensures HexScan(HexText(n, width, upper)) == Some(n)
  {
    if width > 0 {
      var s := HexText(n, width, upper);
      HexRoundTrip(n / 16, width - 1, upper);
      assert s[..|s| - 1] == HexText(n / 16, width - 1, upper);
    }
  }

  // ----- Printing

  /** The values a conversion is handed: a `%0wX` argument fits its width. */
  ghost predicate Fits(c: Conv, v: int) {
    match c
    case Lit(_) => true
    case Signed => true
    case Unsigned => 0 <= v
    case Hex(w, _) => 0 <= v < Pow16(w)
    case Halves => 0 <= v
  }

  function Nat(v: int): nat { if v < 0 then 0 else v }

  function ConvText(c: Conv, v: int): string {
    match c
    case Lit(t) => t
    case Signed => if v < 0 then "-" + Decimal(-v) else Decimal(v)
    case Unsigned => Decimal(Nat(v))
    case Hex(w, u) => HexText(Nat(v), w, u)
    case Halves => Decimal(Nat(v) / 2) + (if Nat(v) % 2 == 0 then ".0" else ".5")
  }

  /** `vs` has one entry per item of the format; the entry of a literal is unused and 0. */
  ghost predicate Args(fmt: seq<Conv>, vs: seq<int>) {
    && |fmt| == |vs|
    && forall i :: 0 <= i < |fmt| ==> Fits(fmt[i], vs[i]) && (fmt[i].Lit? ==> vs[i] == 0)
  }

  function Print(fmt: seq<Conv>, vs: seq<int>): string
    requires |fmt| == |vs|
  {
    if fmt == [] then "" else ConvText(fmt[0], vs[0]) + Print(fmt[1..], vs[1..])
  }

  lemma Assoc<T>(a: seq<T>, b: seq<T>, c: seq<T>)
    ensures a + b + c == a + (b + c)
  {
  }

  lemma PrintUnfold(fmt: seq<Conv>, vs: seq<int>)
    requires |fmt| == |vs| > 0
    ensures Print(fmt, vs) == ConvText(fmt[0], vs[0]) + Print(fmt[1..], vs[1..])
  {
  }

  lemma TailOfConcat<T>(f: seq<T>, g: seq<T>)
    requires f != []
    ensures (f + g)[1..] == f[1..] + g && (f + g)[0] == f[0]
  {
  }

  lemma PrintStep(f: seq<Conv>, vs: seq<int>, g: seq<Conv>, ws: seq<int>)
    requires |f| == |vs| > 0 && |g| == |ws|
    ensures Print(f + g, vs + ws) == ConvText(f[0], vs[0]) + Print(f[1..] + g, vs[1..] + ws)
  {
    hide ConvText, Print;
    PrintUnfold(f + g, vs + ws);
    TailOfConcat(f, g);
    TailOfConcat(vs, ws);
  }

  lemma {:induction false} PrintConcat(f: seq<Conv>, vs: seq<int>, g: seq<Conv>, ws: seq<int>)
    requires |f| == |vs| && |g| == |ws|
    ensures Print(f + g, vs + ws) == Print(f, vs) + Print(g, ws)
  {
    if f == [] {
      assert f + g == g && vs + ws == ws;
    } else {
      PrintConcat(f[1..], vs[1..], g, ws);
      PrintStep(f, vs, g, ws);
      assert Print(f, vs) == ConvText(f[0], vs[0]) + Print(f[1..], vs[1..]);
      hide ConvText, Print;
      Assoc(ConvText(f[0], vs[0]), Print(f[1..], vs[1..]), Print(g, ws));
    }
  }

  // ----- The digits themselves

  lemma AtLeast(m: int, d: int)
    requires m > 0
    ensures d >= 1 ==> m * d >= m
    ensures d <= -1 ==> m * d <= -m
  {
  }

  lemma DivIs(n: nat, m: nat, t: nat, r: nat)
    requires m > 0 && n == m * t + r && r < m
    ensures n / m == t
  {
    Quotient(n, m);
    assert m * (n / m - t) == m * (n / m) - m * t;
    AtLeast(m, n / m - t);
  }

  lemma DivDiv(n: nat, a: nat, b: nat)
    requires b > 0 && (a == 10 || a == 16)
    ensures n / a / b == n / (a * b)
  {
    var q := n / a;
    var t, u := q / b, q % b;
    Quotient(q, b);
    if a == 10 {
      assert (10 * b) * t == 10 * (b * t);
      DivIs(n, 10 * b, t, 10 * u + n % 10);
    } else {
      assert (16 * b) * t == 16 * (b * t);
      DivIs(n, 16 * b, t, 16 * u + n % 16);
    }
  }

  lemma Quotient(q: nat, b: nat)
    requires b > 0
    ensures q == b * (q / b) + q % b && q % b < b
  {
  }

  /** The digit k places from the right is the one that positional notation asks for. */
  lemma {:induction false} DecimalPlace(n: nat, k: nat)
    requires k < |Decimal(n)|
    ensures Decimal(n)[|Decimal(n)| - 1 - k] == "0123456789"[n / Pow10(k) % 10]
  {
    if k > 0 {
      DecimalPlace(n / 10, k - 1);
      DivDiv(n, 10, Pow10(k - 1));
    }
  }

  /** `%0wX` and `%0wx`, place by place. */
  lemma {:induction false} HexPlace(n: nat, width: nat, upper: bool, k: nat)
    requires k < width
    ensures Pow16(k) > 0
    ensures HexText(n, width, upper)[width - 1 - k] ==
            (if upper then "0123456789ABCDEF" else "0123456789abcdef")[n / Pow16(k) % 16]
  {
    if k > 0 {
      HexPlace(n / 16, width - 1, upper, k - 1);
      DivDiv(n, 16, Pow16(k - 1));
    }
  }

  /** `%d` has a minus sign in front exactly of a negative number, `%.1f` a single digit behind the point. */
  lemma SignAndPoint(v: int, halves: nat)
    ensures (ConvText(Signed, v)[0] == '-') == (v < 0)
    ensures v < 0 ==> ConvText(Signed, v)[1..] == Decimal(-v)
    ensures v >= 0 ==> ConvText(Signed, v) == Decimal(v)
    ensures var s := ConvText(Halves, halves);
            && |s| >= 2 && s[..|s| - 2] == Decimal(halves / 2)
            && s[|s| - 2..] == (if halves % 2 == 1 then ".5" else ".0")
  {
    var s := ConvText(Halves, halves);
    assert s[..|s| - 2] == Decimal(halves / 2);
  }

  // ----- Scanning

  /** Length of the digits at the front of a text. */
  function DigitRun(s: string): (k: nat)
    ensures k <= |s| && forall i :: 0 <= i < k ==> IsDigit(s[i])
  {
    if s == [] || !IsDigit(s[0]) then 0 else 1 + DigitRun(s[1..])
  }

  lemma {:induction false} DigitRunStops(d: string, rest: string)
    requires forall i :: 0 <= i < |d| ==> IsDigit(d[i])
    requires rest == [] || !IsDigit(rest[0])
    ensures DigitRun(d + rest) == |d| && (d + rest)[..|d|] == d && (d + rest)[|d|..] == rest
  {
    if d == [] {
      assert d + rest == rest;
    } else {
      DigitRunStops(d[1..], rest);
      assert (d + rest)[1..] == d[1..] + rest;
    }
  }

  function ScanNat(s: string): Option<(int, string)> {
    var k := DigitRun(s);
    if k == 0 then None else Some((DecimalValue(s[..k]), s[k..]))
  }

  function ScanConv(c: Conv, s: string): Option<(int, string)> {
    match c
    case Lit(t) => if t <= s then Some((0, s[|t|..])) else None
    case Signed =>
      if s != [] && s[0] == '-' then
        (match ScanNat(s[1..])
         case None => None
         case Some((v, rest)) => Some((-v, rest)))
      else ScanNat(s)
    case Unsigned => ScanNat(s)
    case Hex(w, _) =>
      if |s| < w then None
      else
        (match HexScan(s[..w])
         case None => None
         case Some(v) => Some((v, s[w..])))
    case Halves =>
      (match ScanNat(s)
       case None => None
       case Some((v, rest)) =>
         if ".0" <= rest then Some((2 * v, rest[2..]))
         else if ".5" <= rest then Some((2 * v + 1, rest[2..]))
         else None)
  }

  function Scan(fmt: seq<Conv>, s: string): Option<(seq<int>, string)> {
    if fmt == [] then Some(([], s))
    else
      match ScanConv(fmt[0], s)
      case None => None
      case Some((v, rest)) =>
        match Scan(fmt[1..], rest)
        case None => None
        case Some((vs, end)) => Some(([v] + vs, end))
  }

  predicate DigitFree(s: string) { s == [] || !IsDigit(s[0]) }

  /** Every `%d` and `%llu` is followed by a literal that starts with a non-digit. */
  predicate Delimited(fmt: seq<Conv>) {
    forall i :: 0 <= i < |fmt| && (fmt[i].Signed? || fmt[i].Unsigned?) ==>
                  i + 1 < |fmt| && fmt[i + 1].Lit? && fmt[i + 1].text != [] && DigitFree(fmt[i + 1].text)
  }

  lemma ScanNatStops(n: nat, rest: string)
    requires DigitFree(rest)
    ensures ScanNat(Decimal(n) + rest) == Some((n, rest))
  {
    DigitRunStops(Decimal(n), rest);
    DecimalRoundTrip(n);
  }

  lemma ScanSignedUndoes(v: int, rest: string)
    requires DigitFree(rest)
    ensures ScanConv(Signed, ConvText(Signed, v) + rest) == Some((v, rest))
  {
    var s := ConvText(Signed, v) + rest;
    if v < 0 {
      assert s[1..] == Decimal(-v) + rest;
      ScanNatStops(-v, rest);
    } else {
      ScanNatStops(v, rest);
      assert s[0] == Decimal(v)[0];
    }
  }

  lemma ScanHalvesUndoes(v: nat, rest: string)
    ensures ScanConv(Halves, ConvText(Halves, v) + rest) == Some((v, rest))
  {
    var half := if v % 2 == 0 then ".0" else ".5";
    assert ConvText(Halves, v) + rest == Decimal(v / 2) + (half + rest);
    ScanNatStops(v / 2, half + rest);
    assert (half + rest)[2..] == rest && (half + rest)[1] == half[1];
  }

  lemma ScanConvUndoes(c: Conv, v: int, rest: string)
    requires Fits(c, v) && (c.Lit? ==> v == 0)
    requires c.Signed? || c.Unsigned? ==> DigitFree(rest)
    ensures ScanConv(c, ConvText(c, v) + rest) == Some((v, rest))
  {
    match c {
      case Lit(t) => assert (t + rest)[|t|..] == rest;
      case Signed => ScanSignedUndoes(v, rest);
      case Unsigned => ScanNatStops(v, rest);
      case Hex(w, u) =>
        HexRoundTrip(v, w, u);
        var s := HexText(v, w, u) + rest;
        assert s[..w] == HexText(v, w, u) && s[w..] == rest;
      case Halves => ScanHalvesUndoes(v, rest);
    }
  }

  lemma ArgsTail(fmt: seq<Conv>, vs: seq<int>)
    requires fmt != [] && Args(fmt, vs) && Delimited(fmt)
    ensures Args(fmt[1..], vs[1..]) && Delimited(fmt[1..])
  {
    hide Fits;
    forall i | 0 <= i < |fmt[1..]|
      ensures Fits(fmt[1..][i], vs[1..][i]) && (fmt[1..][i].Lit? ==> vs[1..][i] == 0)
    {
      assert fmt[1..][i] == fmt[i + 1] && vs[1..][i] == vs[i + 1];
    }
    forall i | 0 <= i < |fmt[1..]| && (fmt[1..][i].Signed? || fmt[1..][i].Unsigned?)
      ensures i + 1 < |fmt[1..]| && fmt[1..][i + 1].Lit? && fmt[1..][i + 1].text != [] && DigitFree(fmt[1..][i + 1].text)
    {
      assert fmt[1..][i] == fmt[i + 1];
      assert fmt[1..][i + 1] == fmt[i + 2];
    }
  }

  /** A number is followed by a non-digit. */
  lemma NumberStops(fmt: seq<Conv>, vs: seq<int>, rest: string)
    requires fmt != [] && |fmt| == |vs| && Delimited(fmt) && (fmt[0].Signed? || fmt[0].Unsigned?)
    ensures DigitFree(Print(fmt[1..], vs[1..]) + rest)
  {
    var t := fmt[1].text;
    assert fmt[1..][0] == fmt[1] && Print(fmt[1..], vs[1..]) == t + Print(fmt[1..][1..], vs[1..][1..]);
    assert (Print(fmt[1..], vs[1..]) + rest)[0] == t[0];
  }

  /** Scanning undoes printing, and leaves whatever followed the printed text. */
  lemma {:induction false} ScanUndoesPrint(fmt: seq<Conv>, vs: seq<int>, rest: string)
    requires Args(fmt, vs) && Delimited(fmt)
    ensures Scan(fmt, Print(fmt, vs) + rest) == Some((vs, rest))
  {
    if fmt == [] {
      assert Print(fmt, vs) + rest == rest;
    } else {
      hide Delimited, ConvText, ScanConv, DigitFree;
      var more := Print(fmt[1..], vs[1..]) + rest;
      assert Print(fmt, vs) + rest == ConvText(fmt[0], vs[0]) + more;
      ArgsTail(fmt, vs);
      ScanUndoesPrint(fmt[1..], vs[1..], rest);
      if fmt[0].Signed? || fmt[0].Unsigned? {
        NumberStops(fmt, vs, rest);
      }
      ScanConvUndoes(fmt[0], vs[0], more);
      assert [vs[0]] + vs[1..] == vs;
    }
  }
}
