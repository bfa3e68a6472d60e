/** Reports built by a run of `snprintf` calls into one bounded buffer. */
module Report {
  import opened Options
  import opened Printf

  /** One `snprintf` call: its format and its arguments. */
  datatype Piece = Piece(fmt: seq<Conv>, args: seq<int>)

  ghost predicate WellFormed(p: Piece) { Args(p.fmt, p.args) && Delimited(p.fmt) }

  function Text(p: Piece): string {
    if |p.fmt| == |p.args| then Print(p.fmt, p.args) else ""
  }

  function Flat(ts: seq<string>): string {
    if ts == [] then "" else ts[0] + Flat(ts[1..])
  }

  lemma {:induction false} FlatSnoc(ts: seq<string>, t: string)
    ensures Flat(ts + [t]) == Flat(ts) + t
  {
    if ts == [] {
      assert ([] + [t])[1..] == [];
    } else {
      FlatSnoc(ts[1..], t);
      assert (ts + [t])[1..] == ts[1..] + [t];
    }
  }

  function Texts(ps: seq<Piece>): seq<string> { seq(|ps|, i requires 0 <= i < |ps| => Text(ps[i])) }

  /** The whole report. */
  function Full(ps: seq<Piece>): string { Flat(Texts(ps)) }

  lemma FullCons(ps: seq<Piece>)
    requires ps != []
    ensures Full(ps) == Text(ps[0]) + Full(ps[1..])
  {
    assert Texts(ps)[1..] == Texts(ps[1..]);
  }

  lemma FullPrepend(p: Piece, ps: seq<Piece>)
    ensures Full([p] + ps) == Text(p) + Full(ps)
  {
    hide Text, Full;
    FullCons([p] + ps);
    assert ([p] + ps)[1..] == ps;
  }

  lemma FullOne(p: Piece)
    ensures Full([p]) == Text(p)
  {
    FullCons([p]);
    assert Texts([p][1..]) == [];
  }

  lemma {:induction false} FullConcat(ps: seq<Piece>, qs: seq<Piece>)
    ensures Full(ps + qs) == Full(ps) + Full(qs)
  {
    if ps == [] {
      assert ps + qs == qs && Full(ps) == "";
    } else {
      hide Text, Full;
      var p, rest := ps[0], ps[1..];
      FullConcat(rest, qs);
      assert ps == [p] + rest && ps + qs == [p] + (rest + qs);
      FullPrepend(p, rest);
      FullPrepend(p, rest + qs);
      Assoc(Text(p), Full(rest), Full(qs));
    }
  }

  lemma FullSnoc(ps: seq<Piece>, k: nat)
    requires k < |ps|
    ensures Full(ps[..k + 1]) == Full(ps[..k]) + Text(ps[k])
  {
    FlatSnoc(Texts(ps[..k]), Text(ps[k]));
    assert Texts(ps[..k + 1]) == Texts(ps[..k]) + [Text(ps[k])];
  }

  function Sum(ns: seq<nat>): nat { if ns == [] then 0 else ns[0] + Sum(ns[1..]) }

  /** Bounds on the pieces add up to a bound on the report. */
  lemma {:induction false} FullLength(ps: seq<Piece>, caps: seq<nat>)
    requires |ps| == |caps| && forall i :: 0 <= i < |ps| ==> |Text(ps[i])| <= caps[i]
    ensures |Full(ps)| <= Sum(caps)
    ensures (forall i :: 0 <= i < |ps| ==> |Text(ps[i])| == caps[i]) ==> |Full(ps)| == Sum(caps)
  {
    if ps == [] {
      assert Texts(ps) == [];
    } else {
      hide Text, Full;
      FullCons(ps);
      assert forall i :: 0 <= i < |ps[1..]| ==> ps[1..][i] == ps[i + 1] && caps[1..][i] == caps[i + 1];
      FullLength(ps[1..], caps[1..]);
    }
  }

  // ----- Reading a report back

  /** Scans one format after another, to the end of the text. */
  function ReadBack(fmts: seq<seq<Conv>>, s: string): Option<seq<seq<int>>> {
    if fmts == [] then (if s == "" then Some([]) else None)
    else
      match Scan(fmts[0], s)
      case None => None
      case Some((vs, rest)) =>
        match ReadBack(fmts[1..], rest)
        case None => None
        case Some(more) => Some([vs] + more)
  }

  function Formats(ps: seq<Piece>): seq<seq<Conv>> { seq(|ps|, i requires 0 <= i < |ps| => ps[i].fmt) }

  function Arguments(ps: seq<Piece>): seq<seq<int>> { seq(|ps|, i requires 0 <= i < |ps| => ps[i].args) }

  lemma PieceComesBack(p: Piece, rest: string)
    requires WellFormed(p)
    ensures Scan(p.fmt, Text(p) + rest) == Some((p.args, rest))
  {
    ScanUndoesPrint(p.fmt, p.args, rest);
  }

  /** Reading a full report back yields every argument of every call. */
  lemma {:induction false} ReadBackUndoesFull(ps: seq<Piece>)
    requires forall i :: 0 <= i < |ps| ==> WellFormed(ps[i])
    ensures ReadBack(Formats(ps), Full(ps)) == Some(Arguments(ps))
  {
    if ps == [] {
      assert Full(ps) == "" && Formats(ps) == [] && Arguments(ps) == [];
    } else {
      var p, rest := ps[0], ps[1..];
      ReadBackUndoesFull(rest);
      ColumnsCons(ps);
      PieceComesBack(p, Full(rest));
      FullCons(ps);
      hide WellFormed, Text, Full, Scan, Formats, Arguments;
      assert ([p.fmt] + Formats(rest))[1..] == Formats(rest);
      assert ReadBack([p.fmt] + Formats(rest), Text(p) + Full(rest)) == Some([p.args] + Arguments(rest));
    }
  }

  lemma ColumnsCons(ps: seq<Piece>)
    requires ps != []
    ensures Formats(ps) == [ps[0].fmt] + Formats(ps[1..])
    ensures Arguments(ps) == [ps[0].args] + Arguments(ps[1..])
  {
  }

  /** Two reports of the same formats have the same text only if they have the same arguments. */
  lemma FullInjective(ps: seq<Piece>, qs: seq<Piece>)
    requires forall i :: 0 <= i < |ps| ==> WellFormed(ps[i])
    requires forall i :: 0 <= i < |qs| ==> WellFormed(qs[i])
    requires Formats(ps) == Formats(qs) && Full(ps) == Full(qs)
    ensures ps == qs
  {
    ReadBackUndoesFull(ps);
    ReadBackUndoesFull(qs);
    assert Arguments(ps) == Arguments(qs);
    assert |ps| == |Formats(ps)| == |qs|;
    forall i | 0 <= i < |ps|
      ensures ps[i] == qs[i]
    {
      assert Formats(ps)[i] == Formats(qs)[i] && Arguments(ps)[i] == Arguments(qs)[i];
    }
  }

  // ----- What fits

  /** How many leading pieces fit with room for a terminator. */
  function FitCount(ps: seq<Piece>, room: int): (k: nat)
    ensures k <= |ps|
  {
    if ps == [] || |Text(ps[0])| >= room then 0 else 1 + FitCount(ps[1..], room - |Text(ps[0])|)
  }

  /** `FitCount` is the length of the longest prefix that is shorter than the buffer. */
  lemma {:induction false} FitCountIsLongest(ps: seq<Piece>, room: int, k: nat)
    requires k <= |ps|
    ensures 0 < k <= FitCount(ps, room) ==> |Full(ps[..k])| < room
    ensures k > FitCount(ps, room) ==> |Full(ps[..k])| >= room
  {
    if k > 0 {
      FullCons(ps[..k]);
      assert ps[..k][1..] == ps[1..][..k - 1];
      FitCountIsLongest(ps[1..], room - |Text(ps[0])|, k - 1);
    }
  }

  lemma FitCountIs(ps: seq<Piece>, room: int, k: nat)
    requires k <= |ps| && (k == 0 || |Full(ps[..k])| < room)
    requires k == |ps| || |Full(ps[..k + 1])| >= room
    ensures FitCount(ps, room) == k
  {
    FitCountIsLongest(ps, room, k);
    var f := FitCount(ps, room);
    if f > k {
      FitCountIsLongest(ps, room, k + 1);
    }
  }

  // ----- The buffer

  /** `snprintf` at `pos`: copies what fits before the end, terminates it, answers the full length. */
  method Snprintf(buf: array<char>, pos: nat, text: string) returns (ret: nat)
    requires pos <= buf.Length
    modifies buf
    ensures ret == |text|
    ensures forall i :: 0 <= i < pos ==> buf[i] == old(buf[i])
    ensures var n := if |text| < buf.Length - pos then |text| else buf.Length - pos - 1;
            pos < buf.Length ==>
              && buf[pos..pos + n] == text[..n]
              && buf[pos + n] == '\0'
              && forall i :: pos + n < i < buf.Length ==> buf[i] == old(buf[i])
  {
    ret := |text|;
    if pos < buf.Length {
      var n := if |text| < buf.Length - pos then |text| else buf.Length - pos - 1;
      for j := 0 to n
        invariant forall i :: 0 <= i < pos ==> buf[i] == old(buf[i])
        invariant buf[pos..pos + j] == text[..j]
        invariant forall i :: pos + j <= i < buf.Length ==> buf[i] == old(buf[i])
      {
        buf[pos + j] := text[j];
      }
      buf[pos + n] := '\0';
    }
  }

  /** The first `pos` characters of the buffer are the first `k` pieces. */
  ghost predicate Kept(buf: array<char>, pos: nat, ps: seq<Piece>, k: nat)
    reads buf
  {
    k <= |ps| && pos <= buf.Length && buf[..pos] == Full(ps[..k])
  }

  /** The same, with a terminator behind them. */
  ghost predicate Holds(buf: array<char>, pos: nat, ps: seq<Piece>, k: nat)
    reads buf
  {
    Kept(buf, pos, ps, k) && (0 < k ==> pos < buf.Length && buf[pos] == '\0')
  }

  lemma StartEmpty(buf: array<char>, ps: seq<Piece>)
    ensures Holds(buf, 0, ps, 0)
  {
    assert Texts(ps[..0]) == [];
  }

  lemma HoldsAll(buf: array<char>, pos: nat, ps: seq<Piece>)
    requires ps != [] && Holds(buf, pos, ps, |ps|)
    ensures pos == |Full(ps)| < buf.Length && buf[..pos] == Full(ps) && buf[pos] == '\0'
    ensures FitCount(ps, buf.Length) == |ps|
  {
    hide Full, FitCount;
    assert ps[..|ps|] == ps;
    FitCountIs(ps, buf.Length, |ps|);
  }

  /** One `snprintf` and its check: move on, or find out that the next piece does not fit. */
  method Append(buf: array<char>, pos: nat, p: Piece, ghost ps: seq<Piece>, ghost k: nat)
    returns (ok: bool, next: nat)
    requires Holds(buf, pos, ps, k) && k < |ps| && ps[k] == p
    modifies buf
    ensures ok ==> Holds(buf, next, ps, k + 1)
    ensures !ok ==> next == pos && FitCount(ps, buf.Length) == k && Kept(buf, pos, ps, k)
  {
    hide Text, Full, FitCount;
    var text := Text(p);
    ghost var done := Full(ps[..k]);
    FullSnoc(ps, k);
    var ret := Snprintf(buf, pos, text);
    assert buf[..pos] == done;
    if ret >= buf.Length - pos {
      FitCountIs(ps, buf.Length, k);
      return false, pos;
    }
    assert buf[..pos + ret] == done + text;
    return true, pos + ret;
  }
}
