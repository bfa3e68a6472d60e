/** Requests and solicited replies of the RIL: `send`, then `processSolicited` with its three ways of
    completing a request. */
module Solicited {
  import opened Bytes
  import opened JavaText

  /** A request: its code, and whether the caller gave a result message. */
  datatype Request = Request(code: int, hasMessage: bool)

  /** A decoder of the superclass or of this class: a value, or an exception on a bad payload. */
  type Decode<!V(!new)> = (int, seq<Byte>) -> Result<V>

  /** How a request with a message is completed. */
  datatype Outcome<+V> = Value(value: V) | Error(error: int, data: Nullable<V>) | Exception

  const GET_MODEM_VERSION := 220
  const BASEBAND_VERSION := 51

  /** The codes with a case in the switch: the Android requests 1 to 108. */
  predicate Recognised(code: int) { 1 <= code <= 108 }

  /** How a reply completes a request; `e73` is the device whose modem-version request is renumbered. */
  function Complete<V(!new)>(rr: Request, error: int, payload: seq<Byte>, decode: Decode<V>, e73: bool): Outcome<V> {
    if error == 0 || |payload| > 0 then
      var code := if e73 && rr.code == GET_MODEM_VERSION then BASEBAND_VERSION else rr.code;
      match if Recognised(code) then decode(code, payload) else Throws
      case Throws => Exception
      case Ok(v) => if error != 0 then Error(error, Ref(v)) else Value(v)
    else Error(error, Null)
  }

  /** The four vendor requests this class sends itself never complete with a value: a successful reply
      becomes an exception. */
  lemma VendorRepliesNeverSucceed<V(!new)>(rr: Request, error: int, payload: seq<Byte>, decode: Decode<V>, e73: bool)
    requires rr.code in {2012, 2016, 2017, 2036}
    ensures Complete(rr, error, payload, decode, e73) ==
            if error != 0 && payload == [] then Error(error, Null) else Exception
  {
  }

  // ----- The machine

  datatype Delivery<+V> = Delivery(at: nat, serial: int, outcome: Outcome<V>)

  /** Serials handed out so far, requests waiting, replies that found a request, messages delivered. */
  datatype State<+V> = State(clock: nat, next: nat, pending: map<int, Request>, answered: seq<int>,
                             delivered: seq<Delivery<V>>)

  datatype Event = Send(request: Request) | Reply(serial: int, error: int, payload: seq<Byte>)

  function Step<V(!new)>(s: State<V>, e: Event, decode: Decode<V>, e73: bool): State<V> {
    match e
    case Send(rr) => s.(clock := s.clock + 1, next := s.next + 1, pending := s.pending[s.next := rr])
    case Reply(n, error, payload) =>
      if n !in s.pending then s.(clock := s.clock + 1)
      else
        var rr := s.pending[n];
        var done := if rr.hasMessage then [Delivery(s.clock, n, Complete(rr, error, payload, decode, e73))] else [];
        s.(clock := s.clock + 1, pending := s.pending - {n}, answered := s.answered + [n],
        delivered := s.delivered + done)
  }

  function Run<V(!new)>(es: seq<Event>, decode: Decode<V>, e73: bool): State<V> {
    if es == [] then State(0, 0, map[], [], [])
    else Step(Run(es[..|es| - 1], decode, e73), es[|es| - 1], decode, e73)
  }

  /** The same in place. */
  class Ril<V(!new)> {
    const decode: Decode<V>
    const e73: bool
    var clock: nat
    var next: nat
    var pending: map<int, Request>
    var answered: seq<int>
    var delivered: seq<Delivery<V>>

    function Now(): State<V>
      reads this
    {
      State(clock, next, pending, answered, delivered)
    }

    constructor (decode: Decode<V>, e73: bool)
      ensures Now() == Run([], decode, e73) && this.decode == decode && this.e73 == e73
    {
      this.decode, this.e73 := decode, e73;
      clock, next, pending, answered, delivered := 0, 0, map[], [], [];
    }

    method Enqueue(rr: Request) returns (serial: nat)
      modifies this
      ensures Now() == Step(old(Now()), Send(rr), decode, e73) && serial == old(next)
    {
      serial := next;
      next := next + 1;
      pending := pending[serial := rr];
      clock := clock + 1;
    }

    /** Send a message, if the request has one. */
    method Deliver(serial: int, rr: Request, o: Outcome<V>)
      modifies this`delivered
      ensures delivered == old(delivered) + if rr.hasMessage then [Delivery(clock, serial, o)] else []
    {
      if rr.hasMessage {
        delivered := delivered + [Delivery(clock, serial, o)];
      }
    }

    method ProcessSolicited(serial: int, error: int, payload: seq<Byte>) returns (found: bool)
      modifies this
      ensures Now() == Step(old(Now()), Reply(serial, error, payload), decode, e73)
      ensures found == (serial in old(pending))
    {
      ghost var before := Now();
      found := serial in pending;
      if !found {
        clock := clock + 1;
        return;
      }
      var rr := pending[serial];
      pending := pending - {serial};
      answered := answered + [serial];
      var ret: Nullable<V> := Null;
      if error == 0 || |payload| > 0 {
        var code := rr.code;
        if e73 && code == GET_MODEM_VERSION {
          code := BASEBAND_VERSION;
        }
        var decoded := if Recognised(code) then decode(code, payload) else Throws;
        if decoded.Throws? {
          Deliver(serial, rr, Exception);
          clock := clock + 1;
          return;
        }
        ret := Ref(decoded.value);
      }
      if error != 0 {
        Deliver(serial, rr, Error(error, ret));
      } else {
        Deliver(serial, rr, Value(ret.get));
      }
      clock := clock + 1;
    }
  }

  // ----- What a history of events promises

  function Sends(es: seq<Event>): nat {
    if es == [] then 0 else Sends(es[..|es| - 1]) + if es[|es| - 1].Send? then 1 else 0
  }

  /** The request that got serial `n`. */
  function Sent(es: seq<Event>, n: nat): Request
    requires n < Sends(es)
  {
    if n < Sends(es[..|es| - 1]) then Sent(es[..|es| - 1], n) else es[|es| - 1].request
  }

  /** Event `k` is a reply to a serial already handed out. */
  predicate Answers(es: seq<Event>, k: nat, n: int) {
    k < |es| && es[k].Reply? && es[k].serial == n && 0 <= n < Sends(es[..k])
  }

  ghost predicate FirstAnswer(es: seq<Event>, k: nat, n: int) {
    Answers(es, k, n) && forall j :: 0 <= j < k ==> !Answers(es, j, n)
  }

  lemma AnswersPrefix(es: seq<Event>, k: nat, n: int)
    requires es != [] && k < |es| - 1
    ensures Answers(es, k, n) == Answers(es[..|es| - 1], k, n)
    ensures FirstAnswer(es, k, n) == FirstAnswer(es[..|es| - 1], k, n)
  {
    var p := es[..|es| - 1];
    forall j | 0 <= j <= k ensures Answers(es, j, n) == Answers(p, j, n) {
      assert es[..j] == p[..j];
    }
  }

  lemma {:induction false} SendsMonotone(es: seq<Event>, k: nat)
    requires k <= |es|
    ensures Sends(es[..k]) <= Sends(es)
  {
    if k < |es| {
      SendsMonotone(es[..|es| - 1], k);
      assert es[..|es| - 1][..k] == es[..k];
    } else {
      assert es[..k] == es;
    }
  }

  /** A request waits exactly while it has been sent and no reply to it has come. */
  lemma {:induction false} PendingMeaning<V(!new)>(es: seq<Event>, decode: Decode<V>, e73: bool)
    ensures var s := Run(es, decode, e73);
            && s.clock == |es| && s.next == Sends(es)
            && (forall n :: n in s.pending <==> 0 <= n < Sends(es) && forall k :: 0 <= k < |es| ==> !Answers(es, k, n))
            && (forall n :: n in s.pending ==> s.pending[n] == Sent(es, n))
  {
    hide Complete;
    if es != [] {
      var p, e := es[..|es| - 1], es[|es| - 1];
      PendingMeaning(p, decode, e73);
      var s, s' := Run(p, decode, e73), Run(es, decode, e73);
      assert es[..|p|] == p;
      forall n
        ensures n in s'.pending <==> 0 <= n < Sends(es) && forall k :: 0 <= k < |es| ==> !Answers(es, k, n)
      {
        forall k | 0 <= k < |p| ensures Answers(es, k, n) == Answers(p, k, n) { AnswersPrefix(es, k, n); }
        assert Answers(es, |p|, n) <==> e.Reply? && e.serial == n && 0 <= n < Sends(p);
        if n == Sends(p) {
          forall k | 0 <= k < |p| ensures !Answers(p, k, n) { SendsMonotone(p, k); }
        }
      }
    }
  }

  /** Every message is delivered by the first reply to its request, with the outcome that reply
      calls for, and by nothing else. */
  lemma {:induction false} DeliveredByFirstAnswer<V(!new)>(es: seq<Event>, decode: Decode<V>, e73: bool, d: Delivery<V>)
    ensures d in Run(es, decode, e73).delivered <==>
            && FirstAnswer(es, d.at, d.serial)
            && 0 <= d.serial < Sends(es)
            && var rr := Sent(es, d.serial);
            rr.hasMessage && d.outcome == Complete(rr, es[d.at].error, es[d.at].payload, decode, e73)
  {
    hide Complete;
    if es != [] {
      var p, e := es[..|es| - 1], es[|es| - 1];
      DeliveredByFirstAnswer(p, decode, e73, d);
      PendingMeaning(p, decode, e73);
      var s := Run(p, decode, e73);
      if d.at < |p| {
        AnswersPrefix(es, d.at, d.serial);
        if Answers(es, d.at, d.serial) {
          SendsMonotone(p, d.at);
          assert es[..d.at] == p[..d.at];
        }
      } else if d.at == |p| {
        assert es[..|p|] == p;
        forall j | 0 <= j < |p| ensures Answers(es, j, d.serial) == Answers(p, j, d.serial) {
          AnswersPrefix(es, j, d.serial);
        }
      }
    }
  }

  /** The code that a request's reply is decoded by. */
  function ReplyCode(rr: Request, e73: bool): int { if e73 && rr.code == 220 then 51 else rr.code }

  /** The reply decodes: its code is one of 1 to 108 and the decoder accepts the payload. */
  predicate Decodable<V(!new)>(rr: Request, payload: seq<Byte>, decode: Decode<V>, e73: bool) {
    1 <= ReplyCode(rr, e73) <= 108 && decode(ReplyCode(rr, e73), payload).Ok?
  }

  /** Over every run, what a delivered message says about the first reply to its request. A value means
      no error and a payload that decoded to it; an error carries the reply's error, with the decoded
      payload if there was one; an exception means that a reply without error, or with a payload, did
      not decode. */
  lemma DeliveredOutcome<V(!new)>(es: seq<Event>, decode: Decode<V>, e73: bool, d: Delivery<V>)
    requires d in Run(es, decode, e73).delivered
    ensures FirstAnswer(es, d.at, d.serial) && 0 <= d.serial < Sends(es)
    ensures var rr, error, payload := Sent(es, d.serial), es[d.at].error, es[d.at].payload;
            && (d.outcome.Value? <==> error == 0 && Decodable(rr, payload, decode, e73))
            && (d.outcome.Value? ==> decode(ReplyCode(rr, e73), payload) == Ok(d.outcome.value))
            && (d.outcome.Error? <==> error != 0 && (payload == [] || Decodable(rr, payload, decode, e73)))
            && (d.outcome.Error? ==> d.outcome.error == error && (d.outcome.data.Null? <==> payload == []))
            && (d.outcome.Error? && payload != [] ==> decode(ReplyCode(rr, e73), payload) == Ok(d.outcome.data.get))
            && (d.outcome.Exception? <==> (error == 0 || payload != []) && !Decodable(rr, payload, decode, e73))
  {
    hide Run;
    DeliveredByFirstAnswer(es, decode, e73, d);
  }

  /** Nobody is answered twice, and sent = pending + answered at all times. */
  lemma {:induction false} Conservation<V(!new)>(es: seq<Event>, decode: Decode<V>, e73: bool)
    ensures var s := Run(es, decode, e73);
            && Sends(es) == |s.pending| + |s.answered|
            && (forall n :: n in s.answered ==> n !in s.pending && 0 <= n < s.next)
            && (forall i, j :: 0 <= i < j < |s.answered| ==> s.answered[i] != s.answered[j])
            && (forall i :: 0 <= i < |s.delivered| ==> s.delivered[i].serial in s.answered)
            && (forall i, j :: 0 <= i < j < |s.delivered| ==> s.delivered[i].serial != s.delivered[j].serial)
  {
    hide Complete;
    if es != [] {
      var p, e := es[..|es| - 1], es[|es| - 1];
      Conservation(p, decode, e73);
      PendingMeaning(p, decode, e73);
      var s, s' := Run(p, decode, e73), Run(es, decode, e73);
      match e {
        case Send(rr) =>
          assert s'.pending.Keys == s.pending.Keys + {s.next};
        case Reply(n, _, _) =>
          if n in s.pending {
            assert s'.pending.Keys == s.pending.Keys - {n};
          }
      }
    }
  }
}
