/** The first-match command dispatcher of `wpa_driver_nl80211_driver_cmd`. */
module Dispatcher {
  import opened Options

  function Lower(c: char): char { if 'A' <= c <= 'Z' then (c as int + 32) as char else c }

  /** One test of the chain: `strncmp`/`strncasecmp` over the whole pattern, or `strcasecmp`. */
  datatype Pattern = Pattern(text: string, anyCase: bool, whole: bool)

  predicate Same(anyCase: bool, a: char, b: char) { if anyCase then Lower(a) == Lower(b) else a == b }

  predicate Matches(p: Pattern, cmd: string) {
    && (if p.whole then |cmd| == |p.text| else |cmd| >= |p.text|)
    && forall i :: 0 <= i < |p.text| ==> Same(p.anyCase, cmd[i], p.text[i])
  }

  const COUNT := 29
  const SLEEP_WITH := 27
  const SLEEP_BARE := 28

  /** The tests in source order. */
  function Test(i: nat): Pattern
    requires i < COUNT
  {
    match i
    case 0 => Pattern("POWERMODE ", true, false)
    case 1 => Pattern("GET_STA_STATISTICS ", true, false)
    case 2 => Pattern("GET_STA_LINK_DETECT", true, false)
    case 3 => Pattern("MACADDR", false, false)
    case 4 => Pattern("COUNTRY", true, false)
    case 5 => Pattern("start", true, true)
    case 6 => Pattern("stop", true, true)
    case 7 => Pattern("getpower", true, false)
    case 8 => Pattern("get-rts-threshold", true, false)
    case 9 => Pattern("set-rts-threshold", true, false)
    case 10 => Pattern("rxfilter-add", true, false)
    case 11 => Pattern("rxfilter-remove", true, false)
    case 12 => Pattern("rxfilter-stop", true, false)
    case 13 => Pattern("rxfilter-start", true, false)
    case 14 => Pattern("btcoexscan-start", true, true)
    case 15 => Pattern("btcoexscan-stop", true, true)
    case 16 => Pattern("btcoexmode", true, false)
    case 17 => Pattern("smt-rate", true, false)
    case 18 => Pattern("smt-test-on", true, false)
    case 19 => Pattern("smt-test-off", true, false)
    case 20 => Pattern("STA-BLOCK ", false, false)
    case 21 => Pattern("STA-UNBLOCK ", false, false)
    case 22 => Pattern("set-wapi-key", true, false)
    case 23 => Pattern("wapi-msg-send", true, false)
    case 24 => Pattern("mcc", true, false)
    case 25 => Pattern("p2p_set_opps ", false, false)
    case 26 => Pattern("p2p_set_power_save ", false, false)
    case 27 => Pattern("p2p_set_sleep ", false, false)
    case _ => Pattern("p2p_set_sleep", false, false)
  }

  predicate Hits(i: nat, cmd: string)
    requires i < COUNT
  {
    Matches(Test(i), cmd)
  }

  predicate Tests(order: seq<nat>) { forall k :: 0 <= k < |order| ==> order[k] < COUNT }

  /** The chain with its tests in a given order: which branch a command takes. */
  function FirstHit(order: seq<nat>, cmd: string): Option<nat>
    requires Tests(order)
  {
    if order == [] then None
    else if Hits(order[0], cmd) then Some(order[0])
    else FirstHit(order[1..], cmd)
  }

  function SourceOrder(): (o: seq<nat>)
    ensures |o| == COUNT && forall i :: 0 <= i < COUNT ==> o[i] == i
  {
    seq(COUNT, i => i)
  }

  /** The branch the code takes. */
  function Dispatch(cmd: string): Option<nat> { FirstHit(SourceOrder(), cmd) }

  // ----- Telling the tests apart

  function At(cmd: string, i: nat): char { if i < |cmd| then Lower(cmd[i]) else '\0' }

  /** A decision tree over a few character positions that names the only tests a command can hit. */
  function Key(cmd: string): nat {
    match At(cmd, 0)
    case 'p' => if At(cmd, 1) == 'o' then 0
    else if At(cmd, 8) == 'o' then 25 else if At(cmd, 8) == 'p' then 26 else 27
    case 'g' => if At(cmd, 3) == '_' then (if At(cmd, 8) == 's' then 1 else 2)
    else if At(cmd, 3) == 'p' then 7 else 8
    case 'm' => if At(cmd, 1) == 'a' then 3 else 24
    case 'c' => 4
    case 's' => if At(cmd, 1) == 't' then
      (if At(cmd, 2) == 'o' then 6 else if At(cmd, 3) == 'r' then 5 else if At(cmd, 4) == 'b' then 20 else 21)
    else if At(cmd, 1) == 'e' then (if At(cmd, 4) == 'r' then 9 else 22)
    else if At(cmd, 4) == 'r' then 17
    else if At(cmd, 10) == 'n' then 18 else 19
    case 'r' => if At(cmd, 9) == 'a' then 10 else if At(cmd, 9) == 'r' then 11 else if At(cmd, 11) == 'o' then 12 else 13
    case 'b' => if At(cmd, 6) == 'm' then 16 else if At(cmd, 13) == 'a' then 14 else 15
    case _ => 23
  }

  lemma AtOfHit(i: nat, cmd: string, k: nat)
    requires i < COUNT && Hits(i, cmd) && k < |Test(i).text|
    ensures At(cmd, k) == Lower(Test(i).text[k])
  {
  }

  lemma KeyP(i: nat, cmd: string)
    requires i in {0, 25, 26, 27, 28} && Hits(i, cmd)
    ensures Key(cmd) == if i == SLEEP_BARE then SLEEP_WITH else i
  {
    hide Hits, At;
    match i
    case 0 => AtOfHit(0, cmd, 0); AtOfHit(0, cmd, 1);
    case 25 => AtOfHit(25, cmd, 0); AtOfHit(25, cmd, 1); AtOfHit(25, cmd, 8);
    case 26 => AtOfHit(26, cmd, 0); AtOfHit(26, cmd, 1); AtOfHit(26, cmd, 8);
    case 27 => AtOfHit(27, cmd, 0); AtOfHit(27, cmd, 1); AtOfHit(27, cmd, 8);
    case _ => AtOfHit(28, cmd, 0); AtOfHit(28, cmd, 1); AtOfHit(28, cmd, 8);
  }

  lemma KeyG(i: nat, cmd: string)
    requires i in {1, 2, 7, 8} && Hits(i, cmd)
    ensures Key(cmd) == if i == SLEEP_BARE then SLEEP_WITH else i
  {
    hide Hits, At;
    match i
    case 1 => AtOfHit(1, cmd, 0); AtOfHit(1, cmd, 3); AtOfHit(1, cmd, 8);
    case 2 => AtOfHit(2, cmd, 0); AtOfHit(2, cmd, 3); AtOfHit(2, cmd, 8);
    case 7 => AtOfHit(7, cmd, 0); AtOfHit(7, cmd, 3);
    case _ => AtOfHit(8, cmd, 0); AtOfHit(8, cmd, 3);
  }

  lemma KeyM(i: nat, cmd: string)
    requires i in {3, 4, 24, 23} && Hits(i, cmd)
    ensures Key(cmd) == if i == SLEEP_BARE then SLEEP_WITH else i
  {
    hide Hits, At;
    match i
    case 3 => AtOfHit(3, cmd, 0); AtOfHit(3, cmd, 1);
    case 4 => AtOfHit(4, cmd, 0);
    case 24 => AtOfHit(24, cmd, 0); AtOfHit(24, cmd, 1);
    case _ => AtOfHit(23, cmd, 0);
  }

  lemma KeySt(i: nat, cmd: string)
    requires i in {5, 6, 20, 21} && Hits(i, cmd)
    ensures Key(cmd) == if i == SLEEP_BARE then SLEEP_WITH else i
  {
    hide Hits, At;
    match i
    case 5 => AtOfHit(5, cmd, 0); AtOfHit(5, cmd, 1); AtOfHit(5, cmd, 2); AtOfHit(5, cmd, 3);
    case 6 => AtOfHit(6, cmd, 0); AtOfHit(6, cmd, 1); AtOfHit(6, cmd, 2);
    case 20 => AtOfHit(20, cmd, 0); AtOfHit(20, cmd, 1); AtOfHit(20, cmd, 2); AtOfHit(20, cmd, 3); AtOfHit(20, cmd, 4);
    case _ => AtOfHit(21, cmd, 0); AtOfHit(21, cmd, 1); AtOfHit(21, cmd, 2); AtOfHit(21, cmd, 3); AtOfHit(21, cmd, 4);
  }

  lemma KeySe(i: nat, cmd: string)
    requires i in {9, 22, 17, 18, 19} && Hits(i, cmd)
    ensures Key(cmd) == if i == SLEEP_BARE then SLEEP_WITH else i
  {
    hide Hits, At;
    match i
    case 9 => AtOfHit(9, cmd, 0); AtOfHit(9, cmd, 1); AtOfHit(9, cmd, 4);
    case 22 => AtOfHit(22, cmd, 0); AtOfHit(22, cmd, 1); AtOfHit(22, cmd, 4);
    case 17 => AtOfHit(17, cmd, 0); AtOfHit(17, cmd, 1); AtOfHit(17, cmd, 4);
    case 18 => AtOfHit(18, cmd, 0); AtOfHit(18, cmd, 1); AtOfHit(18, cmd, 4); AtOfHit(18, cmd, 10);
    case _ => AtOfHit(19, cmd, 0); AtOfHit(19, cmd, 1); AtOfHit(19, cmd, 4); AtOfHit(19, cmd, 10);
  }

  lemma KeyR(i: nat, cmd: string)
    requires i in {10, 11, 12, 13} && Hits(i, cmd)
    ensures Key(cmd) == if i == SLEEP_BARE then SLEEP_WITH else i
  {
    hide Hits, At;
    match i
    case 10 => AtOfHit(10, cmd, 0); AtOfHit(10, cmd, 9);
    case 11 => AtOfHit(11, cmd, 0); AtOfHit(11, cmd, 9);
    case 12 => AtOfHit(12, cmd, 0); AtOfHit(12, cmd, 9); AtOfHit(12, cmd, 11);
    case _ => AtOfHit(13, cmd, 0); AtOfHit(13, cmd, 9); AtOfHit(13, cmd, 11);
  }

  lemma KeyB(i: nat, cmd: string)
    requires i in {14, 15, 16} && Hits(i, cmd)
    ensures Key(cmd) == if i == SLEEP_BARE then SLEEP_WITH else i
  {
    hide Hits, At;
    match i
    case 14 => AtOfHit(14, cmd, 0); AtOfHit(14, cmd, 6); AtOfHit(14, cmd, 13);
    case 15 => AtOfHit(15, cmd, 0); AtOfHit(15, cmd, 6); AtOfHit(15, cmd, 13);
    case _ => AtOfHit(16, cmd, 0); AtOfHit(16, cmd, 6);
  }

  /** A command that hits a test carries the key of that test. */
  lemma KeyOfHit(i: nat, cmd: string)
    requires i < COUNT && Hits(i, cmd)
    ensures Key(cmd) == if i == SLEEP_BARE then SLEEP_WITH else i
  {
    hide Hits, Key;
    if i in {0, 25, 26, 27, 28} {
      KeyP(i, cmd);
    } else if i in {1, 2, 7, 8} {
      KeyG(i, cmd);
    } else if i in {3, 4, 24, 23} {
      KeyM(i, cmd);
    } else if i in {5, 6, 20, 21} {
      KeySt(i, cmd);
    } else if i in {9, 22, 17, 18, 19} {
      KeySe(i, cmd);
    } else if i in {10, 11, 12, 13} {
      KeyR(i, cmd);
    } else {
      KeyB(i, cmd);
    }
  }

  /** At most one test matches a command, except the two sleep forms. */
  lemma TestsAreDisjoint(i: nat, j: nat, cmd: string)
    requires i < j < COUNT && Hits(i, cmd) && Hits(j, cmd)
    ensures i == SLEEP_WITH && j == SLEEP_BARE
  {
    KeyOfHit(i, cmd);
    KeyOfHit(j, cmd);
  }

  lemma {:induction false} FirstHitIs(order: seq<nat>, cmd: string)
    requires Tests(order)
    ensures var r := FirstHit(order, cmd);
            && (r.None? ==> forall k :: 0 <= k < |order| ==> !Hits(order[k], cmd))
            && (r.Some? ==> exists k :: 0 <= k < |order| && order[k] == r.value && Hits(order[k], cmd)
                                        && forall j :: 0 <= j < k ==> !Hits(order[j], cmd))
  {
    hide Hits;
    if order != [] && !Hits(order[0], cmd) {
      FirstHitIs(order[1..], cmd);
      var r := FirstHit(order, cmd);
      if r.Some? {
        var k :| 0 <= k < |order[1..]| && order[1..][k] == r.value && Hits(order[1..][k], cmd)
                 && forall j :: 0 <= j < k ==> !Hits(order[1..][j], cmd);
        assert order[k + 1] == r.value;
        assert forall j :: 0 <= j < k + 1 ==> !Hits(order[j], cmd) by {
          forall j | 0 < j < k + 1 ensures !Hits(order[j], cmd) { assert order[j] == order[1..][j - 1]; }
        }
      } else {
        forall j | 0 < j < |order| ensures !Hits(order[j], cmd) { assert order[j] == order[1..][j - 1]; }
      }
    }
  }

  /** The one constraint on the order: `p2p_set_sleep ` is tried before `p2p_set_sleep`. */
  ghost predicate SleepInOrder(order: seq<nat>) {
    forall b :: 0 <= b < |order| && order[b] == SLEEP_BARE && SLEEP_WITH in order ==>
                  exists a :: 0 <= a < b && order[a] == SLEEP_WITH
  }

  /** Any two orders of the same enabled tests that keep the sleep forms in order agree on every command. */
  lemma OrderDoesNotMatter(o1: seq<nat>, o2: seq<nat>, cmd: string)
    requires Tests(o1) && Tests(o2) && (forall i :: i in o1 <==> i in o2)
    requires SleepInOrder(o1) && SleepInOrder(o2)
    ensures FirstHit(o1, cmd) == FirstHit(o2, cmd)
  {
    hide Hits;
    FirstHitIs(o1, cmd);
    FirstHitIs(o2, cmd);
    var r1, r2 := FirstHit(o1, cmd), FirstHit(o2, cmd);
    if r1.Some? {
      assert r1.value in o2;
    }
    if r2.Some? {
      assert r2.value in o1;
    }
    if r1.Some? && r2.Some? {
      if r1.value < r2.value {
        TestsAreDisjoint(r1.value, r2.value, cmd);
      } else if r2.value < r1.value {
        TestsAreDisjoint(r2.value, r1.value, cmd);
      }
    }
  }

  /** So the branch taken is simply the test that matches; the bare sleep form yields to the other. */
  lemma DispatchIsTheHit(i: nat, cmd: string)
    requires i < COUNT
    ensures Dispatch(cmd) == Some(i) <==> Hits(i, cmd) && (i == SLEEP_BARE ==> !Hits(SLEEP_WITH, cmd))
  {
    hide Hits;
    FirstHitIs(SourceOrder(), cmd);
    var r := Dispatch(cmd);
    assert SourceOrder()[i] == i && SourceOrder()[SLEEP_WITH] == SLEEP_WITH;
    if r.Some? {
      var k :| 0 <= k < COUNT && SourceOrder()[k] == r.value && Hits(SourceOrder()[k], cmd)
               && forall j :: 0 <= j < k ==> !Hits(SourceOrder()[j], cmd);
      if Hits(i, cmd) && r.value < i {
        TestsAreDisjoint(r.value, i, cmd);
      }
    }
  }

  // ----- The chain itself

  /** C's character loop of `strncmp` and `strncasecmp` up to `n`: do the texts differ? */
  predicate Differ(anyCase: bool, a: string, b: string, n: nat) {
    if n == 0 || (a == [] && b == []) then false
    else if a == [] || b == [] then true
    else !Same(anyCase, a[0], b[0]) || Differ(anyCase, a[1..], b[1..], n - 1)
  }

  predicate StrNEq(a: string, b: string, n: nat) { !Differ(false, a, b, n) }

  predicate StrNCaseEq(a: string, b: string, n: nat) { !Differ(true, a, b, n) }

  /** Without a bound the loop runs to the longer terminator. */
  predicate StrCaseEq(a: string, b: string) { !Differ(true, a, b, |a| + |b|) }

  lemma MatchesStep(p: Pattern, cmd: string)
    requires p.text != [] && cmd != []
    ensures Matches(p, cmd) <==>
            Same(p.anyCase, cmd[0], p.text[0]) && Matches(p.(text := p.text[1..]), cmd[1..])
  {
    hide Same;
    var tail := p.(text := p.text[1..]);
    if Same(p.anyCase, cmd[0], p.text[0]) && Matches(tail, cmd[1..]) {
      forall i | 0 <= i < |p.text|
        ensures Same(p.anyCase, cmd[i], p.text[i])
      {
        if i > 0 {
          assert Same(tail.anyCase, cmd[1..][i - 1], tail.text[i - 1]);
        }
      }
    }
  }

  /** Bounded by the pattern's length, the loop tests for the pattern in front. */
  lemma {:induction false} BoundedLoop(anyCase: bool, cmd: string, text: string)
    ensures !Differ(anyCase, cmd, text, |text|) <==> Matches(Pattern(text, anyCase, false), cmd)
  {
    if text != [] && cmd != [] {
      MatchesStep(Pattern(text, anyCase, false), cmd);
      BoundedLoop(anyCase, cmd[1..], text[1..]);
    }
  }

  /** Unbounded, it tests for the pattern and nothing else. */
  lemma {:induction false} UnboundedLoop(anyCase: bool, cmd: string, text: string, n: nat)
    requires n >= |cmd| + |text|
    ensures !Differ(anyCase, cmd, text, n) <==> Matches(Pattern(text, anyCase, true), cmd)
  {
    if text != [] && cmd != [] {
      MatchesStep(Pattern(text, anyCase, true), cmd);
      UnboundedLoop(anyCase, cmd[1..], text[1..], n - 1);
    }
  }

  lemma ComparesAsHit(i: nat, cmd: string)
    requires i < COUNT
    ensures Hits(i, cmd) == Compares(i, cmd)
  {
    hide Test, Differ, Matches;
    var p := Test(i);
    if p.whole {
      UnboundedLoop(p.anyCase, cmd, p.text, |cmd| + |p.text|);
    } else {
      BoundedLoop(p.anyCase, cmd, p.text);
    }
  }

  /** Does the comparison of test `i` succeed? */
  predicate Compares(i: nat, cmd: string)
    requires i < COUNT
  {
    var p := Test(i);
    !Differ(p.anyCase, cmd, p.text, if p.whole then |cmd| + |p.text| else |p.text|)
  }

  lemma BranchTaken(i: nat, cmd: string)
    requires i < COUNT
    ensures Dispatch(cmd) == Some(i) <==> Compares(i, cmd) && (i == SLEEP_BARE ==> !Compares(SLEEP_WITH, cmd))
  {
    hide Hits, Compares, Dispatch;
    DispatchIsTheHit(i, cmd);
    ComparesAsHit(i, cmd);
    ComparesAsHit(SLEEP_WITH, cmd);
  }

  lemma SomeTest(cmd: string)
    ensures Dispatch(cmd).Some? ==> Dispatch(cmd).value < COUNT
  {
    hide Hits;
    FirstHitIs(SourceOrder(), cmd);
  }

  /** Each branch is taken exactly for the commands its own comparison accepts, whatever stands before it. */
  lemma FirstTests(cmd: string)
    ensures Dispatch(cmd) == Some(0) <==> StrNCaseEq(cmd, "POWERMODE ", 10)
    ensures Dispatch(cmd) == Some(1) <==> StrNCaseEq(cmd, "GET_STA_STATISTICS ", 19)
    ensures Dispatch(cmd) == Some(2) <==> StrNCaseEq(cmd, "GET_STA_LINK_DETECT", 19)
    ensures Dispatch(cmd) == Some(3) <==> StrNEq(cmd, "MACADDR", 7)
    ensures Dispatch(cmd) == Some(4) <==> StrNCaseEq(cmd, "COUNTRY", 7)
    ensures Dispatch(cmd) == Some(5) <==> StrCaseEq(cmd, "start")
    ensures Dispatch(cmd) == Some(6) <==> StrCaseEq(cmd, "stop")
    ensures Dispatch(cmd) == Some(7) <==> StrNCaseEq(cmd, "getpower", 8)
    ensures Dispatch(cmd) == Some(8) <==> StrNCaseEq(cmd, "get-rts-threshold", 17)
    ensures Dispatch(cmd) == Some(9) <==> StrNCaseEq(cmd, "set-rts-threshold", 17)
  {
    hide Dispatch, Differ;
    BranchTaken(0, cmd);
    BranchTaken(1, cmd);
    BranchTaken(2, cmd);
    BranchTaken(3, cmd);
    BranchTaken(4, cmd);
    BranchTaken(5, cmd);
    BranchTaken(6, cmd);
    BranchTaken(7, cmd);
    BranchTaken(8, cmd);
    BranchTaken(9, cmd);
  }

  lemma MiddleTests(cmd: string)
    ensures Dispatch(cmd) == Some(10) <==> StrNCaseEq(cmd, "rxfilter-add", 12)
    ensures Dispatch(cmd) == Some(11) <==> StrNCaseEq(cmd, "rxfilter-remove", 15)
    ensures Dispatch(cmd) == Some(12) <==> StrNCaseEq(cmd, "rxfilter-stop", 13)
    ensures Dispatch(cmd) == Some(13) <==> StrNCaseEq(cmd, "rxfilter-start", 14)
    ensures Dispatch(cmd) == Some(14) <==> StrCaseEq(cmd, "btcoexscan-start")
    ensures Dispatch(cmd) == Some(15) <==> StrCaseEq(cmd, "btcoexscan-stop")
    ensures Dispatch(cmd) == Some(16) <==> StrNCaseEq(cmd, "btcoexmode", 10)
    ensures Dispatch(cmd) == Some(17) <==> StrNCaseEq(cmd, "smt-rate", 8)
    ensures Dispatch(cmd) == Some(18) <==> StrNCaseEq(cmd, "smt-test-on", 11)
    ensures Dispatch(cmd) == Some(19) <==> StrNCaseEq(cmd, "smt-test-off", 12)
  {
    hide Dispatch, Differ;
    BranchTaken(10, cmd);
    BranchTaken(11, cmd);
    BranchTaken(12, cmd);
    BranchTaken(13, cmd);
    BranchTaken(14, cmd);
    BranchTaken(15, cmd);
    BranchTaken(16, cmd);
    BranchTaken(17, cmd);
    BranchTaken(18, cmd);
    BranchTaken(19, cmd);
  }

  lemma LastTests(cmd: string)
    ensures Dispatch(cmd) == Some(20) <==> StrNEq(cmd, "STA-BLOCK ", 10)
    ensures Dispatch(cmd) == Some(21) <==> StrNEq(cmd, "STA-UNBLOCK ", 12)
    ensures Dispatch(cmd) == Some(22) <==> StrNCaseEq(cmd, "set-wapi-key", 12)
    ensures Dispatch(cmd) == Some(23) <==> StrNCaseEq(cmd, "wapi-msg-send", 13)
    ensures Dispatch(cmd) == Some(24) <==> StrNCaseEq(cmd, "mcc", 3)
    ensures Dispatch(cmd) == Some(25) <==> StrNEq(cmd, "p2p_set_opps ", 13)
    ensures Dispatch(cmd) == Some(26) <==> StrNEq(cmd, "p2p_set_power_save ", 19)
    ensures Dispatch(cmd) == Some(27) <==> StrNEq(cmd, "p2p_set_sleep ", 14)
    ensures Dispatch(cmd) == Some(28) <==> StrNEq(cmd, "p2p_set_sleep", 13) && !StrNEq(cmd, "p2p_set_sleep ", 14)
  {
    hide Dispatch, Differ;
    BranchTaken(20, cmd);
    BranchTaken(21, cmd);
    BranchTaken(22, cmd);
    BranchTaken(23, cmd);
    BranchTaken(24, cmd);
    BranchTaken(25, cmd);
    BranchTaken(26, cmd);
    BranchTaken(27, cmd);
    BranchTaken(28, cmd);
  }

  /** The chain as the code runs it. */
  method DriverCmd(cmd: string) returns (branch: Option<nat>)
    ensures branch == Dispatch(cmd)
  {
    hide Dispatch, StrNEq, StrNCaseEq, StrCaseEq;
    FirstTests(cmd);
    MiddleTests(cmd);
    LastTests(cmd);
    if StrNCaseEq(cmd, "POWERMODE ", 10) {
      return Some(0);
    } else if StrNCaseEq(cmd, "GET_STA_STATISTICS ", 19) {
      return Some(1);
    } else if StrNCaseEq(cmd, "GET_STA_LINK_DETECT", 19) {
      return Some(2);
    } else if StrNEq(cmd, "MACADDR", 7) {
      return Some(3);
    } else if StrNCaseEq(cmd, "COUNTRY", 7) {
      return Some(4);
    } else if StrCaseEq(cmd, "start") {
      return Some(5);
    } else if StrCaseEq(cmd, "stop") {
      return Some(6);
    } else if StrNCaseEq(cmd, "getpower", 8) {
      return Some(7);
    } else if StrNCaseEq(cmd, "get-rts-threshold", 17) {
      return Some(8);
    } else if StrNCaseEq(cmd, "set-rts-threshold", 17) {
      return Some(9);
    } else if StrNCaseEq(cmd, "rxfilter-add", 12) {
      return Some(10);
    } else if StrNCaseEq(cmd, "rxfilter-remove", 15) {
      return Some(11);
    } else if StrNCaseEq(cmd, "rxfilter-stop", 13) {
      return Some(12);
    } else if StrNCaseEq(cmd, "rxfilter-start", 14) {
      return Some(13);
    } else if StrCaseEq(cmd, "btcoexscan-start") {
      return Some(14);
    } else if StrCaseEq(cmd, "btcoexscan-stop") {
      return Some(15);
    } else if StrNCaseEq(cmd, "btcoexmode", 10) {
      return Some(16);
    } else if StrNCaseEq(cmd, "smt-rate", 8) {
      return Some(17);
    } else if StrNCaseEq(cmd, "smt-test-on", 11) {
      return Some(18);
    } else if StrNCaseEq(cmd, "smt-test-off", 12) {
      return Some(19);
    } else if StrNEq(cmd, "STA-BLOCK ", 10) {
      return Some(20);
    } else if StrNEq(cmd, "STA-UNBLOCK ", 12) {
      return Some(21);
    } else if StrNCaseEq(cmd, "set-wapi-key", 12) {
      return Some(22);
    } else if StrNCaseEq(cmd, "wapi-msg-send", 13) {
      return Some(23);
    } else if StrNCaseEq(cmd, "mcc", 3) {
      return Some(24);
    } else if StrNEq(cmd, "p2p_set_opps ", 13) {
      return Some(25);
    } else if StrNEq(cmd, "p2p_set_power_save ", 19) {
      return Some(26);
    } else if StrNEq(cmd, "p2p_set_sleep ", 14) {
      return Some(27);
    } else if StrNEq(cmd, "p2p_set_sleep", 13) {
      return Some(28);
    } else {
      SomeTest(cmd);
      return None;
    }
  }

  /** Letter case never changes the branch of a command that took a case-insensitive one. */
  lemma CaseDoesNotMatter(cmd: string, cmd': string)
    requires |cmd| == |cmd'| && forall k :: 0 <= k < |cmd| ==> Lower(cmd[k]) == Lower(cmd'[k])
    requires Dispatch(cmd).Some? && Dispatch(cmd).value < COUNT && Test(Dispatch(cmd).value).anyCase
    ensures Dispatch(cmd') == Dispatch(cmd)
  {
    var i := Dispatch(cmd).value;
    DispatchIsTheHit(i, cmd);
    DispatchIsTheHit(i, cmd');
    assert Hits(i, cmd');
  }
}
