/** The `mcc` driver command: a walk over the linked list of interfaces that switches
    multi-channel concurrency on or off everywhere. */
module Mcc {
  import opened Options
  import opened Dispatcher
  import Printf

  /** A flag word, as the set of its one bits: `|=` is union and `&= ~` is difference. */
  type Word = set<nat>

  class P2pConfig {
    var concurrentOperations: int
  }

  class Iface {
    var next: Iface?
    var numMultichanConcurrent: int
    var drvFlags: Word
    const cfg: P2pConfig?   // global->p2p->cfg, null when either step is

    constructor (c: P2pConfig?)
      ensures next == null && cfg == c
    {
      next, cfg := null, c;
    }
  }

  ghost function Nth(list: seq<Iface>, i: nat): Iface? { if i < |list| then list[i] else null }

  /** `list` is the chain of `next` links from `head`. */
  ghost predicate Chain(head: Iface?, list: seq<Iface>)
    reads list
  {
    && head == Nth(list, 0)
    && forall i :: 0 <= i < |list| ==> list[i].next == Nth(list, i + 1)
  }

  /** A null-terminated chain has no repeated node. */
  lemma {:induction false} ChainDistinct(head: Iface?, list: seq<Iface>, i: nat, j: nat)
    requires Chain(head, list) && i < j < |list|
    ensures list[i] != list[j]
    decreases |list| - j
  {
    if list[i] == list[j] {
      assert Nth(list, i + 1) == Nth(list, j + 1);
      if j + 1 < |list| {
        ChainDistinct(head, list, i + 1, j + 1);
      }
    }
  }

  ghost function Configs(list: seq<Iface>): set<P2pConfig> {
    set i | 0 <= i < |list| && list[i].cfg != null :: list[i].cfg
  }

  /** The values a setting gives to an interface whose flag word was `before`. */
  ghost predicate Carries(f: Iface, on: bool, before: Word, flag: Word)
    reads f, f.cfg
  {
    && f.numMultichanConcurrent == (if on then 2 else 0)
    && f.drvFlags == (if on then before + flag else before - flag)
    && (f.cfg != null ==> f.cfg.concurrentOperations == if on then 1 else 0)
  }

  /** One turn of the walk that switches concurrency on. */
  method SwitchOn(f: Iface, flag: Word)
    modifies f`numMultichanConcurrent, f`drvFlags, f.cfg
    ensures Carries(f, true, old(f.drvFlags), flag)
    ensures f.numMultichanConcurrent == 2 && f.drvFlags == old(f.drvFlags) + flag
    ensures f.cfg != null ==> f.cfg.concurrentOperations == 1
  {
    f.numMultichanConcurrent := 2;
    f.drvFlags := f.drvFlags + flag;
    if f.cfg != null {
      f.cfg.concurrentOperations := 1;
    }
  }

  /** One turn of the walk that switches it off. */
  method SwitchOff(f: Iface, flag: Word)
    modifies f`numMultichanConcurrent, f`drvFlags, f.cfg
    ensures Carries(f, false, old(f.drvFlags), flag)
    ensures f.numMultichanConcurrent == 0 && f.drvFlags == old(f.drvFlags) - flag
    ensures f.cfg != null ==> f.cfg.concurrentOperations == 0
  {
    f.numMultichanConcurrent := 0;
    f.drvFlags := f.drvFlags - flag;
    if f.cfg != null {
      f.cfg.concurrentOperations := 0;
    }
  }

  /** The walk of a non-zero `mcc`. */
  method WalkOn(head: Iface?, flag: Word, ghost list: seq<Iface>)
    requires Chain(head, list)
    modifies list, Configs(list)
    ensures forall i :: 0 <= i < |list| ==> Carries(list[i], true, old(list[i].drvFlags), flag)
    ensures forall i :: 0 <= i < |list| ==> list[i].next == old(list[i].next)
  {
    forall i, j | 0 <= i < j < |list| ensures list[i] != list[j] { ChainDistinct(head, list, i, j); }
    var cur := head;
    ghost var k := 0;
    while cur != null
      invariant k <= |list| && cur == Nth(list, k)
      invariant forall i :: 0 <= i < |list| ==> list[i].next == old(list[i].next)
      invariant forall i :: 0 <= i < k ==> Carries(list[i], true, old(list[i].drvFlags), flag)
      invariant forall i :: k <= i < |list| ==> list[i].drvFlags == old(list[i].drvFlags)
      decreases |list| - k
    {
      SwitchOn(cur, flag);
      cur := cur.next;
      k := k + 1;
    }
  }

  /** The walk of a zero `mcc`. */
  method WalkOff(head: Iface?, flag: Word, ghost list: seq<Iface>)
    requires Chain(head, list)
    modifies list, Configs(list)
    ensures forall i :: 0 <= i < |list| ==> Carries(list[i], false, old(list[i].drvFlags), flag)
    ensures forall i :: 0 <= i < |list| ==> list[i].next == old(list[i].next)
  {
    forall i, j | 0 <= i < j < |list| ensures list[i] != list[j] { ChainDistinct(head, list, i, j); }
    var cur := head;
    ghost var k := 0;
    while cur != null
      invariant k <= |list| && cur == Nth(list, k)
      invariant forall i :: 0 <= i < |list| ==> list[i].next == old(list[i].next)
      invariant forall i :: 0 <= i < k ==> Carries(list[i], false, old(list[i].drvFlags), flag)
      invariant forall i :: k <= i < |list| ==> list[i].drvFlags == old(list[i].drvFlags)
      decreases |list| - k
    {
      SwitchOff(cur, flag);
      cur := cur.next;
      k := k + 1;
    }
  }

  // ----- Commands

  predicate IsBlank(c: char) { c == ' ' || 9 <= c as int <= 13 }

  function SkipBlanks(s: string): string { if s != [] && IsBlank(s[0]) then SkipBlanks(s[1..]) else s }

  function LeadingNat(s: string, acc: nat): nat {
    if s != [] && '0' <= s[0] <= '9' then LeadingNat(s[1..], 10 * acc + (s[0] - '0') as int) else acc
  }

  /** `atoi` on values that fit an int. */
  function Atoi(s: string): int {
    var t := SkipBlanks(s);
    if t != [] && t[0] == '-' then 0 - LeadingNat(t[1..], 0)
    else if t != [] && t[0] == '+' then LeadingNat(t[1..], 0)
    else LeadingNat(t, 0)
  }

  /** What follows the first space, if there is one. */
  function AfterSpace(s: string): Option<string> {
    if s == [] then None else if s[0] == ' ' then Some(s[1..]) else AfterSpace(s[1..])
  }

  const MCC_BRANCH := 24

  /** The switch position a command asks for; None when it is not an `mcc` command or has no argument. */
  function Setting(cmd: string): Option<bool> {
    if Dispatch(cmd) != Some(MCC_BRANCH) then None
    else
      match AfterSpace(cmd)
      case None => None
      case Some(arg) => Some(Atoi(arg) != 0)
  }

  // ----- What a command says

  /** The first three letters are `mcc`, in any case. */
  predicate SaysMcc(cmd: string) {
    |cmd| >= 3 && Lower(cmd[0]) == 'm' && Lower(cmd[1]) == 'c' && Lower(cmd[2]) == 'c'
  }

  lemma MccBranch(cmd: string)
    ensures Dispatch(cmd) == Some(MCC_BRANCH) <==> SaysMcc(cmd)
  {
    hide Dispatch;
    DispatchIsTheHit(MCC_BRANCH, cmd);
    assert Test(MCC_BRANCH) == Pattern("mcc", true, false);
  }

  lemma {:induction false} AfterSpaceIs(before: string, rest: string)
    requires ' ' !in before
    ensures AfterSpace(before + " " + rest) == Some(rest)
  {
    var s := before + " " + rest;
    if before == "" {
      assert s[1..] == rest;
    } else {
      assert before[0] in before && s[1..] == before[1..] + " " + rest;
      AfterSpaceIs(before[1..], rest);
    }
  }

  lemma {:induction false} NoSpace(s: string)
    ensures AfterSpace(s).None? <==> ' ' !in s
  {
    if s != [] && s[0] != ' ' {
      NoSpace(s[1..]);
      assert s == [s[0]] + s[1..];
    }
  }

  lemma {:induction false} BlanksAreSkipped(blanks: string, t: string)
    requires (forall i :: 0 <= i < |blanks| ==> IsBlank(blanks[i])) && (t == "" || !IsBlank(t[0]))
    ensures SkipBlanks(blanks + t) == t
  {
    if blanks == "" {
      assert blanks + t == t;
    } else {
      assert (blanks + t)[1..] == blanks[1..] + t;
      BlanksAreSkipped(blanks[1..], t);
    }
  }

  predicate AllDigits(s: string) { forall i :: 0 <= i < |s| ==> Printf.IsDigit(s[i]) }

  /** Some digit is not 0. */
  predicate HasValue(digits: string) { exists i :: 0 <= i < |digits| && digits[i] != '0' }

  lemma HasValueStep(digits: string)
    requires digits != ""
    ensures HasValue(digits) <==> digits[0] != '0' || HasValue(digits[1..])
  {
    if HasValue(digits) && digits[0] == '0' {
      var i :| 0 <= i < |digits| && digits[i] != '0';
      assert digits[1..][i - 1] != '0';
    }
    if HasValue(digits[1..]) {
      var i :| 0 <= i < |digits[1..]| && digits[1..][i] != '0';
      assert digits[i + 1] != '0';
    }
  }

  /** Reading stops at the first other character, and yields 0 for zeros alone. */
  lemma {:induction false} LeadingNatIsZero(digits: string, after: string, acc: nat)
    requires AllDigits(digits) && (after == "" || !Printf.IsDigit(after[0]))
    ensures LeadingNat(digits + after, acc) == 0 <==> acc == 0 && !HasValue(digits)
  {
    if digits == "" {
      assert digits + after == after;
    } else {
      var acc' := 10 * acc + (digits[0] - '0') as int;
      assert (digits + after)[1..] == digits[1..] + after;
      LeadingNatIsZero(digits[1..], after, acc');
      assert acc' == 0 <==> acc == 0 && digits[0] == '0';
      HasValueStep(digits);
    }
  }

  /** A sign, digits and a rest that the number does not reach into. */
  predicate IsNumeral(sign: string, digits: string, after: string) {
    && sign in {"", "-", "+"} && AllDigits(digits)
    && (after == "" || !Printf.IsDigit(after[0]))
    && (sign == "" && digits == "" && after != "" ==> !IsBlank(after[0]) && after[0] != '-' && after[0] != '+')
  }

  /** `atoi` is 0 exactly when no digit is other than 0; blanks, sign and what follows do not matter. */
  lemma AtoiIsZero(blanks: string, sign: string, digits: string, after: string)
    requires (forall i :: 0 <= i < |blanks| ==> IsBlank(blanks[i])) && IsNumeral(sign, digits, after)
    ensures Atoi(blanks + (sign + (digits + after))) == 0 <==> !HasValue(digits)
  {
    hide LeadingNat;
    var t := sign + (digits + after);
    if sign == "" {
      assert t == digits + after;
    } else {
      assert t[1..] == digits + after;
    }
    BlanksAreSkipped(blanks, t);
    LeadingNatIsZero(digits, after, 0);
  }

  /** A command sets something exactly when it says `mcc` and has a space. */
  lemma SettingExists(cmd: string)
    ensures Setting(cmd).Some? <==> SaysMcc(cmd) && ' ' in cmd
  {
    hide Dispatch;
    MccBranch(cmd);
    NoSpace(cmd);
  }

  /** What it sets is read behind its first space: on exactly if the number there has a digit other than 0. */
  lemma SettingOfText(before: string, blanks: string, sign: string, digits: string, after: string)
    requires SaysMcc(before) && ' ' !in before
    requires (forall i :: 0 <= i < |blanks| ==> IsBlank(blanks[i])) && IsNumeral(sign, digits, after)
    ensures Setting(before + " " + (blanks + (sign + (digits + after)))) ==
            Some(HasValue(digits))
  {
    hide Dispatch, Atoi, IsNumeral;
    var arg := blanks + (sign + (digits + after));
    var cmd := before + " " + arg;
    assert cmd[0] == before[0] && cmd[1] == before[1] && cmd[2] == before[2];
    MccBranch(cmd);
    AfterSpaceIs(before, arg);
    AtoiIsZero(blanks, sign, digits, after);
  }

  lemma {:induction false} DecimalIsZero(n: nat)
    ensures HasValue(Printf.Decimal(n)) <==> n != 0
  {
    var s := Printf.Decimal(n);
    if n < 10 {
      assert |s| == 1 && s[0] as int == 48 + n;
    } else {
      var front := Printf.Decimal(n / 10);
      assert s == front + [Printf.DigitChar(n % 10)];
      DecimalIsZero(n / 10);
      var i :| 0 <= i < |front| && front[i] != '0';
      assert s[i] != '0';
    }
  }

  /** "mcc n", with any spelling of `mcc`, switches concurrency off for 0 and on for every other number. */
  lemma SettingOfNumber(word: string, n: nat)
    requires |word| == 3 && Lower(word[0]) == 'm' && Lower(word[1]) == 'c' && Lower(word[2]) == 'c'
    ensures Setting(word + " " + Printf.Decimal(n)) == Some(n != 0)
  {
    hide Setting;
    var digits := Printf.Decimal(n);
    assert "" + ("" + (digits + "")) == digits;
    SettingOfText(word, "", "", digits, "");
    DecimalIsZero(n);
  }

  /** The `mcc` branch: -1 without a driver or an argument, else 0 and a walk over every interface. */
  method McCommand(cmd: string, hasDriver: bool, head: Iface?, flag: Word, ghost list: seq<Iface>) returns (ret: int)
    requires Dispatch(cmd) == Some(MCC_BRANCH)
    requires Chain(head, list)
    modifies list, Configs(list)
    ensures ret == if hasDriver && Setting(cmd).Some? then 0 else -1
    ensures ret == 0 ==>
              forall i :: 0 <= i < |list| ==> Carries(list[i], Setting(cmd).value, old(list[i].drvFlags), flag)
    ensures ret != 0 ==> unchanged(list) && unchanged(Configs(list))
    ensures forall i :: 0 <= i < |list| ==> list[i].next == old(list[i].next)
  {
    hide Dispatch, Carries;
    if !hasDriver {
      return -1;
    }
    var value := AfterSpace(cmd);
    if value.None? {
      return -1;
    }
    var mcc := Atoi(value.value);
    if mcc != 0 {
      WalkOn(head, flag, list);
    } else {
      WalkOff(head, flag, list);
    }
    ret := 0;
  }

  /** The setting of the last effective command of a run. */
  function LastSetting(cmds: seq<string>): Option<bool> {
    if cmds == [] then None
    else if Setting(cmds[|cmds| - 1]).Some? then Setting(cmds[|cmds| - 1])
    else LastSetting(cmds[..|cmds| - 1])
  }

  /** Any run of `mcc` commands has the effect of its last effective one alone, on every interface. */
  method RunCommands(cmds: seq<string>, head: Iface?, flag: Word, ghost list: seq<Iface>)
    requires forall k :: 0 <= k < |cmds| ==> Dispatch(cmds[k]) == Some(MCC_BRANCH)
    requires Chain(head, list)
    modifies list, Configs(list)
    ensures Chain(head, list)
    ensures LastSetting(cmds).Some? ==>
              forall i :: 0 <= i < |list| ==> Carries(list[i], LastSetting(cmds).value, old(list[i].drvFlags), flag)
    ensures LastSetting(cmds).None? ==> unchanged(list) && unchanged(Configs(list))
  {
    hide Dispatch, Setting;
    for k := 0 to |cmds|
      invariant forall i :: 0 <= i < |list| ==> list[i].next == old(list[i].next)
      invariant LastSetting(cmds[..k]).Some? ==>
          forall i :: 0 <= i < |list| ==> Carries(list[i], LastSetting(cmds[..k]).value, old(list[i].drvFlags), flag)
      invariant LastSetting(cmds[..k]).None? ==> unchanged(list) && unchanged(Configs(list))
    {
      assert cmds[..k + 1][..k] == cmds[..k];
      var ret := McCommand(cmds[k], true, head, flag, list);
    }
    assert cmds[..|cmds|] == cmds;
  }
}
