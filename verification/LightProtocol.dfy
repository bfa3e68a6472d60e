/** The lights module under any interleaving of threads: `pthread_once` in `open_lights`, then
    setters that run under one mutex. Every memory or sysfs access is a step of its own. */
module LightProtocol {
  import opened Options
  import opened Lights
  import opened LightHistory

  datatype Call =
    | Backlight(state: LightState)
    | Buttons(state: LightState)
    | Battery(state: LightState)
    | Notifications(state: LightState)
    | Attention(state: LightState)

  /** The `set_light_locked` call of an LED setter. */
  function LedRequest(c: Call): (r: Request)
    ensures 0 <= r.source < SOURCES
  {
    match c
    case Notifications(s) => Request(1, s)
    case Attention(s) => Request(2, FixAttention(s))
    case _ => Request(0, c.state)
  }

  predicate IsBrightness(c: Call) { c.Backlight? || c.Buttons? }

  function BrightnessWrite(c: Call): Write {
    WriteInt(if c.Backlight? then LcdBrightness else ButtonBrightness, RgbToBrightness(c.state.color))
  }

  // ----- The calls one after another

  function Apply(m: Mux, c: Call): Mux {
    if IsBrightness(c) then m.(trace := m.trace + [BrightnessWrite(c)])
    else SetLight(m, LedRequest(c).source, LedRequest(c).state)
  }

  function Serial(calls: seq<Call>): (m: Mux)
    ensures |m.leds| == SOURCES
  {
    if calls == [] then Initial(SOURCES) else Apply(Serial(calls[..|calls| - 1]), calls[|calls| - 1])
  }

  lemma SerialSnoc(calls: seq<Call>, c: Call)
    ensures Serial(calls + [c]) == Apply(Serial(calls), c)
  {
    assert (calls + [c])[..|calls|] == calls;
  }

  /** What one call writes: nothing, a single brightness value, or one whole LED frame. */
  ghost predicate IsBlock(ws: seq<Write>) {
    || ws == []
    || (|ws| == 1 && ws[0].WriteInt? && ws[0].path in {LcdBrightness, ButtonBrightness})
    || (exists led :: ws == Frame(led))
  }

  function Emission(m: Mux, c: Call): (ws: seq<Write>)
    requires |m.leds| == SOURCES
    ensures Apply(m, c).trace == m.trace + ws
    ensures IsBlock(ws)
  {
    if IsBrightness(c) then [BrightnessWrite(c)]
    else
      var r := LedRequest(c);
      var leds := m.leds[r.source := Config(r.state)];
      match Decide(leds, m.cur, r.source)
      case Keep => []
      case Switch(led, _) => Frame(led)
  }

  /** The blocks written by a serial run, one per call. */
  function Blocks(calls: seq<Call>): (bs: seq<seq<Write>>)
    ensures |bs| == |calls|
    ensures forall i :: 0 <= i < |bs| ==> IsBlock(bs[i])
  {
    if calls == [] then []
    else Blocks(calls[..|calls| - 1]) + [Emission(Serial(calls[..|calls| - 1]), calls[|calls| - 1])]
  }

  function Flatten(bs: seq<seq<Write>>): seq<Write> {
    if bs == [] then [] else Flatten(bs[..|bs| - 1]) + bs[|bs| - 1]
  }

  lemma {:induction false} SerialTraceIsBlocks(calls: seq<Call>)
    ensures Serial(calls).trace == Flatten(Blocks(calls))
  {
    if calls == [] {
    } else {
      var p := calls[..|calls| - 1];
      SerialTraceIsBlocks(p);
      assert Blocks(calls)[..|p|] == Blocks(p);
    }
  }

  // ----- Threads

  datatype Phase =
    | Idle
    | AtOnce                 // in open_lights, at pthread_once
    | InInit                 // running init_globals
    | Waiting(call: Call)    // at pthread_mutex_lock
    | Entered(call: Call)    // holds the mutex
    | Stored(call: Call)     // table entry written
    | Writing(call: Call, todo: seq<Write>, next: int)
    | Leaving(call: Call)    // at pthread_mutex_unlock

  datatype Once = Fresh | Running | Done

  datatype World = World(once: Once, devices: nat, owner: Option<nat>, mux: Mux, phases: seq<Phase>)

  function Start(threads: nat): World {
    World(Fresh, 0, None, Initial(SOURCES), seq(threads, _ => Idle))
  }

  /** An idle thread opens a device or, once a device exists, calls a setter on it; any other
      thread can only advance. */
  datatype Event = Open(tid: nat) | Begin(tid: nat, call: Call) | Advance(tid: nat)

  /** The next access of a thread inside a setter that holds the mutex. */
  function Inside(mux: Mux, p: Phase): (Mux, Phase)
    requires p.Entered? || p.Stored? || p.Writing?
    requires |mux.leds| == SOURCES
  {
    match p
    case Entered(c) =>
      if IsBrightness(c) then (mux, Writing(c, [BrightnessWrite(c)], mux.cur))
      else (mux.(leds := mux.leds[LedRequest(c).source := Config(LedRequest(c).state)]), Stored(c))
    case Stored(c) =>
      (match Decide(mux.leds, mux.cur, LedRequest(c).source)
       case Keep => (mux, Leaving(c))
       case Switch(led, next) => (mux, Writing(c, Frame(led), next)))
    case Writing(c, todo, next) =>
      if todo == [] then (mux.(cur := next), Leaving(c))
      else (mux.(trace := mux.trace + [todo[0]]), Writing(c, todo[1..], next))
  }

  /** One step, or None when the thread is blocked or the event does not apply. */
  function Step(w: World, e: Event): Option<World> {
    if e.tid >= |w.phases| then None
    else
      var p := w.phases[e.tid];
      match e
      case Open(t) => if p.Idle? then Some(w.(phases := w.phases[t := AtOnce])) else None
      case Begin(t, c) =>
        if p.Idle? && w.devices > 0 then Some(w.(phases := w.phases[t := Waiting(c)])) else None
      case Advance(t) =>
        match p
        case Idle => None
        case AtOnce =>
          (match w.once
           case Fresh => Some(w.(once := Running, phases := w.phases[t := InInit]))
           case Running => None
           case Done => Some(w.(devices := w.devices + 1, phases := w.phases[t := Idle])))
        case InInit => Some(w.(once := Done, owner := None, phases := w.phases[t := AtOnce]))
        case Waiting(c) =>
          if w.owner.None? then Some(w.(owner := Some(t), phases := w.phases[t := Entered(c)])) else None
        case Leaving(_) => Some(w.(owner := None, phases := w.phases[t := Idle]))
        case _ =>
          if |w.mux.leds| != SOURCES then None
          else
            var (mux, q) := Inside(w.mux, p);
            Some(w.(mux := mux, phases := w.phases[t := q]))
  }

  function Exec(threads: nat, run: seq<Event>): (r: Option<World>)
    ensures r.Some? ==> |r.value.phases| == threads
  {
    if run == [] then Some(Start(threads))
    else
      var w := Exec(threads, run[..|run| - 1]);
      if w.None? then None else Step(w.value, run[|run| - 1])
  }

  predicate Acquires(w: World, e: Event) {
    e.Advance? && e.tid < |w.phases| && w.phases[e.tid].Waiting? && w.owner.None?
  }

  /** The calls of a run in the order in which they got the mutex. */
  function LockOrder(threads: nat, run: seq<Event>): seq<Call> {
    if run == [] then []
    else
      var p, e := run[..|run| - 1], run[|run| - 1];
      var w := Exec(threads, p);
      LockOrder(threads, p) +
      if w.Some? && Acquires(w.value, e) then [w.value.phases[e.tid].call] else []
  }

  // ----- What every step keeps

  predicate Holding(p: Phase) { p.Entered? || p.Stored? || p.Writing? || p.Leaving? }

  predicate InSetter(p: Phase) { p.Waiting? || Holding(p) }

  /** The once protocol: no setter runs before the mutex is initialised, and only one thread initialises it. */
  ghost predicate OnceInv(w: World) {
    && (w.once.Done? <== w.devices > 0)
    && (forall t :: 0 <= t < |w.phases| && InSetter(w.phases[t]) ==> w.devices > 0)
    && (forall t :: 0 <= t < |w.phases| && w.phases[t].InInit? ==> w.once.Running?)
    && (forall t, u :: 0 <= t < u < |w.phases| && w.phases[t].InInit? ==> !w.phases[u].InInit?)
    && (w.once.Running? ==> exists t :: 0 <= t < |w.phases| && w.phases[t].InInit?)
  }

  /** Mutual exclusion: the holders are exactly the owner. */
  ghost predicate LockInv(w: World) {
    && (w.owner.Some? ==> w.owner.value < |w.phases| && Holding(w.phases[w.owner.value]))
    && (forall t :: 0 <= t < |w.phases| && Holding(w.phases[t]) ==> w.owner == Some(t))
  }

  /** How far the holder has got with its call, starting from `base`. */
  ghost predicate Partway(base: Mux, mux: Mux, p: Phase)
    requires Holding(p)
    requires |base.leds| == SOURCES
  {
    var end := Apply(base, p.call);
    match p
    case Entered(c) => mux == base
    case Stored(c) => !IsBrightness(c) && mux == base.(leds := end.leds)
    case Writing(c, todo, next) =>
      && mux.leds == end.leds && mux.cur == base.cur && next == end.cur
      && mux.trace + todo == end.trace
      && base.trace <= mux.trace
    case Leaving(c) => mux == end
  }

  /** Memory and trace are those of a serial run of the finished calls, plus the holder's progress. */
  ghost predicate SerialInv(w: World, order: seq<Call>) {
    match w.owner
    case None => w.mux == Serial(order)
    case Some(t) =>
      && t < |w.phases| && Holding(w.phases[t])
      && order != [] && order[|order| - 1] == w.phases[t].call
      && Partway(Serial(order[..|order| - 1]), w.mux, w.phases[t])
  }

  lemma InsideKeeps(base: Mux, mux: Mux, p: Phase)
    requires p.Entered? || p.Stored? || p.Writing?
    requires |base.leds| == SOURCES && Partway(base, mux, p)
    ensures |mux.leds| == SOURCES
    ensures var (mux', p') := Inside(mux, p); Holding(p') && p'.call == p.call && Partway(base, mux', p')
  {
    var (mux', p') := Inside(mux, p);
    if p.Writing? && p.todo != [] {
      assert mux.trace + p.todo == (mux.trace + [p.todo[0]]) + p.todo[1..];
    }
  }

  lemma StepKeepsLock(w: World, e: Event)
    requires OnceInv(w) && LockInv(w) && Step(w, e).Some?
    ensures LockInv(Step(w, e).value)
  {
    var p := w.phases[e.tid];
    if e.Advance? && p.InInit? {
      assert w.owner.None?;
    }
  }

  lemma StepKeepsOnce(w: World, e: Event)
    requires OnceInv(w) && Step(w, e).Some?
    ensures OnceInv(Step(w, e).value)
  {
    var w' := Step(w, e).value;
    var t := e.tid;
    assert forall u :: 0 <= u < |w.phases| && u != t ==> w'.phases[u] == w.phases[u];
    if w.once.Running? && !w.phases[t].InInit? {
      var u :| 0 <= u < |w.phases| && w.phases[u].InInit?;
      assert w'.phases[u].InInit?;
    } else if w'.once.Running? {
      assert w'.phases[t].InInit?;
    }
  }

  /** A step of the holder carries its call forward and, at the unlock, makes it one more finished call. */
  lemma HolderKeepsSerial(w: World, t: nat, order: seq<Call>)
    requires t < |w.phases| && Holding(w.phases[t]) && w.owner == Some(t) && SerialInv(w, order)
    requires Step(w, Advance(t)).Some?
    ensures SerialInv(Step(w, Advance(t)).value, order)
  {
    var p, done := w.phases[t], order[..|order| - 1];
    if p.Leaving? {
      assert order == done + [p.call];
      SerialSnoc(done, p.call);
    } else {
      InsideKeeps(Serial(done), w.mux, p);
    }
  }

  /** Every other step leaves memory, trace and the holder alone, or lets a thread take the free mutex. */
  lemma OthersKeepSerial(w: World, e: Event, order: seq<Call>)
    requires OnceInv(w) && LockInv(w) && SerialInv(w, order) && Step(w, e).Some?
    requires !(e.Advance? && Holding(w.phases[e.tid]))
    ensures SerialInv(Step(w, e).value, order + if Acquires(w, e) then [w.phases[e.tid].call] else [])
  {
    if Acquires(w, e) {
      assert (order + [w.phases[e.tid].call])[..|order|] == order;
    } else {
      assert order + [] == order;
      assert Step(w, e).value.mux == w.mux && Step(w, e).value.owner == w.owner;
    }
  }

  lemma StepKeepsSerial(w: World, e: Event, order: seq<Call>)
    requires OnceInv(w) && LockInv(w) && SerialInv(w, order) && Step(w, e).Some?
    ensures SerialInv(Step(w, e).value, order + if Acquires(w, e) then [w.phases[e.tid].call] else [])
  {
    if e.Advance? && Holding(w.phases[e.tid]) {
      HolderKeepsSerial(w, e.tid, order);
      assert order + [] == order;
    } else {
      OthersKeepSerial(w, e, order);
    }
  }

  lemma {:induction false} RunKeeps(threads: nat, run: seq<Event>)
    requires Exec(threads, run).Some?
    ensures var w := Exec(threads, run).value;
            OnceInv(w) && LockInv(w) && SerialInv(w, LockOrder(threads, run))
  {
    if run == [] {
    } else {
      var p := run[..|run| - 1];
      RunKeeps(threads, p);
      var w := Exec(threads, p).value;
      StepKeepsOnce(w, run[|run| - 1]);
      StepKeepsLock(w, run[|run| - 1]);
      StepKeepsSerial(w, run[|run| - 1], LockOrder(threads, p));
    }
  }

  /** Every interleaving is serial in lock order. The finished calls have written whole blocks; the
      unfinished one belongs to the mutex holder and has written a prefix of its own block. */
  lemma InterleavingIsSerial(threads: nat, run: seq<Event>) returns (partial: seq<Write>)
    requires Exec(threads, run).Some?
    ensures var w, order := Exec(threads, run).value, LockOrder(threads, run);
            && (w.owner.None? ==> w.mux == Serial(order) && partial == [] && w.mux.trace == Flatten(Blocks(order)))
            && (w.owner.Some? ==>
                  && order != []
                  && w.mux.trace == Flatten(Blocks(order[..|order| - 1])) + partial
                  && partial <= Blocks(order)[|order| - 1]
                  && w.owner.value < threads
                  && Holding(w.phases[w.owner.value])
                  && w.phases[w.owner.value].call == order[|order| - 1])
  {
    RunKeeps(threads, run);
    var w, order := Exec(threads, run).value, LockOrder(threads, run);
    partial := [];
    SerialTraceIsBlocks(order);
    if w.owner.Some? {
      SerialTraceIsBlocks(order[..|order| - 1]);
      partial := HolderPrefix(Serial(order[..|order| - 1]), w.mux, w.phases[w.owner.value]);
    }
  }

  /** The holder has written a prefix of the one block of its call. */
  lemma HolderPrefix(base: Mux, mux: Mux, p: Phase) returns (partial: seq<Write>)
    requires Holding(p) && |base.leds| == SOURCES && Partway(base, mux, p)
    ensures mux.trace == base.trace + partial && partial <= Emission(base, p.call)
  {
    var block := Emission(base, p.call);
    partial := mux.trace[|base.trace|..];
    if p.Writing? {
      assert mux.trace + p.todo == base.trace + block;
      assert (mux.trace + p.todo)[|base.trace|..] == partial + p.todo;
      assert (base.trace + block)[|base.trace|..] == block;
    }
  }

  /** Two threads never hold the mutex together, and it is never re-initialised while held or awaited. */
  lemma MutexSafety(threads: nat, run: seq<Event>, t: nat, u: nat)
    requires Exec(threads, run).Some? && t < threads && u < threads
    ensures var w := Exec(threads, run).value;
            && (Holding(w.phases[t]) && Holding(w.phases[u]) ==> t == u)
            && (w.phases[t].InInit? ==> w.owner.None? && !InSetter(w.phases[u]))
  {
    hide Exec, SerialInv;
    RunKeeps(threads, run);
  }

  /** No deadlock: as long as some thread is not idle, some thread can advance. */
  lemma SomeThreadCanAdvance(threads: nat, run: seq<Event>, t: nat) returns (u: nat)
    requires Exec(threads, run).Some? && t < threads && !Exec(threads, run).value.phases[t].Idle?
    ensures Step(Exec(threads, run).value, Advance(u)).Some?
  {
    RunKeeps(threads, run);
    var w := Exec(threads, run).value;
    u := t;
    if w.phases[t].Waiting? && w.owner.Some? {
      u := w.owner.value;
    } else if w.phases[t].AtOnce? && w.once.Running? {
      u :| 0 <= u < threads && w.phases[u].InInit?;
    }
  }

  // ----- Back to the histories of LED requests

  function LedRequests(calls: seq<Call>): seq<Request> {
    if calls == [] then []
    else
      LedRequests(calls[..|calls| - 1]) +
      if IsBrightness(calls[|calls| - 1]) then [] else [LedRequest(calls[|calls| - 1])]
  }

  lemma {:induction false} SerialMatchesRun(calls: seq<Call>)
    ensures var m, r := Serial(calls), Run(SOURCES, LedRequests(calls));
            m.leds == r.leds && m.cur == r.cur && Display(m.trace) == Display(r.trace)
  {
    if calls == [] {
    } else {
      var p, c := calls[..|calls| - 1], calls[|calls| - 1];
      SerialMatchesRun(p);
      var h := LedRequests(p);
      if IsBrightness(c) {
        assert h + [] == h;
        DisplaySnoc(Serial(p).trace, BrightnessWrite(c));
      } else {
        assert (h + [LedRequest(c)])[..|h|] == h;
        RunRefinesLatest(SOURCES, h);
        SetLightRecomputes(Serial(p), LedRequest(c).source, LedRequest(c).state);
        SetLightRecomputes(Run(SOURCES, h), LedRequest(c).source, LedRequest(c).state);
      }
    }
  }

  /** Whenever the mutex is free, the winner and the LED are those of the latest request per
      source in lock order, however the threads were interleaved. */
  lemma QuiescentDisplay(threads: nat, run: seq<Event>)
    requires Exec(threads, run).Some? && Exec(threads, run).value.owner.None?
    ensures var m := Exec(threads, run).value.mux;
            var t := LatestTable(SOURCES, LedRequests(LockOrder(threads, run)));
            m.leds == t && m.cur == Highest(t) && Display(m.trace) == PanelOf(Shown(t, Highest(t)))
  {
    RunKeeps(threads, run);
    SerialMatchesRun(LockOrder(threads, run));
    RunRefinesLatest(SOURCES, LedRequests(LockOrder(threads, run)));
  }

  /** The two calls are of the same setter. */
  predicate SameSetter(c: Call, like: Call) {
    match like
    case Backlight(_) => c.Backlight?
    case Buttons(_) => c.Buttons?
    case Battery(_) => c.Battery?
    case Notifications(_) => c.Notifications?
    case Attention(_) => c.Attention?
  }

  /** The state of the last call of the setter of `like`. */
  function LastCall(calls: seq<Call>, like: Call): Option<LightState> {
    if calls == [] then None
    else if SameSetter(calls[|calls| - 1], like) then Some(calls[|calls| - 1].state)
    else LastCall(calls[..|calls| - 1], like)
  }

  const ANY := LightState(0, FlashNone, 0, 0)

  function Asked(m: Option<LightState>): LedConfig { if m.None? then LED_OFF else Config(m.value) }

  /** What the LED should show: attention before notifications before battery. */
  function Wanted(calls: seq<Call>): LedConfig {
    var last := LastCall(calls, Attention(ANY));
    var attention := if last.None? then LED_OFF else Config(FixAttention(last.value));
    var notification := Asked(LastCall(calls, Notifications(ANY)));
    var battery := Asked(LastCall(calls, Battery(ANY)));
    if Lit(attention) then attention
    else if Lit(notification) then notification
    else if Lit(battery) then battery
    else LED_OFF
  }

  /** The table entries are the last calls of the three LED setters. */
  lemma {:induction false} LatestIsLastCall(calls: seq<Call>)
    ensures var h := LedRequests(calls);
            && LatestConfig(h, 0) == Asked(LastCall(calls, Battery(ANY)))
            && LatestConfig(h, 1) == Asked(LastCall(calls, Notifications(ANY)))
            && LatestConfig(h, 2) == (var a := LastCall(calls, Attention(ANY));
                                      if a.None? then LED_OFF else Config(FixAttention(a.value)))
  {
    if calls == [] {
    } else {
      var p, c := calls[..|calls| - 1], calls[|calls| - 1];
      LatestIsLastCall(p);
      if IsBrightness(c) {
        assert LedRequests(calls) == LedRequests(p);
      } else {
        LatestSuffix(LedRequests(p), LedRequest(c), 0);
        LatestSuffix(LedRequests(p), LedRequest(c), 1);
        LatestSuffix(LedRequests(p), LedRequest(c), 2);
      }
    }
  }

  /** Whenever the mutex is free, however the threads were interleaved, the LED shows the last attention
      call if it asks for light, else the last notification, else the last battery call, else nothing. */
  lemma LedShowsWanted(threads: nat, run: seq<Event>)
    requires Exec(threads, run).Some? && Exec(threads, run).value.owner.None?
    ensures Display(Exec(threads, run).value.mux.trace) == PanelOf(Wanted(LockOrder(threads, run)))
  {
    QuiescentDisplay(threads, run);
    LatestIsLastCall(LockOrder(threads, run));
    var t := LatestTable(SOURCES, LedRequests(LockOrder(threads, run)));
    HighestIs(t, if Lit(t[2]) then 2 else if Lit(t[1]) then 1 else if Lit(t[0]) then 0 else -1);
  }

  /** An attention request without a flash mode counts as dark. */
  predicate AttentionAsks(a: Option<LightState>) { AsksForLight(a) && !a.value.flashMode.FlashNone? }

  /** A hardware flash with an on time alone is steady light. */
  predicate Steady(a: LightState) { a.flashMode.FlashHardware? && a.flashOnMS > 0 && a.flashOffMS == 0 }

  function Times(s: LightState, blinks: bool): (int, int) { if blinks then (s.flashOnMS, s.flashOffMS) else (0, 0) }

  /** The same in terms of the calls themselves: the three values on the LED recombine to the low 24 bits
      of the colour asked for, and all three channels blink with the times asked for, if any. */
  lemma LedShowsColour(threads: nat, run: seq<Event>)
    requires Exec(threads, run).Some? && Exec(threads, run).value.owner.None?
    ensures var p, order := Display(Exec(threads, run).value.mux.trace), LockOrder(threads, run);
            var a, n := LastCall(order, Attention(ANY)), LastCall(order, Notifications(ANY));
            var b := LastCall(order, Battery(ANY));
            && 0 <= p.red < 256 && 0 <= p.green < 256 && 0 <= p.blue < 256
            && 0x1_0000 * p.red + 0x100 * p.green + p.blue ==
               (if AttentionAsks(a) then a.value.color % 0x100_0000
                else if AsksForLight(n) then n.value.color % 0x100_0000
                else if AsksForLight(b) then b.value.color % 0x100_0000
                else 0)
            && p.redBlink == p.greenBlink == p.blueBlink
            && p.redBlink ==
               (if AttentionAsks(a) then Times(a.value, Flashes(a.value) && !Steady(a.value))
                else if AsksForLight(n) then Times(n.value, Flashes(n.value))
                else if AsksForLight(b) then Times(b.value, Flashes(b.value))
                else (0, 0))
  {
    hide Exec, PanelOf, Display, LockOrder, LastCall, FixAttention;
    LedShowsWanted(threads, run);
    var order := LockOrder(threads, run);
    PanelOfMeaning(Wanted(order));
    var a := LastCall(order, Attention(ANY));
    if a.Some? {
      AttentionMeaning(a.value);
    }
  }

  // ----- The two brightness files

  /** The value last written to a file, 0 before any write. */
  function Level(trace: seq<Write>, path: Path): int {
    match LastWrite(trace, path)
    case Some(WriteInt(_, v)) => v
    case _ => 0
  }

  lemma {:induction false} LevelIgnores(trace: seq<Write>, more: seq<Write>, path: Path)
    requires forall i :: 0 <= i < |more| ==> more[i].path != path
    ensures Level(trace + more, path) == Level(trace, path)
  {
    if more == [] {
      assert trace + more == trace;
    } else {
      var t := trace + more;
      assert t[..|t| - 1] == trace + more[..|more| - 1];
      LevelIgnores(trace, more[..|more| - 1], path);
    }
  }

  lemma LedEmission(m: Mux, c: Call)
    requires |m.leds| == SOURCES && !IsBrightness(c)
    ensures forall i :: 0 <= i < |Emission(m, c)| ==> Emission(m, c)[i].path !in {LcdBrightness, ButtonBrightness}
  {
  }

  function BrightnessOf(m: Option<LightState>): int { if m.None? then 0 else RgbToBrightness(m.value.color) }

  /** After any serial run, each brightness file holds the brightness of the last call of its own setter. */
  lemma {:induction false} BrightnessFilesFollow(calls: seq<Call>)
    ensures Level(Serial(calls).trace, LcdBrightness) == BrightnessOf(LastCall(calls, Backlight(ANY)))
    ensures Level(Serial(calls).trace, ButtonBrightness) == BrightnessOf(LastCall(calls, Buttons(ANY)))
  {
    if calls != [] {
      var p, c := calls[..|calls| - 1], calls[|calls| - 1];
      BrightnessFilesFollow(p);
      var t, ws := Serial(p).trace, Emission(Serial(p), c);
      assert Serial(calls).trace == t + ws;
      if IsBrightness(c) {
        assert (t + ws)[..|t|] == t;
      } else {
        LedEmission(Serial(p), c);
        hide Emission, Serial, Frame;
        LevelIgnores(t, ws, LcdBrightness);
        LevelIgnores(t, ws, ButtonBrightness);
      }
    }
  }

  /** Whenever the mutex is free, however the threads were interleaved, the brightness files follow the
      last calls in lock order. */
  lemma BrightnessUnderThreads(threads: nat, run: seq<Event>)
    requires Exec(threads, run).Some? && Exec(threads, run).value.owner.None?
    ensures var trace, order := Exec(threads, run).value.mux.trace, LockOrder(threads, run);
            && Level(trace, LcdBrightness) == BrightnessOf(LastCall(order, Backlight(ANY)))
            && Level(trace, ButtonBrightness) == BrightnessOf(LastCall(order, Buttons(ANY)))
  {
    hide Exec, Level;
    RunKeeps(threads, run);
    BrightnessFilesFollow(LockOrder(threads, run));
  }
}
