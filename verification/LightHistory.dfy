/** Whole histories of light calls: the incremental multiplexer against recomputation
    from the latest request of every source. */
module LightHistory {
  import opened Options
  import opened Lights

  /** A call of `set_light_locked`; the source may be outside the table. */
  datatype Request = Request(source: int, state: LightState)

  function Run(n: nat, h: seq<Request>): (m: Mux)
    ensures |m.leds| == n
  {
    if h == [] then Initial(n)
    else
      var last := h[|h| - 1];
      SetLight(Run(n, h[..|h| - 1]), last.source, last.state)
  }

  /** The table entry of a source according to its latest request alone. */
  function LatestConfig(h: seq<Request>, source: int): LedConfig {
    if h == [] then LED_OFF
    else if h[|h| - 1].source == source then Config(h[|h| - 1].state)
    else LatestConfig(h[..|h| - 1], source)
  }

  function LatestTable(n: nat, h: seq<Request>): (t: seq<LedConfig>)
    ensures |t| == n
  {
    seq(n, i => LatestConfig(h, i))
  }

  /** The winner is the highest source whose latest request is lit, and the LED shows that
      request's colour and times, or is off. */
  lemma {:induction false} RunRefinesLatest(n: nat, h: seq<Request>)
    ensures var m := Run(n, h);
            var t := LatestTable(n, h);
            && m.leds == t
            && m.cur == Highest(t)
            && Display(m.trace) == PanelOf(Shown(t, Highest(t)))
  {
    if h == [] {
      InitialInv(n);
      assert LatestTable(n, h) == Initial(n).leds;
    } else {
      var p, last := h[..|h| - 1], h[|h| - 1];
      RunRefinesLatest(n, p);
      assert Inv(Run(n, p));
      if 0 <= last.source < n {
        SetLightRecomputes(Run(n, p), last.source, last.state);
        assert LatestTable(n, h) == LatestTable(n, p)[last.source := Config(last.state)];
      } else {
        assert LatestTable(n, h) == LatestTable(n, p);
      }
    }
  }

  function LatestRequest(h: seq<Request>, source: int): Option<LightState> {
    if h == [] then None
    else if h[|h| - 1].source == source then Some(h[|h| - 1].state)
    else LatestRequest(h[..|h| - 1], source)
  }

  /** A request whose low 24 bits name a colour. */
  predicate AsksForLight(r: Option<LightState>) { r.Some? && r.value.color % 0x100_0000 != 0 }

  predicate Flashes(s: LightState) { s.flashMode.FlashTimed? || s.flashMode.FlashHardware? }

  lemma {:induction false} LatestConfigIsOfRequest(h: seq<Request>, source: int)
    ensures LatestConfig(h, source) ==
            if LatestRequest(h, source).None? then LED_OFF else Config(LatestRequest(h, source).value)
  {
    if h != [] && h[|h| - 1].source != source {
      LatestConfigIsOfRequest(h[..|h| - 1], source);
    }
  }

  /** The same in terms of the requests themselves: every source above the winner is silent, the three
      values on the LED recombine to the low 24 bits of the winner's colour, and all three channels
      blink with the winner's times if it flashes. */
  lemma WinnerShowsItsRequest(n: nat, h: seq<Request>)
    ensures var w := Run(n, h).cur;
            var shown := Display(Run(n, h).trace);
            && -1 <= w < n
            && (forall i :: w < i < n ==> !AsksForLight(LatestRequest(h, i)))
            && (w == -1 ==> shown == DARK)
            && (w >= 0 ==>
                  && AsksForLight(LatestRequest(h, w))
                  && var s := LatestRequest(h, w).value;
                  && 0 <= shown.red < 256 && 0 <= shown.green < 256 && 0 <= shown.blue < 256
                  && 0x1_0000 * shown.red + 0x100 * shown.green + shown.blue == s.color % 0x100_0000
                  && shown.redBlink == (if Flashes(s) then (s.flashOnMS, s.flashOffMS) else (0, 0))
                  && shown.greenBlink == shown.redBlink && shown.blueBlink == shown.redBlink)
  {
    hide Display, PanelOf, Highest, Run;
    RunRefinesLatest(n, h);
    var t, w := LatestTable(n, h), Run(n, h).cur;
    HighestBounds(t);
    forall i | w < i < n
      ensures !AsksForLight(LatestRequest(h, i))
    {
      LatestConfigIsOfRequest(h, i);
      assert !Lit(t[i]);
    }
    if w >= 0 {
      LatestConfigIsOfRequest(h, w);
      PanelOfMeaning(t[w]);
    } else {
      OffIsDark();
    }
  }

  lemma HighestBounds(t: seq<LedConfig>)
    ensures var w := Highest(t);
            -1 <= w < |t| && (w >= 0 ==> Lit(t[w])) && forall i :: w < i < |t| ==> !Lit(t[i])
  {
  }

  lemma OffIsDark()
    ensures PanelOf(LED_OFF) == DARK
  {
  }

  /** Histories with the same latest request per source are indistinguishable. */
  lemma SameLatestSameOutcome(n: nat, g: seq<Request>, h: seq<Request>)
    requires forall i :: 0 <= i < n ==> LatestConfig(g, i) == LatestConfig(h, i)
    ensures Run(n, g).leds == Run(n, h).leds
    ensures Run(n, g).cur == Run(n, h).cur
    ensures Display(Run(n, g).trace) == Display(Run(n, h).trace)
  {
    RunRefinesLatest(n, g);
    RunRefinesLatest(n, h);
    assert LatestTable(n, g) == LatestTable(n, h);
  }

  lemma LatestSuffix(h: seq<Request>, r: Request, source: int)
    ensures LatestConfig(h + [r], source) == if r.source == source then Config(r.state) else LatestConfig(h, source)
  {
    assert (h + [r])[..|h|] == h;
  }

  /** In particular two calls from different sources commute, whatever came before. */
  lemma CallsCommute(n: nat, h: seq<Request>, a: Request, b: Request)
    requires a.source != b.source
    ensures var x, y := Run(n, h + [a] + [b]), Run(n, h + [b] + [a]);
            x.leds == y.leds && x.cur == y.cur && Display(x.trace) == Display(y.trace)
  {
    forall i | 0 <= i < n
      ensures LatestConfig(h + [a] + [b], i) == LatestConfig(h + [b] + [a], i)
    {
      LatestSuffix(h, a, i);
      LatestSuffix(h, b, i);
      LatestSuffix(h + [a], b, i);
      LatestSuffix(h + [b], a, i);
    }
    SameLatestSameOutcome(n, h + [a] + [b], h + [b] + [a]);
  }

  /** What one more call writes: nothing from a source below the shown one, nothing from an unlit
      source above it, otherwise one frame that leaves the LED on the latest winner. */
  lemma CallEmits(n: nat, h: seq<Request>, r: Request)
    ensures var m, m' := Run(n, h), Run(n, h + [r]);
            var t := LatestTable(n, h + [r]);
            var w := Highest(t);
            m'.trace == m.trace +
            if 0 <= r.source < n && (r.source == w || r.source == m.cur) then Frame(Shown(t, w)) else []
    ensures r.source < Run(n, h).cur ==> Run(n, h + [r]).trace == Run(n, h).trace
  {
    RunRefinesLatest(n, h);
    RunRefinesLatest(n, h + [r]);
    var m := Run(n, h);
    assert (h + [r])[..|h|] == h;
    if 0 <= r.source < n {
      SetLightRecomputes(m, r.source, r.state);
    } else {
      assert m.trace + [] == m.trace;
    }
  }

  // ----- The three sources of the device

  const SOURCES := 3

  /** The attention setter repairs two odd requests before storing them. */
  function FixAttention(s: LightState): LightState {
    match s.flashMode
    case FlashNone => s.(color := 0)
    case FlashHardware => if s.flashOnMS > 0 && s.flashOffMS == 0 then s.(flashMode := FlashNone) else s
    case _ => s
  }

  /** After the repair an attention request is lit only if the framework asked for a flash; the steady
      hardware request keeps its colour with no blinking, any other flash keeps its times. */
  lemma AttentionMeaning(s: LightState)
    ensures Lit(Config(FixAttention(s))) <==> !s.flashMode.FlashNone? && s.color % 0x100_0000 != 0
    ensures !s.flashMode.FlashNone? ==> Config(FixAttention(s)).colorRGB == s.color % 0x100_0000
    ensures var on, off := Config(FixAttention(s)).onMS, Config(FixAttention(s)).offMS;
            (on, off) == if Flashes(s) && !(s.flashMode.FlashHardware? && s.flashOnMS > 0 && s.flashOffMS == 0)
              then (s.flashOnMS, s.flashOffMS) else (0, 0)
  {
  }
}
