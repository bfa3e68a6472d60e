/** The LED multiplexer of liblight/lights.c: several sources share one RGB LED.
    `SetLight` is the incremental code on values; `LightMux` is the same code in place. */
module Lights {
  import opened Options

  const EINVAL := 22   // <errno.h>
  const TWO_24 := 0x100_0000

  type Color = c: int | 0 <= c < 0x1_0000_0000

  datatype FlashMode = FlashNone | FlashTimed | FlashHardware | FlashOther(code: int)

  datatype LightState = LightState(color: Color, flashMode: FlashMode, flashOnMS: int, flashOffMS: int)

  datatype LedConfig = LedConfig(colorRGB: Color, onMS: int, offMS: int)

  const LED_OFF := LedConfig(0, 0, 0)

  /** Masking with 0x00ffffff keeps the low 24 bits. */
  function Rgb(c: Color): Color { c % TWO_24 }

  /** The table entry a request leaves behind. */
  function Config(s: LightState): LedConfig {
    match s.flashMode
    case FlashTimed | FlashHardware => LedConfig(Rgb(s.color), s.flashOnMS, s.flashOffMS)
    case FlashNone | FlashOther(_) => LedConfig(Rgb(s.color), 0, 0)
  }

  predicate Lit(led: LedConfig) { led.colorRGB > 0 }

  // ----- Brightness

  function Red(c: Color): int { (c / 0x1_0000) % 256 }
  function Green(c: Color): int { (c / 256) % 256 }
  function Blue(c: Color): int { c % 256 }

  function RgbToBrightness(c: Color): int {
    (77 * Red(Rgb(c)) + 150 * Green(Rgb(c)) + 29 * Blue(Rgb(c))) / 256
  }

  /** The channels are the three low bytes of the colour: red in bits 16 to 23, green in 8 to 15, blue in 0 to 7. */
  lemma ChannelsAreTheLowBytes(c: Color)
    ensures 0 <= Red(c) < 256 && 0 <= Green(c) < 256 && 0 <= Blue(c) < 256
    ensures 0x1_0000 * Red(c) + 0x100 * Green(c) + Blue(c) == c % 0x100_0000
  {
    ByteStep(c, 0x100);
    ByteStep(c, 0x1_0000);
    var q := c / 0x100_0000;
    assert c == 0x100_0000 * q + 0x1_0000 * Red(c) + 0x100 * Green(c) + Blue(c);
  }

  lemma ByteStep(c: nat, unit: nat)
    requires unit == 0x100 || unit == 0x1_0000
    ensures c / unit == 256 * (c / (256 * unit)) + (c / unit) % 256
  {
    var q := c / unit;
    assert q == 256 * (q / 256) + q % 256;
    assert c == 256 * unit * (q / 256) + unit * (q % 256) + c % unit;
    assert unit * (q % 256) + c % unit < 256 * unit;
  }

  lemma LowBits(a: int, x: int)
    requires 0 <= x < 0x100_0000
    ensures (0x100_0000 * a + x) % 0x100_0000 == x
  {
  }

  lemma SameBytes(r: int, g: int, b: int, r': int, g': int, b': int)
    requires 0 <= g < 256 && 0 <= b < 256 && 0 <= g' < 256 && 0 <= b' < 256
    requires 0x1_0000 * r + 0x100 * g + b == 0x1_0000 * r' + 0x100 * g' + b'
    ensures r == r' && g == g' && b == b'
  {
  }

  /** A colour built from an alpha byte and three channel bytes has the weighted mean of the bytes as
      its brightness. */
  lemma BrightnessOfBytes(a: int, r: int, g: int, b: int)
    requires 0 <= a < 256 && 0 <= r < 256 && 0 <= g < 256 && 0 <= b < 256
    ensures RgbToBrightness(0x100_0000 * a + 0x1_0000 * r + 0x100 * g + b) == (77 * r + 150 * g + 29 * b) / 256
  {
    hide Red, Green, Blue, Rgb;
    var c: Color := 0x100_0000 * a + 0x1_0000 * r + 0x100 * g + b;
    LowBits(a, 0x1_0000 * r + 0x100 * g + b);
    ChannelsAreTheLowBytes(c);
    ChannelsIgnoreAlpha(c);
    SameBytes(Red(c), Green(c), Blue(c), r, g, b);
  }

  /** Masking away the alpha byte changes no channel. */
  lemma ChannelsIgnoreAlpha(c: Color)
    ensures Red(Rgb(c)) == Red(c) && Green(Rgb(c)) == Green(c) && Blue(Rgb(c)) == Blue(c)
  {
    var q := c / TWO_24;
    assert c == q * TWO_24 + Rgb(c);
    assert c / 256 == q * 0x1_0000 + Rgb(c) / 256;
    assert c / 0x1_0000 == q * 256 + Rgb(c) / 0x1_0000;
  }

  function Max(a: int, b: int): int { if a < b then b else a }
  function Min(a: int, b: int): int { if a < b then a else b }

  /** Brightness stays within the channels, so it is exact on greys and a byte. */
  lemma BrightnessWithinChannels(c: Color)
    ensures Min(Red(c), Min(Green(c), Blue(c))) <= RgbToBrightness(c) <= Max(Red(c), Max(Green(c), Blue(c)))
    ensures 0 <= RgbToBrightness(c) <= 255
    ensures 256 * RgbToBrightness(c) <= 77 * Red(c) + 150 * Green(c) + 29 * Blue(c) < 256 * (RgbToBrightness(c) + 1)
    ensures Red(c) == Green(c) == Blue(c) ==> RgbToBrightness(c) == Blue(c)
  {
    ChannelsIgnoreAlpha(c);
  }

  /** Brightness depends only on the three channels (never on alpha) and is monotone in them. */
  lemma BrightnessMonotone(c: Color, d: Color)
    requires Red(c) <= Red(d) && Green(c) <= Green(d) && Blue(c) <= Blue(d)
    ensures RgbToBrightness(c) <= RgbToBrightness(d)
  {
    ChannelsIgnoreAlpha(c);
    ChannelsIgnoreAlpha(d);
  }

  // ----- Sysfs

  datatype Path =
    | LcdBrightness | ButtonBrightness
    | RedBrightness | GreenBrightness | BlueBrightness
    | RedOnOff | GreenOnOff | BlueOnOff
    | RgbStart

  /** An attempted write; the code ignores whether the file accepts it. */
  datatype Write = WriteInt(path: Path, value: int) | WriteOnOff(path: Path, on: int, off: int)

  /** What `write_leds_locked` writes, in order. */
  function Frame(led: LedConfig): (ws: seq<Write>)
    ensures |ws| == 8 && ws[0] == WriteInt(RgbStart, 0) && ws[7] == WriteInt(RgbStart, 1)
  {
    [ WriteInt(RgbStart, 0),
      WriteInt(RedBrightness, Red(led.colorRGB)),
      WriteInt(GreenBrightness, Green(led.colorRGB)),
      WriteInt(BlueBrightness, Blue(led.colorRGB)),
      WriteOnOff(RedOnOff, led.onMS, led.offMS),
      WriteOnOff(GreenOnOff, led.onMS, led.offMS),
      WriteOnOff(BlueOnOff, led.onMS, led.offMS),
      WriteInt(RgbStart, 1) ]
  }

  /** The six LED registers, as the writes leave them. */
  datatype Panel = Panel(red: int, green: int, blue: int,
                         redBlink: (int, int), greenBlink: (int, int), blueBlink: (int, int))

  const DARK := Panel(0, 0, 0, (0, 0), (0, 0), (0, 0))

  function PanelOf(led: LedConfig): Panel {
    Panel(Red(led.colorRGB), Green(led.colorRGB), Blue(led.colorRGB),
          (led.onMS, led.offMS), (led.onMS, led.offMS), (led.onMS, led.offMS))
  }

  function Poke(p: Panel, w: Write): Panel {
    match w
    case WriteInt(RedBrightness, v) => p.(red := v)
    case WriteInt(GreenBrightness, v) => p.(green := v)
    case WriteInt(BlueBrightness, v) => p.(blue := v)
    case WriteOnOff(RedOnOff, a, b) => p.(redBlink := (a, b))
    case WriteOnOff(GreenOnOff, a, b) => p.(greenBlink := (a, b))
    case WriteOnOff(BlueOnOff, a, b) => p.(blueBlink := (a, b))
    case _ => p
  }

  /** The LED after a write trace, starting dark. */
  function Display(trace: seq<Write>): Panel {
    if trace == [] then DARK else Poke(Display(trace[..|trace| - 1]), trace[|trace| - 1])
  }

  lemma DisplaySnoc(trace: seq<Write>, w: Write)
    ensures Display(trace + [w]) == Poke(Display(trace), w)
  {
    assert (trace + [w])[..|trace|] == trace;
  }

  /** The panel carries the low 24 bits of the colour, channel by channel, and the times on every channel. */
  lemma PanelOfMeaning(led: LedConfig)
    ensures var p := PanelOf(led);
            && 0 <= p.red < 256 && 0 <= p.green < 256 && 0 <= p.blue < 256
            && 0x1_0000 * p.red + 0x100 * p.green + p.blue == led.colorRGB % 0x100_0000
            && p.redBlink == (led.onMS, led.offMS) && p.greenBlink == p.redBlink && p.blueBlink == p.redBlink
  {
    ChannelsAreTheLowBytes(led.colorRGB);
  }

  /** A whole frame overwrites every register with the colour's own bytes and times. */
  lemma DisplayFrame(trace: seq<Write>, led: LedConfig)
    ensures var p := Display(trace + Frame(led));
            && p == PanelOf(led)
            && 0 <= p.red < 256 && 0 <= p.green < 256 && 0 <= p.blue < 256
            && 0x1_0000 * p.red + 0x100 * p.green + p.blue == led.colorRGB % 0x100_0000
  {
    var f := Frame(led);
    var t := trace;
    for i := 0 to 8
      invariant t == trace + f[..i]
      invariant i > 1 ==> Display(t).red == Red(led.colorRGB)
      invariant i > 2 ==> Display(t).green == Green(led.colorRGB)
      invariant i > 3 ==> Display(t).blue == Blue(led.colorRGB)
      invariant i > 4 ==> Display(t).redBlink == (led.onMS, led.offMS)
      invariant i > 5 ==> Display(t).greenBlink == (led.onMS, led.offMS)
      invariant i > 6 ==> Display(t).blueBlink == (led.onMS, led.offMS)
    {
      DisplaySnoc(t, f[i]);
      t := t + [f[i]];
    }
    assert f[..8] == f;
    PanelOfMeaning(led);
  }

  /** The last write to a file. */
  function LastWrite(trace: seq<Write>, path: Path): Option<Write> {
    if trace == [] then None
    else if trace[|trace| - 1].path == path then Some(trace[|trace| - 1])
    else LastWrite(trace[..|trace| - 1], path)
  }

  lemma {:induction false} LastWriteAt(trace: seq<Write>, i: nat)
    requires i < |trace| && forall j :: i < j < |trace| ==> trace[j].path != trace[i].path
    ensures LastWrite(trace, trace[i].path) == Some(trace[i])
  {
    if i < |trace| - 1 {
      LastWriteAt(trace[..|trace| - 1], i);
    }
  }

  /** File by file: after a frame the three brightness files hold the bytes of the colour, the three
      timing files the times, and rgb_start is 1. */
  lemma FrameFiles(trace: seq<Write>, led: LedConfig) returns (r: int, g: int, b: int)
    ensures 0 <= r < 256 && 0 <= g < 256 && 0 <= b < 256
    ensures 0x1_0000 * r + 0x100 * g + b == led.colorRGB % 0x100_0000
    ensures var t := trace + Frame(led);
            && LastWrite(t, RedBrightness) == Some(WriteInt(RedBrightness, r))
            && LastWrite(t, GreenBrightness) == Some(WriteInt(GreenBrightness, g))
            && LastWrite(t, BlueBrightness) == Some(WriteInt(BlueBrightness, b))
            && LastWrite(t, RedOnOff) == Some(WriteOnOff(RedOnOff, led.onMS, led.offMS))
            && LastWrite(t, GreenOnOff) == Some(WriteOnOff(GreenOnOff, led.onMS, led.offMS))
            && LastWrite(t, BlueOnOff) == Some(WriteOnOff(BlueOnOff, led.onMS, led.offMS))
            && LastWrite(t, RgbStart) == Some(WriteInt(RgbStart, 1))
  {
    hide Red, Green, Blue, LastWrite;
    ChannelsAreTheLowBytes(led.colorRGB);
    r, g, b := Red(led.colorRGB), Green(led.colorRGB), Blue(led.colorRGB);
    var t, n := trace + Frame(led), |trace|;
    assert t[n..] == Frame(led);
    assert forall j :: 0 <= j < 8 ==> t[n + j] == Frame(led)[j];
    LastWriteAt(t, n + 1);
    LastWriteAt(t, n + 2);
    LastWriteAt(t, n + 3);
    LastWriteAt(t, n + 4);
    LastWriteAt(t, n + 5);
    LastWriteAt(t, n + 6);
    LastWriteAt(t, n + 7);
  }

  // ----- The multiplexer

  /** `g_leds`, `g_cur_led` and the sysfs writes so far. */
  datatype Mux = Mux(leds: seq<LedConfig>, cur: int, trace: seq<Write>)

  function Initial(n: nat): Mux { Mux(seq(n, _ => LED_OFF), -1, []) }

  /** The highest lit source, or -1: the winner recomputed from the whole table. */
  function Highest(leds: seq<LedConfig>): (r: int)
    ensures -1 <= r < |leds|
    ensures r >= 0 ==> Lit(leds[r])
    ensures forall i :: r < i < |leds| ==> !Lit(leds[i])
  {
    if leds == [] then -1
    else if Lit(leds[|leds| - 1]) then |leds| - 1
    else Highest(leds[..|leds| - 1])
  }

  function Shown(leds: seq<LedConfig>, winner: int): LedConfig
    requires winner < |leds|
  {
    if winner < 0 then LED_OFF else leds[winner]
  }

  /** The downward search: the next lit source below `i`, or -1. */
  function LowerLit(leds: seq<LedConfig>, i: int): (r: int)
    requires i <= |leds|
    ensures -1 <= r && (i <= 0 ==> r == -1) && (0 < i ==> r < i)
    ensures r >= 0 ==> Lit(leds[r])
    ensures forall j :: r < j < i ==> !Lit(leds[j])
    decreases i
  {
    if i <= 0 then -1
    else if Lit(leds[i - 1]) then i - 1
    else LowerLit(leds, i - 1)
  }

  /** What the code decides after storing a request: a frame to write or none, and the next winner. */
  datatype Decision = Keep | Switch(led: LedConfig, next: int)

  function Decide(leds: seq<LedConfig>, cur: int, source: nat): (d: Decision)
    requires source < |leds|
  {
    if Lit(leds[source]) then
      if source >= cur then Switch(leds[source], source) else Keep
    else if source == cur then
      var i := LowerLit(leds, source);
      Switch(Shown(leds, i), i)
    else Keep
  }

  function Commit(m: Mux, d: Decision): Mux {
    match d
    case Keep => m
    case Switch(led, next) => m.(cur := next, trace := m.trace + Frame(led))
  }

  /** `set_light_locked`, which answers -EINVAL for a source outside the table. */
  function SetLight(m: Mux, source: int, s: LightState): Mux {
    if 0 <= source < |m.leds| then
      var leds := m.leds[source := Config(s)];
      Commit(m.(leds := leds), Decide(leds, m.cur, source))
    else m
  }

  /** The winner agrees with the table and the LED shows exactly the winner. */
  ghost predicate Inv(m: Mux) {
    && m.cur == Highest(m.leds)
    && Display(m.trace) == PanelOf(Shown(m.leds, m.cur))
  }

  lemma HighestIs(leds: seq<LedConfig>, w: int)
    requires -1 <= w < |leds|
    requires w >= 0 ==> Lit(leds[w])
    requires forall i :: w < i < |leds| ==> !Lit(leds[i])
    ensures Highest(leds) == w
  {
  }

  /** One call refines recomputation: the new winner is the highest lit source, and exactly one
      frame, showing that winner, goes out iff the caller is the old or the new winner. */
  lemma SetLightRecomputes(m: Mux, source: nat, s: LightState)
    requires Inv(m) && source < |m.leds|
    ensures Inv(SetLight(m, source, s))
    ensures var leds := m.leds[source := Config(s)];
            var w := Highest(leds);
            SetLight(m, source, s) ==
            Mux(leds, w, m.trace + if source == w || source == m.cur then Frame(Shown(leds, w)) else [])
  {
    var leds := m.leds[source := Config(s)];
    var m' := SetLight(m, source, s);
    HighestIs(leds, m'.cur);
    match Decide(leds, m.cur, source) {
      case Keep => assert m'.trace == m.trace + [];
      case Switch(led, next) => DisplayFrame(m.trace, led);
    }
  }

  lemma InitialInv(n: nat)
    ensures Inv(Initial(n))
  {
    HighestIs(Initial(n).leds, -1);
  }

  // ----- The same code in place

  class LightMux {
    const leds: array<LedConfig>
    var cur: int
    var trace: seq<Write>

    ghost function Value(): Mux
      reads this, leds
    {
      Mux(leds[..], cur, trace)
    }

    constructor (n: nat)
      ensures Value() == Initial(n) && fresh(leds)
    {
      leds := new LedConfig[n](_ => LED_OFF);
      cur := -1;
      trace := [];
    }

    method WriteLedsLocked(led: LedConfig)
      modifies this`trace
      ensures trace == old(trace) + Frame(led)
      ensures Display(trace) == PanelOf(led)
    {
      var red, green, blue := Red(led.colorRGB), Green(led.colorRGB), Blue(led.colorRGB);
      trace := trace + [WriteInt(RgbStart, 0)];
      trace := trace + [WriteInt(RedBrightness, red)];
      trace := trace + [WriteInt(GreenBrightness, green)];
      trace := trace + [WriteInt(BlueBrightness, blue)];
      trace := trace + [WriteOnOff(RedOnOff, led.onMS, led.offMS)];
      trace := trace + [WriteOnOff(GreenOnOff, led.onMS, led.offMS)];
      trace := trace + [WriteOnOff(BlueOnOff, led.onMS, led.offMS)];
      trace := trace + [WriteInt(RgbStart, 1)];
      DisplayFrame(old(trace), led);
    }

    /** The in-place code; from a state whose winner and display are right they stay right. */
    method SetLightLocked(s: LightState, source: int) returns (err: int)
      modifies this`cur, this`trace, leds
      ensures Value() == SetLight(old(Value()), source, s)
      ensures err == if 0 <= source < leds.Length then 0 else -22
      ensures old(Inv(Value())) ==> Inv(Value())
    {
      if source < 0 || source >= leds.Length {
        return -EINVAL;
      }
      ghost var before := Value();
      leds[source] := Config(s);
      assert leds[..] == before.leds[source := Config(s)];
      err := 0;
      if leds[source].colorRGB > 0 {
        if source >= cur {
          WriteLedsLocked(leds[source]);
          cur := source;
        }
      } else if source == cur {
        var i := source - 1;
        while i >= 0 && leds[i].colorRGB == 0
          invariant -1 <= i < source
          invariant LowerLit(leds[..], source) == LowerLit(leds[..], i + 1)
        {
          i := i - 1;
        }
        if i >= 0 {
          WriteLedsLocked(leds[i]);
        } else {
          WriteLedsLocked(LED_OFF);
        }
        cur := i;
      }
      if Inv(before) {
        SetLightRecomputes(before, source, s);
      }
    }
  }
}
