/** init.mt6582.usb.rc: the `sys.usb.config` triggers as a machine that executes one command at a time. */
module UsbGadget {
  import opened Options

  /** A gadget function, as named in the `functions` file. */
  datatype Func = Acm | Adb | MassStorage | Mtp | Ptp | Rndis | Accessory | AudioSource | Eem

  /** The values of `sys.usb.config` that have a trigger, and all others. */
  datatype Config =
    | CfgAcm | CfgAdb | CfgAdbAcm | CfgMassStorage | CfgMassStorageAdb | CfgMtp | CfgMtpAcm | CfgMtpAdb
    | CfgMtpAdbAcm | CfgMtpMassStorage | CfgMtpMassStorageAdb | CfgPtp | CfgPtpAcm | CfgPtpAdb | CfgPtpAdbAcm
    | CfgPtpMassStorage | CfgPtpMassStorageAdb | CfgRndis | CfgRndisAcm | CfgRndisAdb | CfgRndisAdbAcm
    | CfgMassStorageAcm | CfgMassStorageAdbAcm | CfgMtpMassStorageAcm | CfgMtpMassStorageAdbAcm
    | CfgPtpMassStorageAcm | CfgPtpMassStorageAdbAcm | CfgAccessory | CfgAccessoryAdb | CfgAudioSource
    | CfgAudioSourceAdb | CfgAccessoryAudioSource | CfgAccessoryAudioSourceAdb | CfgBicr | CfgBicrAdb
    | CfgBicrAdbAcm | CfgBicrAcm | CfgEem | CfgEemAcm | CfgEemAdb | CfgEemAdbAcm | CfgAcmThird | CfgGs3
    | CfgNone | CfgCharging | CfgOther(name: string)

  // ----- The script language

  datatype VendorSource = FromVid | Fixed(id: int)

  /** `$sys.usb.config`, or a fixed list that is spelled like a configuration. */
  datatype FunctionSource = FromConfig | Spelled(like: Config)

  datatype Cmd =
    | WriteEnable(on: bool)
    | WriteVendor(vendor: VendorSource)
    | WriteProduct(id: int)
    | WriteFunctions(source: FunctionSource)
    | WriteClass(cls: int)
    | WriteAcm(instances: bool, value: int)   // f_acm/instances or f_acm/port_index
    | WriteBicr                               // f_mass_storage/bicr 1
    | WriteLunFile                            // f_mass_storage/lun/file
    | SetState                                // setprop sys.usb.state
    | SetCharging                             // setprop sys.usb.charging yes
    | StartAdbd
    | StopAdbd

  /** The files that must not change under an enabled gadget. */
  predicate Reconfigures(c: Cmd) { c.WriteVendor? || c.WriteProduct? || c.WriteFunctions? || c.WriteClass? }

  // ----- The table

  datatype Setup = NoSetup | AcmInstances | AcmPort(index: int)
  datatype ClassChange = KeepClass | Class(id: int)

  /** What distinguishes one enabling trigger from another. */
  datatype Row = Row(vendor: VendorSource, product: int, setup: Setup, functions: FunctionSource,
                     cls: ClassChange, bicr: bool, adbd: bool)

  /** Media transfer. */
  function MtpRow(c: Config): Option<Row> {
    match c
    case CfgMtp => Some(Row(FromVid, 0x2008, NoSetup, FromConfig, KeepClass, false, false))
    case CfgMtpAcm => Some(Row(FromVid, 0x2012, AcmInstances, FromConfig, KeepClass, false, false))
    case CfgMtpAdb => Some(Row(FromVid, 0x0C02, NoSetup, Spelled(CfgMtpAdb), KeepClass, false, true))
    case CfgMtpAdbAcm => Some(Row(FromVid, 0x200A, AcmInstances, FromConfig, KeepClass, false, true))
    case CfgMtpMassStorage => Some(Row(FromVid, 0x2016, NoSetup, FromConfig, KeepClass, false, false))
    case CfgMtpMassStorageAdb => Some(Row(FromVid, 0x2017, NoSetup, FromConfig, KeepClass, false, true))
    case CfgMtpMassStorageAcm => Some(Row(FromVid, 0x2018, AcmInstances, FromConfig, KeepClass, false, false))
    case CfgMtpMassStorageAdbAcm => Some(Row(FromVid, 0x2019, AcmInstances, FromConfig, KeepClass, false, true))
    case _ => None
  }

  /** Picture transfer. */
  function PtpRow(c: Config): Option<Row> {
    match c
    case CfgPtp => Some(Row(FromVid, 0x200B, NoSetup, FromConfig, KeepClass, false, false))
    case CfgPtpAcm => Some(Row(FromVid, 0x2013, AcmInstances, FromConfig, KeepClass, false, false))
    case CfgPtpAdb => Some(Row(FromVid, 0x200C, NoSetup, FromConfig, KeepClass, false, true))
    case CfgPtpAdbAcm => Some(Row(FromVid, 0x200D, AcmInstances, FromConfig, KeepClass, false, true))
    case CfgPtpMassStorage => Some(Row(FromVid, 0x2015, NoSetup, FromConfig, KeepClass, false, false))
    case CfgPtpMassStorageAdb => Some(Row(FromVid, 0x2014, NoSetup, FromConfig, KeepClass, false, true))
    case CfgPtpMassStorageAcm => Some(Row(FromVid, 0x201A, AcmInstances, FromConfig, KeepClass, false, false))
    case CfgPtpMassStorageAdbAcm => Some(Row(FromVid, 0x201B, AcmInstances, FromConfig, KeepClass, false, true))
    case _ => None
  }

  /** Networking over USB. */
  function NetRow(c: Config): Option<Row> {
    match c
    case CfgRndis => Some(Row(FromVid, 0x0003, NoSetup, FromConfig, Class(224), false, false))
    case CfgRndisAcm => Some(Row(FromVid, 0x2011, AcmInstances, FromConfig, KeepClass, false, false))
    case CfgRndisAdb => Some(Row(FromVid, 0x0004, NoSetup, FromConfig, KeepClass, false, true))
    case CfgRndisAdbAcm => Some(Row(FromVid, 0x2010, AcmInstances, FromConfig, KeepClass, false, true))
    case CfgEem => Some(Row(FromVid, 0x2026, NoSetup, FromConfig, Class(224), false, false))
    case CfgEemAcm => Some(Row(FromVid, 0x2027, AcmInstances, FromConfig, KeepClass, false, false))
    case CfgEemAdb => Some(Row(FromVid, 0x2028, NoSetup, FromConfig, KeepClass, false, true))
    case CfgEemAdbAcm => Some(Row(FromVid, 0x2029, AcmInstances, FromConfig, KeepClass, false, true))
    case _ => None
  }

  /** Accessory and audio modes. */
  function AccessoryRow(c: Config): Option<Row> {
    match c
    case CfgAccessory => Some(Row(Fixed(0x18D1), 0x2D00, NoSetup, FromConfig, KeepClass, false, false))
    case CfgAccessoryAdb => Some(Row(Fixed(0x18D1), 0x2D01, NoSetup, FromConfig, KeepClass, false, true))
    case CfgAudioSource => Some(Row(Fixed(0x18D1), 0x2D02, NoSetup, FromConfig, KeepClass, false, false))
    case CfgAudioSourceAdb => Some(Row(Fixed(0x18D1), 0x2D03, NoSetup, FromConfig, KeepClass, false, true))
    case CfgAccessoryAudioSource => Some(Row(Fixed(0x18D1), 0x2D04, NoSetup, FromConfig, KeepClass, false, false))
    case CfgAccessoryAudioSourceAdb => Some(Row(Fixed(0x18D1), 0x2D05, NoSetup, FromConfig, KeepClass, false, true))
    case _ => None
  }

  /** Virtual CD-ROM and the extra serial ports. */
  function SpecialRow(c: Config): Option<Row> {
    match c
    case CfgBicr => Some(Row(FromVid, 0x0001, NoSetup, Spelled(CfgMassStorage), KeepClass, true, false))
    case CfgBicrAdb => Some(Row(FromVid, 0x0C03, NoSetup, Spelled(CfgMassStorageAdb), KeepClass, true, true))
    case CfgBicrAdbAcm => Some(Row(FromVid, 0x0005, AcmInstances, Spelled(CfgMassStorageAdbAcm), KeepClass, true, true))
    case CfgBicrAcm => Some(Row(FromVid, 0x200F, AcmInstances, Spelled(CfgMassStorageAcm), KeepClass, true, false))
    case CfgAcmThird => Some(Row(FromVid, 0x0005, AcmPort(3), Spelled(CfgMassStorageAdbAcm), KeepClass, false, true))
    case CfgGs3 => Some(Row(FromVid, 0x0005, AcmPort(4), Spelled(CfgMassStorageAdbAcm), KeepClass, false, true))
    case _ => None
  }

  /** Serial, debugging and mass storage. */
  function PlainRow(c: Config): Option<Row> {
    match c
    case CfgAcm => Some(Row(FromVid, 0x0006, AcmInstances, FromConfig, Class(2), false, false))
    case CfgAdb => Some(Row(FromVid, 0x0C01, NoSetup, FromConfig, KeepClass, false, true))
    case CfgAdbAcm => Some(Row(FromVid, 0x200E, AcmInstances, FromConfig, KeepClass, false, true))
    case CfgMassStorage => Some(Row(FromVid, 0x0001, NoSetup, FromConfig, KeepClass, false, false))
    case CfgMassStorageAdb => Some(Row(FromVid, 0x0C03, NoSetup, FromConfig, KeepClass, false, true))
    case CfgMassStorageAcm => Some(Row(FromVid, 0x200F, AcmInstances, FromConfig, KeepClass, false, false))
    case CfgMassStorageAdbAcm => Some(Row(FromVid, 0x0005, AcmInstances, FromConfig, KeepClass, false, true))
    case _ => None
  }

  /** The enabling trigger of a configuration. */
  function RowOf(c: Config): Option<Row> {
    if MtpRow(c).Some? then MtpRow(c)
    else if PtpRow(c).Some? then PtpRow(c)
    else if NetRow(c).Some? then NetRow(c)
    else if AccessoryRow(c).Some? then AccessoryRow(c)
    else if SpecialRow(c).Some? then SpecialRow(c)
    else PlainRow(c)
  }

  /** The names in a `sys.usb.config` value, where a trigger writes it to `functions`. */
  function Tokens(c: Config): seq<Func> {
    match c
    case CfgAcm => [Acm]
    case CfgAdb => [Adb]
    case CfgAdbAcm => [Adb, Acm]
    case CfgMassStorage => [MassStorage]
    case CfgMassStorageAdb => [MassStorage, Adb]
    case CfgMtp => [Mtp]
    case CfgMtpAcm => [Mtp, Acm]
    case CfgMtpAdb => [Mtp, Adb]
    case CfgMtpAdbAcm => [Mtp, Adb, Acm]
    case CfgMtpMassStorage => [Mtp, MassStorage]
    case CfgMtpMassStorageAdb => [Mtp, MassStorage, Adb]
    case CfgPtp => [Ptp]
    case CfgPtpAcm => [Ptp, Acm]
    case CfgPtpAdb => [Ptp, Adb]
    case CfgPtpAdbAcm => [Ptp, Adb, Acm]
    case CfgPtpMassStorage => [Ptp, MassStorage]
    case CfgPtpMassStorageAdb => [Ptp, MassStorage, Adb]
    case CfgRndis => [Rndis]
    case CfgRndisAcm => [Rndis, Acm]
    case CfgRndisAdb => [Rndis, Adb]
    case CfgRndisAdbAcm => [Rndis, Adb, Acm]
    case CfgMassStorageAcm => [MassStorage, Acm]
    case CfgMassStorageAdbAcm => [MassStorage, Adb, Acm]
    case CfgMtpMassStorageAcm => [Mtp, MassStorage, Acm]
    case CfgMtpMassStorageAdbAcm => [Mtp, MassStorage, Adb, Acm]
    case CfgPtpMassStorageAcm => [Ptp, MassStorage, Acm]
    case CfgPtpMassStorageAdbAcm => [Ptp, MassStorage, Adb, Acm]
    case CfgAccessory => [Accessory]
    case CfgAccessoryAdb => [Accessory, Adb]
    case CfgAudioSource => [AudioSource]
    case CfgAudioSourceAdb => [AudioSource, Adb]
    case CfgAccessoryAudioSource => [Accessory, AudioSource]
    case CfgAccessoryAudioSourceAdb => [Accessory, AudioSource, Adb]
    case CfgEem => [Eem]
    case CfgEemAcm => [Eem, Acm]
    case CfgEemAdb => [Eem, Adb]
    case CfgEemAdbAcm => [Eem, Adb, Acm]
    case _ => []
  }

  function SetupCmds(s: Setup): seq<Cmd> {
    match s
    case NoSetup => []
    case AcmInstances => [WriteAcm(true, 1)]
    case AcmPort(i) => [WriteAcm(false, i)]
  }

  function ClassCmds(k: ClassChange): seq<Cmd> {
    match k
    case KeepClass => []
    case Class(i) => [WriteClass(i)]
  }

  function BicrCmds(on: bool): seq<Cmd> { if on then [WriteBicr, WriteLunFile] else [] }

  /** The reconfiguring middle of an enabling trigger. */
  function Body(r: Row): seq<Cmd> {
    [WriteVendor(r.vendor), WriteProduct(r.product)] + SetupCmds(r.setup)
    + [WriteFunctions(r.functions)] + ClassCmds(r.cls) + BicrCmds(r.bicr)
  }

  function Tail(r: Row): seq<Cmd> { (if r.adbd then [StartAdbd] else []) + [SetState] }

  /** The commands of a trigger. */
  function Script(c: Config): seq<Cmd> {
    match RowOf(c)
    case Some(r) => [WriteEnable(false)] + Body(r) + [WriteEnable(true)] + Tail(r)
    case None =>
      if c.CfgNone? then [StopAdbd, WriteEnable(false), WriteClass(0), SetState]
      else if c.CfgCharging? then [SetState, SetCharging]
      else []
  }

  // ----- The machine

  /** The function drivers' own files, and the two properties: `lun` is the CD-ROM image in the lun file. */
  datatype Side = Side(instances: int, port: int, bicr: bool, lun: bool, state: Config, charging: bool)

  /** The gadget files and the daemon. */
  datatype View = View(enabled: bool, vendor: int, product: int, functions: seq<Func>, cls: int, adbd: bool, side: Side)

  function Spelling(f: FunctionSource, c: Config): Config { if f.FromConfig? then c else f.like }

  function Resolve(f: FunctionSource, c: Config): seq<Func> { Tokens(Spelling(f, c)) }

  /** What `$sys.usb.config` and `$sys.usb.vid` stand for while a trigger runs. */
  datatype Context = Context(config: Config, vid: int)

  function Effect(v: View, c: Context, cmd: Cmd): View {
    match cmd
    case WriteEnable(on) => v.(enabled := on)
    case WriteVendor(src) => v.(vendor := if src.FromVid? then c.vid else src.id)
    case WriteProduct(id) => v.(product := id)
    case WriteFunctions(f) => v.(functions := Resolve(f, c.config))
    case WriteClass(k) => v.(cls := k)
    case WriteAcm(instances, n) => v.(side := if instances then v.side.(instances := n) else v.side.(port := n))
    case WriteBicr => v.(side := v.side.(bicr := true))
    case WriteLunFile => v.(side := v.side.(lun := true))
    case SetState => v.(side := v.side.(state := c.config))
    case SetCharging => v.(side := v.side.(charging := true))
    case StartAdbd => v.(adbd := true)
    case StopAdbd => v.(adbd := false)
  }

  /** `vid` is `sys.usb.vid`, set once at boot; `todo` is what is left of the running trigger. */
  datatype Machine = Machine(view: View, vid: int, config: Config, todo: seq<Cmd>)
  {
    function Ctx(): Context { Context(config, vid) }
  }

  /** A new configuration is set only when the last trigger has run. */
  datatype Action = Choose(config: Config) | Tick

  function Step(m: Machine, a: Action): Option<Machine> {
    match a
    case Choose(c) => if m.todo == [] then Some(m.(config := c, todo := Script(c))) else None
    case Tick =>
      if m.todo == [] then None else Some(m.(view := Effect(m.view, m.Ctx(), m.todo[0]), todo := m.todo[1..]))
  }

  function Exec(start: Machine, actions: seq<Action>): Option<Machine> {
    if actions == [] then Some(start)
    else
      var m := Exec(start, actions[..|actions| - 1]);
      if m.None? then None else Step(m.value, actions[|actions| - 1])
  }

  /** Boot: nothing running, the gadget disabled. */
  predicate Booted(m: Machine) { !m.view.enabled && !m.view.adbd && m.view.cls == 0 && m.todo == [] }

  // ----- Scripts that disable, reconfigure, enable

  /** The plain configuration whose functions belong to a product id, by families of ids. */
  function OwnerConfig(p: int): Config {
    if p < 0x0010 then
      (match p
       case 0x0001 => CfgMassStorage
       case 0x0003 => CfgRndis
       case 0x0004 => CfgRndisAdb
       case 0x0005 => CfgMassStorageAdbAcm
       case 0x0006 => CfgAcm
       case _ => CfgNone)
    else if p < 0x1000 then
      (match p
       case 0x0C01 => CfgAdb
       case 0x0C02 => CfgMtpAdb
       case 0x0C03 => CfgMassStorageAdb
       case _ => CfgNone)
    else if p < 0x2010 then
      (match p
       case 0x2008 => CfgMtp
       case 0x200A => CfgMtpAdbAcm
       case 0x200B => CfgPtp
       case 0x200C => CfgPtpAdb
       case 0x200D => CfgPtpAdbAcm
       case 0x200E => CfgAdbAcm
       case 0x200F => CfgMassStorageAcm
       case _ => CfgNone)
    else if p < 0x2020 then
      (match p
       case 0x2010 => CfgRndisAdbAcm
       case 0x2011 => CfgRndisAcm
       case 0x2012 => CfgMtpAcm
       case 0x2013 => CfgPtpAcm
       case 0x2014 => CfgPtpMassStorageAdb
       case 0x2015 => CfgPtpMassStorage
       case 0x2016 => CfgMtpMassStorage
       case 0x2017 => CfgMtpMassStorageAdb
       case 0x2018 => CfgMtpMassStorageAcm
       case 0x2019 => CfgMtpMassStorageAdbAcm
       case 0x201A => CfgPtpMassStorageAcm
       case 0x201B => CfgPtpMassStorageAdbAcm
       case _ => CfgNone)
    else if p < 0x2D00 then
      (match p
       case 0x2026 => CfgEem
       case 0x2027 => CfgEemAcm
       case 0x2028 => CfgEemAdb
       case 0x2029 => CfgEemAdbAcm
       case _ => CfgNone)
    else
      (match p
       case 0x2D00 => CfgAccessory
       case 0x2D01 => CfgAccessoryAdb
       case 0x2D02 => CfgAudioSource
       case 0x2D03 => CfgAudioSourceAdb
       case 0x2D04 => CfgAccessoryAudioSource
       case 0x2D05 => CfgAccessoryAudioSourceAdb
       case _ => CfgNone)
  }

  /** The function list that belongs to a product id. */
  function Owner(p: int): seq<Func> { Tokens(OwnerConfig(p)) }

  /** Accessory products carry the fixed vendor id 18d1, all others that of the device. */
  function VendorFor(p: int, vid: int): int { if 0x2D00 <= p <= 0x2D05 then 0x18D1 else vid }

  predicate Consistent(v: View, vid: int) { v.functions == Owner(v.product) && v.vendor == VendorFor(v.product, vid) }

  /** Run to the end, a script reconfigures only while disabled and enables only a product together
      with its own vendor and functions. */
  predicate Careful(cmds: seq<Cmd>, v: View, c: Context) {
    cmds == []
    || (&& (Reconfigures(cmds[0]) ==> !v.enabled)
        && (cmds[0] == WriteEnable(true) ==> Consistent(v, c.vid))
        && Careful(cmds[1..], Effect(v, c, cmds[0]), c))
  }

  function Play(cmds: seq<Cmd>, v: View, c: Context): View {
    if cmds == [] then v else Play(cmds[1..], Effect(v, c, cmds[0]), c)
  }

  lemma PlayNothing(v: View, c: Context)
    ensures Play([], v, c) == v
  {
  }

  lemma PlayOne(cmd: Cmd, v: View, c: Context)
    ensures Play([cmd], v, c) == Effect(v, c, cmd)
  {
    assert [cmd][1..] == [];
  }

  lemma PlayTwo(cmd: Cmd, next: Cmd, v: View, c: Context)
    ensures Play([cmd, next], v, c) == Effect(Effect(v, c, cmd), c, next)
  {
    assert [cmd, next][1..] == [next];
    PlayOne(next, Effect(v, c, cmd), c);
  }

  lemma {:induction false} CarefulConcat(a: seq<Cmd>, b: seq<Cmd>, v: View, c: Context)
    requires Careful(a, v, c) && Careful(b, Play(a, v, c), c)
    ensures Careful(a + b, v, c)
  {
    if a == [] {
      assert a + b == b;
    } else {
      assert (a + b)[1..] == a[1..] + b;
      CarefulConcat(a[1..], b, Effect(v, c, a[0]), c);
    }
  }

  lemma {:induction false} PlayConcat(a: seq<Cmd>, b: seq<Cmd>, v: View, c: Context)
    ensures Play(a + b, v, c) == Play(b, Play(a, v, c), c)
  {
    if a == [] {
      assert a + b == b;
    } else {
      assert (a + b)[1..] == a[1..] + b;
      PlayConcat(a[1..], b, Effect(v, c, a[0]), c);
    }
  }

  predicate NoEnable(cmds: seq<Cmd>) { forall i :: 0 <= i < |cmds| ==> !cmds[i].WriteEnable? }

  /** Without a switch of the enable file, anything may run on a disabled gadget. */
  lemma {:induction false} CarefulWhileDisabled(cmds: seq<Cmd>, v: View, c: Context)
    requires NoEnable(cmds) && !v.enabled
    ensures Careful(cmds, v, c) && !Play(cmds, v, c).enabled
  {
    if cmds != [] {
      CarefulWhileDisabled(cmds[1..], Effect(v, c, cmds[0]), c);
    }
  }

  lemma {:induction false} CarefulTail(cmds: seq<Cmd>, v: View, c: Context)
    requires NoEnable(cmds) && forall i :: 0 <= i < |cmds| ==> !Reconfigures(cmds[i])
    ensures Careful(cmds, v, c)
  {
    if cmds != [] {
      CarefulTail(cmds[1..], Effect(v, c, cmds[0]), c);
    }
  }

  /** The generic theorem: disable, reconfigure to a product with its own functions, enable, and leave
      the gadget files alone; such a script is careful from every state. */
  lemma DisableReconfigureEnable(body: seq<Cmd>, tail: seq<Cmd>, v: View, c: Context)
    requires NoEnable(body) && NoEnable(tail) && forall i :: 0 <= i < |tail| ==> !Reconfigures(tail[i])
    requires Consistent(Play(body, v.(enabled := false), c), c.vid)
    ensures Careful([WriteEnable(false)] + body + [WriteEnable(true)] + tail, v, c)
  {
    hide Consistent, Tokens;
    var off, on := [WriteEnable(false)], [WriteEnable(true)];
    var v1 := v.(enabled := false);
    PlayOne(WriteEnable(false), v, c);
    CarefulOne(WriteEnable(false), v, c);
    CarefulWhileDisabled(body, v1, c);
    var w := Play(body, v1, c);
    CarefulOne(WriteEnable(true), w, c);
    hide Play, Careful, NoEnable;
    CarefulConcat(off, body, v, c);
    PlayConcat(off, body, v, c);
    CarefulConcat(off + body, on, v, c);
    CarefulTail(tail, Play(off + body + on, v, c), c);
    CarefulConcat(off + body + on, tail, v, c);
  }

  lemma CarefulOne(cmd: Cmd, v: View, c: Context)
    requires Reconfigures(cmd) ==> !v.enabled
    requires cmd == WriteEnable(true) ==> Consistent(v, c.vid)
    ensures Careful([cmd], v, c)
  {
    hide Consistent;
    assert [cmd][1..] == [];
  }

  // ----- The table meets it

  /** The configurations whose serial driver gets a port index of its own. */
  predicate HasOwnPort(c: Config) { c.CfgAcmThird? || c.CfgGs3? }

  predicate IsBicr(c: Config) { c.CfgBicr? || c.CfgBicrAdb? || c.CfgBicrAdbAcm? || c.CfgBicrAcm? }

  /** The class a configuration sets: communications, wireless, or none of its own. */
  function ClassOf(c: Config, before: int): int {
    if c.CfgAcm? then 2 else if c.CfgRndis? || c.CfgEem? then 224 else before
  }

  /** The product owns the functions and the vendor written, adbd is started iff the functions include
      adb, one serial instance is set up iff they include acm and no port index is given, and the CD-ROM
      is set up for the bicr configurations. */
  predicate RowGood(c: Config, r: Row, vid: int) {
    && OwnerConfig(r.product) == Spelling(r.functions, c)
    && (r.adbd <==> Adb in Resolve(r.functions, c))
    && VendorFor(r.product, vid) == (if r.vendor.FromVid? then vid else r.vendor.id)
    && (r.setup.AcmInstances? <==> Acm in Resolve(r.functions, c) && !HasOwnPort(c))
    && (r.setup.AcmPort? <==> HasOwnPort(c))
    && (r.setup.AcmPort? ==> r.setup.index == if c.CfgGs3? then 4 else 3)
    && r.bicr == IsBicr(c)
    && r.cls == (if c.CfgAcm? then Class(2) else if c.CfgRndis? || c.CfgEem? then Class(224) else KeepClass)
  }

  lemma MtpRowGood(c: Config, vid: int)
    requires MtpRow(c).Some?
    ensures RowGood(c, MtpRow(c).value, vid)
  {
  }

  lemma PtpRowGood(c: Config, vid: int)
    requires PtpRow(c).Some?
    ensures RowGood(c, PtpRow(c).value, vid)
  {
  }

  lemma NetRowGood(c: Config, vid: int)
    requires NetRow(c).Some?
    ensures RowGood(c, NetRow(c).value, vid)
  {
  }

  lemma AccessoryRowGood(c: Config, vid: int)
    requires AccessoryRow(c).Some?
    ensures RowGood(c, AccessoryRow(c).value, vid)
  {
  }

  lemma SpecialRowGood(c: Config, vid: int)
    requires SpecialRow(c).Some?
    ensures RowGood(c, SpecialRow(c).value, vid)
  {
  }

  lemma PlainRowGood(c: Config, vid: int)
    requires PlainRow(c).Some?
    ensures RowGood(c, PlainRow(c).value, vid)
  {
  }

  /** Every row of the table. */
  lemma RowIsConsistent(c: Config, vid: int)
    requires RowOf(c).Some?
    ensures RowGood(c, RowOf(c).value, vid)
  {
    hide RowGood, MtpRow, PtpRow, NetRow, AccessoryRow, SpecialRow, PlainRow;
    if MtpRow(c).Some? {
      MtpRowGood(c, vid);
    } else if PtpRow(c).Some? {
      PtpRowGood(c, vid);
    } else if NetRow(c).Some? {
      NetRowGood(c, vid);
    } else if AccessoryRow(c).Some? {
      AccessoryRowGood(c, vid);
    } else if SpecialRow(c).Some? {
      SpecialRowGood(c, vid);
    } else {
      PlainRowGood(c, vid);
    }
  }

  lemma BodyNeverEnables(r: Row)
    ensures NoEnable(Body(r))
  {
    assert NoEnable(SetupCmds(r.setup)) && NoEnable(ClassCmds(r.cls)) && NoEnable(BicrCmds(r.bicr));
  }

  function SetupSide(s: Setup, side: Side): Side {
    match s
    case NoSetup => side
    case AcmInstances => side.(instances := 1)
    case AcmPort(i) => side.(port := i)
  }

  function BicrSide(on: bool, side: Side): Side { if on then side.(bicr := true, lun := true) else side }

  lemma SetupOutcome(s: Setup, v: View, c: Context)
    ensures Play(SetupCmds(s), v, c) == v.(side := SetupSide(s, v.side))
  {
    hide Play;
    match s
    case NoSetup => PlayNothing(v, c);
    case AcmInstances => PlayOne(WriteAcm(true, 1), v, c);
    case AcmPort(i) => PlayOne(WriteAcm(false, i), v, c);
  }

  lemma ClassOutcome(k: ClassChange, v: View, c: Context)
    ensures Play(ClassCmds(k), v, c) == v.(cls := if k.KeepClass? then v.cls else k.id)
  {
    hide Play;
    match k
    case KeepClass => PlayNothing(v, c);
    case Class(i) => PlayOne(WriteClass(i), v, c);
  }

  lemma BicrOutcome(on: bool, v: View, c: Context)
    ensures Play(BicrCmds(on), v, c) == v.(side := BicrSide(on, v.side))
  {
    hide Play;
    if on {
      PlayTwo(WriteBicr, WriteLunFile, v, c);
    } else {
      PlayNothing(v, c);
    }
  }

  lemma BodyOutcome(r: Row, v: View, c: Context)
    ensures Play(Body(r), v, c) ==
            v.(vendor := if r.vendor.FromVid? then c.vid else r.vendor.id, product := r.product,
            functions := Resolve(r.functions, c.config), cls := if r.cls.KeepClass? then v.cls else r.cls.id,
            side := BicrSide(r.bicr, SetupSide(r.setup, v.side)))
  {
    hide Play, Tokens, SetupCmds, ClassCmds, BicrCmds;
    var a, d := [WriteVendor(r.vendor), WriteProduct(r.product)], [WriteFunctions(r.functions)];
    var s, k, b := SetupCmds(r.setup), ClassCmds(r.cls), BicrCmds(r.bicr);
    PlayConcat(a + s + d + k, b, v, c);
    PlayConcat(a + s + d, k, v, c);
    PlayConcat(a + s, d, v, c);
    PlayConcat(a, s, v, c);
    PlayTwo(WriteVendor(r.vendor), WriteProduct(r.product), v, c);
    var v1 := v.(vendor := if r.vendor.FromVid? then c.vid else r.vendor.id, product := r.product);
    SetupOutcome(r.setup, v1, c);
    var v2 := v1.(side := SetupSide(r.setup, v.side));
    PlayOne(WriteFunctions(r.functions), v2, c);
    var v3 := v2.(functions := Resolve(r.functions, c.config));
    ClassOutcome(r.cls, v3, c);
    BicrOutcome(r.bicr, Play(k, v3, c), c);
  }

  lemma OtherScriptIsCareful(c: Context, v: View)
    requires RowOf(c.config).None?
    ensures Careful(Script(c.config), v, c)
  {
    hide Consistent, RowOf;
    var script := Script(c.config);
    if c.config.CfgNone? {
      var a, b := [StopAdbd, WriteEnable(false)], [WriteClass(0), SetState];
      assert script == a + b;
      assert a[1..] == [WriteEnable(false)] && a[1..][1..] == [];
      PlayTwo(StopAdbd, WriteEnable(false), v, c);
      CarefulWhileDisabled(b, Play(a, v, c), c);
      CarefulConcat(a, b, v, c);
    } else {
      CarefulTail(script, v, c);
    }
  }

  lemma ScriptIsCareful(c: Context, v: View)
    ensures Careful(Script(c.config), v, c)
  {
    hide Body, Play, OwnerConfig, VendorFor, Careful, RowOf, Tokens;
    match RowOf(c.config) {
      case Some(r) =>
        RowIsConsistent(c.config, c.vid);
        BodyNeverEnables(r);
        BodyOutcome(r, v.(enabled := false), c);
        DisableReconfigureEnable(Body(r), Tail(r), v, c);
      case None => OtherScriptIsCareful(c, v);
    }
  }

  // ----- The table, trigger by trigger

  /** The trigger writes this product id and these names to `functions`. */
  predicate Writes(c: Config, product: int, names: seq<Func>) {
    match RowOf(c)
    case Some(r) => r.product == product && Resolve(r.functions, c) == names
    case None => false
  }

  lemma MtpRowOnly(c: Config)
    requires MtpRow(c).Some?
    ensures RowOf(c) == MtpRow(c)
  {
  }

  lemma MtpRowWritten(c: Config)
    ensures c == CfgMtp ==> Writes(c, 0x2008, [Mtp])
    ensures c == CfgMtpAcm ==> Writes(c, 0x2012, [Mtp, Acm])
    ensures c == CfgMtpAdb ==> Writes(c, 0x0C02, [Mtp, Adb])
    ensures c == CfgMtpAdbAcm ==> Writes(c, 0x200A, [Mtp, Adb, Acm])
    ensures c == CfgMtpMassStorage ==> Writes(c, 0x2016, [Mtp, MassStorage])
    ensures c == CfgMtpMassStorageAdb ==> Writes(c, 0x2017, [Mtp, MassStorage, Adb])
    ensures c == CfgMtpMassStorageAcm ==> Writes(c, 0x2018, [Mtp, MassStorage, Acm])
    ensures c == CfgMtpMassStorageAdbAcm ==> Writes(c, 0x2019, [Mtp, MassStorage, Adb, Acm])
  {
    hide RowOf;
    if MtpRow(c).Some? {
      MtpRowOnly(c);
    }
  }

  lemma PtpRowOnly(c: Config)
    requires PtpRow(c).Some?
    ensures RowOf(c) == PtpRow(c)
  {
  }

  lemma PtpRowWritten(c: Config)
    ensures c == CfgPtp ==> Writes(c, 0x200B, [Ptp])
    ensures c == CfgPtpAcm ==> Writes(c, 0x2013, [Ptp, Acm])
    ensures c == CfgPtpAdb ==> Writes(c, 0x200C, [Ptp, Adb])
    ensures c == CfgPtpAdbAcm ==> Writes(c, 0x200D, [Ptp, Adb, Acm])
    ensures c == CfgPtpMassStorage ==> Writes(c, 0x2015, [Ptp, MassStorage])
    ensures c == CfgPtpMassStorageAdb ==> Writes(c, 0x2014, [Ptp, MassStorage, Adb])
    ensures c == CfgPtpMassStorageAcm ==> Writes(c, 0x201A, [Ptp, MassStorage, Acm])
    ensures c == CfgPtpMassStorageAdbAcm ==> Writes(c, 0x201B, [Ptp, MassStorage, Adb, Acm])
  {
    hide RowOf;
    if PtpRow(c).Some? {
      PtpRowOnly(c);
    }
  }

  lemma NetRowOnly(c: Config)
    requires NetRow(c).Some?
    ensures RowOf(c) == NetRow(c)
  {
  }

  lemma NetRowWritten(c: Config)
    ensures c == CfgRndis ==> Writes(c, 0x0003, [Rndis])
    ensures c == CfgRndisAcm ==> Writes(c, 0x2011, [Rndis, Acm])
    ensures c == CfgRndisAdb ==> Writes(c, 0x0004, [Rndis, Adb])
    ensures c == CfgRndisAdbAcm ==> Writes(c, 0x2010, [Rndis, Adb, Acm])
    ensures c == CfgEem ==> Writes(c, 0x2026, [Eem])
    ensures c == CfgEemAcm ==> Writes(c, 0x2027, [Eem, Acm])
    ensures c == CfgEemAdb ==> Writes(c, 0x2028, [Eem, Adb])
    ensures c == CfgEemAdbAcm ==> Writes(c, 0x2029, [Eem, Adb, Acm])
  {
    hide RowOf;
    if NetRow(c).Some? {
      NetRowOnly(c);
    }
  }

  lemma AccessoryRowOnly(c: Config)
    requires AccessoryRow(c).Some?
    ensures RowOf(c) == AccessoryRow(c)
  {
  }

  lemma AccessoryRowWritten(c: Config)
    ensures c == CfgAccessory ==> Writes(c, 0x2D00, [Accessory])
    ensures c == CfgAccessoryAdb ==> Writes(c, 0x2D01, [Accessory, Adb])
    ensures c == CfgAudioSource ==> Writes(c, 0x2D02, [AudioSource])
    ensures c == CfgAudioSourceAdb ==> Writes(c, 0x2D03, [AudioSource, Adb])
    ensures c == CfgAccessoryAudioSource ==> Writes(c, 0x2D04, [Accessory, AudioSource])
    ensures c == CfgAccessoryAudioSourceAdb ==> Writes(c, 0x2D05, [Accessory, AudioSource, Adb])
  {
    hide RowOf;
    if AccessoryRow(c).Some? {
      AccessoryRowOnly(c);
    }
  }

  lemma SpecialRowOnly(c: Config)
    requires SpecialRow(c).Some?
    ensures RowOf(c) == SpecialRow(c)
  {
  }

  lemma SpecialRowWritten(c: Config)
    ensures c == CfgBicr ==> Writes(c, 0x0001, [MassStorage])
    ensures c == CfgBicrAdb ==> Writes(c, 0x0C03, [MassStorage, Adb])
    ensures c == CfgBicrAdbAcm ==> Writes(c, 0x0005, [MassStorage, Adb, Acm])
    ensures c == CfgBicrAcm ==> Writes(c, 0x200F, [MassStorage, Acm])
    ensures c == CfgAcmThird ==> Writes(c, 0x0005, [MassStorage, Adb, Acm])
    ensures c == CfgGs3 ==> Writes(c, 0x0005, [MassStorage, Adb, Acm])
  {
    hide RowOf;
    if SpecialRow(c).Some? {
      SpecialRowOnly(c);
    }
  }

  lemma PlainRowOnly(c: Config)
    requires PlainRow(c).Some?
    ensures RowOf(c) == PlainRow(c)
  {
  }

  lemma PlainRowWritten(c: Config)
    ensures c == CfgAcm ==> Writes(c, 0x0006, [Acm])
    ensures c == CfgAdb ==> Writes(c, 0x0C01, [Adb])
    ensures c == CfgAdbAcm ==> Writes(c, 0x200E, [Adb, Acm])
    ensures c == CfgMassStorage ==> Writes(c, 0x0001, [MassStorage])
    ensures c == CfgMassStorageAdb ==> Writes(c, 0x0C03, [MassStorage, Adb])
    ensures c == CfgMassStorageAcm ==> Writes(c, 0x200F, [MassStorage, Acm])
    ensures c == CfgMassStorageAdbAcm ==> Writes(c, 0x0005, [MassStorage, Adb, Acm])
  {
    hide RowOf;
    if PlainRow(c).Some? {
      PlainRowOnly(c);
    }
  }

  // ----- Every reachable state, in the middle of a trigger or not

  predicate SafeNow(m: Machine) { m.view.enabled ==> Consistent(m.view, m.vid) }

  lemma {:induction false} RunIsSafe(start: Machine, actions: seq<Action>)
    requires Booted(start) && Exec(start, actions).Some?
    ensures var m := Exec(start, actions).value; Careful(m.todo, m.view, m.Ctx()) && SafeNow(m) && m.vid == start.vid
  {
    hide Owner, VendorFor, Script;
    if actions != [] {
      RunIsSafe(start, actions[..|actions| - 1]);
      var m := Exec(start, actions[..|actions| - 1]).value;
      match actions[|actions| - 1] {
        case Choose(c) => ScriptIsCareful(Context(c, m.vid), m.view);
        case Tick =>
      }
    }
  }

  /** At every step of every run, vendor, product, functions and class are written only while the
      gadget is disabled. */
  lemma ReconfiguresOnlyWhileDisabled(start: Machine, actions: seq<Action>)
    requires Booted(start) && Exec(start, actions).Some?
    ensures var m := Exec(start, actions).value;
            m.todo != [] && Reconfigures(m.todo[0]) ==> !m.view.enabled
  {
    hide Owner;
    RunIsSafe(start, actions);
  }

  /** Across all runs, enabled gadgets with the same product id offer the same functions, and show the
      accessory vendor exactly for the accessory products. */
  lemma ProductDeterminesFunctions(s1: Machine, a1: seq<Action>, s2: Machine, a2: seq<Action>)
    requires Booted(s1) && Booted(s2) && Exec(s1, a1).Some? && Exec(s2, a2).Some?
    ensures var v1, v2 := Exec(s1, a1).value.view, Exec(s2, a2).value.view;
            && (v1.enabled && v2.enabled && v1.product == v2.product ==> v1.functions == v2.functions)
            && (v1.enabled ==> v1.vendor == if 0x2D00 <= v1.product <= 0x2D05 then 0x18D1 else s1.vid)
  {
    hide Owner;
    RunIsSafe(s1, a1);
    RunIsSafe(s2, a2);
  }

  // ----- After each trigger

  function Choices(actions: seq<Action>): seq<Config> {
    if actions == [] then []
    else Choices(actions[..|actions| - 1]) + if actions[|actions| - 1].Choose? then [actions[|actions| - 1].config] else []
  }

  /** The view after a list of configurations, each trigger run to its end. */
  function Settled(v: View, vid: int, cs: seq<Config>): View {
    if cs == [] then v
    else Play(Script(cs[|cs| - 1]), Settled(v, vid, cs[..|cs| - 1]), Context(cs[|cs| - 1], vid))
  }

  lemma TickSettles(m: Machine)
    requires m.todo != []
    ensures var n := Step(m, Tick).value;
            n.vid == m.vid && Play(n.todo, n.view, n.Ctx()) == Play(m.todo, m.view, m.Ctx())
  {
    hide Effect;
  }

  lemma SettledSnoc(v: View, vid: int, cs: seq<Config>, c: Config)
    ensures Settled(v, vid, cs + [c]) == Play(Script(c), Settled(v, vid, cs), Context(c, vid))
  {
    hide Play, Script;
    assert (cs + [c])[..|cs|] == cs;
  }

  lemma {:induction false} RunSettles(start: Machine, actions: seq<Action>)
    requires Booted(start) && Exec(start, actions).Some?
    ensures var m := Exec(start, actions).value;
            m.vid == start.vid && Play(m.todo, m.view, m.Ctx()) == Settled(start.view, start.vid, Choices(actions))
  {
    if actions == [] {
      PlayNothing(start.view, start.Ctx());
    } else {
      hide Script, Effect, Settled, Play;
      var p, a := actions[..|actions| - 1], actions[|actions| - 1];
      RunSettles(start, p);
      var m := Exec(start, p).value;
      match a {
        case Choose(c) =>
          PlayNothing(m.view, m.Ctx());
          SettledSnoc(start.view, start.vid, Choices(p), c);
        case Tick =>
          TickSettles(m);
          assert Choices(actions) == Choices(p);
      }
    }
  }

  predicate Enables(c: Config) { RowOf(c).Some? }

  predicate EnablesAdb(c: Config) { RowOf(c).Some? && RowOf(c).value.adbd }

  /** What one whole trigger does to the view. */
  lemma TriggerOutcome(c: Config, vid: int, v: View)
    ensures var w := Play(Script(c), v, Context(c, vid));
            && (Enables(c) ==>
                  && w.enabled && w.functions == Resolve(RowOf(c).value.functions, c) == Owner(w.product)
                  && w.product == RowOf(c).value.product && w.vendor == VendorFor(w.product, vid)
                  && w.adbd == (v.adbd || EnablesAdb(c)) && EnablesAdb(c) == (Adb in w.functions)
                  && w.cls == (if c.CfgAcm? then 2 else if c.CfgRndis? || c.CfgEem? then 224 else v.cls)
                  && w.side.instances == (if Acm in w.functions && !HasOwnPort(c) then 1 else v.side.instances)
                  && w.side.port == (if c.CfgAcmThird? then 3 else if c.CfgGs3? then 4 else v.side.port)
                  && w.side.bicr == (v.side.bicr || IsBicr(c)) && w.side.lun == (v.side.lun || IsBicr(c))
                  && w.side.state == c && w.side.charging == v.side.charging)
            && (c.CfgNone? ==> w == v.(enabled := false, adbd := false, cls := 0, side := v.side.(state := c)))
            && (c.CfgCharging? ==> w == v.(side := v.side.(state := c, charging := true)))
            && (!Enables(c) && !c.CfgNone? && !c.CfgCharging? ==> w == v)
  {
    hide RowOf, Tokens, Play, Body, Tail, OwnerConfig;
    NoneHasNoRow(c);
    var x := Context(c, vid);
    match RowOf(c) {
      case Some(r) =>
        RowIsConsistent(c, vid);
        var off, on := [WriteEnable(false)], [WriteEnable(true)];
        PlayConcat(off + Body(r) + on, Tail(r), v, x);
        PlayConcat(off + Body(r), on, v, x);
        PlayConcat(off, Body(r), v, x);
        PlayOne(WriteEnable(false), v, x);
        BodyOutcome(r, v.(enabled := false), x);
        PlayOne(WriteEnable(true), Play(off + Body(r), v, x), x);
        TailOutcome(r, Play(off + Body(r) + on, v, x), x);
      case None => OtherOutcome(x, v);
    }
  }

  lemma NoneHasNoRow(c: Config)
    ensures c.CfgNone? || c.CfgCharging? ==> RowOf(c).None?
  {
  }

  lemma OtherOutcome(c: Context, v: View)
    requires RowOf(c.config).None?
    ensures Play(Script(c.config), v, c) ==
            if c.config.CfgNone? then v.(enabled := false, adbd := false, cls := 0, side := v.side.(state := c.config))
            else if c.config.CfgCharging? then v.(side := v.side.(state := c.config, charging := true))
            else v
  {
    hide RowOf;
    if c.config.CfgNone? {
      var a: seq<Cmd>, b: seq<Cmd> := [StopAdbd, WriteEnable(false)], [WriteClass(0), SetState];
      assert Script(c.config) == a + b;
      PlayConcat(a, b, v, c);
      PlayTwo(StopAdbd, WriteEnable(false), v, c);
      PlayTwo(WriteClass(0), SetState, Play(a, v, c), c);
    } else if c.config.CfgCharging? {
      PlayTwo(SetState, SetCharging, v, c);
    }
  }

  lemma TailOutcome(r: Row, v: View, c: Context)
    ensures Play(Tail(r), v, c) == v.(adbd := v.adbd || r.adbd, side := v.side.(state := c.config))
  {
    if r.adbd {
      assert Tail(r) == [StartAdbd, SetState];
      PlayTwo(StartAdbd, SetState, v, c);
    } else {
      assert Tail(r) == [SetState];
      PlayOne(SetState, v, c);
    }
  }

  /** The gadget shows adb exactly when adbd runs. */
  predicate AdbdMatches(v: View) { v.adbd <==> v.enabled && Adb in v.functions }

  /** Some adb configuration has not been followed by `none`. */
  ghost predicate AdbSinceNone(cs: seq<Config>) {
    exists i :: 0 <= i < |cs| && EnablesAdb(cs[i]) && forall j :: i < j < |cs| ==> !cs[j].CfgNone?
  }

  /** The latest enabling configuration has adb and has not been followed by `none`. */
  ghost predicate ShowsAdb(cs: seq<Config>) {
    exists i :: 0 <= i < |cs| && EnablesAdb(cs[i]) && forall j :: i < j < |cs| ==> !cs[j].CfgNone? && !Enables(cs[j])
  }

  lemma AdbSinceNoneSnoc(cs: seq<Config>, c: Config)
    ensures AdbSinceNone(cs + [c]) <==> EnablesAdb(c) || (AdbSinceNone(cs) && !c.CfgNone?)
  {
    hide EnablesAdb;
    var ds := cs + [c];
    if EnablesAdb(c) {
      assert ds[|cs|] == c;
    } else if AdbSinceNone(cs) && !c.CfgNone? {
      var i :| 0 <= i < |cs| && EnablesAdb(cs[i]) && forall j :: i < j < |cs| ==> !cs[j].CfgNone?;
      assert EnablesAdb(ds[i]) && forall j :: i < j < |ds| ==> !ds[j].CfgNone?;
    }
    if AdbSinceNone(ds) && !EnablesAdb(c) {
      var i :| 0 <= i < |ds| && EnablesAdb(ds[i]) && forall j :: i < j < |ds| ==> !ds[j].CfgNone?;
      assert EnablesAdb(cs[i]) && !ds[|cs|].CfgNone?;
      assert forall j :: i < j < |cs| ==> cs[j] == ds[j];
    }
  }

  lemma ShowsAdbSnoc(cs: seq<Config>, c: Config)
    ensures ShowsAdb(cs + [c]) <==> EnablesAdb(c) || (ShowsAdb(cs) && !c.CfgNone? && !Enables(c))
  {
    hide EnablesAdb, Enables;
    var ds := cs + [c];
    if EnablesAdb(c) {
      assert ds[|cs|] == c;
    } else if ShowsAdb(cs) && !c.CfgNone? && !Enables(c) {
      var i :| 0 <= i < |cs| && EnablesAdb(cs[i]) && forall j :: i < j < |cs| ==> !cs[j].CfgNone? && !Enables(cs[j]);
      assert EnablesAdb(ds[i]) && forall j :: i < j < |ds| ==> !ds[j].CfgNone? && !Enables(ds[j]);
    }
    if ShowsAdb(ds) && !EnablesAdb(c) {
      var i :| 0 <= i < |ds| && EnablesAdb(ds[i]) && forall j :: i < j < |ds| ==> !ds[j].CfgNone? && !Enables(ds[j]);
      assert EnablesAdb(cs[i]) && !ds[|cs|].CfgNone? && !Enables(ds[|cs|]);
      assert forall j :: i < j < |cs| ==> cs[j] == ds[j];
    }
  }

  /** After any list of configurations adbd runs iff an adb one came since the last `none`, while the
      enabled gadget has adb iff the latest enabling one has. */
  lemma {:induction false} SettledAdb(v: View, vid: int, cs: seq<Config>)
    requires !v.enabled && !v.adbd
    ensures Settled(v, vid, cs).adbd <==> AdbSinceNone(cs)
    ensures Settled(v, vid, cs).enabled && Adb in Settled(v, vid, cs).functions <==> ShowsAdb(cs)
  {
    hide AdbSinceNone, ShowsAdb, Script, RowOf, Tokens, Play;
    if cs == [] {
      NeverAdb();
    } else {
      var p, c := cs[..|cs| - 1], cs[|cs| - 1];
      SettledAdb(v, vid, p);
      assert cs == p + [c];
      AdbSinceNoneSnoc(p, c);
      ShowsAdbSnoc(p, c);
      TriggerOutcome(c, vid, Settled(v, vid, p));
      NoneHasNoRow(c);
      if Enables(c) {
        RowIsConsistent(c, vid);
      }
    }
  }

  lemma NeverAdb()
    ensures !AdbSinceNone([]) && !ShowsAdb([])
  {
  }

  /** Whenever no trigger is running, adbd matches the gadget exactly when no adb configuration since the
      last `none` has been replaced by one without adb. */
  lemma AdbdMatchesIff(start: Machine, actions: seq<Action>)
    requires Booted(start) && Exec(start, actions).Some? && Exec(start, actions).value.todo == []
    ensures AdbdMatches(Exec(start, actions).value.view) <==>
            (AdbSinceNone(Choices(actions)) ==> ShowsAdb(Choices(actions)))
  {
    hide AdbSinceNone, ShowsAdb, Script;
    RunSettles(start, actions);
    SettledAdb(start.view, start.vid, Choices(actions));
    ShowsImpliesSince(Choices(actions));
  }

  lemma ShowsImpliesSince(cs: seq<Config>)
    ensures ShowsAdb(cs) ==> AdbSinceNone(cs)
  {
    hide EnablesAdb, Enables;
    if ShowsAdb(cs) {
      var i :| 0 <= i < |cs| && EnablesAdb(cs[i]) && forall j :: i < j < |cs| ==> !cs[j].CfgNone? && !Enables(cs[j]);
      assert EnablesAdb(cs[i]) && forall j :: i < j < |cs| ==> !cs[j].CfgNone?;
    }
  }

  /** Every enabling configuration is set right after `none`, or first. */
  predicate ThroughNone(cs: seq<Config>) {
    forall i :: 0 < i < |cs| && Enables(cs[i]) ==> cs[i - 1].CfgNone?
  }

  /** If every switch passes through `none`, adbd always matches and a class set for one configuration
      never lingers in another. */
  lemma ThroughNoneMatches(start: Machine, actions: seq<Action>)
    requires Booted(start) && Exec(start, actions).Some? && Exec(start, actions).value.todo == []
    requires ThroughNone(Choices(actions))
    ensures AdbdMatches(Exec(start, actions).value.view)
    ensures var cs := Choices(actions);
            cs != [] && Enables(cs[|cs| - 1]) ==> Exec(start, actions).value.view.cls == ClassOf(cs[|cs| - 1], 0)
  {
    hide AdbSinceNone, ShowsAdb, Script, RowOf, Enables, EnablesAdb;
    var cs := Choices(actions);
    AdbdMatchesIff(start, actions);
    SinceNoneIsShown(cs);
    RunSettles(start, actions);
    if cs != [] && Enables(cs[|cs| - 1]) {
      var p := cs[..|cs| - 1];
      TriggerOutcome(cs[|cs| - 1], start.vid, Settled(start.view, start.vid, p));
      if p != [] {
        TriggerOutcome(p[|p| - 1], start.vid, Settled(start.view, start.vid, p[..|p| - 1]));
      }
    }
  }

  lemma SinceNoneIsShown(cs: seq<Config>)
    requires ThroughNone(cs)
    ensures AdbSinceNone(cs) ==> ShowsAdb(cs)
  {
    hide EnablesAdb, Enables;
    if AdbSinceNone(cs) {
      var i :| 0 <= i < |cs| && EnablesAdb(cs[i]) && forall j :: i < j < |cs| ==> !cs[j].CfgNone?;
      AdbEnables(cs[i]);
      assert forall j :: i < j < |cs| && Enables(cs[j]) ==> cs[j - 1].CfgNone?;
      assert forall j :: i <= j < |cs| ==> !cs[j].CfgNone?;
      forall j | i < j < |cs| ensures !Enables(cs[j]) {
        assert !cs[j - 1].CfgNone?;
      }
    }
  }

  lemma AdbEnables(c: Config)
    ensures EnablesAdb(c) ==> Enables(c) && !c.CfgNone?
  {
    NoneHasNoRow(c);
  }

  /** Without `none` in between the match fails: adb, then mtp, leaves adbd running behind an mtp gadget. */
  lemma AdbdLingers(v: View, vid: int)
    ensures var w := Settled(v, vid, [CfgAdb, CfgMtp]);
            w.enabled && w.functions == [Mtp] && w.adbd && !AdbdMatches(w)
  {
    hide Play, Script;
    assert [CfgAdb] + [CfgMtp] == [CfgAdb, CfgMtp] && [] + [CfgAdb] == [CfgAdb];
    SettledSnoc(v, vid, [], CfgAdb);
    SettledSnoc(v, vid, [CfgAdb], CfgMtp);
    TriggerOutcome(CfgAdb, vid, v);
    TriggerOutcome(CfgMtp, vid, Settled(v, vid, [CfgAdb]));
  }
}
