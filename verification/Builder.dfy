/**
 * The automation editor's action and trigger builders as state machines: what the installer
 * can click, and what every reachable command then looks like.
 */
module Builder {
  import opened Util
  import opened Capability
  import opened Fields

  /** A command as it is sent: one flat record. */
  type Command = map<string, Val>

  /** An "Adjust Device" node. */
  datatype ActionNode = ActionNode(deviceId: Option<string>, command: Option<Command>)

  datatype Edit =
    | PickDevice(id: string)
    | PickCapability(kind: Kind)
    | PickVerb(verb: string)
    | SetField(key: string, value: Val)
    | SetWheel(hue: Val, saturation: Val)

  const FRESH := ActionNode(None, None)

  function FindDevice(devices: seq<Device>, id: string): (r: Option<Device>)
    ensures r.Some? ==> r.value in devices && r.value.id == id
  {
    if devices == [] then None else if devices[0].id == id then Some(devices[0]) else FindDevice(devices[1..], id)
  }

  /** A trigger may read any capability; a command may go to any but the read-only ones. */
  function ReadableKinds(d: Device): seq<Kind> {
    seq(|d.caps|, i requires 0 <= i < |d.caps| => d.caps[i].kind)
  }

  function KindsOf(d: Device): seq<Kind> {
    Commandable(ReadableKinds(d))
  }

  /** `if (action)`: the empty string counts as no action. */
  function Truthy(a: Option<string>): Option<string> {
    if a == Some("") then None else a
  }

  /** Seeds every non-optional parameter that declares a default and is not set yet. */
  function ApplyDefaults(base: Command, ps: seq<Field>): Command
    decreases |ps|
  {
    if ps == [] then base
    else
      var p := ps[0];
      ApplyDefaults(
        if !p.optional && p.default.Some? && p.key !in base then base[p.key := p.default.value] else base, ps[1..])
  }

  method FillDefaults(base: Command, def: Option<Definition>) returns (next: Command)
    ensures next == ApplyDefaults(base, if def.Some? then def.value.params else [])
  {
    next := base;
    var ps := if def.Some? then def.value.params else [];
    for i := 0 to |ps|
      invariant ApplyDefaults(next, ps[i..]) == ApplyDefaults(base, ps)
    {
      var p := ps[i];
      if !p.optional && p.default.Some? && p.key !in next {
        next := next[p.key := p.default.value];
      }
      assert ps[i..][1..] == ps[i + 1..];
    }
  }

  function Base(k: Kind, action: Option<string>): Command {
    var c: Command := map["capability" := KindVal(k)];
    if Truthy(action).Some? then c["action" := Str(action.value)] else c
  }

  /** A fresh command for one definition. */
  function Seed(k: Kind, def: Definition): Command {
    ApplyDefaults(Base(k, def.action), def.params)
  }

  /** A fresh command for a capability: its first definition, if it has any. */
  function SeedFirst(d: Device, k: Kind): Command {
    var ds := Defs(d, k);
    if ds == [] then Base(k, None) else Seed(k, ds[0])
  }

  function FindAction(ds: seq<Definition>, a: Option<string>): (r: Option<Definition>)
    ensures r.Some? ==> r.value in ds && r.value.action == a
    ensures r.None? ==> forall i :: 0 <= i < |ds| ==> ds[i].action != a
  {
    if ds == [] then None else if ds[0].action == a then Some(ds[0]) else FindAction(ds[1..], a)
  }

  /** The capability the editor takes a command to be about. */
  function CapabilityOf(d: Device, c: Option<Command>): Kind
    requires KindsOf(d) != []
  {
    if c.Some? && "capability" in c.value && c.value["capability"].KindVal?
    then c.value["capability"].kind else KindsOf(d)[0]
  }

  /** The verb it takes it to have, and the definition it shows for it. */
  function ActionOf(ds: seq<Definition>, c: Option<Command>): Option<string> {
    if c.Some? && "action" in c.value && c.value["action"].Str? then Some(c.value["action"].s)
    else if ds != [] then ds[0].action else None
  }

  function Shown(ds: seq<Definition>, c: Option<Command>): Option<Definition> {
    match FindAction(ds, ActionOf(ds, c))
    case Some(def) => Some(def)
    case None => if ds != [] then Some(ds[0]) else None
  }

  predicate HasWheel(ps: seq<Field>) {
    && (exists i :: 0 <= i < |ps| && ps[i].advanced && ps[i].key == "hue" && ps[i].wheel)
    && (exists i :: 0 <= i < |ps| && ps[i].advanced && ps[i].key == "saturation")
  }

  /** The part of `setField` before the field itself: the command, its capability and its verb spelled out. */
  function Restated(k: Kind, ds: seq<Definition>, c: Option<Command>): Command {
    var all := c.GetOr(map[])["capability" := KindVal(k)];
    var a := ActionOf(ds, c);
    if Truthy(a).Some? then all["action" := Str(a.value)] else all
  }

  /** One click. A click the editor does not offer leaves the node alone. */
  function Click(devices: seq<Device>, n: ActionNode, e: Edit): ActionNode {
    if e.PickDevice? then
      var d := FindDevice(devices, e.id);
      ActionNode(Some(e.id),
        if d.Some? && KindsOf(d.value) != [] then Some(SeedFirst(d.value, KindsOf(d.value)[0])) else None)
    else if n.deviceId.None? || FindDevice(devices, n.deviceId.value).None? then n
    else
      var d := FindDevice(devices, n.deviceId.value).value;
      if KindsOf(d) == [] then n else ClickOn(d, n, e)
  }

  function ClickOn(d: Device, n: ActionNode, e: Edit): ActionNode
    requires KindsOf(d) != [] && !e.PickDevice?
  {
    var k := CapabilityOf(d, n.command);
    var ds := Defs(d, k);
    match e
    case PickCapability(kind) =>
      if |KindsOf(d)| > 1 && kind in KindsOf(d) then n.(command := Some(SeedFirst(d, kind))) else n
    case PickVerb(v) =>
      var def := FindAction(ds, Some(v));
      if |ds| > 1 && def.Some? then n.(command := Some(Seed(k, def.value))) else n
    case SetField(key, v) =>
      var def := Shown(ds, n.command);
      if def.Some? && HasKey(def.value.params, key)
         && !(HasWheel(def.value.params) && (key == "hue" || key == "saturation"))
      then n.(command := Some(Restated(k, ds, n.command)[key := v])) else n
    case SetWheel(h, s) =>
      var def := Shown(ds, n.command);
      if def.Some? && HasWheel(def.value.params)
      then n.(command := Some(Restated(k, ds, n.command)["hue" := h]["saturation" := s])) else n
  }

  function Clicks(devices: seq<Device>, n: ActionNode, es: seq<Edit>): ActionNode
    decreases |es|
  {
    if es == [] then n else Clicks(devices, Click(devices, n, es[0]), es[1..])
  }

  // ---- the invariant ----

  /** A definition the flat record can carry: a usable verb, and no parameter named like a fixed field. */
  ghost predicate WellFormed(def: Definition) {
    def.action != Some("") && !HasKey(def.params, "capability") && !HasKey(def.params, "action")
  }

  ghost predicate AllWellFormed(ds: seq<Definition>) {
    forall i :: 0 <= i < |ds| ==> WellFormed(ds[i])
  }

  /** Whatever command metadata a driver publishes is usable. */
  ghost predicate UsableMetadata(d: Device) {
    forall k :: MetadataOf(ConfigOf(d, k)).Some? ==> AllWellFormed(MetadataOf(ConfigOf(d, k)).value.commands)
  }

  /** The command says this verb, carries only its parameters, and carries every mandatory default. */
  ghost predicate Matches(c: Command, k: Kind, def: Definition) {
    && Get(c, "capability") == Some(KindVal(k))
    && Get(c, "action") == (if def.action.Some? then Some(Str(def.action.value)) else None)
    && (forall key :: key in c ==> key == "capability" || key == "action" || HasKey(def.params, key))
    && (forall i :: 0 <= i < |def.params| && !def.params[i].optional && def.params[i].default.Some? ==>
          def.params[i].key in c)
  }

  /** … for the very definition the editor is showing, of one of the device's own capabilities. */
  ghost predicate CommandOk(d: Device, c: Command) {
    && KindsOf(d) != []
    && var k := CapabilityOf(d, Some(c));
       && k in KindsOf(d) && Shown(Defs(d, k), Some(c)).Some?
       && Matches(c, k, Shown(Defs(d, k), Some(c)).value)
  }

  ghost predicate NodeOk(devices: seq<Device>, n: ActionNode) {
    match n.deviceId
    case None => n.command == None
    case Some(id) =>
      match FindDevice(devices, id)
      case None => n.command == None
      case Some(d) => if KindsOf(d) == [] then n.command == None else n.command.Some? && CommandOk(d, n.command.value)
  }

  // ---- every definition a device offers is well formed ----

  predicate FreeKey(key: string) {
    (|key| == 6 ==> key[0] != 'a') && (|key| == 10 ==> key[0] != 'c')
  }

  ghost predicate FreeKeys(def: Definition) {
    (def.action.Some? ==> |def.action.value| > 0)
    && forall i :: 0 <= i < |def.params| ==> FreeKey(def.params[i].key)
  }

  lemma FreeIsWellFormed(def: Definition)
    requires FreeKeys(def)
    ensures WellFormed(def)
  {
    HasKeyIn(def.params, "capability");
    HasKeyIn(def.params, "action");
  }

  lemma SmallTableFree(k: Kind)
    requires k in {OnOff, Brightness, Position, Lock, Fan, Vacuum}
    ensures forall i :: 0 <= i < |Commands(k)| ==> FreeKeys(Commands(k)[i])
    ensures Commands(k) != []
  {
  }

  lemma PlainTableFree(k: Kind)
    requires k in {Color, Temperature, Remote, Display}
    ensures forall i :: 0 <= i < |Commands(k)| ==> FreeKeys(Commands(k)[i])
    ensures Commands(k) != []
  {
  }

  lemma MediaTableFree()
    ensures forall i :: 0 <= i < |Commands(Media)| ==> FreeKeys(Commands(Media)[i])
    ensures Commands(Media) != []
  {
  }

  lemma TableFree(k: Kind)
    ensures forall i :: 0 <= i < |Commands(k)| ==> FreeKeys(Commands(k)[i])
    ensures k != Sensor ==> Commands(k) != []
  {
    match k
    case Sensor =>
    case Media => MediaTableFree();
    case Color | Temperature | Remote | Display => PlainTableFree(k);
    case _ => SmallTableFree(k);
  }

  lemma OfferedWellFormed(d: Device, k: Kind)
    requires UsableMetadata(d)
    ensures AllWellFormed(Defs(d, k))
    ensures k != Sensor ==> Defs(d, k) != []
  {
    TableFree(k);
    forall i | 0 <= i < |Commands(k)| ensures WellFormed(Commands(k)[i]) {
      FreeIsWellFormed(Commands(k)[i]);
    }
    if NoMetadata(d, k) || MetadataOf(ConfigOf(d, k)).value.commands == [] {
      if k == Color {
        var ctx := NarrowingContext(d, k);
        NarrowKeys(Commands(k)[0].params, ctx, "capability");
        NarrowKeys(Commands(k)[0].params, ctx, "action");
      }
    }
  }

  // ---- seeding ----

  lemma {:induction false} DefaultsFill(base: Command, ps: seq<Field>)
    ensures var c := ApplyDefaults(base, ps);
            && (forall key :: key in base ==> key in c && c[key] == base[key])
            && (forall key :: key in c ==> key in base || HasKey(ps, key))
            && (forall i :: 0 <= i < |ps| && !ps[i].optional && ps[i].default.Some? ==> ps[i].key in c)
    decreases |ps|
  {
    if ps != [] {
      var p := ps[0];
      var next := if !p.optional && p.default.Some? && p.key !in base then base[p.key := p.default.value] else base;
      DefaultsFill(next, ps[1..]);
      assert forall i :: 0 < i < |ps| ==> ps[i] == ps[1..][i - 1];
    }
  }

  /** The default a filled command would take for a key: that of the first required parameter so named. */
  function FirstDefault(ps: seq<Field>, key: string): (r: Option<Val>)
    ensures r.Some? ==> HasKey(ps, key)
  {
    if ps == [] then None
    else if ps[0].key == key && !ps[0].optional && ps[0].default.Some? then ps[0].default
    else FirstDefault(ps[1..], key)
  }

  lemma {:induction false} FilledAt(base: Command, ps: seq<Field>, key: string)
    ensures Get(ApplyDefaults(base, ps), key) == if key in base then Some(base[key]) else FirstDefault(ps, key)
    decreases |ps|
  {
    if ps != [] {
      var p := ps[0];
      FilledAt(if !p.optional && p.default.Some? && p.key !in base then base[p.key := p.default.value] else base, ps[1..], key);
    }
  }

  /**
   * For any definition whatever: the command a picked verb starts from matches the definition exactly when
   * the verb is not empty, or what a parameter called "action" puts in its place comes to the same.
   */
  lemma SeedMatchesIff(k: Kind, def: Definition)
    ensures Matches(Seed(k, def), k, def) <==>
            Truthy(def.action).Some? ||
            FirstDefault(def.params, "action") == (if def.action.Some? then Some(Str("")) else None)
  {
    DefaultsFill(Base(k, def.action), def.params);
    FilledAt(Base(k, def.action), def.params, "action");
  }

  lemma FindActionFirst(ds: seq<Definition>)
    requires ds != []
    ensures FindAction(ds, ds[0].action) == Some(ds[0])
  {
  }

  /** What is seeded for a definition the editor can find by its verb is shown as that definition. */
  lemma SeedShown(d: Device, k: Kind, def: Definition)
    requires UsableMetadata(d) && k in KindsOf(d)
    requires FindAction(Defs(d, k), def.action) == Some(def)
    requires def.action.Some? || def == Defs(d, k)[0]
    ensures CommandOk(d, Seed(k, def))
  {
    OfferedWellFormed(d, k);
    SeedMatchesIff(k, def);
    var ds := Defs(d, k);
    if def.action.None? {
      FindActionFirst(ds);
    }
  }

  lemma SeedFirstOk(d: Device, k: Kind)
    requires UsableMetadata(d) && k in KindsOf(d)
    ensures CommandOk(d, SeedFirst(d, k))
  {
    OfferedWellFormed(d, k);
    FindActionFirst(Defs(d, k));
    SeedShown(d, k, Defs(d, k)[0]);
  }

  // ---- every click keeps the invariant ----

  lemma RestatedSame(d: Device, c: Command)
    requires UsableMetadata(d) && CommandOk(d, c)
    ensures var k := CapabilityOf(d, Some(c)); Restated(k, Defs(d, k), Some(c)) == c
  {
    var k := CapabilityOf(d, Some(c));
    var ds := Defs(d, k);
    OfferedWellFormed(d, k);
    var def := Shown(ds, Some(c)).value;
    var i :| 0 <= i < |ds| && ds[i] == def;
    if "action" !in c {
      FindActionFirst(ds);
    }
  }

  /** Setting one of the shown definition's own parameters keeps the command in shape. */
  lemma SetKeeps(d: Device, c: Command, key: string, v: Val)
    requires UsableMetadata(d) && CommandOk(d, c)
    requires HasKey(Shown(Defs(d, CapabilityOf(d, Some(c))), Some(c)).value.params, key)
    ensures CommandOk(d, c[key := v])
    ensures CapabilityOf(d, Some(c[key := v])) == CapabilityOf(d, Some(c))
    ensures var ds := Defs(d, CapabilityOf(d, Some(c))); Shown(ds, Some(c[key := v])) == Shown(ds, Some(c))
  {
    var k := CapabilityOf(d, Some(c));
    var ds := Defs(d, k);
    OfferedWellFormed(d, k);
    var def := Shown(ds, Some(c)).value;
    var i :| 0 <= i < |ds| && ds[i] == def;
    assert key != "capability" && key != "action";
    assert ActionOf(ds, Some(c[key := v])) == ActionOf(ds, Some(c));
  }

  lemma WheelKeys(ps: seq<Field>)
    requires HasWheel(ps)
    ensures HasKey(ps, "hue") && HasKey(ps, "saturation")
  {
    HasKeyIn(ps, "hue");
    HasKeyIn(ps, "saturation");
  }

  lemma ClickOnKeeps(d: Device, n: ActionNode, e: Edit)
    requires UsableMetadata(d) && KindsOf(d) != [] && !e.PickDevice?
    requires n.command.Some? && CommandOk(d, n.command.value)
    ensures var v := ClickOn(d, n, e); v.deviceId == n.deviceId && v.command.Some? && CommandOk(d, v.command.value)
  {
    var c := n.command.value;
    var k := CapabilityOf(d, n.command);
    var ds := Defs(d, k);
    match e
    case PickCapability(kind) => if kind in KindsOf(d) { SeedFirstOk(d, kind); }
    case PickVerb(v) =>
      if FindAction(ds, Some(v)).Some? { SeedShown(d, k, FindAction(ds, Some(v)).value); }
    case SetField(key, v) =>
      RestatedSame(d, c);
      if HasKey(Shown(ds, n.command).value.params, key) { SetKeeps(d, c, key, v); }
    case SetWheel(h, s) =>
      RestatedSame(d, c);
      var ps := Shown(ds, n.command).value.params;
      if HasWheel(ps) {
        WheelKeys(ps);
        SetKeeps(d, c, "hue", h);
        SetKeeps(d, c["hue" := h], "saturation", s);
      }
  }

  lemma ClickKeeps(devices: seq<Device>, n: ActionNode, e: Edit)
    requires forall d :: d in devices ==> UsableMetadata(d)
    requires NodeOk(devices, n)
    ensures NodeOk(devices, Click(devices, n, e))
  {
    if e.PickDevice? {
      var d := FindDevice(devices, e.id);
      if d.Some? && KindsOf(d.value) != [] { SeedFirstOk(d.value, KindsOf(d.value)[0]); }
    } else if n.deviceId.Some? && FindDevice(devices, n.deviceId.value).Some? {
      var d := FindDevice(devices, n.deviceId.value).value;
      if KindsOf(d) != [] { ClickOnKeeps(d, n, e); }
    }
  }

  /** In every state any clicking reaches, the command is absent or is one the device really takes. */
  lemma {:induction false} EveryCommandOk(devices: seq<Device>, n: ActionNode, es: seq<Edit>)
    requires forall d :: d in devices ==> UsableMetadata(d)
    requires NodeOk(devices, n)
    ensures NodeOk(devices, Clicks(devices, n, es))
    decreases |es|
  {
    if es != [] {
      ClickKeeps(devices, n, es[0]);
      EveryCommandOk(devices, Click(devices, n, es[0]), es[1..]);
    }
  }

  /** So no clicking ever gives a light that does not say it has colours a hue or a saturation. */
  lemma NeverColoursAWhiteLight(devices: seq<Device>, es: seq<Edit>, d: Device)
    requires forall x :: x in devices ==> UsableMetadata(x)
    requires var n := Clicks(devices, FRESH, es);
             n.command.Some? && n.deviceId.Some? && FindDevice(devices, n.deviceId.value) == Some(d)
    requires forall i :: 0 <= i < |d.caps| ==> Published(d.caps[i]) == Metadata([], [])
    requires forall i: nat :: FirstAt(d, Color, i) ==> !SaysColour(d.caps[i], d.color)
    ensures var c := Clicks(devices, FRESH, es).command.value; "hue" !in c && "saturation" !in c
  {
    EveryCommandOk(devices, FRESH, es);
    var c := Clicks(devices, FRESH, es).command.value;
    var k := CapabilityOf(d, Some(c));
    var ds := Defs(d, k);
    var def := Shown(ds, Some(c)).value;
    var i :| 0 <= i < |ds| && ds[i] == def;
    var n := FirstOfKind(d, k);
    if k == Color {
      ColoursSettable(d, n);
    } else {
      DriverMetadataWins(d, k, n);
      HueOnlyInColor(k, i, "hue");
      HueOnlyInColor(k, i, "saturation");
    }
  }

  lemma {:induction false} FirstIndex(d: Device, k: Kind, j: nat) returns (i: nat)
    requires j < |d.caps| && d.caps[j].kind == k
    ensures FirstAt(d, k, i)
  {
    i := j;
    if m :| 0 <= m < j && d.caps[m].kind == k { i := FirstIndex(d, k, m); }
  }

  /** What can be commanded is what the device has, but for sensors. */
  lemma CommandableIff(d: Device, k: Kind)
    ensures k in KindsOf(d) <==> k != Sensor && exists i :: 0 <= i < |d.caps| && d.caps[i].kind == k
    ensures k in ReadableKinds(d) <==> exists i :: 0 <= i < |d.caps| && d.caps[i].kind == k
  {
    assert forall i :: 0 <= i < |d.caps| ==> ReadableKinds(d)[i] == d.caps[i].kind;
  }

  lemma FirstOfKind(d: Device, k: Kind) returns (i: nat)
    requires k in KindsOf(d)
    ensures FirstAt(d, k, i)
  {
    CommandableIff(d, k);
    var j :| 0 <= j < |d.caps| && d.caps[j].kind == k;
    i := FirstIndex(d, k, j);
  }

  // ---- where unusable metadata breaks it ----

  /**
   * A picked verb is the one shown afterwards exactly when it is not the empty string, or what is shown
   * for want of one, the first on offer or what a parameter called "action" names, is the one picked.
   */
  lemma PickedVerbShownIff(d: Device, k: Kind, v: string)
    requires k in KindsOf(d)
    requires FindAction(Defs(d, k), Some(v)).Some?
    ensures var ds := Defs(d, k);
            var def := FindAction(ds, Some(v)).value;
            Shown(ds, Some(Seed(k, def))) == Some(def) <==>
            v != "" || def == match FirstDefault(def.params, "action")
                              case Some(Str(s)) => FindAction(ds, Some(s)).GetOr(ds[0])
                              case _ => ds[0]
  {
    var ds := Defs(d, k);
    var def := FindAction(ds, Some(v)).value;
    FilledAt(Base(k, def.action), def.params, "action");
    FindActionFirst(ds);
  }

  const ON := Definition(OnOff, Some("on"), [F("level", PercentT)])
  const BLANK := Definition(OnOff, Some(""), [Def(F("ramp", BooleanT), Bool(true))])
  const ODD := Device("dev_1", [Cap(OnOff, Some(Config(Some(Metadata([ON, BLANK], [])), None, None)))], None)

  const RAMP: Command := map["capability" := KindVal(OnOff), "ramp" := Bool(true)]
  const MIXED: Command := RAMP["action" := Str("on")]["level" := Num(5.0)]

  lemma OddDevice()
    ensures KindsOf(ODD) == [OnOff] && Defs(ODD, OnOff) == [ON, BLANK]
    ensures FindAction([ON, BLANK], Some("on")) == Some(ON) && FindAction([ON, BLANK], Some("")) == Some(BLANK)
    ensures HasKey(ON.params, "level") && !HasKey(ON.params, "ramp")
  {
    assert ReadableKinds(ODD) == [OnOff];
    assert [OnOff][1..] == [] && Commandable([]) == [];
    assert [ON, BLANK][1..] == [BLANK];
    assert ON.params[1..] == [];
  }

  lemma OddClicks(n: ActionNode)
    ensures n.command.Some? && CapabilityOf(ODD, n.command) == OnOff ==>
              ClickOn(ODD, n, PickVerb("")).command == Some(RAMP)
    ensures n.command == Some(RAMP) ==> ClickOn(ODD, n, SetField("level", Num(5.0))).command == Some(MIXED)
  {
    OddDevice();
    assert Base(OnOff, Some("")) == map["capability" := KindVal(OnOff)];
    assert BLANK.params[1..] == [];
    assert Seed(OnOff, BLANK) == RAMP;
    assert RAMP["capability" := KindVal(OnOff)] == RAMP;
    assert Restated(OnOff, [ON, BLANK], Some(RAMP)) == RAMP["action" := Str("on")];
    assert !HasWheel(ON.params);
  }

  /** Picking the empty verb and then a field mixes two verbs' parameters: the command is neither. */
  lemma EmptyVerbMixesCommands()
    ensures var n := Clicks([ODD], FRESH, [PickDevice("dev_1"), PickVerb(""), SetField("level", Num(5.0))]);
            && n.command == Some(MIXED)
            && !Matches(MIXED, OnOff, ON) && !Matches(MIXED, OnOff, BLANK)
  {
    OddDevice();
    var e1, e2, e3 := PickDevice("dev_1"), PickVerb(""), SetField("level", Num(5.0));
    var n1 := Click([ODD], FRESH, e1);
    assert n1 == ActionNode(Some("dev_1"), Some(SeedFirst(ODD, OnOff)));
    DefaultsFill(Base(OnOff, Some("on")), ON.params);
    assert CapabilityOf(ODD, n1.command) == OnOff;
    OddClicks(n1);
    var n2 := Click([ODD], n1, e2);
    assert n2 == n1.(command := Some(RAMP));
    OddClicks(n2);
    var n3 := Click([ODD], n2, e3);
    assert n3 == n1.(command := Some(MIXED));
    assert [e1, e2, e3][1..] == [e2, e3] && [e2, e3][1..] == [e3] && [e3][1..] == [];
    assert Clicks([ODD], n3, []) == n3;
    assert Clicks([ODD], n2, [e3]) == n3 && Clicks([ODD], n1, [e2, e3]) == n3;
    assert "ramp" in MIXED && MIXED["action"] == Str("on");
  }

  // ---- triggers and conditions ----

  datatype StateNode = StateNode(
    deviceId: Option<string>, capability: Option<Kind>, field: Option<string>, op: string, value: Option<Val>)

  datatype StateEdit =
    | WatchDevice(id: string)
    | WatchCapability(kind: Kind)
    | WatchField(key: string)
    | SetOp(op: string)
    | SetValue(value: Val)

  const FRESH_STATE := StateNode(None, None, None, "eq", None)

  function FirstField(d: Device, k: Kind): Option<string> {
    var fs := Readings(d, k);
    if fs == [] then None else Some(fs[0].key)
  }

  function Watch(devices: seq<Device>, n: StateNode, e: StateEdit): StateNode {
    if e.WatchDevice? then
      var d := FindDevice(devices, e.id);
      if d.Some? && ReadableKinds(d.value) != []
      then
        var k := ReadableKinds(d.value)[0];
        n.(deviceId := Some(e.id), capability := Some(k), field := FirstField(d.value, k), value := None)
      else n.(deviceId := Some(e.id), capability := None, field := None, value := None)
    else if n.deviceId.None? || FindDevice(devices, n.deviceId.value).None? then n
    else
      var d := FindDevice(devices, n.deviceId.value).value;
      var kinds := ReadableKinds(d);
      if kinds == [] then n
      else
        var fs := Readings(d, n.capability.GetOr(kinds[0]));
        match e
        case WatchCapability(k) =>
          if |kinds| > 1 && k in kinds then n.(capability := Some(k), field := FirstField(d, k), value := None) else n
        case WatchField(key) => if HasKey(fs, key) then n.(field := Some(key), value := None) else n
        case SetOp(op) => n.(op := op)
        case SetValue(v) => if n.op != "changed" then n.(value := Some(v)) else n
  }

  function Watches(devices: seq<Device>, n: StateNode, es: seq<StateEdit>): StateNode
    decreases |es|
  {
    if es == [] then n else Watches(devices, Watch(devices, n, es[0]), es[1..])
  }

  /** A trigger on a known device always names one of its capabilities and a field that capability reports. */
  ghost predicate StateOk(devices: seq<Device>, n: StateNode) {
    match n.deviceId
    case None => n.capability == None && n.field == None
    case Some(id) =>
      match FindDevice(devices, id)
      case None => n.capability == None && n.field == None
      case Some(d) =>
        if ReadableKinds(d) == [] then n.capability == None && n.field == None
        else
          && n.capability.Some? && n.capability.value in ReadableKinds(d)
          && n.field.Some? && HasKey(Readings(d, n.capability.value), n.field.value)
  }

  lemma WatchKeeps(devices: seq<Device>, n: StateNode, e: StateEdit)
    requires StateOk(devices, n)
    ensures StateOk(devices, Watch(devices, n, e))
  {
    var v := Watch(devices, n, e);
    if v.deviceId.Some? && FindDevice(devices, v.deviceId.value).Some? {
      var d := FindDevice(devices, v.deviceId.value).value;
      if v.capability.Some? { ReadingsNonempty(d, v.capability.value); }
    }
  }

  lemma {:induction false} EveryTriggerOk(devices: seq<Device>, n: StateNode, es: seq<StateEdit>)
    requires StateOk(devices, n)
    ensures StateOk(devices, Watches(devices, n, es))
    decreases |es|
  {
    if es != [] {
      WatchKeeps(devices, n, es[0]);
      EveryTriggerOk(devices, Watch(devices, n, es[0]), es[1..]);
    }
  }
}
