/**
 * What one device can be told and can report: the full capability tables, narrowed by driver
 * metadata, structural configuration and, failing both, by what its live state proves.
 */
module Fields {
  import opened Util
  import opened Capability

  datatype Val = Str(s: string) | Num(n: real) | Bool(b: bool) | KindVal(kind: Kind)

  datatype FieldType = BooleanT | PercentT | NumberT | EnumT(values: seq<string>) | StringT

  /** `wheel` stands for the colour-wheel widget hint; labels, units and steps are not modelled. */
  datatype Field = Field(
    key: string, typ: FieldType, min: Option<int>, max: Option<int>,
    default: Option<Val>, optional: bool, advanced: bool, wheel: bool)

  datatype Definition = Definition(capability: Kind, action: Option<string>, params: seq<Field>)

  datatype Modes = Modes(rgb: bool, cct: bool)
  datatype Range = Range(min: int, max: int)
  datatype Metadata = Metadata(commands: seq<Definition>, stateFields: seq<Field>)
  datatype Config = Config(metadata: Option<Metadata>, colorModes: Option<Modes>, kelvinRange: Option<Range>)
  datatype Context = Context(modes: Option<Modes>, kelvinRange: Option<Range>, config: Option<Config>)

  datatype Cap = Cap(kind: Kind, config: Option<Config>)
  datatype ColorState = ColorState(hue: Option<real>, saturation: Option<real>, kelvin: Option<real>)
  datatype Device = Device(id: string, caps: seq<Cap>, color: Option<ColorState>)

  // ---- the tables ----

  function F(key: string, t: FieldType): Field {
    Field(key, t, None, None, None, false, false, false)
  }

  function Adv(f: Field): Field { f.(advanced := true) }
  function Opt(f: Field): Field { f.(optional := true) }
  function Def(f: Field, v: Val): Field { f.(default := Some(v)) }
  function Within(f: Field, lo: int, hi: int): Field { f.(min := Some(lo), max := Some(hi)) }
  function Wheel(f: Field): Field { f.(wheel := true) }

  const HVAC := EnumT(["off", "heat", "cool", "auto", "fan_only"])

  function StateFields(k: Kind): (fs: seq<Field>)
    ensures fs != []
  {
    match k
    case OnOff => [F("on", BooleanT)]
    case Brightness => [F("on", BooleanT), F("level", PercentT)]
    case Color => [
      F("on", BooleanT), F("level", PercentT), Adv(Within(F("hue", NumberT), 0, 360)),
      Adv(F("saturation", PercentT)), Adv(Within(F("kelvin", NumberT), 2700, 6500))]
    case Temperature => [F("ambientC", NumberT), F("targetC", NumberT), F("mode", HVAC), Adv(F("humidity", PercentT))]
    case Position => [F("position", PercentT), Adv(F("moving", BooleanT))]
    case Media => [
      F("playback", EnumT(["playing", "paused", "stopped", "idle"])), F("volume", PercentT), F("muted", BooleanT),
      Adv(F("source", StringT)), Adv(F("shuffle", BooleanT)), Adv(F("repeat", EnumT(["off", "all", "one"])))]
    case Lock => [F("locked", BooleanT), Adv(F("jammed", BooleanT))]
    case Fan => [
      F("on", BooleanT), F("preset", EnumT(["auto", "sleep", "turbo"])), Adv(F("direction", EnumT(["forward", "reverse"])))]
    case Vacuum => [
      F("status", EnumT(["idle", "cleaning", "paused", "returning", "docked"])),
      Adv(F("fanSpeed", EnumT(["quiet", "normal", "turbo"])))]
    case Sensor => [F("value", NumberT)]
    case Remote => [F("lastButton", EnumT(["up", "down", "left", "right", "select", "back", "menu", "home"]))]
    case Display => [
      F("power", EnumT(["off", "warming", "on", "cooling", "unknown"])), Adv(F("videoMuted", BooleanT)),
      Adv(F("audioMuted", BooleanT)), Adv(F("frozen", BooleanT))]
  }

  /** A verb without parameters. */
  function V(k: Kind, action: string): Definition {
    Definition(k, Some(action), [])
  }

  /** A verb with one parameter. */
  function P(k: Kind, action: string, p: Field): Definition {
    Definition(k, Some(action), [p])
  }

  function Commands(k: Kind): seq<Definition> {
    match k
    case OnOff => [V(k, "on"), V(k, "off"), V(k, "toggle")]
    case Brightness => [V(k, "on"), V(k, "off"), P(k, "set", Def(F("level", PercentT), Num(100.0)))]
    case Color => [Definition(k, None, [
      Opt(F("level", PercentT)), Opt(Adv(Wheel(Within(F("hue", NumberT), 0, 360)))),
      Opt(Adv(Wheel(F("saturation", PercentT)))), Opt(Adv(Within(F("kelvin", NumberT), 2700, 6500)))])]
    case Temperature => [Definition(k, None, [
      Opt(F("mode", HVAC)), Opt(F("targetC", NumberT)), Opt(Adv(F("targetLowC", NumberT))), Opt(Adv(F("targetHighC", NumberT)))])]
    case Position => [V(k, "open"), V(k, "close"), V(k, "stop"), P(k, "set", Def(F("position", PercentT), Num(50.0)))]
    case Media => [
      V(k, "play"), V(k, "pause"), V(k, "stop"), V(k, "next"), V(k, "previous"), V(k, "mute"), V(k, "unmute"),
      P(k, "volume", Def(F("volume", PercentT), Num(30.0))), P(k, "source", F("source", StringT)),
      P(k, "seek", F("positionSec", NumberT)), P(k, "shuffle", Def(F("shuffle", BooleanT), Bool(true))),
      P(k, "repeat", Def(F("repeat", EnumT(["off", "all", "one"])), Str("off")))]
    case Lock => [V(k, "lock"), V(k, "unlock")]
    case Fan => [
      V(k, "on"), V(k, "off"), P(k, "preset", Def(F("preset", EnumT(["auto", "sleep", "turbo"])), Str("auto"))),
      P(k, "direction", Def(F("direction", EnumT(["forward", "reverse"])), Str("forward")))]
    case Vacuum => [
      V(k, "start"), V(k, "pause"), V(k, "stop"), V(k, "return"),
      P(k, "fan", Def(F("fanSpeed", EnumT(["quiet", "normal", "turbo"])), Str("normal")))]
    case Sensor => []
    case Remote => [
      V(k, "up"), V(k, "down"), V(k, "left"), V(k, "right"), V(k, "select"), V(k, "back"), V(k, "menu"), V(k, "home")]
    case Display => [
      V(k, "on"), V(k, "off"), V(k, "muteVideo"), V(k, "unmuteVideo"), V(k, "muteAudio"), V(k, "unmuteAudio"),
      V(k, "muteAv"), V(k, "unmuteAv"), V(k, "freeze"), V(k, "unfreeze")]
  }

  function Commandable(kinds: seq<Kind>): (r: seq<Kind>)
    ensures forall k :: k in r <==> k in kinds && k != Sensor
  {
    if kinds == [] then []
    else
      assert forall k :: k in kinds <==> k == kinds[0] || k in kinds[1..];
      (if kinds[0] == Sensor then [] else [kinds[0]]) + Commandable(kinds[1..])
  }

  // ---- colour modes: structural configuration first, then what live state proves ----

  datatype ModeState = Unknown | Supported | Unsupported

  function TriState(color: Option<ColorState>): (ModeState, ModeState) {
    match color
    case None => (Unknown, Unknown)
    case Some(s) =>
      var hueSat := s.hue.Some? || s.saturation.Some?;
      if !hueSat && s.kelvin.None? then (Unknown, Unknown)
      else (if hueSat then Supported else Unsupported, if s.kelvin.Some? then Supported else Unsupported)
  }

  function FindCap(caps: seq<Cap>, k: Kind): (r: Option<Cap>)
    ensures r.Some? ==> r.value in caps && r.value.kind == k
    ensures r.None? ==> forall i :: 0 <= i < |caps| ==> caps[i].kind != k
  {
    if caps == [] then None else if caps[0].kind == k then Some(caps[0]) else FindCap(caps[1..], k)
  }

  function ConfigOf(d: Device, k: Kind): Option<Config> {
    match FindCap(d.caps, k)
    case None => None
    case Some(c) => c.config
  }

  /** Whether the RGB and the white-temperature controls are shown for a device. */
  function UiModes(d: Device): Modes {
    if FindCap(d.caps, Color).None? then Modes(false, false)
    else match ConfigOf(d, Color)
         case Some(Config(_, Some(m), _)) => m
         case _ => var (rgb, cct) := TriState(d.color); Modes(rgb == Supported, cct == Supported)
  }

  function NarrowingContext(d: Device, k: Kind): Context {
    var config := ConfigOf(d, k);
    if k != Color then Context(None, None, config)
    else Context(Some(UiModes(d)), if config.Some? then config.value.kelvinRange else None, config)
  }

  // ---- resolution ----

  function MetadataOf(config: Option<Config>): Option<Metadata> {
    match config
    case Some(Config(Some(m), _, _)) => if m.commands == [] && m.stateFields == [] then None else Some(m)
    case _ => None
  }

  predicate Hidden(key: string, ctx: Context) {
    && ctx.modes.Some?
    && (((key == "hue" || key == "saturation") && !ctx.modes.value.rgb)
        || (key == "kelvin" && !ctx.modes.value.cct))
  }

  function Clamp(f: Field, ctx: Context): Field {
    if f.key == "kelvin" && ctx.kelvinRange.Some?
    then f.(min := Some(ctx.kelvinRange.value.min), max := Some(ctx.kelvinRange.value.max))
    else f
  }

  function Narrow(fs: seq<Field>, ctx: Context): seq<Field> {
    if fs == [] then []
    else (if Hidden(fs[0].key, ctx) then [] else [Clamp(fs[0], ctx)]) + Narrow(fs[1..], ctx)
  }

  function ResolveStateFields(k: Kind, ctx: Context): seq<Field> {
    var m := MetadataOf(ctx.config);
    if m.Some? && m.value.stateFields != [] then m.value.stateFields
    else if k == Color then Narrow(StateFields(k), ctx)
    else StateFields(k)
  }

  function ResolveDefinitions(k: Kind, ctx: Context): seq<Definition> {
    var m := MetadataOf(ctx.config);
    if m.Some? && m.value.commands != [] then m.value.commands
    else if k != Color then Commands(k)
    else
      var ds := Commands(k);
      seq(|ds|, i requires 0 <= i < |ds| => ds[i].(params := Narrow(ds[i].params, ctx)))
  }

  /** The verbs this device can be given for one capability. */
  function Defs(d: Device, k: Kind): seq<Definition> {
    ResolveDefinitions(k, NarrowingContext(d, k))
  }

  /** The fields this device can be asked about for one capability. */
  function Readings(d: Device, k: Kind): seq<Field> {
    ResolveStateFields(k, NarrowingContext(d, k))
  }

  predicate HasKey(fs: seq<Field>, key: string) {
    fs != [] && (fs[0].key == key || HasKey(fs[1..], key))
  }

  // ---- properties of the resolution ----

  /** Narrowing drops exactly the hidden keys … */
  lemma {:induction false} NarrowKeys(fs: seq<Field>, ctx: Context, key: string)
    ensures HasKey(Narrow(fs, ctx), key) <==> HasKey(fs, key) && !Hidden(key, ctx)
  {
    if fs != [] {
      NarrowKeys(fs[1..], ctx, key);
      if !Hidden(fs[0].key, ctx) {
        assert Narrow(fs, ctx)[1..] == Narrow(fs[1..], ctx);
      } else {
        assert Narrow(fs, ctx) == Narrow(fs[1..], ctx);
      }
    }
  }

  /** … and replaces the generic white range by the device's own. */
  lemma {:induction false} NarrowRange(fs: seq<Field>, ctx: Context)
    requires ctx.kelvinRange.Some?
    ensures forall f :: f in Narrow(fs, ctx) && f.key == "kelvin" ==>
              f.min == Some(ctx.kelvinRange.value.min) && f.max == Some(ctx.kelvinRange.value.max)
  {
    if fs != [] {
      NarrowRange(fs[1..], ctx);
    }
  }

  predicate NoMetadata(d: Device, k: Kind) {
    MetadataOf(ConfigOf(d, k)).None?
  }

  /**
   * A trigger and an action always agree on a light's colour controls: each of hue, saturation
   * and white temperature is readable exactly when it is settable, namely when the light has it.
   */
  lemma TriggerAndActionAgree(d: Device, key: string)
    requires NoMetadata(d, Color) && key in ["hue", "saturation", "kelvin"]
    ensures |Defs(d, Color)| == 1
    ensures HasKey(Defs(d, Color)[0].params, key) <==> HasKey(Readings(d, Color), key)
    ensures HasKey(Readings(d, Color), key) <==> if key == "kelvin" then UiModes(d).cct else UiModes(d).rgb
  {
    var ctx := NarrowingContext(d, Color);
    ColorKeys(key);
    NarrowKeys(StateFields(Color), ctx, key);
    NarrowKeys(Commands(Color)[0].params, ctx, key);
  }

  lemma ColorKeys(key: string)
    requires key in ["hue", "saturation", "kelvin"]
    ensures HasKey(StateFields(Color), key) && HasKey(Commands(Color)[0].params, key)
  {
    var fs, ps := StateFields(Color), Commands(Color)[0].params;
    assert fs[1..][1..][0].key == "hue" && fs[1..][1..][1..][0].key == "saturation" && fs[1..][1..][1..][1..][0].key == "kelvin";
    assert ps[1..][0].key == "hue" && ps[1..][1..][0].key == "saturation" && ps[1..][1..][1..][0].key == "kelvin";
  }

  /** Every device has something to read for each kind: no narrowing ever empties the field list. */
  lemma ReadingsNonempty(d: Device, k: Kind)
    ensures Readings(d, k) != []
  {
    assert StateFields(Color)[0] == F("on", BooleanT);
  }

  lemma {:induction false} HasKeyIn(fs: seq<Field>, key: string)
    ensures HasKey(fs, key) <==> exists i :: 0 <= i < |fs| && fs[i].key == key
  {
    if fs != [] {
      HasKeyIn(fs[1..], key);
      assert forall i :: 0 < i < |fs| ==> fs[i] == fs[1..][i - 1];
    }
  }

  /** Told apart from "hue" and "saturation" by length, or by its first letter. */
  predicate OtherKey(key: string) {
    |key| != 3 && (|key| != 10 || key[0] != 's')
  }

  predicate AllOtherKeys(fs: seq<Field>) {
    forall i :: 0 <= i < |fs| ==> OtherKey(fs[i].key)
  }

  lemma CommandKeys(k: Kind)
    requires k != Color
    ensures forall i :: 0 <= i < |Commands(k)| ==> AllOtherKeys(Commands(k)[i].params)
  {
    match k {
      case Media =>
      case Temperature =>
      case _ =>
    }
  }

  /** Only the colour table knows hue or saturation. */
  lemma HueOnlyInColor(k: Kind, i: nat, key: string)
    requires k != Color && i < |Commands(k)| && (key == "hue" || key == "saturation")
    ensures !HasKey(Commands(k)[i].params, key)
  {
    CommandKeys(k);
    HasKeyIn(Commands(k)[i].params, key);
    assert !OtherKey(key);
  }

  /** Leaving out the sensors keeps the order and number of the rest. */
  lemma {:induction false} CommandableJoin(a: seq<Kind>, b: seq<Kind>)
    ensures Commandable(a + b) == Commandable(a) + Commandable(b)
  {
    if a == [] {
      assert a + b == b;
    } else {
      var rest := a[1..];
      CommandableJoin(rest, b);
      assert (a + b)[1..] == rest + b && (a + b)[0] == a[0];
      assert Commandable(a + b) == Commandable([a[0]]) + Commandable(rest + b) by { CommandableOne(a[0]); }
      assert Commandable(a) == Commandable([a[0]]) + Commandable(rest) by { CommandableOne(a[0]); }
    }
  }

  lemma CommandableOne(k: Kind)
    ensures Commandable([k]) == if k == Sensor then [] else [k]
  {
    assert [k][1..] == [];
  }

  // ---- what decides, tier by tier ----

  /** The device's first capability of the kind stands at `i`. */
  predicate FirstAt(d: Device, k: Kind, i: nat) {
    i < |d.caps| && d.caps[i].kind == k && forall j :: 0 <= j < i ==> d.caps[j].kind != k
  }

  lemma {:induction false} FindCapAt(caps: seq<Cap>, k: Kind, i: nat)
    requires i < |caps| && caps[i].kind == k && forall j :: 0 <= j < i ==> caps[j].kind != k
    ensures FindCap(caps, k) == Some(caps[i])
    decreases i
  {
    if i > 0 {
      assert caps[0].kind != k;
      assert forall j :: 0 <= j < i - 1 ==> caps[1..][j] == caps[j + 1];
      FindCapAt(caps[1..], k, i - 1);
    }
  }

  /** What the driver has published for one capability: its commands, its state fields. */
  function Published(c: Cap): Metadata {
    if c.config.Some? && c.config.value.metadata.Some? then c.config.value.metadata.value else Metadata([], [])
  }

  /** What a driver publishes is offered as it is; what it does not publish comes from the tables. */
  lemma DriverMetadataWins(d: Device, k: Kind, i: nat)
    requires FirstAt(d, k, i)
    ensures Published(d.caps[i]).commands != [] ==> Defs(d, k) == Published(d.caps[i]).commands
    ensures Published(d.caps[i]).stateFields != [] ==> Readings(d, k) == Published(d.caps[i]).stateFields
    ensures Published(d.caps[i]).commands == [] && k != Color ==> Defs(d, k) == Commands(k)
    ensures Published(d.caps[i]).stateFields == [] && k != Color ==> Readings(d, k) == StateFields(k)
  {
    FindCapAt(d.caps, k, i);
  }

  /** A capability says the light has colours: by its configuration if that says anything, else by live state. */
  predicate SaysColour(c: Cap, state: Option<ColorState>) {
    if c.config.Some? && c.config.value.colorModes.Some? then c.config.value.colorModes.value.rgb
    else state.Some? && (state.value.hue.Some? || state.value.saturation.Some?)
  }

  /** And the same of white temperature. */
  predicate SaysWhite(c: Cap, state: Option<ColorState>) {
    if c.config.Some? && c.config.value.colorModes.Some? then c.config.value.colorModes.value.cct
    else state.Some? && state.value.kelvin.Some?
  }

  lemma ColourContext(d: Device, i: nat)
    requires FirstAt(d, Color, i)
    ensures NarrowingContext(d, Color) == Context(
              Some(Modes(SaysColour(d.caps[i], d.color), SaysWhite(d.caps[i], d.color))),
              if d.caps[i].config.Some? then d.caps[i].config.value.kelvinRange else None, d.caps[i].config)
  {
    FindCapAt(d.caps, Color, i);
  }

  /**
   * Without metadata, a colour light can be set to a hue and a saturation exactly when it says it has
   * colours, and to a white temperature exactly when it says it has that …
   */
  lemma ColoursSettable(d: Device, i: nat)
    requires FirstAt(d, Color, i) && Published(d.caps[i]).commands == []
    ensures |Defs(d, Color)| == 1
    ensures HasKey(Defs(d, Color)[0].params, "hue") <==> SaysColour(d.caps[i], d.color)
    ensures HasKey(Defs(d, Color)[0].params, "saturation") <==> SaysColour(d.caps[i], d.color)
    ensures HasKey(Defs(d, Color)[0].params, "kelvin") <==> SaysWhite(d.caps[i], d.color)
  {
    ColourContext(d, i);
    var ctx := NarrowingContext(d, Color);
    assert Defs(d, Color)[0].params == Narrow(Commands(Color)[0].params, ctx);
    OfferedKey(ctx, "hue");
    OfferedKey(ctx, "saturation");
    OfferedKey(ctx, "kelvin");
  }

  /** … and asked for them in just those cases. A light that has reported nothing is offered none of the three. */
  lemma ColoursReadable(d: Device, i: nat)
    requires FirstAt(d, Color, i) && Published(d.caps[i]).stateFields == []
    ensures HasKey(Readings(d, Color), "hue") <==> SaysColour(d.caps[i], d.color)
    ensures HasKey(Readings(d, Color), "saturation") <==> SaysColour(d.caps[i], d.color)
    ensures HasKey(Readings(d, Color), "kelvin") <==> SaysWhite(d.caps[i], d.color)
  {
    ColourContext(d, i);
    var ctx := NarrowingContext(d, Color);
    assert Readings(d, Color) == Narrow(StateFields(Color), ctx);
    OfferedKey(ctx, "hue");
    OfferedKey(ctx, "saturation");
    OfferedKey(ctx, "kelvin");
  }

  /** Where the light reports a white range, its white temperature runs over that range and no other. */
  lemma WhiteRange(d: Device, i: nat, range: Range)
    requires FirstAt(d, Color, i) && Published(d.caps[i]) == Metadata([], [])
    requires d.caps[i].config.Some? && d.caps[i].config.value.kelvinRange == Some(range)
    ensures forall f :: (f in Defs(d, Color)[0].params || f in Readings(d, Color)) && f.key == "kelvin" ==>
              f.min == Some(range.min) && f.max == Some(range.max)
  {
    ColourContext(d, i);
    var ctx := NarrowingContext(d, Color);
    assert Readings(d, Color) == Narrow(StateFields(Color), ctx);
    assert Defs(d, Color)[0].params == Narrow(Commands(Color)[0].params, ctx);
    NarrowRange(StateFields(Color), ctx);
    NarrowRange(Commands(Color)[0].params, ctx);
  }

  lemma OfferedKey(ctx: Context, key: string)
    requires key in ["hue", "saturation", "kelvin"]
    ensures HasKey(Narrow(StateFields(Color), ctx), key) <==> !Hidden(key, ctx)
    ensures HasKey(Narrow(Commands(Color)[0].params, ctx), key) <==> !Hidden(key, ctx)
  {
    ColorKeys(key);
    NarrowKeys(StateFields(Color), ctx, key);
    NarrowKeys(Commands(Color)[0].params, ctx, key);
  }

  /** White temperature runs over the range the light reports, if it reports one; no other field is touched. */
  lemma {:induction false} NarrowFields(fs: seq<Field>, ctx: Context)
    ensures forall f :: f in Narrow(fs, ctx) && (f.key != "kelvin" || ctx.kelvinRange.None?) ==> f in fs
  {
    if fs != [] {
      NarrowFields(fs[1..], ctx);
      assert forall f :: f in fs[1..] ==> f in fs;
    }
  }
}
