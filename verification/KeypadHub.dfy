/** What the hub's schema accepts of a keypad mapping request. */
module KeypadHub {
  import opened Util
  import opened Text
  import opened Capability
  import opened Keypad
  import Fields

  // ---- identifiers ----

  predicate IsUlidChar(c: char) {
    IsDigit(c) || ('A' <= c <= 'Z' && c != 'I' && c != 'L' && c != 'O' && c != 'U')
  }

  /** `dev_` and twenty-six characters of Crockford's alphabet. */
  predicate IsDeviceId(s: string) {
    |s| == 30 && s[..4] == "dev_" && forall i :: 4 <= i < 30 ==> IsUlidChar(s[i])
  }

  // ---- device commands ----

  /** The verbs of a capability's commands; a colour or a climate command has none. */
  function Verbs(k: Kind): seq<string> {
    match k
    case OnOff => ["on", "off", "toggle"]
    case Brightness => ["set", "on", "off"]
    case Position => ["open", "close", "stop", "set"]
    case Media => [
      "play", "pause", "stop", "next", "previous", "volume", "mute", "unmute", "source", "seek", "shuffle", "repeat",
      "advanced"]
    case Lock => ["lock", "unlock"]
    case Fan => ["on", "off", "preset", "direction"]
    case Vacuum => ["start", "pause", "stop", "return", "fan"]
    case Remote => ["up", "down", "left", "right", "select", "back", "menu", "home"]
    case Display => [
      "on", "off", "setInput", "muteVideo", "unmuteVideo", "muteAudio", "unmuteAudio", "muteAv", "unmuteAv", "freeze",
      "unfreeze"]
    case Color | Temperature | Sensor => []
  }

  predicate TakesVerb(k: Kind) { k != Color && k != Temperature && k != Sensor }

  predicate In(v: Json, lo: real, hi: real) { v.Num? && lo <= v.number <= hi }
  predicate Whole(v: Json, lo: real, hi: real) { In(v, lo, hi) && v.number.Floor as real == v.number }
  predicate Percent(v: Json) { In(v, 0.0, 100.0) }
  predicate OneOf(v: Json, values: seq<string>) { v.Str? && v.text in values }
  predicate WholeAt(b: Bag, key: string, lo: real, hi: real) { key in b && Whole(b[key], lo, hi) }

  /** A parameter the schema knows must have its type and range; one it does not know is dropped. */
  predicate ParamOk(k: Kind, key: string, v: Json) {
    match k
    case Brightness => (key == "level" ==> Percent(v)) && (key == "fadeMs" ==> Whole(v, 0.0, 60000.0))
    case Color =>
      && (key == "hue" ==> In(v, 0.0, 360.0)) && (key == "saturation" ==> Percent(v))
      && (key == "kelvin" ==> Whole(v, 1000.0, 10000.0)) && (key == "level" ==> Percent(v))
      && (key == "fadeMs" ==> Whole(v, 0.0, 60000.0))
    case Temperature =>
      && (key in ["targetC", "targetLowC", "targetHighC"] ==> v.Num?)
      && (key == "mode" ==> OneOf(v, ["off", "heat", "cool", "auto", "fan_only"]))
      && (key == "operatingMode" ==> OneOf(v, ["auto", "comfort", "standby", "economy", "building_protection"]))
      && (key == "heatCool" ==> OneOf(v, ["heat", "cool"])) && (key == "advanced" ==> v.Obj?)
    case Position => key == "position" ==> Percent(v)
    case Media =>
      && (key == "volume" ==> Percent(v)) && (key == "source" ==> v.Str?)
      && (key == "positionSec" ==> v.Num? && v.number >= 0.0) && (key == "shuffle" ==> v.Bool?)
      && (key == "repeat" ==> OneOf(v, ["off", "all", "one"])) && (key == "advanced" ==> v.Obj?)
    case Fan =>
      && (key == "preset" ==> OneOf(v, ["auto", "sleep", "turbo"]))
      && (key == "direction" ==> OneOf(v, ["forward", "reverse"]))
    case Vacuum => key == "fanSpeed" ==> OneOf(v, ["quiet", "normal", "turbo"])
    case Display =>
      key == "input" ==> v.Obj? && WholeAt(v.fields, "source", 1.0, 5.0) && WholeAt(v.fields, "number", 1.0, 9.0)
    case OnOff | Lock | Remote | Sensor => true
  }

  predicate VerbOk(k: Kind, verb: Option<Json>) {
    TakesVerb(k) ==> verb.Some? && OneOf(verb.value, Verbs(k))
  }

  predicate ParamsOk(k: Kind, params: Bag) {
    forall key :: key in params ==> key == "capability" || key == "action" || ParamOk(k, key, params[key])
  }

  predicate CommandOk(c: Command, k: Kind) {
    c["capability"] == Str(KindName(k)) && k != Sensor && VerbOk(k, Get(c, "action")) && ParamsOk(k, c)
  }

  /** Actions of other kinds are not looked into: no form builds one, and a stored one has been accepted. */
  ghost predicate ActionOk(a: Action) {
    a.DeviceCommand? ==> IsDeviceId(a.deviceId) && exists k :: CommandOk(a.command, k)
  }

  ghost predicate ActionsOk(actions: seq<Action>) {
    forall i :: 0 <= i < |actions| ==> ActionOk(actions[i])
  }

  // ---- mappings ----

  predicate ToggleCapable(k: Kind) { k in [OnOff, Brightness, Fan, Lock, Vacuum] }
  predicate LevelStepCapable(k: Kind) { k in [Brightness, Position, Color] }

  predicate Suits(k: Kind, b: Behavior) {
    match b
    case Toggle => ToggleCapable(k)
    case Alternate | Increment | Decrement => LevelStepCapable(k)
    case Direct | Cycle => true
  }

  /** The rules that tie behaviour, target and actions together. */
  predicate Refined(u: Update) {
    && (u.behavior == Direct ==> u.actions != [])
    && (u.behavior != Direct ==> u.target.Some?)
    && (u.behavior == Cycle ==> u.actions != [])
    && (u.behavior != Direct && u.target.Some? ==> Suits(u.target.value.capability, u.behavior))
  }

  predicate TargetOk(t: Target) {
    IsDeviceId(t.deviceId) && 1.0 <= t.step <= 100.0 && (t.fadeMs.Some? ==> 0 <= t.fadeMs.value <= 60000)
  }

  /** All that the schema asks of a request. */
  ghost predicate Accepts(u: Update) {
    && u.name != "" && u.input.control != "" && IsDeviceId(u.input.keypadId)
    && ActionsOk(u.actions) && Refined(u) && (u.target.Some? ==> TargetOk(u.target.value))
  }

  /** A mapping as the hub stores it: one that the same schema has accepted. */
  ghost predicate StoredOk(m: Mapping) {
    Accepts(Update(m.name, m.input, m.actions, m.behavior, m.target))
  }

  /** The capability the form will send is one its behaviour can work on. */
  predicate Eligible(f: Form) {
    f.targetCapability.Some? ==> Suits(f.targetCapability.value, f.behavior)
  }

  /** The form's own check is the hub's cross-field rules, but for blank names and the choice of capability. */
  lemma ValidationMirrorsHub(f: Form)
    ensures Validate(f).None? && (NeedsTarget(f.behavior) ==> Eligible(f)) <==>
            Refined(Draft(f)) && Trim(f.name) != "" && Trim(f.input.control) != ""
  {
    ToActionsAre(f.actions);
  }

  // ---- a row of the form against a command of the schema ----

  /** A row that speaks of capability `k`, with nothing wrong in it unless its verb is missing. */
  predicate RowOf(e: Entry, k: Kind) {
    && IsDeviceId(e.deviceId) && e.capability == Str(KindName(k)) && k != Sensor
    && "capability" !in e.params && "action" !in e.params && ParamsOk(k, e.params)
    && (e.action.Some? ==> VerbOk(k, e.action))
  }

  ghost predicate RowOk(e: Entry) {
    exists k :: RowOf(e, k)
  }

  /** The capability wants a verb and none is chosen. */
  ghost predicate Verbless(e: Entry) {
    e.action.None? && exists k :: e.capability == Str(KindName(k)) && TakesVerb(k)
  }

  lemma RowAcceptedIff(e: Entry)
    requires RowOk(e)
    ensures ActionOk(ToAction(e)) <==> !Verbless(e)
  {
    var k :| RowOf(e, k);
    var c := ToAction(e).command;
    assert c["capability"] == Str(KindName(k));
    assert Get(c, "action") == e.action;
    assert forall key :: key in c && key != "capability" && key != "action" ==> key in e.params && c[key] == e.params[key];
    assert ParamsOk(k, c);
    if !Verbless(e) {
      assert CommandOk(c, k);
    } else {
      forall j ensures !CommandOk(c, j) {
        if c["capability"] == Str(KindName(j)) { KindNameInjective(j, k); }
      }
    }
  }

  /** A command the hub stores loads as such a row, its verb in place. */
  lemma LoadedRow(a: Action)
    requires a.DeviceCommand? && ActionOk(a)
    ensures RowOk(ToEntry(a)) && !Verbless(ToEntry(a))
  {
    var k :| CommandOk(a.command, k);
    var e := ToEntry(a);
    assert ParamsOk(k, e.params);
    assert RowOf(e, k);
    ActionBack(a);
    RowAcceptedIff(e);
  }

  /** The verbs the editor offers for a capability are verbs the hub knows. */
  lemma OfferedVerbOk(k: Kind, i: nat)
    requires i < |Fields.Commands(k)|
    ensures TakesVerb(k) <==> Fields.Commands(k)[i].action.Some?
    ensures TakesVerb(k) ==> Fields.Commands(k)[i].action.value in Verbs(k)
  {
    match k {
      case Media => OfferedMediaVerbOk(i);
      case Display => OfferedDisplayVerbOk(i);
      case Remote => OfferedRemoteVerbOk(i);
      case _ => OfferedSmallVerbOk(k, i);
    }
  }

  lemma OfferedMediaVerbOk(i: nat)
    requires i < |Fields.Commands(Media)|
    ensures Fields.Commands(Media)[i].action.Some? && Fields.Commands(Media)[i].action.value in Verbs(Media)
  {
  }

  lemma OfferedDisplayVerbOk(i: nat)
    requires i < |Fields.Commands(Display)|
    ensures Fields.Commands(Display)[i].action.Some? && Fields.Commands(Display)[i].action.value in Verbs(Display)
  {
  }

  lemma OfferedRemoteVerbOk(i: nat)
    requires i < |Fields.Commands(Remote)|
    ensures Fields.Commands(Remote)[i].action.Some? && Fields.Commands(Remote)[i].action.value in Verbs(Remote)
  {
  }

  lemma OfferedSmallVerbOk(k: Kind, i: nat)
    requires k != Media && k != Display && k != Remote && i < |Fields.Commands(k)|
    ensures TakesVerb(k) <==> Fields.Commands(k)[i].action.Some?
    ensures TakesVerb(k) ==> Fields.Commands(k)[i].action.value in Verbs(k)
  {
  }
}
