/** The keypad mapping form: form to request and stored mapping to form. */
module Keypad {
  import opened Util
  import opened Text
  import opened Capability

  datatype Json = Str(text: string) | Num(number: real) | Bool(flag: bool) | Obj(fields: map<string, Json>)
  type Bag = map<string, Json>

  datatype Behavior = Direct | Toggle | Alternate | Cycle | Increment | Decrement
  datatype Press =
    | ButtonPressed | ButtonReleased | ShortPress | LongPress | DoublePress | TriplePress
    | HoldStart | Holding | HoldEnd | RotateClockwise | RotateCounterclockwise | Swipe | Gesture
  datatype Input = Input(keypadId: string, control: string, event: Press)
  datatype Target = Target(deviceId: string, capability: Kind, step: real, fadeMs: Option<int>)

  /** A command travels flat: its capability, its verb if it has one, and its parameters. */
  type Command = c: Bag | "capability" in c witness map["capability" := Str("onoff")]
  datatype Action = DeviceCommand(deviceId: string, command: Command) | OtherAction(kind: string, detail: Bag)

  /** One row of the form's action list. */
  datatype Entry = Entry(deviceId: string, capability: Json, action: Option<Json>, params: Bag)

  datatype Form = Form(
    name: string, input: Input, behavior: Behavior,
    targetDeviceId: Option<string>, targetCapability: Option<Kind>, step: real, fadeSeconds: Option<real>,
    actions: seq<Entry>)

  datatype Update = Update(
    name: string, input: Input, actions: seq<Action>, behavior: Behavior, target: Option<Target>)
  datatype Create = Create(body: Update, enabled: bool, conditions: seq<string>, variables: Bag)

  datatype BehaviorState = BehaviorState(lastUp: Option<bool>, cycleIndex: nat)
  datatype Mapping = Mapping(
    name: string, enabled: bool, input: Input, conditions: seq<string>, actions: seq<Action>,
    behavior: Behavior, target: Option<Target>, state: BehaviorState, variables: Bag)

  datatype Problem = NameRequired | ControlRequired | TargetNeeded | ActionsNeeded
  datatype Built<R> = Ok(request: R) | Err(problem: Problem)

  predicate NeedsTarget(b: Behavior) { b != Direct }
  predicate NeedsActions(b: Behavior) { b == Direct || b == Cycle }

  // ---- validation and the two builders ----

  /** The target the form names, if it names one completely; an empty id does not count. */
  predicate HasTarget(f: Form) {
    f.targetDeviceId.GetOr("") != "" && f.targetCapability.Some?
  }

  function Validate(f: Form): Option<Problem> {
    if Trim(f.name) == "" then Some(NameRequired)
    else if Trim(f.input.control) == "" then Some(ControlRequired)
    else if NeedsTarget(f.behavior) && !HasTarget(f) then Some(TargetNeeded)
    else if NeedsActions(f.behavior) && f.actions == [] then Some(ActionsNeeded)
    else None
  }

  /** `Math.round`: half goes up. */
  function Round(x: real): int { (x + 0.5).Floor }

  function ToAction(e: Entry): Action {
    var command := map["capability" := e.capability] + e.params;
    DeviceCommand(e.deviceId, if e.action.Some? then command["action" := e.action.value] else command)
  }

  function ToActions(es: seq<Entry>): seq<Action> {
    if es == [] then [] else [ToAction(es[0])] + ToActions(es[1..])
  }

  function BuildTarget(f: Form): Option<Target> {
    if !NeedsTarget(f.behavior) || !HasTarget(f) then None
    else Some(Target(f.targetDeviceId.value, f.targetCapability.value, f.step,
                     if f.fadeSeconds.Some? then Some(Round(f.fadeSeconds.value * 1000.0)) else None))
  }

  /** The request a form amounts to, complete or not. */
  function Draft(f: Form): Update {
    Update(Trim(f.name), f.input, if NeedsActions(f.behavior) then ToActions(f.actions) else [],
           f.behavior, BuildTarget(f))
  }

  function BuildUpdate(f: Form): Built<Update> {
    match Validate(f)
    case Some(p) => Err(p)
    case None => Ok(Draft(f))
  }

  function BuildCreate(f: Form): Built<Create> {
    match Validate(f)
    case Some(p) => Err(p)
    case None => Ok(Create(Draft(f), true, [], map[]))
  }

  // ---- loading ----

  function ToEntry(a: Action): Entry
    requires a.DeviceCommand?
  {
    Entry(a.deviceId, a.command["capability"], Get(a.command, "action"), a.command - {"capability", "action"})
  }

  /** Only device commands reach the form. */
  function Entries(actions: seq<Action>): seq<Entry> {
    if actions == [] then []
    else (if actions[0].DeviceCommand? then [ToEntry(actions[0])] else []) + Entries(actions[1..])
  }

  function Load(m: Mapping): Form {
    Form(m.name, m.input, m.behavior,
         if m.target.Some? then Some(m.target.value.deviceId) else None,
         if m.target.Some? then Some(m.target.value.capability) else None,
         if m.target.Some? then m.target.value.step else 10.0,
         if m.target.Some? && m.target.value.fadeMs.Some?
         then Some(m.target.value.fadeMs.value as real / 1000.0) else None,
         Entries(m.actions))
  }

  // ---- the hub's side: storing what a request says ----

  function Store(r: Create): Mapping {
    Mapping(r.body.name, r.enabled, r.body.input, r.conditions, r.body.actions, r.body.behavior, r.body.target,
            BehaviorState(None, 0), r.variables)
  }

  function Patch(m: Mapping, u: Update): Mapping {
    m.(name := u.name, input := u.input, actions := u.actions, behavior := u.behavior, target := u.target)
  }

  // ---- printer and parser ----

  function Devices(actions: seq<Action>): (r: seq<Action>)
    ensures |r| <= |actions|
  {
    if actions == [] then []
    else (if actions[0].DeviceCommand? then [actions[0]] else []) + Devices(actions[1..])
  }

  ghost predicate OnlyDevices(actions: seq<Action>) {
    forall i :: 0 <= i < |actions| ==> actions[i].DeviceCommand?
  }

  /** Half a unit in the last place of a double, relative to its value. */
  const HALF_ULP: real := 1.0 / 9007199254740992.0

  predicate Rounded(x: real, exact: real) {
    exact * (1.0 - HALF_ULP) <= x <= exact * (1.0 + HALF_ULP)
  }

  /**
   * Milliseconds the hub may store come back from seconds whatever the two floating-point roundings
   * on the way do, so exact seconds lose nothing below.
   */
  lemma MillisBack(ms: nat, seconds: real, product: real)
    requires ms <= 60000
    requires Rounded(seconds, ms as real / 1000.0) && Rounded(product, seconds * 1000.0)
    ensures Round(product) == ms
  {
    var most: real := 60000.0 * 3.0 * HALF_ULP;
    assert ms as real - most <= product <= ms as real + most;
  }

  lemma RoundMillis(ms: int)
    ensures Round(ms as real / 1000.0 * 1000.0) == ms
  {
  }

  lemma ActionBack(a: Action)
    requires a.DeviceCommand?
    ensures ToAction(ToEntry(a)) == a
  {
    var e := ToEntry(a);
    assert ToAction(e).command.Keys == a.command.Keys;
  }

  /** A row of the form comes back unless one of its parameters is called like the capability or the verb. */
  lemma EntryBackIff(e: Entry)
    ensures ToEntry(ToAction(e)) == e <==> "capability" !in e.params && "action" !in e.params
  {
    var back := ToEntry(ToAction(e));
    assert "capability" !in back.params && "action" !in back.params;
    assert back.params == e.params - {"capability", "action"};
  }

  lemma {:induction false} ActionsBack(actions: seq<Action>)
    ensures ToActions(Entries(actions)) == Devices(actions)
  {
    if actions != [] {
      ActionsBack(actions[1..]);
      if actions[0].DeviceCommand? {
        ActionBack(actions[0]);
        assert Entries(actions)[1..] == Entries(actions[1..]);
      } else {
        assert Entries(actions) == Entries(actions[1..]);
      }
    }
  }

  lemma {:induction false} DevicesIff(actions: seq<Action>)
    ensures Devices(actions) == actions <==> OnlyDevices(actions)
    ensures Devices(actions) == [] <==> forall i :: 0 <= i < |actions| ==> !actions[i].DeviceCommand?
  {
    if actions != [] {
      DevicesIff(actions[1..]);
      if actions[0].DeviceCommand? {
        assert Devices(actions)[1..] == Devices(actions[1..]);
        assert OnlyDevices(actions) <==> OnlyDevices(actions[1..]);
        assert Devices(actions[1..]) == actions[1..] ==> Devices(actions) == actions;
      } else {
        assert |Devices(actions)| < |actions|;
      }
    }
  }

  lemma {:induction false} ToActionsAre(es: seq<Entry>)
    ensures OnlyDevices(ToActions(es)) && |ToActions(es)| == |es|
  {
    if es != [] { ToActionsAre(es[1..]); }
  }

  lemma {:induction false} EntriesBackIff(es: seq<Entry>)
    ensures |Entries(ToActions(es))| == |es|
    ensures Entries(ToActions(es)) == es <==>
            forall i :: 0 <= i < |es| ==> "capability" !in es[i].params && "action" !in es[i].params
  {
    if es != [] {
      EntryBackIff(es[0]);
      EntriesBackIff(es[1..]);
      assert ToActions(es)[1..] == ToActions(es[1..]);
      var back := Entries(ToActions(es));
      assert back[0] == ToEntry(ToAction(es[0])) && back[1..] == Entries(ToActions(es[1..]));
      assert back == es <==> back[0] == es[0] && back[1..] == es[1..];
      assert forall i :: 0 < i < |es| ==> es[i] == es[1..][i - 1];
      assert forall i :: 0 <= i < |es| - 1 ==> es[1..][i] == es[i + 1];
    }
  }

  // ---- round trips ----

  /** A loaded target is built again as it was, as long as it counts. */
  lemma LoadedTarget(m: Mapping)
    ensures HasTarget(Load(m)) <==> m.target.Some? && m.target.value.deviceId != ""
    ensures NeedsTarget(m.behavior) && HasTarget(Load(m)) ==> BuildTarget(Load(m)) == m.target
  {
    if m.target.Some? && m.target.value.fadeMs.Some? {
      RoundMillis(m.target.value.fadeMs.value);
    }
  }

  /** Loaded actions are built again as they were, but for those that are no device commands. */
  lemma LoadedActions(m: Mapping)
    ensures ToActions(Load(m).actions) == Devices(m.actions)
    ensures Load(m).actions == [] <==> Devices(m.actions) == []
  {
    ActionsBack(m.actions);
    ToActionsAre(Entries(m.actions));
  }

  /** A mapping loaded from what a form sent asks for exactly the same again. */
  lemma SentIsStable(f: Form, m: Mapping)
    requires Validate(f).None? && Patch(m, Draft(f)) == m
    ensures BuildUpdate(Load(m)) == BuildUpdate(f)
  {
    ToActionsAre(f.actions);
    DevicesIff(m.actions);
    LoadedActions(m);
    LoadedTarget(m);
  }

  /** Save, load, save: the second request is the first, for a new mapping and for an edited one. */
  lemma SaveLoadSave(f: Form, m: Mapping)
    requires Validate(f).None?
    ensures BuildCreate(Load(Store(BuildCreate(f).request))) == BuildCreate(f)
    ensures BuildUpdate(Load(Patch(m, BuildUpdate(f).request))) == BuildUpdate(f)
  {
    var stored := Store(BuildCreate(f).request);
    SentIsStable(f, stored);
    SentIsStable(f, Patch(m, Draft(f)));
    assert BuildUpdate(Load(stored)) == BuildUpdate(f);
  }

  /** A stored mapping in the shape the form itself would have stored it. */
  ghost predicate Normalised(m: Mapping) {
    && m.name != "" && Trim(m.name) == m.name
    && Trim(m.input.control) != ""
    && (if NeedsTarget(m.behavior) then m.target.Some? && m.target.value.deviceId != "" else m.target.None?)
    && (if NeedsActions(m.behavior) then m.actions != [] && OnlyDevices(m.actions) else m.actions == [])
  }

  /**
   * Opening a mapping and saving it untouched leaves it as it was exactly when it is normalised:
   * a scene, notification or delay among the actions is lost, and so is a leftover target or action list.
   */
  lemma EditUnchangedIff(m: Mapping)
    ensures BuildUpdate(Load(m)).Ok? && Patch(m, BuildUpdate(Load(m)).request) == m <==> Normalised(m)
  {
    DevicesIff(m.actions);
    LoadedActions(m);
    LoadedTarget(m);
  }

  /** A form with nothing in it that a request cannot carry. */
  ghost predicate Canonical(f: Form) {
    && Trim(f.name) == f.name
    && (if NeedsTarget(f.behavior)
        then f.fadeSeconds.Some? ==> Round(f.fadeSeconds.value * 1000.0) as real == f.fadeSeconds.value * 1000.0
        else f.targetDeviceId.None? && f.targetCapability.None? && f.step == 10.0 && f.fadeSeconds.None?)
    && (if NeedsActions(f.behavior)
        then forall i :: 0 <= i < |f.actions| ==> "capability" !in f.actions[i].params && "action" !in f.actions[i].params
        else f.actions == [])
  }

  /** A saved form comes back as it was typed exactly when it is canonical. */
  lemma FormBackIff(f: Form)
    requires Validate(f).None?
    ensures Load(Store(BuildCreate(f).request)) == f <==> Canonical(f)
  {
    EntriesBackIff(f.actions);
  }
}
