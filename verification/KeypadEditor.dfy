/** Editing a keypad mapping: every control of the form, and what the hub makes of the result. */
module KeypadEditor {
  import opened Util
  import opened Text
  import opened Capability
  import opened Keypad
  import opened KeypadHub
  import Fields

  datatype Device = Device(id: string, kinds: seq<Kind>)

  function Find(devices: seq<Device>, id: string): (r: Option<Device>)
    ensures r.Some? ==> r.value in devices && r.value.id == id
  {
    if devices == [] then None else if devices[0].id == id then Some(devices[0]) else Find(devices[1..], id)
  }

  function Commandable(d: Device): seq<Kind> { Fields.Commandable(d.kinds) }

  /** The first device with something to command. */
  function FirstCommandable(devices: seq<Device>): (r: Option<Device>)
    ensures r.Some? ==> r.value in devices && Commandable(r.value) != []
  {
    if devices == [] then None
    else if Commandable(devices[0]) != [] then Some(devices[0])
    else FirstCommandable(devices[1..])
  }

  function Suiting(kinds: seq<Kind>, b: Behavior): (r: seq<Kind>)
    ensures forall k :: k in r <==> k in kinds && Suits(k, b)
  {
    if kinds == [] then []
    else
      assert forall k :: k in kinds <==> k == kinds[0] || k in kinds[1..];
      (if Suits(kinds[0], b) then [kinds[0]] else []) + Suiting(kinds[1..], b)
  }

  /** The capabilities the target picker offers. */
  function Offered(devices: seq<Device>, id: Option<string>, b: Behavior): seq<Kind> {
    if id.None? || Find(devices, id.value).None? then []
    else Suiting(Commandable(Find(devices, id.value).value), b)
  }

  function First<T>(s: seq<T>): Option<T> { if s == [] then None else Some(s[0]) }

  // ---- the controls ----

  datatype Edit =
    | SetName(name: string)
    | SetEvent(event: Press)
    | SetBehavior(behavior: Behavior)
    | PickDevice(id: string)
    | PickCapability(capability: Kind)
    | SetStep(typed: real)
    | SetFade(seconds: Option<real>)
    | AddRow
    | RowDevice(row: nat, id: string)
    | RowCapability(row: nat, capability: Kind)
    | RowVerb(row: nat, verb: Option<string>)
    | RemoveRow(row: nat)

  /** An id on one of the device lists: that of a device with something to command. */
  predicate OnList(devices: seq<Device>, id: string) {
    Find(devices, id).Some? && Commandable(Find(devices, id).value) != []
  }

  /** The verbs offered in a row: those of its capability's commands, or none for a command without. */
  ghost predicate VerbOffered(e: Entry, verb: Option<string>) {
    exists k, i :: e.capability == Str(KindName(k)) && 0 <= i < |Fields.Commands(k)| && Fields.Commands(k)[i].action == verb
  }

  ghost predicate Enabled(devices: seq<Device>, f: Form, e: Edit) {
    match e
    case SetEvent(p) => p == ShortPress || p == HoldStart || p == HoldEnd
    case PickDevice(id) => NeedsTarget(f.behavior) && (id == "" || OnList(devices, id))
    case PickCapability(k) => NeedsTarget(f.behavior) && k in Offered(devices, f.targetDeviceId, f.behavior)
    case SetStep(_) => NeedsTarget(f.behavior)
    case SetFade(_) => NeedsTarget(f.behavior)
    case AddRow => NeedsActions(f.behavior)
    case RowDevice(i, id) => NeedsActions(f.behavior) && i < |f.actions| && OnList(devices, id)
    case RowCapability(i, k) =>
      && NeedsActions(f.behavior) && i < |f.actions|
      && Find(devices, f.actions[i].deviceId).Some? && k in Commandable(Find(devices, f.actions[i].deviceId).value)
      && |Commandable(Find(devices, f.actions[i].deviceId).value)| > 1
    case RowVerb(i, v) => NeedsActions(f.behavior) && i < |f.actions| && VerbOffered(f.actions[i], v)
    case RemoveRow(i) => NeedsActions(f.behavior) && i < |f.actions|
    case _ => true
  }

  /** The row `Add action` puts at the end: the first device's first capability, with its first verb. */
  function NewRow(d: Device): Entry
    requires Commandable(d) != []
  {
    var k := Commandable(d)[0];
    var ds := Fields.Commands(k);
    Entry(d.id, Str(KindName(k)), Verb(if ds == [] then None else ds[0].action), map[])
  }

  function Verb(v: Option<string>): Option<Json> {
    if v.Some? then Some(Str(v.value)) else None
  }

  function Apply(devices: seq<Device>, f: Form, e: Edit): Form
    requires Enabled(devices, f, e)
  {
    match e
    case SetName(n) => f.(name := n)
    case SetEvent(p) => f.(input := f.input.(event := p))
    case SetBehavior(b) =>
      var offered := Offered(devices, f.targetDeviceId, b);
      var keep := f.targetCapability.Some? && f.targetCapability.value in offered;
      f.(behavior := b, targetCapability := if keep then f.targetCapability else First(offered))
    case PickDevice(id) =>
      var picked := if id == "" then None else Some(id);
      f.(targetDeviceId := picked, targetCapability := First(Offered(devices, picked, f.behavior)))
    case PickCapability(k) => f.(targetCapability := Some(k))
    case SetStep(x) => f.(step := if x == 0.0 then 10.0 else x)
    case SetFade(s) => f.(fadeSeconds := if s.Some? && s.value < 0.0 then Some(0.0) else s)
    case AddRow =>
      var d := FirstCommandable(devices);
      if d.None? then f else f.(actions := f.actions + [NewRow(d.value)])
    case RowDevice(i, id) =>
      var k := Commandable(Find(devices, id).value)[0];
      SetRow(f, i, Entry(id, Str(KindName(k)), None, map[]))
    case RowCapability(i, k) => SetRow(f, i, Entry(f.actions[i].deviceId, Str(KindName(k)), None, map[]))
    case RowVerb(i, v) => SetRow(f, i, f.actions[i].(action := Verb(v), params := map[]))
    case RemoveRow(i) => f.(actions := f.actions[..i] + f.actions[i + 1..])
  }

  function SetRow(f: Form, i: nat, e: Entry): Form
    requires i < |f.actions|
  {
    f.(actions := f.actions[i := e])
  }

  /** `es` leads from `f` to `g`. */
  ghost predicate Edits(devices: seq<Device>, f: Form, es: seq<Edit>, g: Form)
    decreases |es|
  {
    if es == [] then g == f
    else Enabled(devices, f, es[0]) && Edits(devices, Apply(devices, f, es[0]), es[1..], g)
  }

  // ---- what every edit keeps ----

  ghost predicate KnownIds(devices: seq<Device>) {
    forall d :: d in devices ==> IsDeviceId(d.id)
  }

  ghost predicate RowsOk(es: seq<Entry>) {
    forall i :: 0 <= i < |es| ==> RowOk(es[i])
  }

  ghost predicate FormInv(f: Form) {
    && (f.behavior != Direct ==> Eligible(f))
    && (f.fadeSeconds.Some? ==> f.fadeSeconds.value >= 0.0)
    && IsDeviceId(f.input.keypadId)
    && (f.targetDeviceId.Some? ==> IsDeviceId(f.targetDeviceId.value))
    && RowsOk(f.actions)
  }

  lemma FreshRowOk(id: string, k: Kind)
    requires IsDeviceId(id) && k != Sensor
    ensures RowOk(Entry(id, Str(KindName(k)), None, map[]))
  {
    assert RowOf(Entry(id, Str(KindName(k)), None, map[]), k);
  }

  lemma NewRowOk(d: Device)
    requires IsDeviceId(d.id) && Commandable(d) != []
    ensures RowOk(NewRow(d)) && !Verbless(NewRow(d))
  {
    var k := Commandable(d)[0];
    assert k in Commandable(d);
    assert Fields.Commands(k) != [] by { EveryKindHasCommands(k); }
    OfferedVerbOk(k, 0);
    assert RowOf(NewRow(d), k);
    forall j | NewRow(d).capability == Str(KindName(j)) ensures j == k { KindNameInjective(j, k); }
  }

  lemma EveryKindHasCommands(k: Kind)
    requires k != Sensor
    ensures |Fields.Commands(k)| > 0
  {
  }

  lemma VerbRowOk(e: Entry, verb: Option<string>)
    requires RowOk(e) && VerbOffered(e, verb)
    ensures RowOk(e.(action := Verb(verb), params := map[])) && !Verbless(e.(action := Verb(verb), params := map[]))
  {
    var k :| RowOf(e, k);
    var j, i :| e.capability == Str(KindName(j)) && 0 <= i < |Fields.Commands(j)| && Fields.Commands(j)[i].action == verb;
    KindNameInjective(j, k);
    OfferedVerbOk(k, i);
    var now := e.(action := Verb(verb), params := map[]);
    assert RowOf(now, k);
    forall m | now.capability == Str(KindName(m)) ensures m == k { KindNameInjective(m, k); }
  }

  lemma EditRowsOk(devices: seq<Device>, f: Form, e: Edit)
    requires KnownIds(devices) && FormInv(f) && Enabled(devices, f, e)
    ensures RowsOk(Apply(devices, f, e).actions)
  {
    match e
    case AddRow => if FirstCommandable(devices).Some? { NewRowOk(FirstCommandable(devices).value); }
    case RowDevice(i, id) =>
      var d := Find(devices, id).value;
      assert Commandable(d)[0] in Commandable(d);
      FreshRowOk(id, Commandable(d)[0]);
    case RowCapability(i, k) =>
      var row := f.actions[i];
      assert RowOk(row);
      FreshRowOk(row.deviceId, k);
    case RowVerb(i, v) => VerbRowOk(f.actions[i], v);
    case _ =>
  }

  lemma EditKeeps(devices: seq<Device>, f: Form, e: Edit)
    requires KnownIds(devices) && FormInv(f) && Enabled(devices, f, e)
    ensures FormInv(Apply(devices, f, e))
  {
    EditRowsOk(devices, f, e);
    match e
    case SetBehavior(b) => assert forall k :: k in Offered(devices, f.targetDeviceId, b) ==> Suits(k, b);
    case PickDevice(id) =>
    case PickCapability(k) =>
    case _ =>
  }

  lemma {:induction false} EditsKeep(devices: seq<Device>, f: Form, es: seq<Edit>, g: Form)
    requires KnownIds(devices) && FormInv(f) && Edits(devices, f, es, g)
    ensures FormInv(g)
    decreases |es|
  {
    if es != [] {
      EditKeeps(devices, f, es[0]);
      EditsKeep(devices, Apply(devices, f, es[0]), es[1..], g);
    }
  }

  // ---- opening ----

  function Empty(name: string, input: Input): Form {
    Form(name, input, Direct, None, None, 10.0, None, [])
  }

  lemma {:induction false} LoadedRows(actions: seq<Action>)
    requires ActionsOk(actions)
    ensures forall i :: 0 <= i < |Entries(actions)| ==> RowOk(Entries(actions)[i]) && !Verbless(Entries(actions)[i])
  {
    if actions != [] {
      assert forall i :: 0 <= i < |actions| - 1 ==> actions[1..][i] == actions[i + 1];
      LoadedRows(actions[1..]);
      if actions[0].DeviceCommand? {
        LoadedRow(actions[0]);
        assert Entries(actions) == [ToEntry(actions[0])] + Entries(actions[1..]);
      }
    }
  }

  /** A new form for a keypad and a stored mapping's form both start within the invariant. */
  lemma OpeningsOk(name: string, input: Input, m: Mapping)
    ensures IsDeviceId(input.keypadId) ==> FormInv(Empty(name, input))
    ensures StoredOk(m) ==> FormInv(Load(m))
  {
    if StoredOk(m) { LoadedRows(m.actions); }
  }

  // ---- saving ----

  lemma ActionsOkCons(a: Action, rest: seq<Action>)
    ensures ActionsOk([a] + rest) <==> ActionOk(a) && ActionsOk(rest)
  {
    var all := [a] + rest;
    assert all[0] == a && forall i :: 0 <= i < |rest| ==> all[i + 1] == rest[i];
    assert forall i :: 0 < i < |all| ==> all[i] == rest[i - 1];
  }

  ghost predicate NoneVerbless(es: seq<Entry>) {
    forall i :: 0 <= i < |es| ==> !Verbless(es[i])
  }

  lemma {:induction false} RowsAcceptedIff(es: seq<Entry>)
    requires RowsOk(es)
    ensures ActionsOk(ToActions(es)) <==> NoneVerbless(es)
  {
    if es != [] {
      var rest := es[1..];
      assert forall i :: 0 <= i < |rest| ==> rest[i] == es[i + 1];
      assert forall i :: 0 < i < |es| ==> es[i] == rest[i - 1];
      RowsAcceptedIff(rest);
      RowAcceptedIff(es[0]);
      ActionsOkCons(ToAction(es[0]), ToActions(rest));
    }
  }

  /** What the form's controls let through unchecked: a step, a fade, and rows without a verb. */
  ghost predicate WithinBounds(f: Form) {
    && (NeedsTarget(f.behavior) ==>
          1.0 <= f.step <= 100.0 && (f.fadeSeconds.Some? ==> f.fadeSeconds.value * 1000.0 < 60000.5))
    && (NeedsActions(f.behavior) ==> NoneVerbless(f.actions))
  }

  /**
   * However a form was edited, from an empty one or from a stored mapping: once its own check passes,
   * the hub takes it exactly when step and fade are within bounds and no row lacks a verb it needs.
   */
  lemma SavedFormAccepted(devices: seq<Device>, f: Form, es: seq<Edit>, g: Form)
    requires KnownIds(devices) && FormInv(f) && Edits(devices, f, es, g)
    requires Validate(g).None?
    ensures Accepts(BuildUpdate(g).request) <==> WithinBounds(g)
  {
    EditsKeep(devices, f, es, g);
    ToActionsAre(g.actions);
    RowsAcceptedIff(g.actions);
  }

  /**
   * Giving a row another device or capability that takes a verb leaves it without one: the form's
   * check still passes, and the hub refuses the mapping.
   */
  lemma ChangedRowRefused(devices: seq<Device>, f: Form, e: Edit)
    requires KnownIds(devices) && FormInv(f) && Enabled(devices, f, e) && Validate(f).None?
    requires (e.RowCapability? && TakesVerb(e.capability)) ||
             (e.RowDevice? && TakesVerb(Commandable(Find(devices, e.id).value)[0]))
    ensures var g := Apply(devices, f, e); Validate(g).None? && !Accepts(BuildUpdate(g).request)
  {
    var g := Apply(devices, f, e);
    EditKeeps(devices, f, e);
    assert Verbless(g.actions[e.row]);
    RowsAcceptedIff(g.actions);
    assert !WithinBounds(g);
  }

  // ---- and such a row is two clicks away ----

  const LAMP := Device("dev_" + seq(26, i => '0'), [OnOff, Brightness])

  lemma LampKnown()
    ensures KnownIds([LAMP])
  {
    assert LAMP.id[..4] == "dev_";
    assert forall i :: 4 <= i < 30 ==> LAMP.id[i] == '0';
  }

  lemma LampOffers()
    ensures Commandable(LAMP) == [OnOff, Brightness]
    ensures Find([LAMP], LAMP.id) == Some(LAMP) && FirstCommandable([LAMP]) == Some(LAMP)
  {
    assert LAMP.kinds[1..] == [Brightness] && [Brightness][1..] == [];
  }

  lemma EditsTwo(devices: seq<Device>, f: Form, a: Edit, b: Edit)
    requires Enabled(devices, f, a) && Enabled(devices, Apply(devices, f, a), b)
    ensures Edits(devices, f, [a, b], Apply(devices, Apply(devices, f, a), b))
  {
    var f1, f2 := Apply(devices, f, a), Apply(devices, Apply(devices, f, a), b);
    assert [a, b][1..] == [b] && [b][1..] == [];
    assert Edits(devices, f2, [], f2);
    assert Edits(devices, f1, [b], f2);
  }

  lemma VerblessRowReachable(name: string, control: string)
    requires Trim(name) != "" && Trim(control) != ""
    ensures exists g ::
      && Edits([LAMP], Empty(name, Input(LAMP.id, control, ShortPress)), [AddRow, RowCapability(0, Brightness)], g)
      && Validate(g).None? && !Accepts(BuildUpdate(g).request)
  {
    var f := Empty(name, Input(LAMP.id, control, ShortPress));
    LampKnown();
    LampOffers();
    assert LAMP in [LAMP];
    EditKeeps([LAMP], f, AddRow);
    var f1 := Apply([LAMP], f, AddRow);
    assert f1.actions == [NewRow(LAMP)];
    EditsTwo([LAMP], f, AddRow, RowCapability(0, Brightness));
    ChangedRowRefused([LAMP], f1, RowCapability(0, Brightness));
  }
}
