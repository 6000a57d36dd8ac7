/** What a saved keypad form stores, field by field, and what each control of the editor does. */
module KeypadLaws {
  import opened Util
  import opened Text
  import opened Capability
  import opened Keypad
  import opened KeypadHub
  import opened KeypadEditor
  import Fields

  // ---- saving ----

  /** Which message an incomplete form gets: the first thing that is missing, in the order of the form. */
  lemma FirstProblemSaid(f: Form)
    ensures Validate(f) == Some(NameRequired) <==> Trim(f.name) == ""
    ensures Validate(f) == Some(ControlRequired) <==> Trim(f.name) != "" && Trim(f.input.control) == ""
    ensures var named := Trim(f.name) != "" && Trim(f.input.control) != "";
            var untargeted := f.behavior != Direct && (f.targetDeviceId.GetOr("") == "" || f.targetCapability.None?);
            && (Validate(f) == Some(TargetNeeded) <==> named && untargeted)
            && (Validate(f) == Some(ActionsNeeded) <==>
                  named && !untargeted && f.behavior in [Direct, Cycle] && f.actions == [])
    ensures BuildUpdate(f).Err? <==> Validate(f).Some?
    ensures BuildCreate(f).Err? <==> Validate(f).Some?
    ensures BuildUpdate(f).Err? ==> Some(BuildUpdate(f).problem) == Validate(f) == Some(BuildCreate(f).problem)
  {
  }

  /** `Math.round` goes to the nearest whole number, and up from halfway. */
  lemma RoundsToNearest(x: real)
    ensures x - 0.5 < Round(x) as real <= x + 0.5
  {
  }

  /** A row is sent as its device's command: its capability, its verb if it has one, and its parameters. */
  ghost predicate SentAs(e: Entry, a: Action) {
    && a.DeviceCommand? && a.deviceId == e.deviceId
    && (e.action.Some? ==> Get(a.command, "action") == e.action)
    && ("capability" !in e.params ==> a.command["capability"] == e.capability)
    && (forall key :: key in e.params && (key != "action" || e.action.None?) ==> Get(a.command, key) == Some(e.params[key]))
    && (forall key :: key in a.command ==> key == "capability" || (key == "action" && e.action.Some?) || key in e.params)
  }

  lemma RowSent(e: Entry)
    ensures SentAs(e, ToAction(e))
  {
  }

  lemma {:induction false} RowsSent(es: seq<Entry>)
    ensures |ToActions(es)| == |es| && forall i :: 0 <= i < |es| ==> SentAs(es[i], ToActions(es)[i])
  {
    if es != [] {
      RowSent(es[0]);
      RowsSent(es[1..]);
      assert forall i :: 0 < i < |es| ==> es[i] == es[1..][i - 1] && ToActions(es)[i] == ToActions(es[1..])[i - 1];
    }
  }

  /** The mapping says what the form says: nothing is sent that the behaviour has no use for. */
  ghost predicate Says(m: Mapping, f: Form) {
    && m.name == Trim(f.name) && m.input == f.input && m.behavior == f.behavior
    && (if f.behavior in [Direct, Cycle]
        then |m.actions| == |f.actions| && forall i :: 0 <= i < |f.actions| ==> SentAs(f.actions[i], m.actions[i])
        else m.actions == [])
    && (if f.behavior == Direct then m.target == None
        else
          && m.target.Some? && f.targetDeviceId == Some(m.target.value.deviceId)
          && f.targetCapability == Some(m.target.value.capability) && m.target.value.step == f.step
          && (m.target.value.fadeMs.Some? <==> f.fadeSeconds.Some?)
          && (f.fadeSeconds.Some? ==>
                var ms := f.fadeSeconds.value * 1000.0;
                ms - 0.5 < m.target.value.fadeMs.value as real <= ms + 0.5))
  }

  /** A new mapping says what the form says, is enabled, unconditional, without variables and in its first state. */
  lemma CreateStores(f: Form)
    requires Validate(f).None?
    ensures BuildCreate(f).Ok?
    ensures var m := Store(BuildCreate(f).request);
            && Says(m, f) && m.enabled && m.conditions == [] && m.variables == map[] && m.state == BehaviorState(None, 0)
  {
    RowsSent(f.actions);
  }

  /** An edited one says what the form says and is otherwise as it was: enabled or not, in whatever state. */
  lemma UpdateStores(m: Mapping, f: Form)
    requires Validate(f).None?
    ensures BuildUpdate(f).Ok?
    ensures var now := Patch(m, BuildUpdate(f).request);
            && Says(now, f) && now.enabled == m.enabled && now.conditions == m.conditions
            && now.variables == m.variables && now.state == m.state
  {
    RowsSent(f.actions);
  }

  /** What the form shows of a stored mapping: its target if it has one, and its device commands in order. */
  lemma LoadShows(m: Mapping)
    ensures var f := Load(m);
            && f.name == m.name && f.input == m.input && f.behavior == m.behavior
            && (if m.target.Some?
                then f.targetDeviceId == Some(m.target.value.deviceId) && f.step == m.target.value.step
                     && f.targetCapability == Some(m.target.value.capability)
                     && (f.fadeSeconds.Some? <==> m.target.value.fadeMs.Some?)
                     && (f.fadeSeconds.Some? ==> f.fadeSeconds.value * 1000.0 == m.target.value.fadeMs.value as real)
                else f.targetDeviceId.None? && f.targetCapability.None? && f.step == 10.0 && f.fadeSeconds.None?)
            && |f.actions| == |Devices(m.actions)|
            && forall i :: 0 <= i < |f.actions| ==> SentAs(f.actions[i], Devices(m.actions)[i])
  {
    ActionsBack(m.actions);
    RowsSent(Load(m).actions);
  }

  // ---- editing ----

  /** The form but for its target. */
  ghost predicate SameButTarget(f: Form, g: Form) {
    g.name == f.name && g.input == f.input && g.behavior == f.behavior && g.step == f.step
    && g.fadeSeconds == f.fadeSeconds && g.actions == f.actions
  }

  /** Picking a target names it and takes the first capability that suits the behaviour, or none. */
  lemma TargetPicked(devices: seq<Device>, f: Form, id: string)
    requires Enabled(devices, f, PickDevice(id))
    ensures var g := Apply(devices, f, PickDevice(id));
            && SameButTarget(f, g)
            && g.targetDeviceId == (if id == "" then None else Some(id))
            && (id == "" ==> g.targetCapability == None)
            && (id != "" ==> FirstSuiting(Commandable(Find(devices, id).value), f.behavior, g.targetCapability))
  {
    if id != "" { SuitingFirst(Commandable(Find(devices, id).value), f.behavior); }
  }

  /** `k` is the first of `kinds` that suits the behaviour. */
  ghost predicate FirstSuiting(kinds: seq<Kind>, b: Behavior, k: Option<Kind>) {
    match k
    case None => forall i :: 0 <= i < |kinds| ==> !Suits(kinds[i], b)
    case Some(kind) =>
      exists i :: 0 <= i < |kinds| && kinds[i] == kind && Suits(kind, b) && forall j :: 0 <= j < i ==> !Suits(kinds[j], b)
  }

  lemma FirstSuitingRest(kinds: seq<Kind>, b: Behavior, k: Option<Kind>)
    requires kinds != [] && !Suits(kinds[0], b) && FirstSuiting(kinds[1..], b, k)
    ensures FirstSuiting(kinds, b, k)
  {
    var rest := kinds[1..];
    assert forall i :: 0 < i < |kinds| ==> kinds[i] == rest[i - 1];
    if k.Some? {
      var i :| 0 <= i < |rest| && rest[i] == k.value && Suits(k.value, b) && forall j :: 0 <= j < i ==> !Suits(rest[j], b);
      assert kinds[i + 1] == k.value;
    }
  }

  lemma {:induction false} SuitingFirst(kinds: seq<Kind>, b: Behavior)
    ensures FirstSuiting(kinds, b, First(Suiting(kinds, b)))
  {
    if kinds != [] {
      if Suits(kinds[0], b) {
        assert Suiting(kinds, b)[0] == kinds[0];
      } else {
        SuitingFirst(kinds[1..], b);
        assert Suiting(kinds, b) == Suiting(kinds[1..], b);
        FirstSuitingRest(kinds, b, First(Suiting(kinds, b)));
      }
    }
  }

  /** Another behaviour keeps the target's capability if it suits, and else takes the first that does. */
  lemma BehaviorSet(devices: seq<Device>, f: Form, b: Behavior, d: Device, k: Kind)
    requires f.targetDeviceId.Some? && Find(devices, f.targetDeviceId.value) == Some(d)
    requires f.targetCapability == Some(k)
    ensures var g := Apply(devices, f, SetBehavior(b));
            && g == f.(behavior := b, targetCapability := g.targetCapability)
            && if k in Commandable(d) && Suits(k, b) then g.targetCapability == Some(k)
               else FirstSuiting(Commandable(d), b, g.targetCapability)
  {
    SuitingFirst(Commandable(d), b);
  }

  /** A typed nought, or none, counts as the default step; a negative fade as none at all. */
  lemma NumbersTyped(devices: seq<Device>, f: Form, x: real, s: Option<real>)
    requires NeedsTarget(f.behavior)
    ensures Apply(devices, f, SetStep(x)) == f.(step := if x != 0.0 then x else 10.0)
    ensures var g := Apply(devices, f, SetFade(s));
            && g == f.(fadeSeconds := g.fadeSeconds) && (g.fadeSeconds.Some? <==> s.Some?)
            && (s.Some? ==> g.fadeSeconds.value >= 0.0 && (s.value >= 0.0 ==> g.fadeSeconds == s))
  {
  }

  /** Only the row at `i` differs. */
  ghost predicate OnlyRow(f: Form, g: Form, i: nat) {
    && g == f.(actions := g.actions) && |g.actions| == |f.actions| && i < |f.actions|
    && forall j :: 0 <= j < |f.actions| && j != i ==> g.actions[j] == f.actions[j]
  }

  /** A row given another device, capability or verb has it, and starts without parameters. */
  lemma RowChanged(devices: seq<Device>, f: Form, e: Edit)
    requires Enabled(devices, f, e) && (e.RowDevice? || e.RowCapability? || e.RowVerb?)
    ensures var g := Apply(devices, f, e);
            && OnlyRow(f, g, e.row) && g.actions[e.row].params == map[]
            && (e.RowDevice? ==>
                  && g.actions[e.row].deviceId == e.id && g.actions[e.row].action == None
                  && g.actions[e.row].capability == Str(KindName(Commandable(Find(devices, e.id).value)[0])))
            && (e.RowCapability? ==>
                  && g.actions[e.row].deviceId == f.actions[e.row].deviceId && g.actions[e.row].action == None
                  && g.actions[e.row].capability == Str(KindName(e.capability)))
            && (e.RowVerb? ==>
                  && g.actions[e.row].deviceId == f.actions[e.row].deviceId
                  && g.actions[e.row].capability == f.actions[e.row].capability
                  && g.actions[e.row].action == (if e.verb.Some? then Some(Str(e.verb.value)) else None))
  {
  }

  /** Adding puts one row behind the others; removing takes out just the row it is pressed on. */
  lemma RowsAddedAndRemoved(devices: seq<Device>, f: Form, i: nat)
    requires NeedsActions(f.behavior)
    ensures var g := Apply(devices, f, AddRow);
            && g == f.(actions := g.actions) && f.actions <= g.actions
            && |g.actions| == |f.actions| + (if exists d :: d in devices && Commandable(d) != [] then 1 else 0)
    ensures i < |f.actions| ==>
              var g := Apply(devices, f, RemoveRow(i));
              && g == f.(actions := g.actions) && |g.actions| == |f.actions| - 1
              && (forall j :: 0 <= j < i ==> g.actions[j] == f.actions[j])
              && (forall j :: i <= j < |f.actions| - 1 ==> g.actions[j] == f.actions[j + 1])
  {
    NoneCommandable(devices);
  }

  /** The new row is about the first device with anything to command, its first capability and that one's first verb. */
  lemma AddedRow(devices: seq<Device>, f: Form, n: nat)
    requires NeedsActions(f.behavior) && n < |devices| && Commandable(devices[n]) != []
    requires forall j :: 0 <= j < n ==> Commandable(devices[j]) == []
    ensures var k := Commandable(devices[n])[0];
            var ds := Fields.Commands(k);
            Apply(devices, f, AddRow).actions == f.actions + [Entry(devices[n].id, Str(KindName(k)),
              if ds != [] && ds[0].action.Some? then Some(Str(ds[0].action.value)) else None, map[])]
  {
    FirstCommandableAt(devices, n);
  }

  lemma {:induction false} FirstCommandableAt(devices: seq<Device>, n: nat)
    requires n < |devices| && Commandable(devices[n]) != []
    requires forall j :: 0 <= j < n ==> Commandable(devices[j]) == []
    ensures FirstCommandable(devices) == Some(devices[n])
    decreases n
  {
    if n > 0 {
      assert forall j :: 0 <= j < n - 1 ==> devices[1..][j] == devices[j + 1];
      FirstCommandableAt(devices[1..], n - 1);
    }
  }

  lemma {:induction false} NoneCommandable(devices: seq<Device>)
    ensures FirstCommandable(devices).Some? <==> exists d :: d in devices && Commandable(d) != []
  {
    if devices != [] {
      NoneCommandable(devices[1..]);
      assert forall d :: d in devices <==> d == devices[0] || d in devices[1..];
    }
  }
}
