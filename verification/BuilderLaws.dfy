/** What each click on the two builders does, for whoever clicks it. */
module BuilderLaws {
  import opened Util
  import opened Capability
  import opened Fields
  import opened Builder

  /** The node is about a known device with something to command. */
  ghost predicate On(devices: seq<Device>, n: ActionNode, d: Device) {
    n.deviceId.Some? && FindDevice(devices, n.deviceId.value) == Some(d) && KindsOf(d) != []
  }

  /** On such a node every other click is one on that device's command. */
  lemma ClickIsOn(devices: seq<Device>, n: ActionNode, d: Device, e: Edit)
    requires On(devices, n, d) && !e.PickDevice?
    ensures Click(devices, n, e) == ClickOn(d, n, e)
  {
  }

  /** Picking a device names it, and starts a command for the first capability it can be commanded on, if any. */
  lemma PickedDevice(devices: seq<Device>, n: ActionNode, id: string)
    ensures var v := Click(devices, n, PickDevice(id));
            && v.deviceId == Some(id)
            && (v.command.Some? <==> FindDevice(devices, id).Some? && KindsOf(FindDevice(devices, id).value) != [])
            && (v.command.Some? ==>
                  Get(v.command.value, "capability") == Some(KindVal(KindsOf(FindDevice(devices, id).value)[0])))
  {
    var d := FindDevice(devices, id);
    if d.Some? && KindsOf(d.value) != [] { SeedFirstSays(d.value, KindsOf(d.value)[0]); }
  }

  lemma SeedSays(k: Kind, def: Definition)
    ensures Get(Seed(k, def), "capability") == Some(KindVal(k))
    ensures def.action.Some? && def.action.value != "" ==> Get(Seed(k, def), "action") == Some(Str(def.action.value))
    ensures forall i :: 0 <= i < |def.params| && !def.params[i].optional && def.params[i].default.Some? ==>
              def.params[i].key in Seed(k, def)
  {
    DefaultsFill(Base(k, def.action), def.params);
  }

  lemma SeedFirstSays(d: Device, k: Kind)
    ensures Get(SeedFirst(d, k), "capability") == Some(KindVal(k))
    ensures Defs(d, k) != [] && Defs(d, k)[0].action.GetOr("") != "" ==>
              Get(SeedFirst(d, k), "action") == Some(Str(Defs(d, k)[0].action.value))
  {
    if Defs(d, k) != [] { SeedSays(k, Defs(d, k)[0]); }
  }

  /** Picking another capability of the device makes the command one for that capability, with its first verb. */
  lemma PickedCapability(devices: seq<Device>, n: ActionNode, d: Device, k: Kind)
    requires On(devices, n, d) && |KindsOf(d)| > 1 && k in KindsOf(d)
    ensures var v := Click(devices, n, PickCapability(k));
            && v.deviceId == n.deviceId && v.command.Some?
            && Get(v.command.value, "capability") == Some(KindVal(k))
            && (Defs(d, k) != [] && Defs(d, k)[0].action.GetOr("") != "" ==>
                  Get(v.command.value, "action") == Some(Str(Defs(d, k)[0].action.value)))
  {
    SeedFirstSays(d, k);
  }

  /** The command is one for this capability. */
  ghost predicate About(n: ActionNode, k: Kind) {
    n.command.Some? && Get(n.command.value, "capability") == Some(KindVal(k))
  }

  /** Picking one of several verbs gives the command that verb, for the capability it had, with the verb's defaults. */
  lemma PickedVerb(devices: seq<Device>, n: ActionNode, d: Device, k: Kind, verb: string)
    requires On(devices, n, d) && About(n, k) && |Defs(d, k)| > 1 && verb != ""
    requires FindAction(Defs(d, k), Some(verb)).Some?
    ensures var v := Click(devices, n, PickVerb(verb));
            && v.deviceId == n.deviceId && v.command.Some?
            && Get(v.command.value, "capability") == Some(KindVal(k))
            && Get(v.command.value, "action") == Some(Str(verb))
            && var ps := FindAction(Defs(d, k), Some(verb)).value.params;
               forall i :: 0 <= i < |ps| && !ps[i].optional && ps[i].default.Some? ==> ps[i].key in v.command.value
  {
    ClickIsOn(devices, n, d, PickVerb(verb));
    assert CapabilityOf(d, n.command) == k;
    var def := FindAction(Defs(d, k), Some(verb)).value;
    assert ClickOn(d, n, PickVerb(verb)).command == Some(Seed(k, def));
    SeedSays(k, def);
  }

  /** A command the device takes, and the parameters shown for it. */
  ghost predicate Showing(devices: seq<Device>, n: ActionNode, d: Device, ps: seq<Field>) {
    && On(devices, n, d) && UsableMetadata(d) && n.command.Some? && CommandOk(d, n.command.value)
    && ps == Shown(Defs(d, CapabilityOf(d, n.command)), n.command).value.params
  }

  /** Setting a field that is shown sets that field and nothing else. */
  lemma FieldSet(devices: seq<Device>, n: ActionNode, d: Device, ps: seq<Field>, key: string, value: Val)
    requires Showing(devices, n, d, ps) && HasKey(ps, key) && !(HasWheel(ps) && key in ["hue", "saturation"])
    ensures var v := Click(devices, n, SetField(key, value));
            && v.deviceId == n.deviceId && v.command.Some? && Get(v.command.value, key) == Some(value)
            && forall other :: other != key ==> Get(v.command.value, other) == Get(n.command.value, other)
  {
    ClickIsOn(devices, n, d, SetField(key, value));
    RestatedSame(d, n.command.value);
    assert ClickOn(d, n, SetField(key, value)).command == Some(n.command.value[key := value]);
  }

  /** Turning the colour wheel sets hue and saturation and nothing else. */
  lemma WheelSet(devices: seq<Device>, n: ActionNode, d: Device, ps: seq<Field>, hue: Val, saturation: Val)
    requires Showing(devices, n, d, ps) && HasWheel(ps)
    ensures var v := Click(devices, n, SetWheel(hue, saturation));
            && v.deviceId == n.deviceId && v.command.Some?
            && Get(v.command.value, "hue") == Some(hue) && Get(v.command.value, "saturation") == Some(saturation)
            && forall other :: other != "hue" && other != "saturation" ==>
                 Get(v.command.value, other) == Get(n.command.value, other)
  {
    ClickIsOn(devices, n, d, SetWheel(hue, saturation));
    RestatedSame(d, n.command.value);
    assert ClickOn(d, n, SetWheel(hue, saturation)).command ==
             Some(n.command.value["hue" := hue]["saturation" := saturation]);
  }

  /** The trigger is about a known device with something to read, and one of its capabilities is picked. */
  ghost predicate Watching(devices: seq<Device>, n: StateNode, d: Device, k: Kind) {
    && n.deviceId.Some? && FindDevice(devices, n.deviceId.value) == Some(d)
    && ReadableKinds(d) != [] && n.capability == Some(k)
  }

  /** Every control of a trigger sets what it is for, and only a new source of values drops the value compared with. */
  lemma WatchSets(devices: seq<Device>, n: StateNode, d: Device, k: Kind)
    requires Watching(devices, n, d, k)
    ensures forall j :: |ReadableKinds(d)| > 1 && j in ReadableKinds(d) ==>
              var v := Watch(devices, n, WatchCapability(j));
              v == n.(capability := Some(j), field := Some(Readings(d, j)[0].key), value := None)
    ensures forall key :: HasKey(Readings(d, k), key) ==>
              Watch(devices, n, WatchField(key)) == n.(field := Some(key), value := None)
    ensures forall op :: Watch(devices, n, SetOp(op)) == n.(op := op)
    ensures forall x :: n.op != "changed" ==> Watch(devices, n, SetValue(x)) == n.(value := Some(x))
  {
    forall j ensures Readings(d, j) != [] { ReadingsNonempty(d, j); }
  }

  /** A newly watched device is read for its first capability's first field, or for nothing if it has none. */
  lemma WatchedDevice(devices: seq<Device>, n: StateNode, id: string)
    ensures var v := Watch(devices, n, WatchDevice(id));
            && v.deviceId == Some(id) && v.op == n.op && v.value == None
            && var d := FindDevice(devices, id);
               if d.None? || d.value.caps == [] then v.capability == None && v.field == None
               else var k := d.value.caps[0].kind;
                    Readings(d.value, k) != [] && v.capability == Some(k) && v.field == Some(Readings(d.value, k)[0].key)
  {
    var d := FindDevice(devices, id);
    if d.Some? && d.value.caps != [] {
      assert ReadableKinds(d.value)[0] == d.value.caps[0].kind;
      ReadingsNonempty(d.value, d.value.caps[0].kind);
    }
  }
}
