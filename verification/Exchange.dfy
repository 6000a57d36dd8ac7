/** Exporting automations to a file and importing them on another hub, with devices remapped. */
module Exchange {
  import opened Util
  import opened Text
  import opened Names

  /** A trigger, condition or action; `rest` stands for every field that is neither id. */
  datatype Node = Node(typ: string, deviceId: Option<string>, keypadId: Option<string>, rest: map<string, string>)

  datatype Automation = Automation(
    name: string, triggers: seq<Node>, conditions: seq<Node>, actions: seq<Node>, tags: seq<string>)

  /** `deviceNames` is an object literal: its entries in insertion order, one per key. */
  datatype Record = Record(automation: Automation, deviceNames: seq<(string, string)>)

  datatype Device = Device(id: string, name: string)

  function Nodes(a: Automation): seq<Node> {
    a.triggers + a.conditions + a.actions
  }

  /** A device id that counts: present and not empty. */
  predicate Refers(n: Node, id: string) {
    id != "" && n.deviceId == Some(id)
  }

  ghost predicate Mentions(a: Automation, id: string) {
    exists i :: 0 <= i < |Nodes(a)| && Refers(Nodes(a)[i], id)
  }

  predicate OnHub(devices: seq<Device>, id: string) {
    exists i :: 0 <= i < |devices| && devices[i].id == id
  }

  predicate Lists(r: Record, id: string) {
    exists i :: 0 <= i < |r.deviceNames| && r.deviceNames[i].0 == id
  }

  function NameOn(devices: seq<Device>, id: string): string {
    if devices == [] then id else if devices[0].id == id then devices[0].name else NameOn(devices[1..], id)
  }

  // ---- export ----

  method ToExportRecord(a: Automation, devices: seq<Device>) returns (r: Record)
    ensures r.automation == a
    ensures forall id :: Lists(r, id) <==> Mentions(a, id)
    ensures forall i :: 0 <= i < |r.deviceNames| ==> r.deviceNames[i].1 == NameOn(devices, r.deviceNames[i].0)
    ensures forall i, j :: 0 <= i < j < |r.deviceNames| ==> r.deviceNames[i].0 != r.deviceNames[j].0
  {
    var nodes := Nodes(a);
    var seen: set<string> := {};
    var entries: seq<(string, string)> := [];
    for k := 0 to |nodes|
      invariant forall id :: id in seen <==> exists i :: 0 <= i < k && Refers(nodes[i], id)
      invariant forall id :: id in seen <==> exists i :: 0 <= i < |entries| && entries[i].0 == id
      invariant forall i :: 0 <= i < |entries| ==> entries[i].1 == NameOn(devices, entries[i].0)
      invariant forall i, j :: 0 <= i < j < |entries| ==> entries[i].0 != entries[j].0
    {
      var d := nodes[k].deviceId;
      if d.Some? && d.value != "" && d.value !in seen {
        ghost var before := entries;
        entries := entries + [(d.value, NameOn(devices, d.value))];
        seen := seen + {d.value};
        assert entries[|before|].0 == d.value;
        assert forall i :: 0 <= i < |before| ==> entries[i] == before[i] && before[i].0 in seen;
      }
    }
    r := Record(a, entries);
    forall id ensures Lists(r, id) <==> Mentions(a, id) {
      assert Lists(r, id) <==> id in seen;
    }
  }

  /** A file as the exporter writes it: every record lists exactly the devices it mentions. */
  ghost predicate Exported(file: seq<Record>) {
    forall k :: 0 <= k < |file| ==> forall id :: Lists(file[k], id) <==> Mentions(file[k].automation, id)
  }

  // ---- import ----

  ghost predicate Missing(file: seq<Record>, devices: seq<Device>, id: string) {
    !OnHub(devices, id) && exists k :: 0 <= k < |file| && Lists(file[k], id)
  }

  method MissingIds(file: seq<Record>, devices: seq<Device>) returns (ids: seq<string>)
    ensures forall id :: id in ids <==> Missing(file, devices, id)
    ensures Distinct(ids)
  {
    ids := [];
    for k := 0 to |file|
      invariant Distinct(ids)
      invariant forall id :: id in ids <==> !OnHub(devices, id) && exists m :: 0 <= m < k && Lists(file[m], id)
    {
      var names := file[k].deviceNames;
      ghost var before := ids;
      for j := 0 to |names|
        invariant Distinct(ids)
        invariant forall id :: id in ids <==>
          id in before || (!OnHub(devices, id) && exists i :: 0 <= i < j && names[i].0 == id)
      {
        var id := names[j].0;
        if !OnHub(devices, id) && id !in ids { ids := ids + [id]; }
      }
      assert forall id :: Lists(file[k], id) <==> exists i :: 0 <= i < |names| && names[i].0 == id;
    }
  }

  type Mapping = map<string, string>

  function Remap(n: Node, m: Mapping): Node {
    if n.deviceId.None? || n.deviceId.value == "" then n
    else
      var target := Get(m, n.deviceId.value).GetOr("");
      if target != "" then n.(deviceId := Some(target)) else n
  }

  function RemapAll(ns: seq<Node>, m: Mapping): seq<Node> {
    seq(|ns|, i requires 0 <= i < |ns| => Remap(ns[i], m))
  }

  function Created(r: Record, name: string, m: Mapping): Automation {
    var a := r.automation;
    Automation(name, RemapAll(a.triggers, m), RemapAll(a.conditions, m), RemapAll(a.actions, m), a.tags)
  }

  /** What the wizard's selects can produce: a device of this hub, or nothing, for missing ids only. */
  ghost predicate FromWizard(m: Mapping, file: seq<Record>, devices: seq<Device>) {
    forall id :: id in m ==> Missing(file, devices, id) && (m[id] == "" || OnHub(devices, m[id]))
  }

  /** The Import button is enabled: no missing id is left unmapped. */
  ghost predicate Resolvable(m: Mapping, file: seq<Record>, devices: seq<Device>) {
    forall id :: Missing(file, devices, id) ==> id in m && m[id] != ""
  }

  method Import(file: seq<Record>, m: Mapping, existing: set<string>) returns (out: seq<Automation>)
    ensures |out| == |file|
    ensures forall k :: 0 <= k < |file| ==> out[k] == Created(file[k], out[k].name, m)
    ensures AllFresh(seq(|out|, k requires 0 <= k < |out| => out[k].name), existing)
    ensures ResolvesAll(seq(|file|, k requires 0 <= k < |file| => file[k].automation.name), existing,
                        seq(|out|, k requires 0 <= k < |out| => out[k].name))
  {
    var names := ResolvedNames(seq(|file|, k requires 0 <= k < |file| => file[k].automation.name), existing);
    out := [];
    for i := 0 to |file|
      invariant |out| == i
      invariant forall k :: 0 <= k < i ==> out[k] == Created(file[k], names[k], m)
    {
      out := out + [Created(file[i], names[i], m)];
    }
    assert seq(|out|, k requires 0 <= k < |out| => out[k].name) == names;
  }

  /** Every device a created automation names is on this hub. */
  ghost predicate Closed(file: seq<Record>, m: Mapping, devices: seq<Device>) {
    forall k, id, name :: 0 <= k < |file| && Mentions(Created(file[k], name, m), id) ==> OnHub(devices, id)
  }

  /** Every device an automation of the file mentions is on this hub, or listed somewhere in the file. */
  ghost predicate Covered(file: seq<Record>, devices: seq<Device>) {
    forall k, id :: 0 <= k < |file| && Mentions(file[k].automation, id) ==>
      OnHub(devices, id) || exists j :: 0 <= j < |file| && Lists(file[j], id)
  }

  lemma CreatedNodes(r: Record, name: string, m: Mapping)
    ensures Nodes(Created(r, name, m)) == RemapAll(Nodes(r.automation), m)
  {
  }

  /**
   * Once the wizard lets the import through, every created automation is closed over the hub's
   * devices exactly when the file lists every foreign device it mentions.
   */
  lemma ClosedIff(file: seq<Record>, m: Mapping, devices: seq<Device>)
    requires FromWizard(m, file, devices) && Resolvable(m, file, devices)
    ensures Closed(file, m, devices) <==> Covered(file, devices)
  {
    if Covered(file, devices) {
      forall k, id, name | 0 <= k < |file| && Mentions(Created(file[k], name, m), id) ensures OnHub(devices, id) {
        CreatedNodes(file[k], name, m);
        var i :| 0 <= i < |Nodes(Created(file[k], name, m))| && Refers(Nodes(Created(file[k], name, m))[i], id);
        var n := Nodes(file[k].automation)[i];
        assert Refers(Remap(n, m), id);
        var was := n.deviceId.value;
        assert Refers(n, was);
        assert Mentions(file[k].automation, was);
        assert OnHub(devices, was) || Missing(file, devices, was);
      }
    }
    if Closed(file, m, devices) {
      forall k, id | 0 <= k < |file| && Mentions(file[k].automation, id)
        ensures OnHub(devices, id) || exists j :: 0 <= j < |file| && Lists(file[j], id)
      {
        CreatedNodes(file[k], "", m);
        var i :| 0 <= i < |Nodes(file[k].automation)| && Refers(Nodes(file[k].automation)[i], id);
        var now := Remap(Nodes(file[k].automation)[i], m).deviceId.value;
        assert Refers(Nodes(Created(file[k], "", m))[i], now);
        assert Mentions(Created(file[k], "", m), now);
        assert id in m ==> Missing(file, devices, id);
      }
    }
  }

  /** So for any exported file the import is closed. */
  lemma ExportedImportsClosed(file: seq<Record>, m: Mapping, devices: seq<Device>)
    requires Exported(file) && FromWizard(m, file, devices) && Resolvable(m, file, devices)
    ensures Closed(file, m, devices)
  {
    ClosedIff(file, m, devices);
  }

  /** Remapping touches nothing but the device id, and that only for a missing device. */
  lemma RemapFrame(n: Node, m: Mapping, file: seq<Record>, devices: seq<Device>)
    requires FromWizard(m, file, devices)
    ensures Remap(n, m) == n.(deviceId := Remap(n, m).deviceId)
    ensures n.deviceId.Some? && OnHub(devices, n.deviceId.value) ==> Remap(n, m) == n
  {
  }

  /** A device is called by its own name, or by its id on a hub that does not know it. */
  lemma {:induction false} NameOnIs(devices: seq<Device>, id: string)
    ensures if OnHub(devices, id)
            then exists i :: 0 <= i < |devices| && devices[i].id == id && devices[i].name == NameOn(devices, id)
                             && forall j :: 0 <= j < i ==> devices[j].id != id
            else NameOn(devices, id) == id
  {
    if devices != [] && devices[0].id != id {
      NameOnIs(devices[1..], id);
      assert forall i :: 0 <= i < |devices| - 1 ==> devices[1..][i] == devices[i + 1];
      assert forall i :: 0 < i < |devices| ==> devices[i] == devices[1..][i - 1];
      if OnHub(devices[1..], id) {
        var i :| 0 <= i < |devices[1..]| && devices[1..][i].id == id && devices[1..][i].name == NameOn(devices[1..], id)
                 && forall j :: 0 <= j < i ==> devices[1..][j].id != id;
        assert devices[i + 1].id == id;
      } else {
        assert !OnHub(devices, id);
      }
    } else if devices != [] {
      assert OnHub(devices, id);
    }
  }

  /** A missing device becomes the one chosen for it, and each list keeps its nodes in their places. */
  lemma RemapTakesChoice(r: Record, name: string, m: Mapping)
    ensures forall n: Node :: n.deviceId.Some? && n.deviceId.value != "" && n.deviceId.value in m && m[n.deviceId.value] != "" ==>
              Remap(n, m) == n.(deviceId := Some(m[n.deviceId.value]))
    ensures forall n: Node :: n.deviceId.None? || n.deviceId.value !in m || m[n.deviceId.value] == "" ==> Remap(n, m) == n
    ensures var a, b := r.automation, Created(r, name, m);
            && b.name == name && b.tags == a.tags
            && |b.triggers| == |a.triggers| && (forall i :: 0 <= i < |a.triggers| ==> b.triggers[i] == Remap(a.triggers[i], m))
            && |b.conditions| == |a.conditions|
            && (forall i :: 0 <= i < |a.conditions| ==> b.conditions[i] == Remap(a.conditions[i], m))
            && |b.actions| == |a.actions| && (forall i :: 0 <= i < |a.actions| ==> b.actions[i] == Remap(a.actions[i], m))
  {
  }

  /** On a hub with nothing missing every automation comes back as it was, but for its name. */
  lemma NothingMissingNothingChanged(file: seq<Record>, m: Mapping, devices: seq<Device>, k: nat, name: string)
    requires FromWizard(m, file, devices) && k < |file|
    requires forall id :: !Missing(file, devices, id)
    ensures Created(file[k], name, m) == file[k].automation.(name := name)
  {
    assert m == map[];
    var a := file[k].automation;
    assert RemapAll(a.triggers, m) == a.triggers && RemapAll(a.conditions, m) == a.conditions;
    assert RemapAll(a.actions, m) == a.actions;
  }

  // ---- keypads ----

  ghost predicate MentionsKeypad(a: Automation, id: string) {
    exists i :: 0 <= i < |Nodes(a)| && Nodes(a)[i].keypadId == Some(id)
  }

  /** Keypad triggers refer to their keypad by another field, which no mapping ever reaches. */
  lemma KeypadsKept(r: Record, name: string, m: Mapping, id: string)
    ensures MentionsKeypad(Created(r, name, m), id) <==> MentionsKeypad(r.automation, id)
  {
    CreatedNodes(r, name, m);
    var was, now := Nodes(r.automation), Nodes(Created(r, name, m));
    assert forall i :: 0 <= i < |was| ==> now[i].keypadId == was[i].keypadId;
  }

  ghost predicate KeypadsOnHub(a: Automation, devices: seq<Device>) {
    forall id :: MentionsKeypad(a, id) ==> OnHub(devices, id)
  }

  /**
   * So whatever the wizard was told, every keypad named in what is created is on this hub
   * exactly when every keypad named in the file is.
   */
  lemma KeypadsClosedIff(file: seq<Record>, m: Mapping, devices: seq<Device>, names: seq<string>)
    requires |names| == |file|
    ensures (forall k :: 0 <= k < |file| ==> KeypadsOnHub(Created(file[k], names[k], m), devices)) <==>
            (forall k :: 0 <= k < |file| ==> KeypadsOnHub(file[k].automation, devices))
  {
    forall k | 0 <= k < |file|
      ensures KeypadsOnHub(Created(file[k], names[k], m), devices) <==> KeypadsOnHub(file[k].automation, devices)
    {
      forall id ensures MentionsKeypad(Created(file[k], names[k], m), id) <==> MentionsKeypad(file[k].automation, id) {
        KeypadsKept(file[k], names[k], m, id);
      }
    }
  }

  /**
   * The wizard asks for no keypad: whatever the hub has, a file triggered by a keypad it does not have
   * imports with nothing missing, and names that keypad still.
   */
  lemma KeypadsNotRemapped(devices: seq<Device>, keypad: string)
    requires !OnHub(devices, keypad)
    ensures exists file: seq<Record> ::
      && |file| == 1 && Exported(file) && (forall id :: !Missing(file, devices, id))
      && FromWizard(map[], file, devices) && Resolvable(map[], file, devices)
      && !KeypadsOnHub(Created(file[0], "", map[]), devices)
  {
    var n := Node("keypad_input", None, Some(keypad), map[]);
    var r := Record(Automation("", [n], [], [], []), []);
    var file := [r];
    assert Nodes(r.automation) == [n];
    assert [n][0].keypadId == Some(keypad);
    assert MentionsKeypad(r.automation, keypad);
    KeypadsKept(r, "", map[], keypad);
    assert Exported(file) && !KeypadsOnHub(Created(file[0], "", map[]), devices);
  }
}
