/** Grouping keypads by room. */
module KeypadGroups {
  import opened Util

  datatype Room = Room(id: string, name: string)
  datatype Device = Device(id: string, isKeypad: bool, roomId: Option<string>)
  datatype Group = Group(room: Option<Room>, keypads: seq<Device>)

  /** The key of the group without a room. */
  const UNASSIGNED := "\U{FFFF}"

  /** `new Map(rooms.map(…))`: a later room with the same id replaces an earlier one. */
  function Lookup(rooms: seq<Room>, id: string): (r: Option<Room>)
    ensures r.Some? ==> r.value in rooms && r.value.id == id
    ensures r.None? <==> forall i :: 0 <= i < |rooms| ==> rooms[i].id != id
  {
    if rooms == [] then None
    else if rooms[|rooms| - 1].id == id then Some(rooms[|rooms| - 1])
    else Lookup(rooms[..|rooms| - 1], id)
  }

  /** Of several rooms with one id the last is the one found. */
  lemma {:induction false} LastRoomFound(rooms: seq<Room>, i: nat)
    requires i < |rooms| && forall j :: i < j < |rooms| ==> rooms[j].id != rooms[i].id
    ensures Lookup(rooms, rooms[i].id) == Some(rooms[i])
    decreases |rooms|
  {
    if i < |rooms| - 1 {
      LastRoomFound(rooms[..|rooms| - 1], i);
    }
  }

  function Key(rooms: seq<Room>, d: Device): string {
    if d.roomId.GetOr("") != "" && Lookup(rooms, d.roomId.value).Some? then d.roomId.value else UNASSIGNED
  }

  function RoomOfKey(rooms: seq<Room>, key: string): Option<Room> {
    if key == UNASSIGNED then None else Lookup(rooms, key)
  }

  /** The keypads under one key, in the order they came in. */
  function Under(devices: seq<Device>, rooms: seq<Room>, key: string): seq<Device> {
    if devices == [] then []
    else
      var d := devices[|devices| - 1];
      Under(devices[..|devices| - 1], rooms, key) + if d.isKeypad && Key(rooms, d) == key then [d] else []
  }

  lemma UnderSnoc(devices: seq<Device>, rooms: seq<Room>, key: string, k: nat)
    requires k < |devices|
    ensures Under(devices[..k + 1], rooms, key) == Under(devices[..k], rooms, key) +
              if devices[k].isKeypad && Key(rooms, devices[k]) == key then [devices[k]] else []
  {
    assert devices[..k + 1][..k] == devices[..k];
  }

  /** One group for each of some keys, holding the keypads under it. */
  ghost predicate GroupsOf(devices: seq<Device>, rooms: seq<Room>, keys: seq<string>, groups: seq<Group>) {
    && |keys| == |groups| && Distinct(keys)
    && forall i :: 0 <= i < |groups| ==>
         groups[i] == Group(RoomOfKey(rooms, keys[i]), Under(devices, rooms, keys[i]))
  }

  /** No keypad is under any other key. */
  ghost predicate Covers(devices: seq<Device>, rooms: seq<Room>, keys: seq<string>) {
    forall k :: Under(devices, rooms, k) != [] ==> k in keys
  }

  /** An insertion-ordered map: `keys` in order, `lists` by key. */
  ghost predicate Grouped(devices: seq<Device>, rooms: seq<Room>, keys: seq<string>, lists: map<string, seq<Device>>) {
    && Distinct(keys)
    && (forall k :: k in keys <==> k in lists)
    && (forall k :: k in lists ==> lists[k] != [] && lists[k] == Under(devices, rooms, k))
    && (forall k :: k !in lists ==> Under(devices, rooms, k) == [])
  }

  // ---- the final sort ----

  /** What a locale's comparison promises: any two names compare, and consistently. */
  ghost predicate Collation(le: (string, string) -> bool) {
    && (forall a, b :: le(a, b) || le(b, a))
    && (forall a, b, c :: le(a, b) && le(b, c) ==> le(a, c))
  }

  function SortName(g: Group): string {
    if g.room.Some? then g.room.value.name else UNASSIGNED
  }

  /** Earlier name first; equal names keep the order they came in. */
  predicate Ahead(groups: seq<Group>, le: (string, string) -> bool, i: nat, j: nat) {
    && i < |groups| && j < |groups| && le(SortName(groups[i]), SortName(groups[j]))
    && (le(SortName(groups[j]), SortName(groups[i])) ==> i < j)
  }

  ghost predicate Ranks(groups: seq<Group>, le: (string, string) -> bool, s: seq<nat>) {
    && (forall i :: 0 <= i < |s| ==> s[i] < |groups|)
    && (forall i, j :: 0 <= i < j < |s| ==> Ahead(groups, le, s[i], s[j]))
  }

  /** A stable insertion: after every name that does not come later. */
  function Insert(groups: seq<Group>, le: (string, string) -> bool, s: seq<nat>, x: nat): (r: seq<nat>)
    requires x < |groups| && forall i :: 0 <= i < |s| ==> s[i] < |groups|
    ensures |r| == |s| + 1 && forall y :: y in r <==> y in s || y == x
  {
    if s == [] || le(SortName(groups[s[|s| - 1]]), SortName(groups[x])) then s + [x]
    else
      assert s == s[..|s| - 1] + [s[|s| - 1]];
      Insert(groups, le, s[..|s| - 1], x) + [s[|s| - 1]]
  }

  lemma RanksSnoc(groups: seq<Group>, le: (string, string) -> bool, s: seq<nat>, x: nat)
    requires Ranks(groups, le, s) && x < |groups| && forall i :: 0 <= i < |s| ==> Ahead(groups, le, s[i], x)
    ensures Ranks(groups, le, s + [x])
  {
  }

  lemma {:induction false} InsertRanks(groups: seq<Group>, le: (string, string) -> bool, s: seq<nat>, x: nat)
    requires Collation(le) && Ranks(groups, le, s) && x < |groups| && forall y :: y in s ==> y < x
    ensures Ranks(groups, le, Insert(groups, le, s, x))
    decreases |s|
  {
    if s == [] {
    } else if le(SortName(groups[s[|s| - 1]]), SortName(groups[x])) {
      forall i | 0 <= i < |s| ensures Ahead(groups, le, s[i], x) {
        assert s[i] in s;
        assert i < |s| - 1 ==> Ahead(groups, le, s[i], s[|s| - 1]);
      }
      RanksSnoc(groups, le, s, x);
    } else {
      var n := |s| - 1;
      assert forall y :: y in s[..n] ==> y in s;
      InsertRanks(groups, le, s[..n], x);
      var r := Insert(groups, le, s[..n], x);
      forall i | 0 <= i < |r| ensures Ahead(groups, le, r[i], s[n]) {
        assert r[i] in r;
        if r[i] != x {
          var j :| 0 <= j < n && s[..n][j] == r[i];
          assert Ahead(groups, le, s[j], s[n]);
        }
      }
      RanksSnoc(groups, le, r, s[n]);
    }
  }

  method SortByName(ghost devices: seq<Device>, ghost rooms: seq<Room>, groups: seq<Group>, ghost keys: seq<string>,
                    le: (string, string) -> bool)
      returns (sorted: seq<Group>, ghost sortedKeys: seq<string>)
    requires Collation(le) && GroupsOf(devices, rooms, keys, groups) && Covers(devices, rooms, keys)
    ensures GroupsOf(devices, rooms, sortedKeys, sorted) && Covers(devices, rooms, sortedKeys)
    ensures exists at :: Sorts(groups, le, at, sorted)
  {
    var at: seq<nat> := [];
    for n := 0 to |groups|
      invariant Ranks(groups, le, at) && |at| == n
      invariant forall y :: y in at <==> 0 <= y < n
    {
      InsertRanks(groups, le, at, n);
      at := Insert(groups, le, at, n);
    }
    assert forall i :: 0 <= i < |at| ==> at[i] in at;
    sorted := seq(|at|, i requires 0 <= i < |at| => groups[at[i]]);
    sortedKeys := seq(|at|, i requires 0 <= i < |at| => keys[at[i]]);
    SortedGroupsOf(devices, rooms, groups, keys, le, at, sorted, sortedKeys);
    assert Sorts(groups, le, at, sorted);
  }

  lemma SortedGroupsOf(devices: seq<Device>, rooms: seq<Room>, groups: seq<Group>, keys: seq<string>,
                       le: (string, string) -> bool, at: seq<nat>, sorted: seq<Group>, sortedKeys: seq<string>)
    requires GroupsOf(devices, rooms, keys, groups) && Covers(devices, rooms, keys) && Sorts(groups, le, at, sorted)
    requires |sortedKeys| == |at| && forall i :: 0 <= i < |at| ==> sortedKeys[i] == keys[at[i]]
    ensures GroupsOf(devices, rooms, sortedKeys, sorted) && Covers(devices, rooms, sortedKeys)
  {
    RanksDistinct(groups, le, at);
    forall k | Under(devices, rooms, k) != [] ensures k in sortedKeys {
      var n :| 0 <= n < |keys| && keys[n] == k;
      assert n in at;
      var i :| 0 <= i < |at| && at[i] == n;
      assert sortedKeys[i] == k;
    }
    forall i, j | 0 <= i < j < |sortedKeys| ensures sortedKeys[i] != sortedKeys[j] {
      assert at[i] != at[j];
    }
  }

  /** `at` lists every group once, in rank order, and `sorted` is them in that order. */
  ghost predicate Sorts(groups: seq<Group>, le: (string, string) -> bool, at: seq<nat>, sorted: seq<Group>) {
    && Ranks(groups, le, at) && |at| == |groups| == |sorted| && (forall n: nat :: n < |groups| ==> n in at)
    && forall i :: 0 <= i < |at| ==> sorted[i] == groups[at[i]]
  }

  lemma RanksDistinct(groups: seq<Group>, le: (string, string) -> bool, s: seq<nat>)
    requires Ranks(groups, le, s)
    ensures Distinct(s)
  {
    forall i, j | 0 <= i < j < |s| ensures s[i] != s[j] {
      assert Ahead(groups, le, s[i], s[j]);
    }
  }

  /** One group for each key in use, sorted by room name as `le` compares names. */
  method GroupKeypadsByRoom(devices: seq<Device>, rooms: seq<Room>, le: (string, string) -> bool)
      returns (groups: seq<Group>, ghost keys: seq<string>)
    requires Collation(le)
    ensures GroupsOf(devices, rooms, keys, groups) && Covers(devices, rooms, keys)
    ensures forall i :: 0 <= i < |groups| ==> groups[i].keypads != []
    ensures forall i, j :: 0 <= i < j < |groups| ==> le(SortName(groups[i]), SortName(groups[j]))
  {
    var order: seq<string> := [];
    var byRoom: map<string, seq<Device>> := map[];
    for n := 0 to |devices|
      invariant Grouped(devices[..n], rooms, order, byRoom)
    {
      var d := devices[n];
      forall k ensures Under(devices[..n + 1], rooms, k) == Under(devices[..n], rooms, k) +
                         if d.isKeypad && Key(rooms, d) == k then [d] else []
      {
        UnderSnoc(devices, rooms, k, n);
      }
      if !d.isKeypad { continue; }
      var key := Key(rooms, d);
      if key in byRoom {
        byRoom := byRoom[key := byRoom[key] + [d]];
      } else {
        order := order + [key];
        byRoom := byRoom[key := [d]];
      }
    }
    assert devices[..|devices|] == devices;
    groups := [];
    for i := 0 to |order|
      invariant |groups| == i
      invariant forall j :: 0 <= j < i ==> groups[j] == Group(RoomOfKey(rooms, order[j]), byRoom[order[j]])
    {
      groups := groups + [Group(RoomOfKey(rooms, order[i]), byRoom[order[i]])];
    }
    keys := order;
    groups, keys := SortByName(devices, rooms, groups, keys, le);
  }

  // ---- what the grouping means ----

  /** The room a keypad really is in. */
  function RoomOf(rooms: seq<Room>, d: Device): Option<Room> {
    if d.roomId.None? then None else Lookup(rooms, d.roomId.value)
  }

  lemma {:induction false} InUnder(devices: seq<Device>, rooms: seq<Room>, key: string, d: Device)
    ensures d in Under(devices, rooms, key) <==> d in devices && d.isKeypad && Key(rooms, d) == key
  {
    if devices != [] {
      InUnder(devices[..|devices| - 1], rooms, key, d);
      assert devices == devices[..|devices| - 1] + [devices[|devices| - 1]];
    }
  }

  function AllKeypads(groups: seq<Group>): seq<Device> {
    if groups == [] then [] else AllKeypads(groups[..|groups| - 1]) + groups[|groups| - 1].keypads
  }

  /** The devices under any of some distinct keys, counted: each exactly as often as it came in. */
  lemma {:induction false} CountUnder(devices: seq<Device>, rooms: seq<Room>, key: string, d: Device)
    ensures multiset(Under(devices, rooms, key))[d] ==
            if d.isKeypad && Key(rooms, d) == key then multiset(devices)[d] else 0
  {
    if devices != [] {
      CountUnder(devices[..|devices| - 1], rooms, key, d);
      assert devices == devices[..|devices| - 1] + [devices[|devices| - 1]];
    }
  }

  lemma {:induction false} CountGroups(devices: seq<Device>, rooms: seq<Room>, keys: seq<string>, groups: seq<Group>, d: Device)
    requires GroupsOf(devices, rooms, keys, groups)
    ensures multiset(AllKeypads(groups))[d] ==
            if d.isKeypad && Key(rooms, d) in keys then multiset(devices)[d] else 0
    decreases |groups|
  {
    if groups != [] {
      var n := |groups| - 1;
      CountGroups(devices, rooms, keys[..n], groups[..n], d);
      CountUnder(devices, rooms, keys[n], d);
      assert keys == keys[..n] + [keys[n]];
    }
  }

  /** Nothing is lost and nothing is doubled: the groups together hold every keypad as often as it came in. */
  lemma NothingLost(devices: seq<Device>, rooms: seq<Room>, keys: seq<string>, groups: seq<Group>, d: Device)
    requires GroupsOf(devices, rooms, keys, groups)
    requires Covers(devices, rooms, keys)
    ensures multiset(AllKeypads(groups))[d] == if d.isKeypad then multiset(devices)[d] else 0
  {
    CountGroups(devices, rooms, keys, groups, d);
    InUnder(devices, rooms, Key(rooms, d), d);
  }

  /** A keypad is in exactly one group. */
  lemma ExactlyOneGroup(devices: seq<Device>, rooms: seq<Room>, keys: seq<string>, groups: seq<Group>, d: Device)
    requires GroupsOf(devices, rooms, keys, groups)
    requires Covers(devices, rooms, keys)
    requires d in devices && d.isKeypad
    ensures exists i :: 0 <= i < |groups| && d in groups[i].keypads
    ensures forall i, j :: 0 <= i < |groups| && 0 <= j < |groups| && d in groups[i].keypads && d in groups[j].keypads ==> i == j
  {
    forall k ensures d in Under(devices, rooms, k) <==> Key(rooms, d) == k { InUnder(devices, rooms, k, d); }
    assert d in Under(devices, rooms, Key(rooms, d));
    var i :| 0 <= i < |keys| && keys[i] == Key(rooms, d);
    assert d in groups[i].keypads;
  }

  /**
   * Every keypad's group carries the room the keypad is in, exactly when no keypad is in a known
   * room whose id is empty or the key of the group without a room.
   */
  lemma GroupsCarryTheirRoomIff(devices: seq<Device>, rooms: seq<Room>, keys: seq<string>, groups: seq<Group>)
    requires GroupsOf(devices, rooms, keys, groups)
    requires Covers(devices, rooms, keys)
    ensures (forall i, d :: 0 <= i < |groups| && d in groups[i].keypads ==> groups[i].room == RoomOf(rooms, d)) <==>
            (forall d :: d in devices && d.isKeypad && RoomOf(rooms, d).Some? ==> d.roomId.value != "" && d.roomId.value != UNASSIGNED)
  {
    forall k, d ensures d in Under(devices, rooms, k) <==> d in devices && d.isKeypad && Key(rooms, d) == k {
      InUnder(devices, rooms, k, d);
    }
    forall d | d in devices && d.isKeypad
      ensures exists i :: 0 <= i < |groups| && d in groups[i].keypads
    {
      ExactlyOneGroup(devices, rooms, keys, groups, d);
    }
    forall d ensures RoomOfKey(rooms, Key(rooms, d)) == RoomOf(rooms, d) <==>
                       (RoomOf(rooms, d).Some? ==> d.roomId.value != "" && d.roomId.value != UNASSIGNED)
    {
    }
  }
}
