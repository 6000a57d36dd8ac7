/**
 * The browser's live-state store: frames, optimistic writes and snapshot merges,
 * guarded by sequence numbers and "last live" stamps.
 */
module LiveClient {
  import opened Util
  import opened Capability

  const DRIVER_PREFIX := "driver:"

  /** Device ids are `dev_<ULID>`; all that matters here is that none looks like a driver stamp. */
  type DeviceId = s: string | s != "driver" && !(DRIVER_PREFIX <= s) witness ""

  type Value = string

  datatype Key = Key(device: DeviceId, kind: Kind)
  datatype Entry = Entry(key: Key, value: Value)
  datatype Device = Device(id: DeviceId, state: Option<seq<(Kind, Value)>>)

  datatype Connection = Disconnected | Connecting | Connected | Disconnecting | Failed
  datatype DriverLive = DriverLive(state: Connection, error: Option<string>, ts: string)

  datatype Client = Client(
    states: map<Key, Value>,
    drivers: map<string, DriverLive>,
    lastSeq: map<string, int>,
    lastLive: map<string, int>,
    reconciling: bool)

  const EMPTY := Client(map[], map[], map[], map[], false)

  function Name(k: Key): string {
    k.device + ":" + KindName(k.kind)
  }

  function DriverName(id: string): string {
    DRIVER_PREFIX + id
  }

  /** The colon after the device id is the last one in the name. */
  lemma LastColon(k: Key)
    ensures |k.device| < |Name(k)| && Name(k)[|k.device|] == ':'
    ensures forall i :: |k.device| < i < |Name(k)| ==> Name(k)[i] != ':'
    ensures Name(k)[..|k.device|] == k.device && Name(k)[|k.device| + 1..] == KindName(k.kind)
  {
    forall i | |k.device| < i < |Name(k)| ensures Name(k)[i] != ':' {
      assert Name(k)[i] == KindName(k.kind)[i - |k.device| - 1];
    }
  }

  /** The flat stamp names never collide: not between two device entries … */
  lemma NameInjective(a: Key, b: Key)
    requires Name(a) == Name(b)
    ensures a == b
  {
    LastColon(a);
    LastColon(b);
    KindNameInjective(a.kind, b.kind);
  }

  /** … and not between a device entry and a driver. */
  lemma NameNotDriver(k: Key, id: string)
    ensures Name(k) != DriverName(id)
  {
    LastColon(k);
    var n := |k.device|;
    assert DriverName(id)[..7] == DRIVER_PREFIX && DriverName(id)[..6] == "driver";
    if n >= 7 {
      assert Name(k)[..7] == k.device[..7];
    } else {
      assert n < 6 ==> DriverName(id)[n] != ':';
    }
  }

  lemma NamesDistinct()
    ensures forall a, b :: Name(a) == Name(b) ==> a == b
    ensures forall a, id :: Name(a) != DriverName(id)
  {
    forall a, b | Name(a) == Name(b) ensures a == b { NameInjective(a, b); }
    forall a, id ensures Name(a) != DriverName(id) { NameNotDriver(a, id); }
  }

  predicate ShouldApplySeq(last: Option<int>, seqNo: int) {
    last.GetOr(0) <= seqNo
  }

  predicate ShouldApplySnapshot(lastLive: Option<int>, since: int) {
    lastLive.GetOr(0) <= since
  }

  function LastSeq(c: Client, k: Key): int {
    Get(c.lastSeq, Name(k)).GetOr(0)
  }

  function LastLive(c: Client, k: Key): int {
    Get(c.lastLive, Name(k)).GetOr(0)
  }

  /** What one live event or local write does; `seqNo` is absent for a local write. */
  function ApplyState(c: Client, k: Key, v: Value, seqNo: Option<int>, now: int): Client {
    if seqNo.Some? && !ShouldApplySeq(Get(c.lastSeq, Name(k)), seqNo.value) then c
    else c.(
      lastSeq := if seqNo.Some? then c.lastSeq[Name(k) := seqNo.value] else c.lastSeq,
      lastLive := c.lastLive[Name(k) := now],
      states := c.states[k := v])
  }

  function ApplyDriver(c: Client, id: string, d: DriverLive, now: int): Client {
    c.(lastLive := c.lastLive[DriverName(id) := now], drivers := c.drivers[id := d])
  }

  /** The end of one driver's health fetch: written without asking the guard again. */
  function SetDriver(c: Client, id: string, d: DriverLive): Client {
    c.(drivers := c.drivers[id := d])
  }

  /** The `finally` of a pass. */
  function Release(c: Client): Client {
    c.(reconciling := false)
  }

  function MergeEntry(c: Client, e: Entry, since: int): Client {
    if ShouldApplySnapshot(Get(c.lastLive, Name(e.key)), since)
    then c.(states := c.states[e.key := e.value])
    else c
  }

  /** The device half of a reconciliation pass: it runs without an await. */
  function Merge(c: Client, es: seq<Entry>, since: int): Client
    decreases |es|
  {
    if es == [] then c else Merge(MergeEntry(c, es[0], since), es[1..], since)
  }

  function DeviceEntries(d: Device): seq<Entry> {
    match d.state
    case None => []
    case Some(s) => seq(|s|, i requires 0 <= i < |s| => Entry(Key(d.id, s[i].0), s[i].1))
  }

  function Entries(ds: seq<Device>): seq<Entry> {
    if ds == [] then [] else Entries(ds[..|ds| - 1]) + DeviceEntries(ds[|ds| - 1])
  }

  lemma TakeNext<T>(before: seq<T>, s: seq<T>, j: nat)
    requires j < |s|
    ensures before + s[..j + 1] == (before + s[..j]) + [s[j]]
  {
  }

  lemma {:induction false} MergeSnoc(c: Client, es: seq<Entry>, e: Entry, since: int)
    ensures Merge(c, es + [e], since) == MergeEntry(Merge(c, es, since), e, since)
    decreases |es|
  {
    if es == [] {
      assert [e][1..] == [];
    } else {
      assert (es + [e])[1..] == es[1..] + [e];
      MergeSnoc(MergeEntry(c, es[0], since), es[1..], e, since);
    }
  }

  ghost predicate Lists(es: seq<Entry>, k: Key) {
    exists i :: 0 <= i < |es| && es[i].key == k
  }

  /** Every listed value for `k` is `v`. */
  ghost predicate Agrees(es: seq<Entry>, k: Key, v: Value) {
    forall i :: 0 <= i < |es| && es[i].key == k ==> es[i].value == v
  }

  /** A merge changes states only: never a driver, a stamp, a sequence number or the flag. */
  lemma {:induction false} MergeTouchesOnlyStates(c: Client, es: seq<Entry>, since: int)
    ensures Merge(c, es, since) == c.(states := Merge(c, es, since).states)
    decreases |es|
  {
    if es != [] {
      MergeTouchesOnlyStates(MergeEntry(c, es[0], since), es[1..], since);
    }
  }

  /** A key stamped after the pass began, or not listed at all, is not touched by its merge. */
  lemma {:induction false} MergeSpares(c: Client, es: seq<Entry>, since: int, k: Key)
    requires LastLive(c, k) > since || !Lists(es, k)
    ensures Get(Merge(c, es, since).states, k) == Get(c.states, k)
    decreases |es|
  {
    if es != [] {
      var d := MergeEntry(c, es[0], since);
      assert !Lists(es, k) ==> es[0].key != k;
      assert forall i :: 0 <= i < |es[1..]| ==> es[1..][i] == es[i + 1];
      MergeSpares(d, es[1..], since, k);
    }
  }

  /** Any other listed key ends up with its listed value. */
  lemma {:induction false} MergeWrites(c: Client, es: seq<Entry>, since: int, k: Key, v: Value)
    requires LastLive(c, k) <= since && Agrees(es, k, v)
    requires Lists(es, k) || Get(c.states, k) == Some(v)
    ensures Get(Merge(c, es, since).states, k) == Some(v)
    decreases |es|
  {
    if es != [] {
      var d := MergeEntry(c, es[0], since);
      assert es[0].key == k ==> es[0].value == v;
      assert Agrees(es[1..], k, v) by {
        forall i | 0 <= i < |es[1..]| && es[1..][i].key == k ensures es[1..][i].value == v {
          assert es[i + 1].key == k;
        }
      }
      if es[0].key != k && Lists(es, k) {
        var i :| 0 <= i < |es| && es[i].key == k;
        assert es[1..][i - 1].key == k;
      }
      MergeWrites(d, es[1..], since, k, v);
    }
  }

  /** The mutable store itself. */
  class LiveStore {
    var states: map<Key, Value>
    var drivers: map<string, DriverLive>
    var lastSeq: map<string, int>
    var lastLive: map<string, int>
    var reconciling: bool

    ghost function View(): Client
      reads this
    {
      Client(states, drivers, lastSeq, lastLive, reconciling)
    }

    constructor ()
      ensures View() == EMPTY
    {
      states, drivers, lastSeq, lastLive, reconciling := map[], map[], map[], map[], false;
    }

    method Apply(k: Key, v: Value, seqNo: Option<int>, now: int)
      modifies this
      ensures View() == ApplyState(old(View()), k, v, seqNo, now)
    {
      var key := Name(k);
      if seqNo.Some? {
        if !ShouldApplySeq(Get(lastSeq, key), seqNo.value) { return; }
        lastSeq := lastSeq[key := seqNo.value];
      }
      lastLive := lastLive[key := now];
      states := states[k := v];
    }

    method ApplyDriverState(id: string, d: DriverLive, now: int)
      modifies this
      ensures View() == ApplyDriver(old(View()), id, d, now)
    {
      lastLive := lastLive[DriverName(id) := now];
      drivers := drivers[id := d];
    }

    /** The first lines of a pass: give up when one is already in flight, else take the flag. */
    method BeginPass(now: int) returns (since: Option<int>)
      modifies this`reconciling
      ensures reconciling
      ensures since == if old(reconciling) then None else Some(now)
    {
      if reconciling { return None; }
      reconciling := true;
      since := Some(now);
    }

    /** The device loop, two levels deep, over the listing the hub sent back. */
    method MergeDevices(ds: seq<Device>, since: int)
      modifies this
      ensures View() == Merge(old(View()), Entries(ds), since)
    {
      for i := 0 to |ds|
        invariant View() == Merge(old(View()), Entries(ds[..i]), since)
      {
        assert ds[..i + 1][..i] == ds[..i];
        MergeDevice(ds[i], since, old(View()), Entries(ds[..i]));
        assert Entries(ds[..i + 1]) == Entries(ds[..i]) + DeviceEntries(ds[i]);
      }
      assert ds[..|ds|] == ds;
    }

    /** Its inner loop, over one device's states, `before` having been merged into `was`. */
    method MergeDevice(d: Device, since: int, ghost was: Client, ghost before: seq<Entry>)
      requires View() == Merge(was, before, since)
      modifies this
      ensures View() == Merge(was, before + DeviceEntries(d), since)
    {
      if d.state.Some? {
        var s := d.state.value;
        assert before + DeviceEntries(d)[..0] == before;
        for j := 0 to |s|
          invariant View() == Merge(was, before + DeviceEntries(d)[..j], since)
        {
          var key := Key(d.id, s[j].0);
          ghost var e := DeviceEntries(d)[j];
          TakeNext(before, DeviceEntries(d), j);
          MergeSnoc(was, before + DeviceEntries(d)[..j], e, since);
          if !ShouldApplySnapshot(Get(lastLive, Name(key)), since) { continue; }
          states := states[key := s[j].1];
        }
        assert DeviceEntries(d)[..|s|] == DeviceEntries(d);
      } else {
        assert before + DeviceEntries(d) == before;
      }
    }

    /** The write at the end of one driver's health fetch; the guard is not asked again. */
    method WriteDriver(id: string, d: DriverLive)
      modifies this`drivers
      ensures View() == SetDriver(old(View()), id, d)
    {
      drivers := drivers[id := d];
    }

    method EndPass()
      modifies this`reconciling
      ensures View() == Release(old(View()))
    {
      reconciling := false;
    }
  }
}
