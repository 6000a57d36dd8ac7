/**
 * The world around the store: a hub whose states change, one stream that drops and
 * reopens, reconciliation passes in flight, and a clock. Every event is one
 * run-to-completion turn of the browser or one move of the hub or the network.
 */
module LiveWorld {
  import opened Util
  import opened Capability
  import opened LiveClient

  datatype Frame = Frame(key: Key, seqNo: nat, value: Value)
  datatype Driver = Driver(installed: bool, enabled: bool, installedId: string)

  /** Where an activation of the pass is suspended. */
  datatype Phase =
    | AwaitDevices
    | DevicesRead(entries: seq<Entry>, readAt: int, readEpoch: nat)
    | AwaitRegistry
    | AwaitHealth(driver: string, rest: seq<Driver>, eventsAtGuard: nat)

  datatype Pass = Pass(since: int, epoch: nat, phase: Phase)

  /** Who wrote a key last since the stream opened. */
  datatype Writer = ByFrame | ByMerge | ByHand(value: Value)

  /** A merge: what its listing said, when and in which opening the listing was read, and its pass. */
  datatype Merged = Merged(listing: map<Key, Value>, since: int, epoch: nat, readAt: int, readEpoch: nat)

  datatype World = World(
    now: nat,
    cur: map<Key, Value>,            // what the hub would answer right now
    connected: bool,
    everConnected: bool,
    client: Client,
    passes: seq<Pass>,               // every activation that has not returned
    sent: set<Frame>,                // frames of the current connection
    // History: used by statements only, never read by a guard or an effect on the client.
    epoch: nat,                      // how many times the stream has opened
    floor: map<string, int>,         // lastSeq as it was when the stream last opened
    held: map<Key, Value>,           // what the client showed then
    top: map<Key, nat>,              // newest frame number per key on this connection
    got: set<Frame>,
    wrote: map<Key, Writer>,         // since the stream last opened
    merged: Option<Merged>,          // what has been merged since, by a pass of whichever opening
    driverEvents: map<string, nat>)

  datatype Event =
    | Tick
    | Change(key: Key, seqNo: nat, value: Value)
    | Deliver(frame: Frame)
    | Local(key: Key, value: Value)
    | DriverEvent(driver: string, live: DriverLive)
    | Drop
    | Open
    | Read(pass: nat, entries: seq<Entry>)
    | MergeListing(pass: nat)
    | DevicesFail(pass: nat)
    | RegistryReply(pass: nat, drivers: seq<Driver>)
    | Health(pass: nat, live: DriverLive)
    | Fail(pass: nat)

  const INIT := World(0, map[], false, false, EMPTY, [], {}, 0, map[], map[], map[], {}, map[], None, map[])

  /** A listing that tells the truth about the hub at the moment it is read. */
  ghost predicate Truthful(es: seq<Entry>, cur: map<Key, Value>) {
    && (forall i :: 0 <= i < |es| ==> es[i].key in cur && es[i].value == cur[es[i].key])
    && (forall k :: k in cur ==> Lists(es, k))
  }

  ghost predicate Enabled(w: World, e: Event) {
    match e
    case Tick => true
    case Change(k, n, v) => w.connected && k in w.top ==> w.top[k] < n
    case Deliver(f) => w.connected && f in w.sent
    case Local(k, v) => true
    case DriverEvent(d, l) => true
    case Drop => w.connected
    case Open => !w.connected
    case Read(i, es) => i < |w.passes| && w.passes[i].phase.AwaitDevices? && Truthful(es, w.cur)
    case MergeListing(i) => i < |w.passes| && w.passes[i].phase.DevicesRead?
    case DevicesFail(i) => i < |w.passes| && (w.passes[i].phase.AwaitDevices? || w.passes[i].phase.DevicesRead?)
    case RegistryReply(i, ds) => i < |w.passes| && w.passes[i].phase.AwaitRegistry?
    case Health(i, l) => i < |w.passes| && w.passes[i].phase.AwaitHealth?
    case Fail(i) => i < |w.passes| && (w.passes[i].phase.AwaitRegistry? || w.passes[i].phase.AwaitHealth?)
  }

  function Events(w: World, driver: string): nat {
    Get(w.driverEvents, driver).GetOr(0)
  }

  function SetPhase(w: World, i: nat, ph: Phase): World
    requires i < |w.passes|
  {
    w.(passes := w.passes[i := w.passes[i].(phase := ph)])
  }

  /** The `finally`: the activation returns and the flag is released. */
  function Finish(w: World, i: nat): World
    requires i < |w.passes|
  {
    w.(passes := w.passes[..i] + w.passes[i + 1..], client := Release(w.client))
  }

  /** The driver loop up to its next await: skip until a guard passes, or fall off the end. */
  function NextDriver(w: World, i: nat, ds: seq<Driver>): World
    requires i < |w.passes|
    decreases |ds|
  {
    if ds == [] then Finish(w, i)
    else
      var d := ds[0];
      if !d.installed || !d.enabled || d.installedId == ""
         || !ShouldApplySnapshot(Get(w.client.lastLive, DriverName(d.installedId)), w.passes[i].since)
      then NextDriver(w, i, ds[1..])
      else SetPhase(w, i, AwaitHealth(d.installedId, ds[1..], Events(w, d.installedId)))
  }

  function ListingOf(es: seq<Entry>): map<Key, Value>
    decreases |es|
  {
    if es == [] then map[] else ListingOf(es[..|es| - 1])[es[|es| - 1].key := es[|es| - 1].value]
  }

  /** The listing's keys that a pass begun at `since` writes. */
  function Admitted(c: Client, listing: map<Key, Value>, since: int): map<Key, Writer> {
    map k | k in listing && LastLive(c, k) <= since :: ByMerge
  }

  function OpenStream(w: World): World {
    var o := w.(
      connected := true, everConnected := true, epoch := w.epoch + 1,
      floor := w.client.lastSeq, held := w.client.states,
      sent := {}, got := {}, top := map[], wrote := map[], merged := None);
    if w.everConnected && !w.client.reconciling
    then o.(client := w.client.(reconciling := true), passes := w.passes + [Pass(w.now, o.epoch, AwaitDevices)])
    else o
  }

  function Step(w: World, e: Event): World
    requires Enabled(w, e)
  {
    match e
    case Tick => w.(now := w.now + 1)
    case Change(k, n, v) =>
      var c := w.(cur := w.cur[k := v]);
      if w.connected then c.(top := w.top[k := n], sent := w.sent + {Frame(k, n, v)}) else c
    case Deliver(f) =>
      w.(client := ApplyState(w.client, f.key, f.value, Some(f.seqNo), w.now), got := w.got + {f},
         wrote := if LastSeq(w.client, f.key) <= f.seqNo then w.wrote[f.key := ByFrame] else w.wrote)
    case Local(k, v) =>
      w.(client := ApplyState(w.client, k, v, None, w.now), wrote := w.wrote[k := ByHand(v)])
    case DriverEvent(d, l) =>
      w.(client := ApplyDriver(w.client, d, l, w.now), driverEvents := w.driverEvents[d := Events(w, d) + 1])
    case Drop => w.(connected := false)
    case Open => OpenStream(w)
    case Read(i, es) => SetPhase(w, i, DevicesRead(es, w.now, w.epoch))
    case MergeListing(i) =>
      var p := w.passes[i];
      var listing := ListingOf(p.phase.entries);
      SetPhase(w, i, AwaitRegistry).(
        client := Merge(w.client, p.phase.entries, p.since),
        wrote := w.wrote + Admitted(w.client, listing, p.since),
        merged := Some(Merged(listing, p.since, p.epoch, p.phase.readAt, p.phase.readEpoch)))
    case DevicesFail(i) => SetPhase(w, i, AwaitRegistry)
    case RegistryReply(i, ds) => NextDriver(w, i, ds)
    case Health(i, l) =>
      var ph := w.passes[i].phase;
      NextDriver(w.(client := SetDriver(w.client, ph.driver, l)), i, ph.rest)
    case Fail(i) => Finish(w, i)
  }

  ghost predicate Valid(w: World, es: seq<Event>)
    decreases |es|
  {
    es == [] || (Enabled(w, es[0]) && Valid(Step(w, es[0]), es[1..]))
  }

  function Run(w: World, es: seq<Event>): World
    requires Valid(w, es)
    decreases |es|
  {
    if es == [] then w else Run(Step(w, es[0]), es[1..])
  }

  ghost predicate Reachable(w: World) {
    exists es :: Valid(INIT, es) && Run(INIT, es) == w
  }
}
