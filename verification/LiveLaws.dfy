/** What single events do to the client, and how long what they wrote stands. */
module LiveLaws {
  import opened Util
  import opened Capability
  import opened LiveClient
  import opened LiveWorld
  import opened LiveInvariant

  /** The two clients agree on everything but one device key. */
  ghost predicate AgreeBut(c: Client, r: Client, k: Key) {
    && (forall j :: j != k ==>
          Get(r.states, j) == Get(c.states, j) && LastSeq(r, j) == LastSeq(c, j) && LastLive(r, j) == LastLive(c, j))
    && (forall d :: Get(r.lastLive, DriverName(d)) == Get(c.lastLive, DriverName(d)))
    && r.drivers == c.drivers && r.reconciling == c.reconciling
  }

  /** A local write is shown and stamped, though it has no number; it tells nobody else anything. */
  lemma LocalWrites(w: World, k: Key, v: Value)
    ensures var x := Step(w, Local(k, v));
            && Get(x.client.states, k) == Some(v)
            && LastLive(x.client, k) == w.now && LastSeq(x.client, k) == LastSeq(w.client, k)
            && AgreeBut(w.client, x.client, k)
            && x.cur == w.cur && x.passes == w.passes && x.sent == w.sent
  {
    NamesDistinct();
  }

  /** A frame numbered no lower than the last is shown, stamped and remembered; any other does nothing. */
  lemma FrameWrites(w: World, f: Frame)
    requires Enabled(w, Deliver(f))
    ensures var x := Step(w, Deliver(f));
            if f.seqNo < LastSeq(w.client, f.key) then x.client == w.client
            else
              && Get(x.client.states, f.key) == Some(f.value)
              && LastLive(x.client, f.key) == w.now && LastSeq(x.client, f.key) == f.seqNo
              && AgreeBut(w.client, x.client, f.key)
  {
    NamesDistinct();
  }

  /** A driver event is shown and stamped, whatever was shown before; no device key notices. */
  lemma DriverWrites(w: World, id: string, l: DriverLive)
    ensures var x := Step(w, DriverEvent(id, l));
            && Get(x.client.drivers, id) == Some(l) && Get(x.client.lastLive, DriverName(id)) == Some(w.now)
            && x.client.states == w.client.states && x.client.reconciling == w.client.reconciling
            && (forall k :: LastSeq(x.client, k) == LastSeq(w.client, k) && LastLive(x.client, k) == LastLive(w.client, k))
            && (forall d :: d != id ==>
                  && Get(x.client.drivers, d) == Get(w.client.drivers, d)
                  && Get(x.client.lastLive, DriverName(d)) == Get(w.client.lastLive, DriverName(d)))
  {
    NamesDistinct();
    forall d | d != id ensures DriverName(d) != DriverName(id) {
      assert DriverName(d)[|DRIVER_PREFIX|..] == d && DriverName(id)[|DRIVER_PREFIX|..] == id;
    }
  }

  /** Opening and dropping the stream leave everything shown, numbered and stamped; an opening's pass begins there and then. */
  lemma OpeningKeeps(w: World, e: Event)
    requires Enabled(w, e) && (e.Open? || e.Drop?)
    ensures var x := Step(w, e);
            && x.client == w.client.(reconciling := x.client.reconciling) && x.cur == w.cur
            && (x.passes == w.passes ||
                (e.Open? && x.client.reconciling && x.passes == w.passes + [Pass(w.now, x.epoch, AwaitDevices)]))
  {
  }

  // ---- how long a value stands ----

  /** The event neither writes the key live nor begins a new pass. */
  predicate Leaves(e: Event, k: Key) {
    !(e.Local? && e.key == k) && !(e.Deliver? && e.frame.key == k) && !e.Open?
  }

  /** Every pass in flight began before the key was last stamped. */
  ghost predicate Outdated(w: World, k: Key) {
    forall i :: 0 <= i < |w.passes| ==> w.passes[i].since < LastLive(w.client, k)
  }

  lemma StandsStep(w: World, e: Event, k: Key)
    requires Inv(w) && Enabled(w, e) && Leaves(e, k) && Outdated(w, k)
    ensures Outdated(Step(w, e), k)
    ensures Get(Step(w, e).client.states, k) == Get(w.client.states, k)
  {
    if e.Local? || e.Deliver? || e.DriverEvent? {
      StandsLive(w, e, k);
    } else if PassOnly(e) {
      PassOnlyFrame(w, e);
    } else if e.MergeListing? {
      StandsMerge(w, e.pass, k);
    } else {
      StandsAlone(w, e, k);
    }
  }

  lemma StandsLive(w: World, e: Event, k: Key)
    requires Enabled(w, e) && Leaves(e, k) && Outdated(w, k) && (e.Local? || e.Deliver? || e.DriverEvent?)
    ensures Outdated(Step(w, e), k)
    ensures Get(Step(w, e).client.states, k) == Get(w.client.states, k)
  {
    match e
    case Local(j, v) => LocalWrites(w, j, v);
    case Deliver(f) => FrameWrites(w, f);
    case DriverEvent(d, l) => DriverWrites(w, d, l);
  }

  lemma StandsMerge(w: World, i: nat, k: Key)
    requires Inv(w) && Enabled(w, MergeListing(i)) && Outdated(w, k)
    ensures Outdated(Step(w, MergeListing(i)), k)
    ensures Get(Step(w, MergeListing(i)).client.states, k) == Get(w.client.states, k)
  {
    MergeAt(w, i, k);
    MergeTouchesOnlyStates(w.client, w.passes[i].phase.entries, w.passes[i].since);
  }

  lemma StandsAlone(w: World, e: Event, k: Key)
    requires Enabled(w, e) && Outdated(w, k) && (e.Tick? || e.Change? || e.Drop? || e.Read?)
    ensures Outdated(Step(w, e), k) && Step(w, e).client == w.client
  {
  }

  lemma {:induction false} Stands(w: World, es: seq<Event>, k: Key)
    requires Inv(w) && Valid(w, es) && Outdated(w, k) && forall i :: 0 <= i < |es| ==> Leaves(es[i], k)
    ensures Get(Run(w, es).client.states, k) == Get(w.client.states, k)
    decreases |es|
  {
    if es != [] {
      StandsStep(w, es[0], k);
      Keeps(w, es[0]);
      Stands(Step(w, es[0]), es[1..], k);
    }
  }

  /**
   * What the page writes while a pass is in flight stands: whatever is interleaved, and whenever that pass
   * merges, the key shows it until it is written live again or the stream reopens.
   */
  lemma HandWriteStands(w: World, k: Key, v: Value, es: seq<Event>)
    requires Reachable(w) && forall i :: 0 <= i < |w.passes| ==> w.passes[i].since < w.now
    requires Valid(Step(w, Local(k, v)), es) && forall i :: 0 <= i < |es| ==> Leaves(es[i], k)
    ensures Get(Run(Step(w, Local(k, v)), es).client.states, k) == Some(v)
  {
    ReachableInv(w);
    Keeps(w, Local(k, v));
    LocalWrites(w, k, v);
    Stands(Step(w, Local(k, v)), es, k);
  }

  /** So does what an accepted frame writes. */
  lemma FrameWriteStands(w: World, f: Frame, es: seq<Event>)
    requires Reachable(w) && forall i :: 0 <= i < |w.passes| ==> w.passes[i].since < w.now
    requires Enabled(w, Deliver(f)) && LastSeq(w.client, f.key) <= f.seqNo
    requires Valid(Step(w, Deliver(f)), es) && forall i :: 0 <= i < |es| ==> Leaves(es[i], f.key)
    ensures Get(Run(Step(w, Deliver(f)), es).client.states, f.key) == Some(f.value)
  {
    ReachableInv(w);
    Keeps(w, Deliver(f));
    FrameWrites(w, f);
    Stands(Step(w, Deliver(f)), es, f.key);
  }

  /** In particular the pass's own merge never overwrites what the page wrote after it began. */
  lemma MergeSparesHandWrite(w: World, k: Key, v: Value, i: nat)
    requires Reachable(w) && Enabled(w, MergeListing(i)) && w.passes[i].since < w.now
    ensures var x := Step(w, Local(k, v));
            Enabled(x, MergeListing(i)) && Get(Step(x, MergeListing(i)).client.states, k) == Some(v)
  {
    ReachableInv(w);
    Keeps(w, Local(k, v));
    LocalWrites(w, k, v);
    var x := Step(w, Local(k, v));
    StandsStep(x, MergeListing(i), k);
  }

  // ---- listings and drivers ----

  /** The listing's entries are the states of its devices, each under its own device and capability. */
  lemma {:induction false} EntriesAre(ds: seq<Device>, e: Entry)
    ensures e in Entries(ds) <==>
            exists n, i :: 0 <= n < |ds| && ds[n].state.Some? && 0 <= i < |ds[n].state.value|
                           && e == Entry(Key(ds[n].id, ds[n].state.value[i].0), ds[n].state.value[i].1)
  {
    if ds != [] {
      var m := |ds| - 1;
      EntriesAre(ds[..m], e);
      assert forall n :: 0 <= n < m ==> ds[..m][n] == ds[n];
      if e in DeviceEntries(ds[m]) {
        var i :| 0 <= i < |DeviceEntries(ds[m])| && DeviceEntries(ds[m])[i] == e;
        assert ds[m].state.Some? && 0 <= i < |ds[m].state.value|;
      }
      if i :| ds[m].state.Some? && 0 <= i < |ds[m].state.value|
              && e == Entry(Key(ds[m].id, ds[m].state.value[i].0), ds[m].state.value[i].1) {
        assert DeviceEntries(ds[m])[i] == e;
      }
    }
  }

  /** A driver whose health a pass begun at `since` asks for. */
  predicate Askable(c: Client, since: int, d: Driver) {
    d.installed && d.enabled && d.installedId != "" && Get(c.lastLive, DriverName(d.installedId)).GetOr(0) <= since
  }

  /** None of the first `n` drivers is to be asked. */
  ghost predicate NoneAskable(c: Client, since: int, ds: seq<Driver>, n: nat) {
    n <= |ds| && forall m :: 0 <= m < n ==> !Askable(c, since, ds[m])
  }

  /** The loop passes over drivers not to be asked … */
  lemma {:induction false} PassesOver(w: World, ds: seq<Driver>, n: nat)
    requires |w.passes| == 1 && NoneAskable(w.client, w.passes[0].since, ds, n)
    ensures NextDriver(w, 0, ds) == NextDriver(w, 0, ds[n..])
    decreases n
  {
    if n == 0 {
      assert ds[0..] == ds;
    } else {
      assert !Askable(w.client, w.passes[0].since, ds[0]);
      assert NoneAskable(w.client, w.passes[0].since, ds[1..], n - 1) by {
        assert forall m :: 0 <= m < n - 1 ==> ds[1..][m] == ds[m + 1];
      }
      PassesOver(w, ds[1..], n - 1);
      assert ds[1..][n - 1..] == ds[n..];
    }
  }

  /** … ends when there is none left … */
  lemma EndsWithoutDriver(w: World, ds: seq<Driver>)
    requires |w.passes| == 1 && NoneAskable(w.client, w.passes[0].since, ds, |ds|)
    ensures NextDriver(w, 0, ds) == w.(passes := [], client := w.client.(reconciling := false))
  {
    PassesOver(w, ds, |ds|);
    assert ds[|ds|..] == [];
    assert w.passes[..0] + w.passes[1..] == [];
  }

  /** … and stops at the first that is. */
  lemma StopsAtDriver(w: World, ds: seq<Driver>, n: nat)
    requires |w.passes| == 1 && n < |ds|
    requires NoneAskable(w.client, w.passes[0].since, ds, n) && Askable(w.client, w.passes[0].since, ds[n])
    ensures NextDriver(w, 0, ds) == w.(passes := [w.passes[0].(
              phase := AwaitHealth(ds[n].installedId, ds[n + 1..], Events(w, ds[n].installedId)))])
  {
    PassesOver(w, ds, n);
    assert ds[n..][0] == ds[n] && ds[n..][1..] == ds[n + 1..];
  }

  /** The drivers still to be gone through when the event arrives. */
  ghost predicate Pending(w: World, e: Event, ds: seq<Driver>)
    requires Enabled(w, e)
  {
    (e.RegistryReply? && ds == e.drivers) || (e.Health? && ds == w.passes[e.pass].phase.rest)
  }

  /** A registry reply, and each health answer, leads to the next driver to ask … */
  lemma NextDriverAsked(w: World, e: Event, ds: seq<Driver>, n: nat)
    requires Reachable(w) && Enabled(w, e) && Pending(w, e, ds) && n < |ds|
    requires NoneAskable(w.client, w.passes[e.pass].since, ds, n) && Askable(w.client, w.passes[e.pass].since, ds[n])
    ensures var v := Step(w, e);
            |v.passes| == 1 && v.passes[0].phase.AwaitHealth?
            && v.passes[0].phase.driver == ds[n].installedId && v.passes[0].phase.rest == ds[n + 1..]
  {
    ReachableInv(w);
    if e.RegistryReply? {
      StopsAtDriver(w, ds, n);
    } else {
      StopsAtDriver(w.(client := SetDriver(w.client, w.passes[e.pass].phase.driver, e.live)), ds, n);
    }
  }

  /** … or, when none is left, to the end of the pass. */
  lemma LastDriverAsked(w: World, e: Event, ds: seq<Driver>)
    requires Reachable(w) && Enabled(w, e) && Pending(w, e, ds)
    requires NoneAskable(w.client, w.passes[e.pass].since, ds, |ds|)
    ensures Step(w, e).passes == [] && !Step(w, e).client.reconciling
  {
    ReachableInv(w);
    if e.RegistryReply? {
      EndsWithoutDriver(w, ds);
    } else {
      EndsWithoutDriver(w.(client := SetDriver(w.client, w.passes[e.pass].phase.driver, e.live)), ds);
    }
  }

  /** A health answer is shown for the driver it was asked about, as it came; no other driver or stamp moves. */
  lemma HealthShown(w: World, i: nat, l: DriverLive)
    requires Reachable(w) && Enabled(w, Health(i, l))
    ensures var v := Step(w, Health(i, l));
            && (forall d :: Get(v.client.drivers, d) ==
                  if d == w.passes[i].phase.driver then Some(l) else Get(w.client.drivers, d))
            && v.client.states == w.client.states && v.client.lastLive == w.client.lastLive
  {
    ReachableInv(w);
    NextDriverFrame(w.(client := SetDriver(w.client, w.passes[i].phase.driver, l)), i, w.passes[i].phase.rest);
  }
}
