/** What every step of the live-state protocol keeps. */
module LiveInvariant {
  import opened Util
  import opened Capability
  import opened LiveClient
  import opened LiveWorld

  function Floor(w: World, k: Key): int {
    Get(w.floor, Name(k)).GetOr(0)
  }

  /** Nothing changed on this key since the stream opened. */
  ghost predicate Quiet(w: World, k: Key) {
    k !in w.top
  }

  /**
   * Every frame this connection has carried for the key is numbered below what the client
   * had already applied when the stream opened, so the client drops them all.
   */
  ghost predicate Mute(w: World, k: Key) {
    k in w.top ==> w.top[k] < Floor(w, k)
  }

  /** The newest frame for the key has arrived, and was not dropped. */
  ghost predicate Current(w: World, k: Key) {
    k in w.top && k in w.cur && Frame(k, w.top[k], w.cur[k]) in w.got && !Mute(w, k)
  }

  ghost predicate OnePass(w: World) {
    |w.passes| <= 1 && w.client.reconciling == (|w.passes| == 1)
  }

  ghost predicate ClockOk(w: World) {
    && (forall x :: x in w.client.lastLive ==> w.client.lastLive[x] <= w.now)
    && forall i :: 0 <= i < |w.passes| ==>
         var p := w.passes[i];
         && 0 <= p.since <= w.now && p.epoch <= w.epoch
         && (p.phase.DevicesRead? ==>
               p.since <= p.phase.readAt <= w.now && p.epoch <= p.phase.readEpoch <= w.epoch)
  }

  ghost predicate WireOk(w: World) {
    && (w.connected ==> w.top.Keys <= w.cur.Keys)
    && w.got <= w.sent
    && (w.connected ==> forall f :: f in w.sent ==>
          && f.key in w.top && f.seqNo <= w.top[f.key]
          && (f.seqNo == w.top[f.key] ==> f.value == w.cur[f.key]))
    && (w.connected ==> forall k :: k in w.top ==> Frame(k, w.top[k], w.cur[k]) in w.sent)
  }

  ghost predicate Consistent(es: seq<Entry>) {
    forall i, j :: 0 <= i < |es| && 0 <= j < |es| && es[i].key == es[j].key ==> es[i].value == es[j].value
  }

  /** Passes that have yet to merge: the listing is consistent, and this opening has merged nothing. */
  ghost predicate UnmergedOk(w: World) {
    forall i :: 0 <= i < |w.passes| && (w.passes[i].phase.AwaitDevices? || w.passes[i].phase.DevicesRead?) ==>
      w.merged == None && (w.passes[i].phase.DevicesRead? ==> Consistent(w.passes[i].phase.entries))
  }

  /** During a health fetch, either a live event for that driver has landed or its guard still holds. */
  ghost predicate HealthOk(w: World) {
    forall i :: 0 <= i < |w.passes| && w.passes[i].phase.AwaitHealth? ==>
      var p := w.passes[i];
      && p.phase.eventsAtGuard <= Events(w, p.phase.driver)
      && (p.phase.eventsAtGuard == Events(w, p.phase.driver) ==>
            ShouldApplySnapshot(Get(w.client.lastLive, DriverName(p.phase.driver)), p.since))
  }

  // ---- per key, while the stream is open ----

  ghost predicate NumberOk(w: World, k: Key) {
    if Mute(w, k) then LastSeq(w.client, k) == Floor(w, k) else LastSeq(w.client, k) <= w.top[k]
  }

  /** A key whose newest frame is in has been written since the stream opened. */
  ghost predicate CurrentOk(w: World, k: Key) {
    Current(w, k) ==> LastSeq(w.client, k) == w.top[k] && Name(k) in w.client.lastLive && k in w.wrote
  }

  /** The value a key shows comes from whoever wrote it last; a frame that did so says what the hub says. */
  ghost predicate WroteOk(w: World, k: Key) {
    var writer: Option<Writer> := Get(w.wrote, k);
    match writer
    case None =>
      && Get(w.client.states, k) == Get(w.held, k)
      && (w.merged.Some? ==> !(k in w.merged.value.listing && LastLive(w.client, k) <= w.merged.value.since))
    case Some(ByHand(v)) => Get(w.client.states, k) == Some(v)
    case Some(ByFrame) => !Mute(w, k) && (Current(w, k) ==> Get(w.client.states, k) == Some(w.cur[k]))
    case Some(ByMerge) =>
      && w.merged.Some? && k in w.merged.value.listing && LastLive(w.client, k) <= w.merged.value.since
      && Get(w.client.states, k) == Some(w.merged.value.listing[k])
  }

  /** A listing on its way back is wrong on a current key only if it was read before that key's last stamp. */
  ghost predicate ListingOk(w: World, k: Key) {
    forall i :: 0 <= i < |w.passes| && w.passes[i].phase.DevicesRead? ==>
      Current(w, k) && LastLive(w.client, k) < w.passes[i].phase.readAt ==>
        Agrees(w.passes[i].phase.entries, k, w.cur[k])
  }

  /** A listing on its way back that was read since the stream opened is right on a quiet key. */
  ghost predicate FreshOk(w: World, k: Key) {
    forall i :: 0 <= i < |w.passes| && w.passes[i].phase.DevicesRead? && w.passes[i].phase.readEpoch == w.epoch ==>
      Quiet(w, k) && k in w.cur ==>
        Lists(w.passes[i].phase.entries, k) && Agrees(w.passes[i].phase.entries, k, w.cur[k])
  }

  /** A key not written since the stream opened is stamped no later than the pass that opening began. */
  ghost predicate BegunOk(w: World, k: Key) {
    && (forall i :: 0 <= i < |w.passes| && w.passes[i].epoch == w.epoch && k !in w.wrote ==>
          LastLive(w.client, k) <= w.passes[i].since)
    && (w.merged.Some? && w.merged.value.epoch == w.epoch && k !in w.wrote ==>
          LastLive(w.client, k) <= w.merged.value.since)
  }

  /** What has been merged is right on a quiet key if read since, and on a current key if read after its stamp. */
  ghost predicate MergedOk(w: World, k: Key) {
    w.merged.Some? ==>
      var m := w.merged.value;
      && m.since <= m.readAt && m.epoch <= m.readEpoch <= w.epoch
      && (m.readEpoch == w.epoch && Quiet(w, k) && k in w.cur ==> k in m.listing && m.listing[k] == w.cur[k])
      && (Get(w.wrote, k) == Some(ByMerge) && Current(w, k) && LastLive(w.client, k) < m.readAt ==>
            k in m.listing && m.listing[k] == w.cur[k])
  }

  ghost predicate KeyOk(w: World, k: Key) {
    w.connected ==>
      && NumberOk(w, k) && CurrentOk(w, k) && WroteOk(w, k)
      && ListingOk(w, k) && FreshOk(w, k) && BegunOk(w, k) && MergedOk(w, k)
  }

  ghost predicate Inv(w: World) {
    && OnePass(w) && ClockOk(w) && WireOk(w) && UnmergedOk(w) && HealthOk(w)
    && forall k :: KeyOk(w, k)
  }

  /** A step that leaves everything about one key alone leaves its invariant alone. */
  lemma KeyFrame(w: World, v: World, k: Key)
    requires KeyOk(w, k)
    requires v.connected == w.connected && v.passes == w.passes && v.epoch == w.epoch
    requires v.merged == w.merged && Get(v.held, k) == Get(w.held, k) && Get(v.wrote, k) == Get(w.wrote, k)
    requires Get(v.cur, k) == Get(w.cur, k) && Get(v.top, k) == Get(w.top, k) && Floor(v, k) == Floor(w, k)
    requires Current(v, k) <==> Current(w, k)
    requires LastSeq(v.client, k) == LastSeq(w.client, k) && LastLive(v.client, k) == LastLive(w.client, k)
    requires Name(k) in w.client.lastLive ==> Name(k) in v.client.lastLive
    requires Get(v.client.states, k) == Get(w.client.states, k)
    ensures KeyOk(v, k)
  {
    assert Mute(v, k) <==> Mute(w, k);
  }

  lemma {:induction false} ListingOfAt(es: seq<Entry>, k: Key)
    requires Consistent(es)
    ensures k in ListingOf(es) <==> Lists(es, k)
    ensures k in ListingOf(es) ==> Agrees(es, k, ListingOf(es)[k])
    decreases |es|
  {
    if es != [] {
      var n := |es| - 1;
      assert Consistent(es[..n]);
      ListingOfAt(es[..n], k);
      if Lists(es, k) {
        var i :| 0 <= i < |es| && es[i].key == k;
        assert i < n ==> es[..n][i].key == k;
      }
      if Lists(es[..n], k) {
        var i :| 0 <= i < n && es[..n][i].key == k;
        assert es[i].key == k;
      }
      if k in ListingOf(es) {
        forall i | 0 <= i < |es| && es[i].key == k ensures es[i].value == ListingOf(es)[k] {
          assert i < n ==> es[..n][i] == es[i];
        }
      }
    }
  }

  /** What the driver loop may change: its own suspension, or its end. */
  lemma {:induction false} NextDriverFrame(w: World, i: nat, ds: seq<Driver>)
    requires |w.passes| == 1 && i == 0 && w.client.reconciling
    ensures var v := NextDriver(w, i, ds);
            && v == w.(passes := v.passes, client := w.client.(reconciling := v.client.reconciling))
            && OnePass(v)
            && (v.passes != [] ==>
                  && v.passes[0].phase.AwaitHealth?
                  && v.passes[0] == w.passes[0].(phase := v.passes[0].phase)
                  && v.passes[0].phase.eventsAtGuard == Events(w, v.passes[0].phase.driver)
                  && ShouldApplySnapshot(Get(w.client.lastLive, DriverName(v.passes[0].phase.driver)), w.passes[0].since))
    decreases |ds|
  {
    if ds != [] {
      NextDriverFrame(w, i, ds[1..]);
    }
  }

  ghost predicate PassOnly(e: Event) {
    e.DevicesFail? || e.RegistryReply? || e.Health? || e.Fail?
  }

  /** The events that only move a pass along leave everything the merge guards read alone. */
  lemma PassOnlyFrame(w: World, e: Event)
    requires Inv(w) && Enabled(w, e) && PassOnly(e)
    ensures var v := Step(w, e);
            && v == w.(passes := v.passes, client := w.client.(reconciling := v.client.reconciling, drivers := v.client.drivers))
            && OnePass(v)
            && (v.passes != [] ==>
                  && (v.passes[0].phase.AwaitHealth? || v.passes[0].phase.AwaitRegistry?)
                  && v.passes[0] == w.passes[0].(phase := v.passes[0].phase))
            && HealthOk(v)
  {
    match e
    case DevicesFail(i) =>
    case RegistryReply(i, ds) => NextDriverFrame(w, i, ds);
    case Health(i, l) =>
      var ph := w.passes[i].phase;
      NextDriverFrame(w.(client := SetDriver(w.client, ph.driver, l)), i, ph.rest);
    case Fail(i) =>
  }

  /** The keys' invariants do not look past a pass that has merged. */
  lemma PassOnlyAt(w: World, v: World, k: Key)
    requires KeyOk(w, k)
    requires v == w.(passes := v.passes, client := w.client.(reconciling := v.client.reconciling, drivers := v.client.drivers))
    requires v.passes == [] ||
             (|v.passes| == 1 == |w.passes| && !v.passes[0].phase.DevicesRead? && v.passes[0].since == w.passes[0].since
              && v.passes[0].epoch == w.passes[0].epoch)
    ensures KeyOk(v, k)
  {
    assert (Mute(v, k) <==> Mute(w, k)) && (Current(v, k) <==> Current(w, k)) && (Quiet(v, k) <==> Quiet(w, k));
  }

  lemma KeepsPassOnly(w: World, e: Event)
    requires Inv(w) && Enabled(w, e) && PassOnly(e)
    ensures Inv(Step(w, e))
  {
    PassOnlyFrame(w, e);
    forall k ensures KeyOk(Step(w, e), k) {
      PassOnlyAt(w, Step(w, e), k);
    }
  }

  lemma KeepsTick(w: World)
    requires Inv(w)
    ensures Inv(Step(w, Tick))
  {
    var v := Step(w, Tick);
    forall k ensures KeyOk(v, k) {
      assert KeyOk(w, k);
      assert Current(v, k) <==> Current(w, k);
      KeyFrame(w, v, k);
    }
  }

  lemma KeepsChange(w: World, k: Key, n: nat, x: Value)
    requires Inv(w) && Enabled(w, Change(k, n, x))
    ensures Inv(Step(w, Change(k, n, x)))
  {
    forall j ensures KeyOk(Step(w, Change(k, n, x)), j) {
      if j != k {
        ChangeElsewhere(w, k, n, x, j);
      } else if w.connected {
        ChangeAt(w, k, n, x);
      }
    }
    ChangeWire(w, k, n, x);
  }

  lemma ChangeElsewhere(w: World, k: Key, n: nat, x: Value, j: Key)
    requires Inv(w) && Enabled(w, Change(k, n, x)) && j != k
    ensures KeyOk(Step(w, Change(k, n, x)), j)
  {
    var v := Step(w, Change(k, n, x));
    assert KeyOk(w, j);
    assert Current(v, j) <==> Current(w, j);
    KeyFrame(w, v, j);
  }

  lemma ChangeWire(w: World, k: Key, n: nat, x: Value)
    requires WireOk(w) && Enabled(w, Change(k, n, x))
    ensures WireOk(Step(w, Change(k, n, x)))
  {
    var v := Step(w, Change(k, n, x));
    if w.connected {
      forall f | f in v.sent
        ensures f.key in v.top && f.seqNo <= v.top[f.key] && (f.seqNo == v.top[f.key] ==> f.value == v.cur[f.key])
      {
        assert f != Frame(k, n, x) ==> f in w.sent;
      }
    }
  }

  lemma ChangeAt(w: World, k: Key, n: nat, x: Value)
    requires Inv(w) && w.connected && Enabled(w, Change(k, n, x))
    ensures KeyOk(Step(w, Change(k, n, x)), k)
  {
    var v := Step(w, Change(k, n, x));
    assert KeyOk(w, k);
    assert Frame(k, n, x) !in w.got;
    assert !Current(v, k) && !Quiet(v, k);
    assert Mute(v, k) ==> Mute(w, k);
    assert v.client == w.client && v.passes == w.passes;
  }

  lemma KeepsDeliver(w: World, f: Frame)
    requires Inv(w) && Enabled(w, Deliver(f))
    ensures Inv(Step(w, Deliver(f)))
  {
    var v := Step(w, Deliver(f));
    forall j ensures KeyOk(v, j) {
      assert KeyOk(w, j);
      if j != f.key || Mute(w, j) {
        DeliverElsewhere(w, f, j);
      } else {
        DeliverAt(w, f);
      }
    }
    StampKeepsHealth(w, v, f.key);
  }

  /** Stamping a device key never touches a driver's stamp. */
  lemma StampKeepsHealth(w: World, v: World, k: Key)
    requires HealthOk(w) && v.passes == w.passes && v.driverEvents == w.driverEvents
    requires forall x :: x != Name(k) ==> Get(v.client.lastLive, x) == Get(w.client.lastLive, x)
    ensures HealthOk(v)
  {
    forall d ensures Get(v.client.lastLive, DriverName(d)) == Get(w.client.lastLive, DriverName(d)) {
      NameNotDriver(k, d);
    }
  }

  /** A frame of another key, or one the client is deaf to. */
  lemma DeliverElsewhere(w: World, f: Frame, j: Key)
    requires Inv(w) && Enabled(w, Deliver(f)) && (j != f.key || Mute(w, j))
    ensures KeyOk(Step(w, Deliver(f)), j)
  {
    var v := Step(w, Deliver(f));
    assert KeyOk(w, j);
    if j == f.key {
      assert v.client == w.client && v.wrote == w.wrote;
    } else if Name(j) == Name(f.key) {
      NameInjective(j, f.key);
    }
    assert Current(v, j) <==> Current(w, j);
    KeyFrame(w, v, j);
  }

  /** A frame for a key the client still listens to: dropped when it is older than what was applied. */
  lemma DeliverAt(w: World, f: Frame)
    requires Inv(w) && Enabled(w, Deliver(f)) && !Mute(w, f.key)
    ensures KeyOk(Step(w, Deliver(f)), f.key)
  {
    var v, k := Step(w, Deliver(f)), f.key;
    assert KeyOk(w, k);
    assert !Mute(v, k);
    if f.seqNo < LastSeq(w.client, k) {
      assert v.client == w.client;
      assert Current(v, k) <==> Current(w, k);
      KeyFrame(w, v, k);
    } else {
      assert LastSeq(v.client, k) == f.seqNo && LastLive(v.client, k) == w.now;
      assert Current(v, k) ==> f.seqNo == w.top[k];
    }
  }

  lemma KeepsLocal(w: World, k: Key, x: Value)
    requires Inv(w)
    ensures Inv(Step(w, Local(k, x)))
  {
    var v := Step(w, Local(k, x));
    forall j ensures KeyOk(v, j) {
      assert KeyOk(w, j);
      assert Current(v, j) <==> Current(w, j);
      if j != k {
        if Name(j) == Name(k) { NameInjective(j, k); }
        KeyFrame(w, v, j);
      } else {
        LocalAt(w, k, x);
      }
    }
    StampKeepsHealth(w, v, k);
  }

  lemma LocalAt(w: World, k: Key, x: Value)
    requires Inv(w)
    ensures KeyOk(Step(w, Local(k, x)), k)
  {
    var v := Step(w, Local(k, x));
    assert KeyOk(w, k);
    assert (Current(v, k) <==> Current(w, k)) && (Mute(v, k) <==> Mute(w, k));
    assert LastLive(v.client, k) == w.now;
  }

  lemma KeepsDriverEvent(w: World, d: string, l: DriverLive)
    requires Inv(w)
    ensures Inv(Step(w, DriverEvent(d, l)))
  {
    NamesDistinct();
    var v := Step(w, DriverEvent(d, l));
    forall j ensures KeyOk(v, j) {
      assert KeyOk(w, j);
      assert Current(v, j) <==> Current(w, j);
      KeyFrame(w, v, j);
    }
    assert HealthOk(v) by {
      assert DriverName(d)[7..] == d;
      assert forall dn :: dn != d ==> DriverName(dn)[7..] == dn;
    }
  }

  lemma KeepsDropOpen(w: World, e: Event)
    requires Inv(w) && Enabled(w, e) && (e.Drop? || e.Open?)
    ensures Inv(Step(w, e))
  {
    var v := Step(w, e);
    if e.Open? {
      forall k ensures KeyOk(v, k) {
        assert Mute(v, k) && !Current(v, k) && Quiet(v, k);
        assert LastLive(w.client, k) <= w.now;
      }
    }
  }

  lemma KeepsRead(w: World, i: nat, es: seq<Entry>)
    requires Inv(w) && Enabled(w, Read(i, es))
    ensures Inv(Step(w, Read(i, es)))
  {
    forall k ensures KeyOk(Step(w, Read(i, es)), k) {
      ReadAt(w, i, es, k);
    }
  }

  lemma ReadAt(w: World, i: nat, es: seq<Entry>, k: Key)
    requires Inv(w) && Enabled(w, Read(i, es))
    ensures KeyOk(Step(w, Read(i, es)), k)
  {
    var v := Step(w, Read(i, es));
    assert KeyOk(w, k);
    assert (Mute(v, k) <==> Mute(w, k)) && (Current(v, k) <==> Current(w, k));
    assert k in w.cur ==> Lists(es, k) && Agrees(es, k, w.cur[k]);
  }

  /** The merge, key by key. */
  lemma MergeAt(w: World, i: nat, k: Key)
    requires Inv(w) && Enabled(w, MergeListing(i))
    ensures var p := w.passes[i];
            var es := p.phase.entries;
            && (k in ListingOf(es) <==> Lists(es, k))
            && (k in ListingOf(es) ==> Agrees(es, k, ListingOf(es)[k]))
            && Get(Step(w, MergeListing(i)).client.states, k) ==
                 if LastLive(w.client, k) <= p.since && k in ListingOf(es)
                 then Some(ListingOf(es)[k])
                 else Get(w.client.states, k)
  {
    var p := w.passes[i];
    var es := p.phase.entries;
    ListingOfAt(es, k);
    if LastLive(w.client, k) <= p.since && Lists(es, k) {
      MergeWrites(w.client, es, p.since, k, ListingOf(es)[k]);
    } else {
      MergeSpares(w.client, es, p.since, k);
    }
  }

  /** Two readings of one listing agree where it lists the key. */
  lemma AgreeOnce(es: seq<Entry>, k: Key, x: Value, y: Value)
    requires Lists(es, k) && Agrees(es, k, x) && Agrees(es, k, y)
    ensures x == y
  {
    var j :| 0 <= j < |es| && es[j].key == k;
  }

  /** What the merge leaves behind on a key: its value, its writer, and what the listing is worth. */
  lemma MergeKeyOk(w: World, i: nat, k: Key)
    requires Inv(w) && Enabled(w, MergeListing(i)) && w.connected
    ensures var v := Step(w, MergeListing(i)); WroteOk(v, k) && MergedOk(v, k)
  {
    var v := Step(w, MergeListing(i));
    var p := w.passes[i];
    var es := p.phase.entries;
    MergeTouchesOnlyStates(w.client, es, p.since);
    assert KeyOk(w, k);
    MergeAt(w, i, k);
    assert (Mute(v, k) <==> Mute(w, k)) && (Current(v, k) <==> Current(w, k));
    if Lists(es, k) && k in w.cur && Agrees(es, k, w.cur[k]) {
      AgreeOnce(es, k, w.cur[k], ListingOf(es)[k]);
    }
  }

  lemma KeepsMerge(w: World, i: nat)
    requires Inv(w) && Enabled(w, MergeListing(i))
    ensures Inv(Step(w, MergeListing(i)))
  {
    var v := Step(w, MergeListing(i));
    var p := w.passes[i];
    MergeTouchesOnlyStates(w.client, p.phase.entries, p.since);
    forall k ensures KeyOk(v, k) {
      if w.connected {
        MergeKeyOk(w, i, k);
        MergeRest(w, v, i, k);
      }
    }
  }

  lemma MergeRest(w: World, v: World, i: nat, k: Key)
    requires Inv(w) && Enabled(w, MergeListing(i)) && w.connected && v == Step(w, MergeListing(i))
    requires v.client == w.client.(states := v.client.states)
    ensures NumberOk(v, k) && CurrentOk(v, k) && ListingOk(v, k) && FreshOk(v, k) && BegunOk(v, k)
  {
    assert KeyOk(w, k);
    assert (Mute(v, k) <==> Mute(w, k)) && (Current(v, k) <==> Current(w, k));
  }

  lemma Keeps(w: World, e: Event)
    requires Inv(w) && Enabled(w, e)
    ensures Inv(Step(w, e))
  {
    match e
    case Tick => KeepsTick(w);
    case Change(k, n, x) => KeepsChange(w, k, n, x);
    case Deliver(f) => KeepsDeliver(w, f);
    case Local(k, x) => KeepsLocal(w, k, x);
    case DriverEvent(d, l) => KeepsDriverEvent(w, d, l);
    case Drop => KeepsDropOpen(w, e);
    case Open => KeepsDropOpen(w, e);
    case Read(i, es) => KeepsRead(w, i, es);
    case MergeListing(i) => KeepsMerge(w, i);
    case DevicesFail(i) => KeepsPassOnly(w, e);
    case RegistryReply(i, ds) => KeepsPassOnly(w, e);
    case Health(i, l) => KeepsPassOnly(w, e);
    case Fail(i) => KeepsPassOnly(w, e);
  }

  lemma {:induction false} KeepsRun(w: World, es: seq<Event>)
    requires Inv(w) && Valid(w, es)
    ensures Inv(Run(w, es))
    decreases |es|
  {
    if es != [] {
      Keeps(w, es[0]);
      KeepsRun(Step(w, es[0]), es[1..]);
    }
  }

  lemma ReachableInv(w: World)
    requires Reachable(w)
    ensures Inv(w)
  {
    var es :| Valid(INIT, es) && Run(INIT, es) == w;
    KeepsRun(INIT, es);
  }
}
