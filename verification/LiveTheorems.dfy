/** The guarantees of the live-state protocol over whole runs, and where they stop. */
module LiveTheorems {
  import opened Util
  import opened Capability
  import opened LiveClient
  import opened LiveWorld
  import opened LiveInvariant

  /** The stream is open and nothing is on the wire. */
  ghost predicate AtRest(w: World) {
    w.connected && w.sent <= w.got
  }

  /** The pass begun by the latest opening has merged its listing. */
  ghost predicate Reconciled(w: World) {
    w.merged.Some? && w.merged.value.epoch == w.epoch
  }

  /** The last to write the key since the stream opened was this page itself, ahead of the hub. */
  ghost predicate ByHandLast(w: World, k: Key) {
    k in w.wrote && w.wrote[k].ByHand?
  }

  /** What has been merged lists the key, and its guard let the key through. */
  ghost predicate Admits(w: World, k: Key) {
    w.merged.Some? && k in w.merged.value.listing && LastLive(w.client, k) <= w.merged.value.since
  }

  /** A merge overwrote the newest frame: stamped, and the listing read, in the millisecond the pass began. */
  ghost predicate Overtaken(w: World, k: Key) {
    && Get(w.wrote, k) == Some(ByMerge) && Admits(w, k)
    && LastLive(w.client, k) == w.merged.value.since == w.merged.value.readAt
    && (k in w.cur ==> w.merged.value.listing[k] != w.cur[k])
  }

  ghost predicate Shows(w: World, k: Key)
    requires k in w.cur
  {
    Get(w.client.states, k) == Some(w.cur[k])
  }

  // ---- convergence ----

  /** A key no frame of this connection has reached shows what a merge put there, or what it showed before. */
  lemma MuteShows(w: World, k: Key)
    requires Reachable(w) && w.connected && Mute(w, k) && !ByHandLast(w, k)
    ensures Get(w.client.states, k) ==
              if Admits(w, k) then Some(w.merged.value.listing[k]) else Get(w.held, k)
  {
    ReachableInv(w);
    assert KeyOk(w, k);
  }

  /**
   * In every run: a client at rest shows the hub's value on a key it did not write last itself, exactly
   * when its frames got through and no merge overtook them, or, where none got through, when what a merge
   * admitted, or else what was shown as the stream opened, is that value.
   */
  lemma ConvergesIff(w: World, k: Key)
    requires Reachable(w) && AtRest(w) && k in w.cur && !ByHandLast(w, k)
    ensures Shows(w, k) <==>
            if !Mute(w, k) then !Overtaken(w, k)
            else if Admits(w, k) then w.merged.value.listing[k] == w.cur[k]
            else Get(w.held, k) == Some(w.cur[k])
  {
    ReachableInv(w);
    assert KeyOk(w, k);
    if Mute(w, k) {
      MuteShows(w, k);
    } else {
      assert Current(w, k);
    }
  }

  /** So once the latest opening's pass has merged, every key that is not mute, overtaken or ours converges. */
  lemma Convergence(w: World, k: Key)
    requires Reachable(w) && AtRest(w) && Reconciled(w)
    requires k in w.cur && !ByHandLast(w, k) && !Overtaken(w, k)
    requires Quiet(w, k) || !Mute(w, k)
    ensures Shows(w, k)
  {
    ReachableInv(w);
    assert KeyOk(w, k);
    ConvergesIff(w, k);
  }

  /** `hi` bounds every frame number ever issued, per key, and no key is mute. */
  ghost predicate Bounded(w: World, hi: map<Key, nat>) {
    SentBelow(w, hi) && forall k :: BoundedAt(w, hi, k)
  }

  ghost predicate SentBelow(w: World, hi: map<Key, nat>) {
    forall f :: f in w.sent ==> f.seqNo <= Get(hi, f.key).GetOr(0)
  }

  ghost predicate BoundedAt(w: World, hi: map<Key, nat>, k: Key) {
    && LastSeq(w.client, k) <= Get(hi, k).GetOr(0) && Floor(w, k) <= Get(hi, k).GetOr(0)
    && (k in w.top ==> !Mute(w, k))
  }

  /** Numbers keep growing per key over the whole run, across connections. */
  ghost predicate NeverRestarts(es: seq<Event>, hi: map<Key, nat>)
    decreases |es|
  {
    es == [] ||
    if es[0].Change? then
      && (es[0].key in hi ==> hi[es[0].key] < es[0].seqNo)
      && NeverRestarts(es[1..], hi[es[0].key := es[0].seqNo])
    else NeverRestarts(es[1..], hi)
  }

  /** Only an accepted frame moves a key's number. */
  lemma NumberStep(w: World, e: Event, k: Key)
    requires Inv(w) && Enabled(w, e)
    ensures LastSeq(Step(w, e).client, k) ==
              if e.Deliver? && e.frame.key == k && LastSeq(w.client, k) <= e.frame.seqNo
              then e.frame.seqNo else LastSeq(w.client, k)
  {
    if e.Deliver? {
      NumberDeliver(w, e.frame, k);
    } else if PassOnly(e) {
      PassOnlyFrame(w, e);
    } else if e.MergeListing? {
      MergeTouchesOnlyStates(w.client, w.passes[e.pass].phase.entries, w.passes[e.pass].since);
    } else {
      NumbersAlone(w, e);
    }
  }

  lemma NumberDeliver(w: World, f: Frame, k: Key)
    requires Enabled(w, Deliver(f))
    ensures LastSeq(Step(w, Deliver(f)).client, k) ==
              if f.key == k && LastSeq(w.client, k) <= f.seqNo then f.seqNo else LastSeq(w.client, k)
  {
    if Name(f.key) == Name(k) { NameInjective(f.key, k); }
  }

  lemma NumbersAlone(w: World, e: Event)
    requires Enabled(w, e) && !e.Deliver? && !PassOnly(e) && !e.MergeListing?
    ensures Step(w, e).client.lastSeq == w.client.lastSeq
  {
    match e
    case Tick =>
    case Change(k, n, v) =>
    case Local(k, v) => assert ApplyState(w.client, k, v, None, w.now).lastSeq == w.client.lastSeq;
    case DriverEvent(d, l) =>
    case Drop =>
    case Open => assert OpenStream(w).client.lastSeq == w.client.lastSeq;
    case Read(i, es) =>
  }

  /** Only an opening moves the floor, only it and a change move the connection's frames. */
  lemma ConnectionStep(w: World, e: Event)
    requires Inv(w) && Enabled(w, e) && !e.Open? && !e.Change?
    ensures var v := Step(w, e); v.floor == w.floor && v.top == w.top && v.sent == w.sent
  {
    if PassOnly(e) {
      PassOnlyFrame(w, e);
    } else if e.Read? || e.MergeListing? {
      ConnectionPass(w, e);
    } else {
      ConnectionClient(w, e);
    }
  }

  lemma ConnectionPass(w: World, e: Event)
    requires Enabled(w, e) && (e.Read? || e.MergeListing?)
    ensures var v := Step(w, e); v.floor == w.floor && v.top == w.top && v.sent == w.sent
  {
  }

  lemma ConnectionClient(w: World, e: Event)
    requires Enabled(w, e) && (e.Tick? || e.Deliver? || e.Local? || e.DriverEvent? || e.Drop?)
    ensures var v := Step(w, e); v.floor == w.floor && v.top == w.top && v.sent == w.sent
  {
  }

  function Raise(hi: map<Key, nat>, e: Event): map<Key, nat> {
    if e.Change? then hi[e.key := e.seqNo] else hi
  }

  lemma SentStays(w: World, e: Event, hi: map<Key, nat>)
    requires Inv(w) && Enabled(w, e) && SentBelow(w, hi)
    requires e.Change? && e.key in hi ==> hi[e.key] < e.seqNo
    ensures SentBelow(Step(w, e), Raise(hi, e))
  {
    if e.Change? {
      forall f | f in Step(w, e).sent ensures f.seqNo <= Get(Raise(hi, e), f.key).GetOr(0) {
        assert f in w.sent || f == Frame(e.key, e.seqNo, e.value);
      }
    } else if !e.Open? {
      ConnectionStep(w, e);
    }
  }

  lemma BoundStays(w: World, e: Event, hi: map<Key, nat>, k: Key)
    requires Inv(w) && Enabled(w, e) && SentBelow(w, hi) && BoundedAt(w, hi, k)
    requires e.Change? && e.key in hi ==> hi[e.key] < e.seqNo
    ensures BoundedAt(Step(w, e), Raise(hi, e), k)
  {
    var v := Step(w, e);
    NumberStep(w, e, k);
    if !e.Open? && !e.Change? {
      ConnectionStep(w, e);
      assert Mute(v, k) <==> Mute(w, k);
    }
  }

  lemma BoundedStep(w: World, e: Event, hi: map<Key, nat>)
    requires Inv(w) && Enabled(w, e) && Bounded(w, hi)
    requires e.Change? && e.key in hi ==> hi[e.key] < e.seqNo
    ensures Bounded(Step(w, e), Raise(hi, e))
  {
    SentStays(w, e, hi);
    forall k ensures BoundedAt(Step(w, e), Raise(hi, e), k) {
      BoundStays(w, e, hi, k);
    }
  }

  lemma {:induction false} NeverRestartsNeverMute(w: World, es: seq<Event>, hi: map<Key, nat>)
    requires Inv(w) && Valid(w, es) && NeverRestarts(es, hi) && Bounded(w, hi)
    ensures forall k :: k in Run(w, es).top ==> !Mute(Run(w, es), k)
    decreases |es|
  {
    if es != [] {
      BoundedStep(w, es[0], hi);
      Keeps(w, es[0]);
      NeverRestartsNeverMute(Step(w, es[0]), es[1..], Raise(hi, es[0]));
    } else {
      forall k | k in w.top ensures !Mute(w, k) { assert BoundedAt(w, hi, k); }
    }
  }

  /** So with numbers that never restart, every run at rest and reconciled converges on the hub's device map. */
  lemma ConvergenceWhenNumbersNeverRestart(es: seq<Event>)
    requires Valid(INIT, es) && NeverRestarts(es, map[])
    requires AtRest(Run(INIT, es)) && Reconciled(Run(INIT, es))
    ensures var w := Run(INIT, es);
            forall k :: k in w.cur && !ByHandLast(w, k) && !Overtaken(w, k) ==> Shows(w, k)
  {
    var w := Run(INIT, es);
    assert Bounded(INIT, map[]);
    NeverRestartsNeverMute(INIT, es, map[]);
    forall k | k in w.cur && !ByHandLast(w, k) && !Overtaken(w, k) ensures Shows(w, k) {
      Convergence(w, k);
    }
  }

  // ---- building concrete runs ----

  lemma {:induction false} RunSnoc(w: World, es: seq<Event>, e: Event)
    requires Valid(w, es) && Enabled(Run(w, es), e)
    ensures Valid(w, es + [e]) && Run(w, es + [e]) == Step(Run(w, es), e)
    decreases |es|
  {
    if es == [] {
      assert [e][1..] == [];
      assert Valid(Step(w, e), []) && Run(Step(w, e), []) == Step(w, e);
      assert es + [e] == [e];
    } else {
      assert (es + [e])[1..] == es[1..] + [e];
      RunSnoc(Step(w, es[0]), es[1..], e);
    }
  }

  lemma Reach(w: World, e: Event, v: World)
    requires Reachable(w) && Enabled(w, e) && v == Step(w, e)
    ensures Reachable(v)
  {
    var es :| Valid(INIT, es) && Run(INIT, es) == w;
    RunSnoc(INIT, es, e);
  }

  const LAMP := Key("dev_1", OnOff)
  const LISTING := [Entry(LAMP, "off")]

  /** The stream has opened once, the lamp has gone off, and the stream has dropped. */
  const DOWN := INIT.(
    everConnected := true, epoch := 1,
    cur := map[LAMP := "off"], top := map[LAMP := 1], sent := {Frame(LAMP, 1, "off")})

  /** … and has reopened, starting a pass in the first millisecond. */
  const REOPENED := DOWN.(
    connected := true, epoch := 2, top := map[], sent := {},
    client := EMPTY.(reconciling := true), passes := [Pass(0, 2, AwaitDevices)])

  lemma ReopenedReachable()
    ensures Reachable(DOWN) && Reachable(REOPENED)
  {
    assert Valid(INIT, []) && Run(INIT, []) == INIT;
    var w1 := INIT.(connected := true, everConnected := true, epoch := 1);
    Reach(INIT, Open, w1);
    var w2 := DOWN.(connected := true);
    assert Step(w1, Change(LAMP, 1, "off")) == w2;
    Reach(w1, Change(LAMP, 1, "off"), w2);
    Reach(w2, Drop, DOWN);
    Reach(DOWN, Open, REOPENED);
  }

  lemma ListingTruthful(w: World)
    requires w.cur == map[LAMP := "off"]
    ensures Truthful(LISTING, w.cur)
  {
    assert LISTING[0].key == LAMP;
  }

  /** Merging the listing into a client whose lamp was never stamped after `since`. */
  lemma MergeOff(c: Client, since: int)
    requires LastLive(c, LAMP) <= since
    ensures Merge(c, LISTING, since) == c.(states := c.states[LAMP := "off"])
  {
    assert Merge(c, LISTING, since) == MergeEntry(c, LISTING[0], since) by {
      assert LISTING[1..] == [];
    }
  }

  /** The lamp has gone off under frame number 2, and the client has seen it. */
  const SEEN := EMPTY.(
    states := map[LAMP := "off"], lastSeq := map[Name(LAMP) := 2], lastLive := map[Name(LAMP) := 0])

  const SEEN_DOWN := INIT.(
    everConnected := true, epoch := 1, client := SEEN,
    cur := map[LAMP := "off"], top := map[LAMP := 2],
    sent := {Frame(LAMP, 1, "dim"), Frame(LAMP, 2, "off")}, got := {Frame(LAMP, 2, "off")},
    wrote := map[LAMP := ByFrame])

  lemma SeenReachable()
    ensures Reachable(SEEN_DOWN)
  {
    assert Valid(INIT, []) && Run(INIT, []) == INIT;
    var w1 := INIT.(connected := true, everConnected := true, epoch := 1);
    Reach(INIT, Open, w1);
    var w2 := w1.(cur := map[LAMP := "dim"], top := map[LAMP := 1], sent := {Frame(LAMP, 1, "dim")});
    assert Step(w1, Change(LAMP, 1, "dim")) == w2;
    Reach(w1, Change(LAMP, 1, "dim"), w2);
    var w3 := SEEN_DOWN.(connected := true, client := EMPTY, got := {}, wrote := map[]);
    assert Step(w2, Change(LAMP, 2, "off")) == w3;
    Reach(w2, Change(LAMP, 2, "off"), w3);
    var w4 := SEEN_DOWN.(connected := true);
    assert ApplyState(EMPTY, LAMP, "off", Some(2), 0) == SEEN;
    assert Step(w3, Deliver(Frame(LAMP, 2, "off"))) == w4;
    Reach(w3, Deliver(Frame(LAMP, 2, "off")), w4);
    Reach(w4, Drop, SEEN_DOWN);
  }

  const OFF_MERGED := Merged(map[LAMP := "off"], 0, 2, 1, 2)

  const SEEN_MERGED := SEEN_DOWN.(
    now := 1, connected := true, epoch := 2, floor := map[Name(LAMP) := 2], held := map[LAMP := "off"],
    top := map[], sent := {}, got := {}, wrote := map[LAMP := ByMerge],
    client := SEEN.(reconciling := true), passes := [Pass(0, 2, AwaitRegistry)], merged := Some(OFF_MERGED))

  lemma OffListed()
    ensures ListingOf(LISTING) == map[LAMP := "off"]
  {
    assert LISTING[..0] == [];
  }

  lemma SeenMergedReachable()
    ensures Reachable(SEEN_MERGED)
  {
    SeenReachable();
    var w6 := SEEN_MERGED.(now := 0, merged := None, wrote := map[], passes := [Pass(0, 2, AwaitDevices)]);
    Reach(SEEN_DOWN, Open, w6);
    var w7 := w6.(now := 1);
    Reach(w6, Tick, w7);
    ListingTruthful(w7);
    var w8 := w7.(passes := [Pass(0, 2, DevicesRead(LISTING, 1, 2))]);
    Reach(w7, Read(0, LISTING), w8);
    MergeOff(w8.client, 0);
    assert w8.client.states[LAMP := "off"] == w8.client.states;
    OffListed();
    assert w8.wrote + Admitted(w8.client, ListingOf(LISTING), 0) == map[LAMP := ByMerge];
    Reach(w8, MergeListing(0), SEEN_MERGED);
  }

  /**
   * The gateway numbers each connection's frames from 1 again while the client keeps the
   * old numbers, so after a reconnect a change can arrive, be dropped, and stay lost.
   */
  lemma RestartedNumbersDiverge()
    ensures exists w :: Reachable(w) && AtRest(w) && Reconciled(w) && !ByHandLast(w, LAMP)
              && w.top == map[LAMP := 1] && w.floor == map[Name(LAMP) := 2]
              && Get(w.cur, LAMP) == Some("on") && Get(w.client.states, LAMP) == Some("off")
  {
    SeenMergedReachable();
    var f := Frame(LAMP, 1, "on");
    var wa := SEEN_MERGED.(cur := map[LAMP := "on"], top := map[LAMP := 1], sent := {f});
    assert Step(SEEN_MERGED, Change(LAMP, 1, "on")) == wa;
    Reach(SEEN_MERGED, Change(LAMP, 1, "on"), wa);
    var wb := wa.(got := {f});
    assert ApplyState(wa.client, LAMP, "on", Some(1), 1) == wa.client;
    Reach(wa, Deliver(f), wb);
    assert Reachable(wb);
  }

  // ---- the two other ways to miss a change ----

  /**
   * A merge takes a key that shows the newest frame back to an older value exactly when its
   * listing is out of date there and the key's last stamp is the millisecond the pass began in.
   */
  lemma MergeRegressesIff(w: World, i: nat, k: Key)
    requires Reachable(w) && w.connected && Enabled(w, MergeListing(i))
    requires Current(w, k) && Get(w.client.states, k) == Some(w.cur[k])
    ensures var listing := ListingOf(w.passes[i].phase.entries);
            Get(Step(w, MergeListing(i)).client.states, k) != Some(w.cur[k]) <==>
            k in listing && listing[k] != w.cur[k] && LastLive(w.client, k) == w.passes[i].since
  {
    ReachableInv(w);
    assert KeyOk(w, k);
    MergeAt(w, i, k);
    var p := w.passes[i];
    if k in ListingOf(p.phase.entries) && LastLive(w.client, k) < p.since {
      AgreeOnce(p.phase.entries, k, w.cur[k], ListingOf(p.phase.entries)[k]);
    }
  }

  /** A listing was read in the pass's first millisecond, then the lamp went on, and its frame arrived, in the same one. */
  const LIT := EMPTY.(
    states := map[LAMP := "on"], lastSeq := map[Name(LAMP) := 1], lastLive := map[Name(LAMP) := 0], reconciling := true)

  const TIED := REOPENED.(
    cur := map[LAMP := "on"], top := map[LAMP := 1], sent := {Frame(LAMP, 1, "on")}, got := {Frame(LAMP, 1, "on")},
    client := LIT, wrote := map[LAMP := ByFrame], passes := [Pass(0, 2, DevicesRead(LISTING, 0, 2))])

  lemma TiedReachable()
    ensures Reachable(TIED)
  {
    ReopenedReachable();
    ListingTruthful(REOPENED);
    var w5 := REOPENED.(passes := TIED.passes);
    Reach(REOPENED, Read(0, LISTING), w5);
    var w6 := TIED.(client := REOPENED.client, got := {}, wrote := map[]);
    assert Step(w5, Change(LAMP, 1, "on")) == w6;
    Reach(w5, Change(LAMP, 1, "on"), w6);
    assert ApplyState(w6.client, LAMP, "on", Some(1), 0) == LIT;
    assert Step(w6, Deliver(Frame(LAMP, 1, "on"))) == TIED;
    Reach(w6, Deliver(Frame(LAMP, 1, "on")), TIED);
  }

  /** And that does happen: the guard admits a tie. */
  lemma TieRegresses()
    ensures exists w :: Reachable(w) && AtRest(w) && Reconciled(w)
              && Current(w, LAMP) && Overtaken(w, LAMP)
              && Get(w.cur, LAMP) == Some("on") && Get(w.client.states, LAMP) == Some("off")
  {
    TiedReachable();
    MergeOff(LIT, 0);
    OffListed();
    var w8 := TIED.(
      client := LIT.(states := map[LAMP := "off"]), passes := [Pass(0, 2, AwaitRegistry)],
      wrote := map[LAMP := ByMerge], merged := Some(Merged(map[LAMP := "off"], 0, 2, 0, 2)));
    assert TIED.wrote + Admitted(LIT, ListingOf(LISTING), 0) == w8.wrote;
    Reach(TIED, MergeListing(0), w8);
    assert Reachable(w8) && Current(w8, LAMP);
  }

  /** An opening starts a pass exactly when it is a reopening and no pass is still in flight. */
  lemma OpeningReconcilesIff(w: World)
    requires Reachable(w) && Enabled(w, Open)
    ensures (exists i :: 0 <= i < |Step(w, Open).passes| && Step(w, Open).passes[i].epoch == Step(w, Open).epoch)
            <==> w.everConnected && w.passes == []
  {
    ReachableInv(w);
    var v := Step(w, Open);
    if w.everConnected && w.passes == [] {
      assert v.passes[0].epoch == v.epoch;
    }
  }

  /**
   * What a swallowed reopening, or any other, leaves of a change made while the stream was down: a key
   * quiet since shows the hub's value exactly when a merge let it through whose listing was read since
   * the opening, or happened to say so already, or else when it showed that value all along.
   */
  lemma QuietShowsIff(w: World, k: Key)
    requires Reachable(w) && w.connected && Quiet(w, k) && k in w.cur && !ByHandLast(w, k)
    ensures Shows(w, k) <==>
            if Admits(w, k) then w.merged.value.readEpoch == w.epoch || w.merged.value.listing[k] == w.cur[k]
            else Get(w.held, k) == Some(w.cur[k])
    ensures w.merged.Some? && w.merged.value.readEpoch == w.epoch ==> k in w.merged.value.listing
  {
    ReachableInv(w);
    assert KeyOk(w, k);
    MuteShows(w, k);
  }

  /** A pass is under way from the first opening but one when the stream drops, the lamp changes, and it reopens. */
  const SWALLOWED := REOPENED.(
    now := 1, epoch := 3, cur := map[LAMP := "on"])

  lemma SwallowedReachable(ph: Phase)
    requires ph == AwaitDevices || ph == DevicesRead(LISTING, 1, 2)
    ensures Reachable(SWALLOWED.(passes := [Pass(0, 2, ph)]))
  {
    ReopenedReachable();
    ListingTruthful(REOPENED);
    var w5 := REOPENED.(now := 1);
    Reach(REOPENED, Tick, w5);
    var w6 := w5.(passes := [Pass(0, 2, ph)]);
    if ph.DevicesRead? { Reach(w5, Read(0, LISTING), w6); }
    var w7 := w6.(connected := false);
    Reach(w6, Drop, w7);
    var w8 := w7.(cur := map[LAMP := "on"]);
    assert Step(w7, Change(LAMP, 2, "on")) == w8;
    Reach(w7, Change(LAMP, 2, "on"), w8);
    Reach(w8, Open, SWALLOWED.(passes := [Pass(0, 2, ph)]));
  }

  const LOST := SWALLOWED.(
    client := SWALLOWED.client.(states := map[LAMP := "off"]), passes := [Pass(0, 2, AwaitRegistry)],
    wrote := map[LAMP := ByMerge], merged := Some(Merged(map[LAMP := "off"], 0, 2, 1, 2)))

  lemma LostReachable()
    ensures Reachable(LOST)
  {
    var w9 := SWALLOWED.(passes := [Pass(0, 2, DevicesRead(LISTING, 1, 2))]);
    SwallowedReachable(DevicesRead(LISTING, 1, 2));
    MergeOff(w9.client, 0);
    OffListed();
    assert w9.wrote + Admitted(w9.client, ListingOf(LISTING), 0) == LOST.wrote;
    Reach(w9, MergeListing(0), LOST);
  }

  /** When the pass in flight has read its listing before the drop, the change stays unseen for good … */
  lemma SwallowedReopeningDiverges()
    ensures exists w :: Reachable(w) && AtRest(w) && w.passes == [] && Quiet(w, LAMP) && !ByHandLast(w, LAMP)
              && w.merged.Some? && w.merged.value.epoch < w.epoch
              && Get(w.cur, LAMP) == Some("on") && Get(w.client.states, LAMP) == Some("off")
  {
    LostReachable();
    var w := LOST.(client := Release(LOST.client), passes := []);
    Reach(LOST, Fail(0), w);
    assert Reachable(w);
  }

  /** … and when it reads it afterwards, the swallowed reopening has lost nothing. */
  lemma SwallowedReopeningRecovers()
    ensures exists w :: Reachable(w) && AtRest(w) && Quiet(w, LAMP) && !ByHandLast(w, LAMP)
              && w.merged.Some? && w.merged.value.epoch < w.epoch
              && Get(w.held, LAMP) == None && Get(w.cur, LAMP) == Some("on") && Shows(w, LAMP)
  {
    var on := [Entry(LAMP, "on")];
    SwallowedReachable(AwaitDevices);
    assert SWALLOWED.passes == [Pass(0, 2, AwaitDevices)];
    assert on[0].key == LAMP;
    var wa := SWALLOWED.(passes := [Pass(0, 2, DevicesRead(on, 1, 3))]);
    Reach(SWALLOWED, Read(0, on), wa);
    MergeAfterReopening(wa, on);
  }

  lemma MergeAfterReopening(w: World, es: seq<Entry>)
    requires w == SWALLOWED.(passes := [Pass(0, 2, DevicesRead(es, 1, 3))]) && Reachable(w)
    ensures var v := Step(w, MergeListing(0));
            && Reachable(v) && AtRest(v) && Quiet(v, LAMP) && !ByHandLast(v, LAMP)
            && v.merged.Some? && v.merged.value.epoch < v.epoch
            && Get(v.held, LAMP) == None && Get(v.cur, LAMP) == Some("on") && Shows(v, LAMP)
  {
    var v := Step(w, MergeListing(0));
    Reach(w, MergeListing(0), v);
    QuietShowsIff(v, LAMP);
    MergeTouchesOnlyStates(w.client, es, 0);
  }

  // ---- mutual exclusion and no-clobber ----

  lemma AtMostOnePass(w: World)
    requires Reachable(w)
    ensures |w.passes| <= 1 && (w.client.reconciling <==> w.passes != [])
  {
    ReachableInv(w);
  }

  /** How far a suspended pass is from returning. */
  function Rank(passes: seq<Pass>): (nat, nat) {
    if passes == [] then (0, 0)
    else match passes[0].phase
         case AwaitDevices => (4, 0)
         case DevicesRead(_, _, _) => (3, 0)
         case AwaitRegistry => (2, 0)
         case AwaitHealth(_, rest, _) => (1, |rest|)
  }

  ghost predicate Before(a: (nat, nat), b: (nat, nat)) {
    a.0 < b.0 || (a.0 == b.0 && a.1 < b.1)
  }

  lemma {:induction false} NextDriverRank(w: World, ds: seq<Driver>)
    requires |w.passes| == 1
    ensures var v := NextDriver(w, 0, ds);
            v.passes == [] || (|v.passes| == 1 && v.passes[0].phase.AwaitHealth? && |v.passes[0].phase.rest| < |ds|)
    decreases |ds|
  {
    if ds != [] {
      NextDriverRank(w, ds[1..]);
    }
  }

  /** Replies and failures: the events that resume a suspended pass. */
  ghost predicate Resumes(e: Event) {
    PassOnly(e) || e.Read? || e.MergeListing?
  }

  lemma HealthAdvances(w: World, i: nat, l: DriverLive)
    requires OnePass(w) && Enabled(w, Health(i, l))
    ensures Before(Rank(Step(w, Health(i, l)).passes), Rank(w.passes))
  {
    var ph := w.passes[i].phase;
    NextDriverRank(w.(client := SetDriver(w.client, ph.driver, l)), ph.rest);
  }

  /** The flag is always released: every resumption moves the pass strictly closer to its end … */
  lemma PassAdvances(w: World, e: Event)
    requires Reachable(w) && Enabled(w, e) && Resumes(e)
    ensures Before(Rank(Step(w, e).passes), Rank(w.passes))
  {
    ReachableInv(w);
    match e
    case RegistryReply(i, ds) => NextDriverRank(w, ds);
    case Health(i, l) => HealthAdvances(w, i, l);
    case _ => PlainAdvances(w, e);
  }

  lemma PlainAdvances(w: World, e: Event)
    requires OnePass(w) && Enabled(w, e) && (e.Read? || e.MergeListing? || e.DevicesFail? || e.Fail?)
    ensures Before(Rank(Step(w, e).passes), Rank(w.passes))
  {
  }

  /** … and whatever is interleaved leaves the pass where it is. */
  lemma PassUndisturbed(w: World, e: Event)
    requires Reachable(w) && Enabled(w, e) && !Resumes(e) && w.passes != []
    ensures Step(w, e).passes == w.passes && Step(w, e).client.reconciling
  {
    ReachableInv(w);
  }

  // ---- the flag comes free ----

  /** A run that never stops. */
  ghost predicate Endless(run: nat -> World, moves: nat -> Event) {
    Reachable(run(0)) && forall i: nat {:trigger moves(i)} :: Enabled(run(i), moves(i)) && run(i + 1) == Step(run(i), moves(i))
  }

  /** What a pass awaits at `i` is answered or fails at some time. */
  ghost predicate AnsweredAt(run: nat -> World, moves: nat -> Event, i: nat) {
    run(i).passes != [] ==> exists j: nat :: i <= j && Resumes(moves(j))
  }

  ghost predicate Answered(run: nat -> World, moves: nat -> Event) {
    forall i: nat :: AnsweredAt(run, moves, i)
  }

  lemma {:induction false} EndlessReachable(run: nat -> World, moves: nat -> Event, i: nat)
    requires Endless(run, moves)
    ensures Reachable(run(i))
  {
    if i > 0 {
      EndlessReachable(run, moves, i - 1);
      Reach(run(i - 1), moves(i - 1), run(i));
    }
  }

  /** The first resumption from `i` on finds the pass where it was. */
  lemma {:induction false} NextResumption(run: nat -> World, moves: nat -> Event, i: nat, j: nat) returns (n: nat)
    requires Endless(run, moves) && i <= j && Resumes(moves(j)) && run(i).passes != []
    ensures i <= n && Resumes(moves(n)) && run(n).passes == run(i).passes
    decreases j - i
  {
    n := i;
    if !Resumes(moves(i)) {
      EndlessReachable(run, moves, i);
      PassUndisturbed(run(i), moves(i));
      assert i < j;
      n := NextResumption(run, moves, i + 1, j);
    }
  }

  /** That resumption brings the pass strictly closer to its end. */
  lemma PassMovesOn(run: nat -> World, moves: nat -> Event, i: nat) returns (n: nat)
    requires Endless(run, moves) && Answered(run, moves) && run(i).passes != []
    ensures i < n && Before(Rank(run(n).passes), Rank(run(i).passes))
  {
    assert AnsweredAt(run, moves, i);
    var m: nat :| i <= m && Resumes(moves(m));
    n := NextResumption(run, moves, i, m);
    EndlessReachable(run, moves, n);
    PassAdvances(run(n), moves(n));
    n := n + 1;
  }

  /** So from any moment on, the flag is released at some later one. */
  lemma {:induction false} FlagReleased(run: nat -> World, moves: nat -> Event, i: nat) returns (j: nat)
    requires Endless(run, moves) && Answered(run, moves)
    ensures i <= j && !run(j).client.reconciling
    decreases Rank(run(i).passes).0, Rank(run(i).passes).1
  {
    if run(i).passes == [] {
      EndlessReachable(run, moves, i);
      AtMostOnePass(run(i));
      j := i;
    } else {
      var n := PassMovesOn(run, moves, i);
      j := FlagReleased(run, moves, n);
    }
  }

  /** A merge never touches a key stamped after its pass began, nor anything but device states. */
  lemma MergeNeverClobbers(w: World, i: nat, k: Key)
    requires Reachable(w) && Enabled(w, MergeListing(i))
    ensures var v := Step(w, MergeListing(i));
            && v.client == w.client.(states := v.client.states)
            && (LastLive(w.client, k) > w.passes[i].since ==> Get(v.client.states, k) == Get(w.client.states, k))
  {
    var p := w.passes[i];
    MergeTouchesOnlyStates(w.client, p.phase.entries, p.since);
    if LastLive(w.client, k) > p.since {
      MergeSpares(w.client, p.phase.entries, p.since, k);
    }
  }

  /** The driver half asks its guard before an await: only an event during that very fetch can be lost. */
  lemma DriverLossWindow(w: World, i: nat, l: DriverLive)
    requires Reachable(w) && Enabled(w, Health(i, l))
    requires var p := w.passes[i];
             !ShouldApplySnapshot(Get(w.client.lastLive, DriverName(p.phase.driver)), p.since)
    ensures w.passes[i].phase.eventsAtGuard < Events(w, w.passes[i].phase.driver)
  {
    ReachableInv(w);
  }

  const UP := DriverLive(Connected, None, "2")
  const OUTDATED := DriverLive(Disconnected, None, "1")

  /** A health fetch is out, and the driver has come up a millisecond after the pass began. */
  const FETCHING := REOPENED.(
    now := 1, passes := [Pass(0, 2, AwaitHealth("knx", [], 0))],
    client := ApplyDriver(REOPENED.client, "knx", UP, 1), driverEvents := map["knx" := 1])

  const ASKING := REOPENED.(passes := [Pass(0, 2, AwaitHealth("knx", [], 0))])

  lemma AskingReachable()
    ensures Reachable(ASKING)
  {
    ReopenedReachable();
    var w4 := REOPENED.(passes := [Pass(0, 2, AwaitRegistry)]);
    Reach(REOPENED, DevicesFail(0), w4);
    var ds := [Driver(true, true, "knx")];
    assert ds[1..] == [] && NextDriver(w4, 0, ds) == ASKING;
    Reach(w4, RegistryReply(0, ds), ASKING);
  }

  lemma FetchingReachable()
    ensures Reachable(FETCHING)
  {
    AskingReachable();
    var w6 := ASKING.(now := 1);
    Reach(ASKING, Tick, w6);
    assert Step(w6, DriverEvent("knx", UP)) == FETCHING;
    Reach(w6, DriverEvent("knx", UP), FETCHING);
  }

  /** And such an event is lost: the older health answer overwrites it. */
  lemma DriverEventLost()
    ensures exists w ::
      && Reachable(w) && Enabled(w, Health(0, OUTDATED))
      && Get(w.client.drivers, "knx") == Some(UP)
      && Get(w.client.lastLive, DriverName("knx")).GetOr(0) > w.passes[0].since
      && Get(Step(w, Health(0, OUTDATED)).client.drivers, "knx") == Some(OUTDATED)
  {
    FetchingReachable();
    assert Get(Step(FETCHING, Health(0, OUTDATED)).client.drivers, "knx") == Some(OUTDATED);
    assert Reachable(FETCHING);
  }

  // ---- frames alone ----

  /** Applied numbers never go down, whatever else happens. */
  lemma {:induction false} NumbersNeverDecrease(w: World, es: seq<Event>, k: Key)
    requires Inv(w) && Valid(w, es)
    ensures LastSeq(w.client, k) <= LastSeq(Run(w, es).client, k)
    decreases |es|
  {
    if es != [] {
      NumberStep(w, es[0], k);
      Keeps(w, es[0]);
      NumbersNeverDecrease(Step(w, es[0]), es[1..], k);
    }
  }
}
