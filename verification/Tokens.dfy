/**
 * The cross-tab token store: one browser store shared by every tab, a cached copy in each
 * tab, storage events in flight between tabs, and an identity server that rotates the
 * refresh token on every use and revokes the session when an old one comes back.
 */
module Tokens {
  import opened Util

  /** A refresh token: which session it belongs to and how many rotations that session had seen. */
  datatype Token = Token(session: nat, number: nat)
  datatype Pair = Pair(access: string, refresh: Token)

  // ---- the store as each tab holds it ----

  /** `localStorage`, as far as one key per home is concerned. */
  class SharedStorage {
    var items: map<string, Pair>

    constructor ()
      ensures items == map[]
    {
      items := map[];
    }
  }

  class HomeTokenStore {
    const key: string
    const storage: SharedStorage
    var mem: Option<Pair>

    constructor (activeHome: string, storage: SharedStorage)
      ensures mem == None && this.storage == storage && key == "supreme.tokens." + activeHome
    {
      key := "supreme.tokens." + activeHome;
      this.storage := storage;
      mem := None;
    }

    function Tokens(): Option<Pair>
      reads this, storage
    {
      ReadTab(mem, Get(storage.items, key))
    }

    method Read() returns (t: Option<Pair>)
      ensures t == Tokens()
    {
      if mem.Some? { return mem; }
      t := Get(storage.items, key);
    }

    method Set(tokens: Option<Pair>)
      modifies this, storage
      ensures mem == tokens && Get(storage.items, key) == tokens && Tokens() == tokens
      ensures forall k :: k != key ==> Get(storage.items, k) == Get(old(storage.items), k)
    {
      mem := tokens;
      if tokens.Some? {
        storage.items := storage.items[key := tokens.value];
      } else {
        storage.items := storage.items - {key};
      }
    }

    /** The `storage` listener: another tab wrote some key. */
    method OnStorage(changed: string, newValue: Option<Pair>)
      modifies this
      ensures mem == if changed == key then newValue else old(mem)
    {
      if changed != key { return; }
      mem := newValue;
    }
  }

  // ---- every tab at once ----

  function ReadTab(mem: Option<Pair>, stored: Option<Pair>): Option<Pair> {
    if mem.Some? then mem else stored
  }

  /** A tab's refresh, if one is open: the client shares one in-flight refresh per tab. */
  datatype Exchange = Idle | Asked(token: Token) | Answered(tokens: Pair)

  /** A tab: its cached copy, the storage events it has yet to handle (oldest first), its refresh. */
  datatype Tab = Tab(mem: Option<Pair>, queue: seq<Option<Pair>>, refresh: Exchange)

  /** `current` is the one token of the session the server would rotate; `lost` is history: its answer went astray. */
  datatype Session = Session(current: nat, revoked: bool, lost: bool)

  datatype World = World(stored: Option<Pair>, tabs: seq<Tab>, sessions: seq<Session>)

  datatype Event =
    | OpenTab
    | Login(tab: nat, access: string)
    | SignOut(tab: nat)
    | StorageEvent(tab: nat)
    | Send(tab: nat)
    | Serve(tab: nat, access: string)
    | Receive(tab: nat)
    | Lose(tab: nat)

  const INIT := World(None, [], [])

  function Reads(w: World, t: nat): Option<Pair>
    requires t < |w.tabs|
  {
    ReadTab(w.tabs[t].mem, w.stored)
  }

  /** A write by tab `t`: every other tab gets an event, unless the stored value did not change. */
  function Write(w: World, t: nat, v: Option<Pair>): World
    requires t < |w.tabs|
  {
    w.(stored := v,
       tabs := seq(|w.tabs|, i requires 0 <= i < |w.tabs| =>
         if i == t then w.tabs[i].(mem := v)
         else if w.stored == v then w.tabs[i]
         else w.tabs[i].(queue := w.tabs[i].queue + [v])))
  }

  function SetRefresh(w: World, t: nat, x: Exchange): World
    requires t < |w.tabs|
  {
    w.(tabs := w.tabs[t := w.tabs[t].(refresh := x)])
  }

  function SetSession(w: World, n: nat, x: Session): World
    requires n < |w.sessions|
  {
    w.(sessions := w.sessions[n := x])
  }

  ghost predicate Enabled(w: World, e: Event) {
    e.OpenTab? ||
    (e.tab < |w.tabs| &&
      var tab := w.tabs[e.tab];
      match e
      case Login(t, a) => true
      case SignOut(t) => true
      case StorageEvent(t) => tab.queue != []
      case Send(t) => tab.refresh.Idle? && Reads(w, t).Some?
      case Serve(t, a) => tab.refresh.Asked?
      case Receive(t) => tab.refresh.Answered?
      case Lose(t) => !tab.refresh.Idle?)
  }

  function Step(w: World, e: Event): World
    requires Enabled(w, e)
  {
    match e
    case OpenTab => w.(tabs := w.tabs + [Tab(None, [], Idle)])
    case Login(t, a) =>
      Write(w, t, Some(Pair(a, Token(|w.sessions|, 0)))).(sessions := w.sessions + [Session(0, false, false)])
    case SignOut(t) => Write(w, t, None)
    case StorageEvent(t) =>
      w.(tabs := w.tabs[t := w.tabs[t].(mem := w.tabs[t].queue[0], queue := w.tabs[t].queue[1..])])
    case Send(t) => SetRefresh(w, t, Asked(Reads(w, t).value.refresh))
    case Serve(t, a) =>
      var token := w.tabs[t].refresh.token;
      var n := token.session;
      if n >= |w.sessions| || w.sessions[n].revoked then SetRefresh(w, t, Idle)
      else if w.sessions[n].current != token.number then
        SetSession(SetRefresh(w, t, Idle), n, w.sessions[n].(revoked := true))
      else
        SetSession(SetRefresh(w, t, Answered(Pair(a, Token(n, token.number + 1)))), n,
                   w.sessions[n].(current := token.number + 1))
    case Receive(t) => Write(SetRefresh(w, t, Idle), t, Some(w.tabs[t].refresh.tokens))
    case Lose(t) =>
      var x := w.tabs[t].refresh;
      if x.Answered? && x.tokens.refresh.session < |w.sessions|
      then
        var n := x.tokens.refresh.session;
        SetSession(SetRefresh(w, t, Idle), n, w.sessions[n].(lost := true))
      else SetRefresh(w, t, Idle)
  }

  // ---- the disciplines a run may keep ----

  /** No refresh is open in any tab. */
  ghost predicate Still(w: World) {
    forall t :: 0 <= t < |w.tabs| ==> w.tabs[t].refresh.Idle?
  }

  ghost predicate Writes(e: Event) {
    e.Login? || e.SignOut? || e.Receive?
  }

  /** A tab writes only once it has handled every storage event addressed to it. */
  ghost predicate Serial(w: World, e: Event)
    requires Enabled(w, e)
  {
    Writes(e) ==> w.tabs[e.tab].queue == []
  }

  /** The session a tab has a refresh open on. */
  function OpenOn(x: Exchange): Option<nat> {
    match x
    case Idle => None
    case Asked(token) => Some(token.session)
    case Answered(tokens) => Some(tokens.refresh.session)
  }

  /** An up-to-date tab starts a refresh when none is open on the session and no answer for it has gone astray. */
  ghost predicate Alone(w: World, e: Event)
    requires Enabled(w, e)
  {
    e.Send? ==>
      && w.tabs[e.tab].queue == []
      && var n := Reads(w, e.tab).value.refresh.session;
         && (n < |w.sessions| ==> !w.sessions[n].lost)
         && forall t :: 0 <= t < |w.tabs| ==> OpenOn(w.tabs[t].refresh) != Some(n)
  }

  datatype Discipline = Anything | Serialised | SerialisedAndAlone

  ghost predicate Keeps(d: Discipline, w: World, e: Event)
    requires Enabled(w, e)
  {
    (d != Anything ==> Serial(w, e)) && (d == SerialisedAndAlone ==> Alone(w, e))
  }

  ghost predicate Valid(d: Discipline, w: World, es: seq<Event>)
    decreases |es|
  {
    es == [] || (Enabled(w, es[0]) && Keeps(d, w, es[0]) && Valid(d, Step(w, es[0]), es[1..]))
  }

  function Run(d: Discipline, w: World, es: seq<Event>): World
    requires Valid(d, w, es)
    decreases |es|
  {
    if es == [] then w else Run(d, Step(w, es[0]), es[1..])
  }

  ghost predicate Reachable(d: Discipline, w: World) {
    exists es :: Valid(d, INIT, es) && Run(d, INIT, es) == w
  }

  // ---- coherence ----

  /** What a tab will read once its queue has drained. */
  function Settled(w: World, t: nat): Option<Pair>
    requires t < |w.tabs|
  {
    var tab := w.tabs[t];
    if tab.queue != [] then ReadTab(tab.queue[|tab.queue| - 1], w.stored) else Reads(w, t)
  }

  /** Every tab will read the shared store's tokens once it has handled its events. */
  ghost predicate Coherent(w: World) {
    forall t :: 0 <= t < |w.tabs| ==> Settled(w, t) == w.stored
  }

  /**
   * The exact price of a write: coherence survives it if and only if the writer has no event
   * pending, or the last one it has pending says what it writes or that the tokens are gone.
   */
  lemma WriteCoherentIff(w: World, t: nat, v: Option<Pair>)
    requires t < |w.tabs| && Coherent(w)
    ensures Coherent(Write(w, t, v)) <==>
            var q := w.tabs[t].queue; q == [] || q[|q| - 1] == v || q[|q| - 1] == None
  {
    var x := Write(w, t, v);
    assert forall i :: 0 <= i < |x.tabs| && i != t ==> Settled(w, i) == w.stored && Settled(x, i) == v;
    assert Coherent(x) <==> Settled(x, t) == v;
  }

  lemma CoherentStep(w: World, e: Event)
    requires Coherent(w) && Enabled(w, e) && Serial(w, e)
    ensures Coherent(Step(w, e))
  {
    var x := Step(w, e);
    if Writes(e) {
      var y := if e.Receive? then SetRefresh(w, e.tab, Idle) else w;
      assert forall i :: 0 <= i < |y.tabs| ==> Settled(y, i) == Settled(w, i);
      WriteCoherentIff(y, e.tab, x.stored);
      assert forall i :: 0 <= i < |x.tabs| ==> Settled(x, i) == Settled(Write(y, e.tab, x.stored), i);
    } else {
      forall i | 0 <= i < |x.tabs| ensures Settled(x, i) == x.stored {
        assert i < |w.tabs| ==> Settled(w, i) == w.stored;
      }
    }
  }
}
