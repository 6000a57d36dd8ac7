/** What the cross-tab token store guarantees over whole runs, and what each discipline is needed for. */
module TokenTheorems {
  import opened Util
  import opened Tokens
  import opened TokenLedger

  lemma {:induction false} SerialRun(d: Discipline, w: World, es: seq<Event>)
    requires d != Anything && Coherent(w) && Ledger(w) && Valid(d, w, es)
    ensures Coherent(Run(d, w, es)) && Ledger(Run(d, w, es))
    decreases |es|
  {
    if es != [] {
      CoherentStep(w, es[0]);
      LedgerStep(w, es[0]);
      SerialRun(d, Step(w, es[0]), es[1..]);
    }
  }

  lemma SerialReachable(d: Discipline, w: World)
    requires d != Anything && Reachable(d, w)
    ensures Coherent(w) && Ledger(w)
  {
    var es :| Valid(d, INIT, es) && Run(d, INIT, es) == w;
    SerialRun(d, INIT, es);
  }

  /** In every serialised run, a tab with no event pending reads what the shared store holds. */
  lemma UpToDateTabReadsStore(d: Discipline, w: World, t: nat)
    requires d != Anything && Reachable(d, w)
    requires t < |w.tabs| && w.tabs[t].queue == []
    ensures Reads(w, t) == w.stored
  {
    SerialReachable(d, w);
    assert Settled(w, t) == w.stored;
  }

  /**
   * And what it would present is the token the server will rotate for that session, exactly when
   * no answer to a rotation of the session is still on its way or gone astray.
   */
  lemma PresentsCurrentIff(d: Discipline, w: World, t: nat)
    requires d != Anything && Reachable(d, w)
    requires t < |w.tabs| && w.tabs[t].queue == [] && Reads(w, t).Some?
    ensures var token := Reads(w, t).value.refresh;
            && token.session < |w.sessions|
            && (token.number == w.sessions[token.session].current <==> !Owed(w, token.session))
  {
    UpToDateTabReadsStore(d, w, t);
    SerialReachable(d, w);
    assert LedgerAt(w, Reads(w, t).value.refresh.session);
  }

  /** One exchange at a time on a session, its request carrying the session's current token. */
  ghost predicate OneExchange(w: World) {
    && (forall n :: 0 <= n < |w.sessions| ==> !w.sessions[n].revoked)
    && (forall t :: 0 <= t < |w.tabs| && w.tabs[t].refresh.Asked? ==> IsCurrent(w, w.tabs[t].refresh.token))
    && (forall t, u :: 0 <= t < u < |w.tabs| && OpenOn(w.tabs[t].refresh).Some? ==>
          OpenOn(w.tabs[t].refresh) != OpenOn(w.tabs[u].refresh))
  }

  predicate IsCurrent(w: World, token: Token) {
    token.session < |w.sessions| && w.sessions[token.session].current == token.number
  }

  lemma OneExchangeSend(w: World, t: nat)
    requires OneExchange(w) && Coherent(w) && Ledger(w)
    requires Enabled(w, Send(t)) && Alone(w, Send(t))
    ensures OneExchange(Step(w, Send(t)))
  {
    assert Settled(w, t) == w.stored;
    var token := Reads(w, t).value.refresh;
    assert LedgerAt(w, token.session);
    assert !Owed(w, token.session) by {
      forall u | 0 <= u < |w.tabs| ensures !AnsweredOn(w.tabs[u], token.session) {
        assert OpenOn(w.tabs[u].refresh) != Some(token.session);
      }
    }
    assert IsCurrent(w, token);
    var x := Step(w, Send(t));
    forall i, u | 0 <= i < u < |x.tabs| && OpenOn(x.tabs[i].refresh).Some?
      ensures OpenOn(x.tabs[i].refresh) != OpenOn(x.tabs[u].refresh)
    {
      assert i != t ==> x.tabs[i] == w.tabs[i];
      assert u != t ==> x.tabs[u] == w.tabs[u];
    }
  }

  lemma OneExchangeServe(w: World, t: nat, a: string)
    requires OneExchange(w) && Enabled(w, Serve(t, a))
    ensures OneExchange(Step(w, Serve(t, a)))
  {
    var x := Step(w, Serve(t, a));
    var n := w.tabs[t].refresh.token.session;
    assert IsCurrent(w, w.tabs[t].refresh.token);
    forall u | 0 <= u < |x.tabs| && x.tabs[u].refresh.Asked? ensures IsCurrent(x, x.tabs[u].refresh.token) {
      assert u != t && x.tabs[u] == w.tabs[u] && IsCurrent(w, w.tabs[u].refresh.token);
      assert if u < t then OpenOn(w.tabs[u].refresh) != OpenOn(w.tabs[t].refresh)
             else OpenOn(w.tabs[t].refresh) != OpenOn(w.tabs[u].refresh);
    }
    assert OpenOn(x.tabs[t].refresh) == OpenOn(w.tabs[t].refresh);
  }

  lemma OneExchangeStep(w: World, e: Event)
    requires OneExchange(w) && Coherent(w) && Ledger(w)
    requires Enabled(w, e) && Alone(w, e)
    ensures OneExchange(Step(w, e))
  {
    match e
    case Send(t) => OneExchangeSend(w, t);
    case Serve(t, a) => OneExchangeServe(w, t, a);
    case _ =>
      var x := Step(w, e);
      forall t | 0 <= t < |x.tabs|
        ensures OpenOn(x.tabs[t].refresh).Some? ==> t < |w.tabs| && x.tabs[t].refresh == w.tabs[t].refresh
      {
      }
      forall t | 0 <= t < |x.tabs| && x.tabs[t].refresh.Asked? ensures IsCurrent(x, x.tabs[t].refresh.token) {
        assert IsCurrent(w, w.tabs[t].refresh.token);
      }
  }

  lemma {:induction false} AloneRun(w: World, es: seq<Event>)
    requires OneExchange(w) && Coherent(w) && Ledger(w) && Valid(SerialisedAndAlone, w, es)
    ensures OneExchange(Run(SerialisedAndAlone, w, es))
    decreases |es|
  {
    if es != [] {
      CoherentStep(w, es[0]);
      LedgerStep(w, es[0]);
      OneExchangeStep(w, es[0]);
      AloneRun(Step(w, es[0]), es[1..]);
    }
  }

  /** Refreshing a session once at a time, the server only ever sees current tokens and never revokes a session. */
  lemma NeverRevoked(w: World)
    requires Reachable(SerialisedAndAlone, w)
    ensures forall n :: 0 <= n < |w.sessions| ==> !w.sessions[n].revoked
    ensures forall t :: 0 <= t < |w.tabs| && w.tabs[t].refresh.Asked? ==> IsCurrent(w, w.tabs[t].refresh.token)
  {
    var es :| Valid(SerialisedAndAlone, INIT, es) && Run(SerialisedAndAlone, INIT, es) == w;
    AloneRun(INIT, es);
  }

  // ---- each discipline is needed ----

  lemma {:induction false} RunSnoc(d: Discipline, w: World, es: seq<Event>, e: Event)
    requires Valid(d, w, es) && Enabled(Run(d, w, es), e) && Keeps(d, Run(d, w, es), e)
    ensures Valid(d, w, es + [e]) && Run(d, w, es + [e]) == Step(Run(d, w, es), e)
    decreases |es|
  {
    if es == [] {
      assert es + [e] == [e] && [e][1..] == [];
      assert Valid(d, Step(w, e), []);
    } else {
      assert (es + [e])[1..] == es[1..] + [e];
      RunSnoc(d, Step(w, es[0]), es[1..], e);
    }
  }

  lemma Reach(d: Discipline, w: World, e: Event, v: World)
    requires Reachable(d, w) && Enabled(w, e) && Keeps(d, w, e) && v == Step(w, e)
    ensures Reachable(d, v)
  {
    var es :| Valid(d, INIT, es) && Run(d, INIT, es) == w;
    RunSnoc(d, INIT, es, e);
  }

  const FIRST := Pair("a", Token(0, 0))
  const SECOND := Pair("b", Token(0, 1))

  /** Two tabs, one of which has signed in; the other has not yet heard. */
  const SIGNED_IN := World(
    Some(FIRST), [Tab(Some(FIRST), [], Idle), Tab(None, [Some(FIRST)], Idle)], [Session(0, false, false)])

  lemma SignedInReachable(d: Discipline)
    ensures Reachable(d, SIGNED_IN)
  {
    assert Valid(d, INIT, []) && Run(d, INIT, []) == INIT;
    var w1 := INIT.(tabs := [Tab(None, [], Idle)]);
    assert INIT.tabs + [Tab(None, [], Idle)] == w1.tabs;
    Reach(d, INIT, OpenTab, w1);
    var w2 := INIT.(tabs := [Tab(None, [], Idle), Tab(None, [], Idle)]);
    assert w1.tabs + [Tab(None, [], Idle)] == w2.tabs;
    Reach(d, w1, OpenTab, w2);
    WriteTwo(w2, 0, Some(FIRST));
    assert w2.tabs[1].queue + [Some(FIRST)] == [Some(FIRST)];
    assert w2.sessions + [Session(0, false, false)] == SIGNED_IN.sessions;
    Reach(d, w2, Login(0, "a"), SIGNED_IN);
  }

  /** A changing write with two tabs open. */
  lemma WriteTwo(w: World, t: nat, v: Option<Pair>)
    requires |w.tabs| == 2 && t < 2 && w.stored != v
    ensures var mine, other := w.tabs[t].(mem := v), w.tabs[1 - t].(queue := w.tabs[1 - t].queue + [v]);
            Write(w, t, v) == w.(stored := v, tabs := if t == 0 then [mine, other] else [other, mine])
  {
  }

  /**
   * A tab that writes with an event pending is overwritten by that late event, and its next
   * refresh, alone on the wire, revokes the session.
   */
  lemma LateEventRevokes()
    ensures exists w :: Reachable(Anything, w) && w.sessions == [Session(1, true, false)] && Still(w)
  {
    SignedInReachable(Anything);
    var first, heard := SIGNED_IN.tabs[0], Tab(Some(FIRST), [Some(SECOND)], Idle);
    var w1 := SIGNED_IN.(tabs := [first, Tab(None, [Some(FIRST)], Asked(Token(0, 0)))]);
    Reach(Anything, SIGNED_IN, Send(1), w1);
    var w2 := World(Some(FIRST), [first, Tab(None, [Some(FIRST)], Answered(SECOND))], [Session(1, false, false)]);
    Reach(Anything, w1, Serve(1, "b"), w2);
    var y := w2.(tabs := [first, Tab(None, [Some(FIRST)], Idle)]);
    assert SetRefresh(w2, 1, Idle) == y;
    WriteTwo(y, 1, Some(SECOND));
    assert y.tabs[0].queue + [Some(SECOND)] == heard.queue;
    var w3 := World(Some(SECOND), [heard, Tab(Some(SECOND), [Some(FIRST)], Idle)], w2.sessions);
    Reach(Anything, w2, Receive(1), w3);
    var w4 := w3.(tabs := [heard, Tab(Some(FIRST), [], Idle)]);
    assert w3.tabs[1].queue[1..] == [];
    Reach(Anything, w3, StorageEvent(1), w4);
    var w5 := w4.(tabs := [heard, Tab(Some(FIRST), [], Asked(Token(0, 0)))]);
    Reach(Anything, w4, Send(1), w5);
    var w6 := w4.(sessions := [Session(1, true, false)]);
    Reach(Anything, w5, Serve(1, "c"), w6);
    assert Reachable(Anything, w6) && Still(w6);
  }

  /** Two up-to-date tabs refreshing at the same time revoke the session as well. */
  lemma OverlapRevokes()
    ensures exists w :: Reachable(Serialised, w) && w.sessions == [Session(1, true, false)]
  {
    SignedInReachable(Serialised);
    var idle, asked := Tab(Some(FIRST), [], Idle), Tab(Some(FIRST), [], Asked(Token(0, 0)));
    var w1 := SIGNED_IN.(tabs := [idle, idle]);
    assert SIGNED_IN.tabs[1].queue[1..] == [];
    Reach(Serialised, SIGNED_IN, StorageEvent(1), w1);
    var w2 := w1.(tabs := [asked, idle]);
    Reach(Serialised, w1, Send(0), w2);
    var w3 := w1.(tabs := [asked, asked]);
    Reach(Serialised, w2, Send(1), w3);
    var answered := Tab(Some(FIRST), [], Answered(SECOND));
    var w4 := w1.(tabs := [answered, asked], sessions := [Session(1, false, false)]);
    Reach(Serialised, w3, Serve(0, "b"), w4);
    var w5 := w4.(tabs := [answered, idle], sessions := [Session(1, true, false)]);
    Reach(Serialised, w4, Serve(1, "c"), w5);
    assert Reachable(Serialised, w5);
  }

  /** So does one tab alone whose answer was lost: it can only present the rotated token again. */
  lemma LostAnswerRevokes()
    ensures exists w :: Reachable(Serialised, w) && w.sessions == [Session(1, true, true)] && Still(w)
  {
    SignedInReachable(Serialised);
    var other := SIGNED_IN.tabs[1];
    var asked := Tab(Some(FIRST), [], Asked(Token(0, 0)));
    var w1 := SIGNED_IN.(tabs := [asked, other]);
    Reach(Serialised, SIGNED_IN, Send(0), w1);
    var w2 := w1.(tabs := [Tab(Some(FIRST), [], Answered(SECOND)), other], sessions := [Session(1, false, false)]);
    Reach(Serialised, w1, Serve(0, "b"), w2);
    var w3 := w2.(tabs := SIGNED_IN.tabs, sessions := [Session(1, false, true)]);
    Reach(Serialised, w2, Lose(0), w3);
    var w4 := w3.(tabs := [asked, other]);
    Reach(Serialised, w3, Send(0), w4);
    var w5 := w3.(sessions := [Session(1, true, true)]);
    Reach(Serialised, w4, Serve(0, "c"), w5);
    assert Reachable(Serialised, w5) && Still(w5);
  }
}
