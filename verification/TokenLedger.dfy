/** What every event keeps of the tokens in circulation, session by session. */
module TokenLedger {
  import opened Util
  import opened Tokens

  predicate AnsweredOn(tab: Tab, n: nat) {
    tab.refresh.Answered? && tab.refresh.tokens.refresh.session == n
  }

  /** The answer to the session's last rotation has not come in, or never will. */
  ghost predicate Owed(w: World, n: nat)
    requires n < |w.sessions|
  {
    w.sessions[n].lost || exists t :: 0 <= t < |w.tabs| && AnsweredOn(w.tabs[t], n)
  }

  /** Tokens of session `n` are numbered `most` at most. */
  predicate AtMost(token: Token, n: nat, most: int) {
    token.session == n ==> token.number <= most
  }

  ghost predicate TabAtMost(tab: Tab, n: nat, most: int) {
    && (tab.mem.Some? ==> AtMost(tab.mem.value.refresh, n, most))
    && (forall j :: 0 <= j < |tab.queue| && tab.queue[j].Some? ==> AtMost(tab.queue[j].value.refresh, n, most))
    && (tab.refresh.Asked? ==> AtMost(tab.refresh.token, n, most))
  }

  /** No token of session `n` held in the store, a tab, an event or a request is newer. */
  ghost predicate HeldAtMost(w: World, n: nat, most: int) {
    && (w.stored.Some? ==> AtMost(w.stored.value.refresh, n, most))
    && (forall t :: 0 <= t < |w.tabs| ==> TabAtMost(w.tabs[t], n, most))
  }

  /** At most one answer is out for session `n`, and it holds the current token. */
  ghost predicate AnswersOk(w: World, n: nat)
    requires n < |w.sessions|
  {
    && (forall t :: 0 <= t < |w.tabs| && AnsweredOn(w.tabs[t], n) ==>
          w.tabs[t].refresh.tokens.refresh.number == w.sessions[n].current && !w.sessions[n].lost)
    && (forall t, u :: 0 <= t < u < |w.tabs| ==> !(AnsweredOn(w.tabs[t], n) && AnsweredOn(w.tabs[u], n)))
  }

  ghost function Newest(w: World, n: nat): int
    requires n < |w.sessions|
  {
    if Owed(w, n) then w.sessions[n].current - 1 else w.sessions[n].current
  }

  /** While an answer is owed nobody holds the session's current token; otherwise a store on that session does. */
  ghost predicate LedgerAt(w: World, n: nat)
    requires n < |w.sessions|
  {
    && AnswersOk(w, n)
    && HeldAtMost(w, n, Newest(w, n))
    && (!Owed(w, n) && w.stored.Some? && w.stored.value.refresh.session == n ==>
          w.stored.value.refresh.number == w.sessions[n].current)
  }

  /** Only sessions that have been opened are ever spoken of. */
  ghost predicate Known(w: World) {
    && (w.stored.Some? ==> w.stored.value.refresh.session < |w.sessions|)
    && (forall t :: 0 <= t < |w.tabs| ==> TabKnown(w.tabs[t], |w.sessions|))
  }

  ghost predicate TabKnown(tab: Tab, count: nat) {
    && (tab.mem.Some? ==> tab.mem.value.refresh.session < count)
    && (forall j :: 0 <= j < |tab.queue| && tab.queue[j].Some? ==> tab.queue[j].value.refresh.session < count)
    && (OpenOn(tab.refresh).Some? ==> OpenOn(tab.refresh).value < count)
  }

  ghost predicate Ledger(w: World) {
    Known(w) && forall n :: 0 <= n < |w.sessions| ==> LedgerAt(w, n)
  }

  lemma OwedSame(w: World, x: World, n: nat)
    requires n < |w.sessions| && n < |x.sessions| && x.sessions[n].lost == w.sessions[n].lost && |w.tabs| <= |x.tabs|
    requires forall t :: 0 <= t < |x.tabs| ==>
               (AnsweredOn(x.tabs[t], n) <==> t < |w.tabs| && AnsweredOn(w.tabs[t], n))
    ensures Owed(x, n) <==> Owed(w, n)
  {
    if exists t :: 0 <= t < |w.tabs| && AnsweredOn(w.tabs[t], n) {
      var t :| 0 <= t < |w.tabs| && AnsweredOn(w.tabs[t], n);
      assert AnsweredOn(x.tabs[t], n);
    }
  }

  lemma WriteHeld(w: World, t: nat, v: Option<Pair>, n: nat, most: int)
    requires t < |w.tabs| && n < |w.sessions| && HeldAtMost(w, n, most)
    requires v.Some? ==> AtMost(v.value.refresh, n, most)
    ensures HeldAtMost(Write(w, t, v), n, most)
    ensures Owed(Write(w, t, v), n) <==> Owed(w, n)
    ensures AnswersOk(Write(w, t, v), n) <==> AnswersOk(w, n)
  {
    var x := Write(w, t, v);
    assert forall i :: 0 <= i < |w.tabs| ==> x.tabs[i].refresh == w.tabs[i].refresh;
    OwedSame(w, x, n);
  }

  lemma WriteKnown(w: World, t: nat, v: Option<Pair>)
    requires t < |w.tabs| && Known(w) && (v.Some? ==> v.value.refresh.session < |w.sessions|)
    ensures Known(Write(w, t, v))
  {
  }

  lemma KnownMore(w: World, x: World)
    requires Known(w) && x.stored == w.stored && x.tabs == w.tabs && |w.sessions| <= |x.sessions|
    ensures Known(x)
  {
  }

  /** A step of one tab that leaves the store and the number of sessions alone. */
  ghost predicate OnlyTab(w: World, x: World, t: nat) {
    && x.stored == w.stored && |x.sessions| == |w.sessions| && |x.tabs| == |w.tabs| && t < |w.tabs|
    && forall i :: 0 <= i < |w.tabs| && i != t ==> x.tabs[i] == w.tabs[i]
  }

  lemma KnownTab(w: World, x: World, t: nat)
    requires Known(w) && OnlyTab(w, x, t) && TabKnown(x.tabs[t], |w.sessions|)
    ensures Known(x)
  {
  }

  lemma HeldTab(w: World, x: World, t: nat, n: nat, most: int)
    requires HeldAtMost(w, n, most) && OnlyTab(w, x, t) && TabAtMost(x.tabs[t], n, most)
    ensures HeldAtMost(x, n, most)
  {
  }

  /** A tab that holds no answer for the session any more. */
  lemma AnswersFewer(w: World, x: World, t: nat, n: nat)
    requires n < |w.sessions| && AnswersOk(w, n) && OnlyTab(w, x, t)
    requires x.sessions[n].current == w.sessions[n].current
    requires x.sessions[n].lost == w.sessions[n].lost || AnsweredOn(w.tabs[t], n)
    requires !AnsweredOn(x.tabs[t], n)
    ensures AnswersOk(x, n)
    ensures AnsweredOn(w.tabs[t], n) ==> Owed(w, n) && (Owed(x, n) <==> x.sessions[n].lost)
    ensures !AnsweredOn(w.tabs[t], n) ==> (Owed(x, n) <==> Owed(w, n))
  {
    if AnsweredOn(w.tabs[t], n) {
      assert forall u :: 0 <= u < |w.tabs| && u != t ==> !AnsweredOn(w.tabs[u], n);
    } else {
      OwedSame(w, x, n);
    }
  }

  lemma KnownStep(w: World, e: Event)
    requires Known(w) && Enabled(w, e)
    ensures Known(Step(w, e))
  {
    match e
    case OpenTab => assert TabKnown(Tab(None, [], Idle), |w.sessions|);
    case Login(t, a) =>
      var y := w.(sessions := w.sessions + [Session(0, false, false)]);
      KnownMore(w, y);
      WriteKnown(y, t, Some(Pair(a, Token(|w.sessions|, 0))));
    case SignOut(t) => WriteKnown(w, t, None);
    case Receive(t) =>
      assert TabKnown(w.tabs[t], |w.sessions|);
      KnownTab(w, SetRefresh(w, t, Idle), t);
      WriteKnown(SetRefresh(w, t, Idle), t, Some(w.tabs[t].refresh.tokens));
    case _ =>
      assert TabKnown(w.tabs[e.tab], |w.sessions|);
      KnownTab(w, Step(w, e), e.tab);
  }

  /** A rotation: the session's next number, held by nobody but the answer. */
  lemma LedgerRotate(w: World, t: nat, a: string, n: nat)
    requires Ledger(w) && Enabled(w, Serve(t, a)) && n < |w.sessions|
    requires w.tabs[t].refresh.token == Token(n, w.sessions[n].current) && !w.sessions[n].revoked
    ensures LedgerAt(Step(w, Serve(t, a)), n)
  {
    var x := Step(w, Serve(t, a));
    assert LedgerAt(w, n) && TabAtMost(w.tabs[t], n, Newest(w, n));
    assert !Owed(w, n);
    assert AnsweredOn(x.tabs[t], n);
    HeldTab(w, x, t, n, w.sessions[n].current);
  }

  /** For any other session, and when nothing is rotated, the request is merely gone. */
  lemma LedgerSpent(w: World, t: nat, a: string, n: nat)
    requires Ledger(w) && Enabled(w, Serve(t, a)) && n < |w.sessions|
    requires w.tabs[t].refresh.token != Token(n, w.sessions[n].current) || w.sessions[n].revoked
    ensures LedgerAt(Step(w, Serve(t, a)), n)
  {
    var x := Step(w, Serve(t, a));
    assert LedgerAt(w, n) && TabAtMost(w.tabs[t], n, Newest(w, n));
    AnswersFewer(w, x, t, n);
    HeldTab(w, x, t, n, Newest(w, n));
  }

  lemma LedgerServe(w: World, t: nat, a: string, n: nat)
    requires Ledger(w) && Enabled(w, Serve(t, a)) && n < |w.sessions|
    ensures LedgerAt(Step(w, Serve(t, a)), n)
  {
    if w.tabs[t].refresh.token == Token(n, w.sessions[n].current) && !w.sessions[n].revoked {
      LedgerRotate(w, t, a, n);
    } else {
      LedgerSpent(w, t, a, n);
    }
  }

  lemma LedgerReceive(w: World, t: nat, n: nat)
    requires Ledger(w) && Enabled(w, Receive(t)) && n < |w.sessions|
    ensures LedgerAt(Step(w, Receive(t)), n)
  {
    var y := SetRefresh(w, t, Idle);
    assert LedgerAt(w, n);
    AnswersFewer(w, y, t, n);
    assert TabAtMost(w.tabs[t], n, Newest(w, n));
    HeldTab(w, y, t, n, Newest(w, n));
    HeldMore(y, n, Newest(w, n), Newest(y, n));
    WriteHeld(y, t, Some(w.tabs[t].refresh.tokens), n, Newest(y, n));
  }

  lemma HeldMore(w: World, n: nat, low: int, high: int)
    requires HeldAtMost(w, n, low) && low <= high
    ensures HeldAtMost(w, n, high)
  {
    forall t | 0 <= t < |w.tabs| ensures TabAtMost(w.tabs[t], n, high) {
      assert TabAtMost(w.tabs[t], n, low);
    }
  }

  /** A new session starts with nobody else speaking of it, and touches no other. */
  lemma LedgerLogin(w: World, t: nat, a: string, n: nat)
    requires Ledger(w) && Enabled(w, Login(t, a)) && n <= |w.sessions|
    ensures LedgerAt(Step(w, Login(t, a)), n)
  {
    var y := w.(sessions := w.sessions + [Session(0, false, false)]);
    var v := Some(Pair(a, Token(|w.sessions|, 0)));
    if n < |w.sessions| {
      assert LedgerAt(w, n);
      OwedSame(w, y, n);
      WriteHeld(y, t, v, n, Newest(y, n));
    } else {
      NoneYet(w, y);
      WriteHeld(y, t, v, n, 0);
    }
  }

  lemma NoneYet(w: World, y: World)
    requires Known(w) && y == w.(sessions := w.sessions + [Session(0, false, false)])
    ensures HeldAtMost(y, |w.sessions|, 0) && AnswersOk(y, |w.sessions|) && !Owed(y, |w.sessions|)
  {
    forall t | 0 <= t < |y.tabs|
      ensures TabAtMost(y.tabs[t], |w.sessions|, 0) && !AnsweredOn(y.tabs[t], |w.sessions|)
    {
      assert TabKnown(w.tabs[t], |w.sessions|);
    }
  }

  lemma LedgerSignOut(w: World, t: nat, n: nat)
    requires Ledger(w) && Enabled(w, SignOut(t)) && n < |w.sessions|
    ensures LedgerAt(Step(w, SignOut(t)), n)
  {
    assert LedgerAt(w, n);
    WriteHeld(w, t, None, n, Newest(w, n));
  }

  lemma LedgerEvent(w: World, t: nat, n: nat)
    requires Ledger(w) && Enabled(w, StorageEvent(t)) && n < |w.sessions|
    ensures LedgerAt(Step(w, StorageEvent(t)), n)
  {
    var x := Step(w, StorageEvent(t));
    assert LedgerAt(w, n) && TabAtMost(w.tabs[t], n, Newest(w, n));
    assert TabAtMost(x.tabs[t], n, Newest(w, n));
    HeldTab(w, x, t, n, Newest(w, n));
    OwedSame(w, x, n);
  }

  lemma LedgerSend(w: World, t: nat, n: nat)
    requires Ledger(w) && Enabled(w, Send(t)) && n < |w.sessions|
    ensures LedgerAt(Step(w, Send(t)), n)
  {
    var x := Step(w, Send(t));
    assert LedgerAt(w, n) && TabAtMost(w.tabs[t], n, Newest(w, n));
    HeldTab(w, x, t, n, Newest(w, n));
    AnswersFewer(w, x, t, n);
  }

  lemma LedgerLose(w: World, t: nat, n: nat)
    requires Ledger(w) && Enabled(w, Lose(t)) && n < |w.sessions|
    ensures LedgerAt(Step(w, Lose(t)), n)
  {
    var x := Step(w, Lose(t));
    assert TabKnown(w.tabs[t], |w.sessions|);
    assert LedgerAt(w, n) && TabAtMost(w.tabs[t], n, Newest(w, n));
    AnswersFewer(w, x, t, n);
    HeldTab(w, x, t, n, Newest(w, n));
  }

  lemma LedgerOpenTab(w: World, n: nat)
    requires Ledger(w) && n < |w.sessions|
    ensures LedgerAt(Step(w, OpenTab), n)
  {
    assert LedgerAt(w, n);
    OwedSame(w, Step(w, OpenTab), n);
  }

  lemma LedgerStep(w: World, e: Event)
    requires Ledger(w) && Enabled(w, e)
    ensures Ledger(Step(w, e))
  {
    KnownStep(w, e);
    forall n | 0 <= n < |Step(w, e).sessions| ensures LedgerAt(Step(w, e), n) {
      match e
      case Login(t, a) => LedgerLogin(w, t, a, n);
      case Serve(t, a) => LedgerServe(w, t, a, n);
      case Receive(t) => LedgerReceive(w, t, n);
      case SignOut(t) => LedgerSignOut(w, t, n);
      case OpenTab => LedgerOpenTab(w, n);
      case Lose(t) => LedgerLose(w, t, n);
      case StorageEvent(t) => LedgerEvent(w, t, n);
      case Send(t) => LedgerSend(w, t, n);
    }
  }
}
