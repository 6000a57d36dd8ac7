/** What single events do to tabs, store and server, and what a sign-out means for every tab. */
module TokenLaws {
  import opened Util
  import opened Tokens
  import opened TokenLedger
  import opened TokenTheorems

  /** Tab `t` and the shared store hold exactly `v`, and every other tab is told if that is news to the store. */
  ghost predicate Holds(w: World, x: World, t: nat, v: Option<Pair>)
    requires t < |w.tabs|
  {
    && |x.tabs| == |w.tabs|
    && x.stored == v && x.tabs[t].mem == v && Reads(x, t) == v && x.tabs[t].queue == w.tabs[t].queue
    && (forall u :: 0 <= u < |w.tabs| && u != t ==>
          x.tabs[u] == if w.stored == v then w.tabs[u] else w.tabs[u].(queue := w.tabs[u].queue + [v]))
  }

  /** Signing out leaves neither the tab nor the store with any tokens; the server is not asked. */
  lemma SignOutEmpties(w: World, t: nat)
    requires Enabled(w, SignOut(t))
    ensures var x := Step(w, SignOut(t));
            Holds(w, x, t, None) && x.tabs[t].refresh == w.tabs[t].refresh && x.sessions == w.sessions
  {
  }

  /** Signing in opens a session, and tab and store hold the pair that starts it. */
  lemma LoginHolds(w: World, t: nat, a: string)
    requires Enabled(w, Login(t, a))
    ensures var x := Step(w, Login(t, a));
            && Holds(w, x, t, Some(Pair(a, Token(|w.sessions|, 0)))) && x.tabs[t].refresh == w.tabs[t].refresh
            && |x.sessions| == |w.sessions| + 1 && x.sessions[..|w.sessions|] == w.sessions
            && x.sessions[|w.sessions|] == Session(0, false, false)
  {
  }

  /** An answer that comes in is what tab and store hold from then on. */
  lemma ReceiveHolds(w: World, t: nat)
    requires Enabled(w, Receive(t))
    ensures var x := Step(w, Receive(t));
            Holds(w, x, t, Some(w.tabs[t].refresh.tokens)) && x.tabs[t].refresh == Idle && x.sessions == w.sessions
  {
  }

  /** The other tabs as they were. */
  ghost predicate OthersSame(w: World, x: World, t: nat) {
    |x.tabs| == |w.tabs| && x.stored == w.stored && forall u :: 0 <= u < |w.tabs| && u != t ==> x.tabs[u] == w.tabs[u]
  }

  /** A tab handles its oldest event by taking over what it says, and asks for what it reads. */
  lemma TabMoves(w: World, t: nat)
    ensures Enabled(w, StorageEvent(t)) ==>
              var x := Step(w, StorageEvent(t));
              && OthersSame(w, x, t) && x.sessions == w.sessions
              && [x.tabs[t].mem] + x.tabs[t].queue == w.tabs[t].queue && x.tabs[t].refresh == w.tabs[t].refresh
    ensures Enabled(w, Send(t)) ==>
              var x := Step(w, Send(t));
              && OthersSame(w, x, t) && x.sessions == w.sessions
              && x.tabs[t] == w.tabs[t].(refresh := Asked(Reads(w, t).value.refresh))
  {
  }

  /** The server rotates a current token, ends the session of a rotated one, and refuses the rest. */
  lemma ServerDecides(w: World, t: nat, a: string)
    requires Enabled(w, Serve(t, a))
    ensures var x := Step(w, Serve(t, a));
            var token := w.tabs[t].refresh.token;
            var n := token.session;
            && OthersSame(w, x, t) && |x.sessions| == |w.sessions|
            && (forall m :: 0 <= m < |w.sessions| && m != n ==> x.sessions[m] == w.sessions[m])
            && (if n >= |w.sessions| || w.sessions[n].revoked then x.tabs[t].refresh == Idle && x.sessions == w.sessions
                else if token.number == w.sessions[n].current then
                  && x.tabs[t].refresh == Answered(Pair(a, Token(n, token.number + 1)))
                  && x.sessions[n] == Session(token.number + 1, false, w.sessions[n].lost)
                else x.tabs[t].refresh == Idle && x.sessions[n] == w.sessions[n].(revoked := true))
  {
  }

  // ---- signed out everywhere ----

  /** The event brings no tokens. */
  predicate BringsNone(e: Event) {
    !e.Login? && !e.Receive?
  }

  lemma {:induction false} StaysEmpty(d: Discipline, w: World, es: seq<Event>)
    requires w.stored == None && Valid(d, w, es) && forall i :: 0 <= i < |es| ==> BringsNone(es[i])
    ensures Run(d, w, es).stored == None
    decreases |es|
  {
    if es != [] {
      assert BringsNone(es[0]);
      assert Step(w, es[0]).stored == None;
      StaysEmpty(d, Step(w, es[0]), es[1..]);
    }
  }

  lemma {:induction false} RunReachable(d: Discipline, w: World, es: seq<Event>)
    requires Reachable(d, w) && Valid(d, w, es)
    ensures Reachable(d, Run(d, w, es))
    decreases |es|
  {
    if es != [] {
      Reach(d, w, es[0], Step(w, es[0]));
      RunReachable(d, Step(w, es[0]), es[1..]);
    }
  }

  /**
   * In a serialised run, once one tab has signed out, every tab that has handled its events is signed
   * out too, until somebody signs in or an answer still under way comes in.
   */
  lemma SignedOutEverywhere(d: Discipline, w: World, t: nat, es: seq<Event>, u: nat)
    requires d != Anything && Reachable(d, w) && Enabled(w, SignOut(t)) && Keeps(d, w, SignOut(t))
    requires Valid(d, Step(w, SignOut(t)), es) && forall i :: 0 <= i < |es| ==> BringsNone(es[i])
    requires var x := Run(d, Step(w, SignOut(t)), es); u < |x.tabs| && x.tabs[u].queue == []
    ensures Reads(Run(d, Step(w, SignOut(t)), es), u) == None
  {
    var x := Step(w, SignOut(t));
    SignOutEmpties(w, t);
    Reach(d, w, SignOut(t), x);
    StaysEmpty(d, x, es);
    RunReachable(d, x, es);
    UpToDateTabReadsStore(d, Run(d, x, es), u);
  }
}
