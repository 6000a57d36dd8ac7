/** Frames alone: order and repetition do not matter. */
module LiveFrames {
  import opened Util
  import opened LiveClient
  import opened LiveWorld

  /** One frame handed to the client, and the clock when it was. */
  datatype Arrival = Arrival(frame: Frame, now: int)

  function ApplyAll(c: Client, arrivals: seq<Arrival>): Client {
    if arrivals == [] then c
    else
      var n := |arrivals| - 1;
      var a := arrivals[n];
      ApplyState(ApplyAll(c, arrivals[..n]), a.frame.key, a.frame.value, Some(a.frame.seqNo), a.now)
  }

  ghost predicate Carries(arrivals: seq<Arrival>, f: Frame) {
    exists i :: 0 <= i < |arrivals| && arrivals[i].frame == f
  }

  /** The hub never numbers two different changes of a key alike. */
  ghost predicate OneValuePerNumber(arrivals: seq<Arrival>) {
    forall f, g :: Carries(arrivals, f) && Carries(arrivals, g) && f.key == g.key && f.seqNo == g.seqNo
      ==> f.value == g.value
  }

  ghost predicate Untouched(c: Client, r: Client, k: Key) {
    Get(r.states, k) == Get(c.states, k) && Get(r.lastSeq, Name(k)) == Get(c.lastSeq, Name(k))
  }

  ghost predicate ShowsFrame(r: Client, f: Frame) {
    Get(r.states, f.key) == Some(f.value) && Get(r.lastSeq, Name(f.key)) == Some(f.seqNo)
  }

  lemma CarriesLast(arrivals: seq<Arrival>, f: Frame)
    requires arrivals != []
    ensures Carries(arrivals, f) <==>
            Carries(arrivals[..|arrivals| - 1], f) || f == arrivals[|arrivals| - 1].frame
  {
    var n := |arrivals| - 1;
    if Carries(arrivals, f) {
      var i :| 0 <= i < |arrivals| && arrivals[i].frame == f;
      assert i < n ==> arrivals[..n][i].frame == f;
    }
    if Carries(arrivals[..n], f) {
      var i :| 0 <= i < n && arrivals[..n][i].frame == f;
      assert arrivals[i].frame == f;
    }
  }

  /** One arrival, seen from one key. */
  lemma ArrivalAt(c: Client, g: Frame, now: int, k: Key)
    ensures var r := ApplyState(c, g.key, g.value, Some(g.seqNo), now);
            if g.key == k && LastSeq(c, k) <= g.seqNo then ShowsFrame(r, g) else Untouched(c, r, k)
  {
    NamesDistinct();
  }

  /** `k` shows the highest-numbered frame for it, or what `c` showed when all are numbered below what `c` had applied. */
  ghost predicate Wins(c: Client, r: Client, arrivals: seq<Arrival>, k: Key) {
    && LastSeq(c, k) <= LastSeq(r, k)
    && (forall f :: Carries(arrivals, f) && f.key == k ==> f.seqNo <= LastSeq(r, k))
    && (|| (Untouched(c, r, k) && forall f :: Carries(arrivals, f) && f.key == k ==> f.seqNo < LastSeq(c, k))
        || exists f :: Carries(arrivals, f) && f.key == k && ShowsFrame(r, f))
  }

  /** After any arrivals each key shows its highest-numbered frame, and its number has not gone down. */
  lemma {:induction false} HighestWins(c: Client, arrivals: seq<Arrival>, k: Key)
    ensures Wins(c, ApplyAll(c, arrivals), arrivals, k)
  {
    if arrivals != [] {
      var n := |arrivals| - 1;
      var before, g := arrivals[..n], arrivals[n].frame;
      var m, r := ApplyAll(c, before), ApplyAll(c, arrivals);
      HighestWins(c, before, k);
      ArrivalAt(m, g, arrivals[n].now, k);
      forall f ensures Carries(arrivals, f) <==> Carries(before, f) || f == g {
        CarriesLast(arrivals, f);
      }
      if g.key == k && LastSeq(m, k) <= g.seqNo {
        assert Carries(arrivals, g) && ShowsFrame(r, g);
      } else {
        assert LastSeq(r, k) == LastSeq(m, k);
        if !Untouched(c, m, k) {
          var f :| Carries(before, f) && f.key == k && ShowsFrame(m, f);
          assert Carries(arrivals, f) && ShowsFrame(r, f);
        }
      }
    }
  }

  lemma SameWinner(c: Client, r: Client, s: Client, one: seq<Arrival>, other: seq<Arrival>, k: Key)
    requires forall f :: Carries(one, f) <==> Carries(other, f)
    requires OneValuePerNumber(one)
    requires Wins(c, r, one, k) && Wins(c, s, other, k)
    ensures Untouched(r, s, k)
  {
    if !(Untouched(c, r, k) && Untouched(c, s, k)) {
      var f :| Carries(one, f) && f.key == k && ShowsFrame(r, f);
      var g :| Carries(other, g) && g.key == k && ShowsFrame(s, g);
      assert f.seqNo <= LastSeq(s, k) && g.seqNo <= LastSeq(r, k);
    }
  }

  /** Any two deliveries of the same frames, in any order and with any repetition, end alike. */
  lemma Confluence(c: Client, one: seq<Arrival>, other: seq<Arrival>)
    requires forall f :: Carries(one, f) <==> Carries(other, f)
    requires OneValuePerNumber(one)
    ensures ApplyAll(c, one).states == ApplyAll(c, other).states
    ensures forall k :: Get(ApplyAll(c, one).lastSeq, Name(k)) == Get(ApplyAll(c, other).lastSeq, Name(k))
  {
    forall k ensures Untouched(ApplyAll(c, one), ApplyAll(c, other), k) {
      HighestWins(c, one, k);
      HighestWins(c, other, k);
      SameWinner(c, ApplyAll(c, one), ApplyAll(c, other), one, other, k);
    }
    SameStates(ApplyAll(c, one), ApplyAll(c, other));
  }

  lemma SameStates(r: Client, s: Client)
    requires forall k :: Untouched(r, s, k)
    ensures r.states == s.states
    ensures forall k :: Get(r.lastSeq, Name(k)) == Get(s.lastSeq, Name(k))
  {
    forall k ensures (k in r.states <==> k in s.states) && (k in r.states ==> r.states[k] == s.states[k]) {
      assert Untouched(r, s, k);
    }
    forall k ensures Get(r.lastSeq, Name(k)) == Get(s.lastSeq, Name(k)) { assert Untouched(r, s, k); }
  }
}
