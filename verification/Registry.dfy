/** Collapsing the registry's instances of a single-card driver into one card. */
module Registry {
  import opened Util

  datatype Entry = Entry(key: string, installed: bool, id: string)
  datatype Card = Card(entry: Entry, instances: nat)

  // ---- what a collapsed registry is ----

  predicate Has(list: seq<Entry>, key: string) {
    exists i :: 0 <= i < |list| && list[i].key == key
  }

  /** `d` gets a card of its own after `before`. */
  predicate Starts(before: seq<Entry>, d: Entry, single: set<string>) {
    d.key !in single || !Has(before, d.key)
  }

  function Firsts(list: seq<Entry>, single: set<string>): seq<Entry> {
    if list == [] then []
    else
      var n := |list| - 1;
      Firsts(list[..n], single) + if Starts(list[..n], list[n], single) then [list[n]] else []
  }

  function One(d: Entry): nat { if d.installed then 1 else 0 }

  /** How many installed entries carry this key. */
  function Installed(list: seq<Entry>, key: string): nat {
    if list == [] then 0
    else
      var d := list[|list| - 1];
      Installed(list[..|list| - 1], key) + if d.key == key then One(d) else 0
  }

  /** The first entry of the key that satisfies `wanted`. */
  function FirstOf(list: seq<Entry>, key: string, wanted: bool): (r: Option<Entry>)
    ensures r.Some? ==> r.value in list && r.value.key == key && (wanted ==> r.value.installed)
    ensures r.None? <==> forall i :: 0 <= i < |list| ==> !(list[i].key == key && (wanted ==> list[i].installed))
  {
    if list == [] then None
    else
      var n := |list| - 1;
      var before := FirstOf(list[..n], key, wanted);
      if before.None? && list[n].key == key && (wanted ==> list[n].installed) then Some(list[n]) else before
  }

  /** The entry that stands for a single-card key: its first installed one, or else its first. */
  function Face(list: seq<Entry>, key: string): Option<Entry> {
    if FirstOf(list, key, true).Some? then FirstOf(list, key, true) else FirstOf(list, key, false)
  }

  function CardOf(list: seq<Entry>, f: Entry, single: set<string>): Card {
    if f.key in single then Card(Face(list, f.key).GetOr(f), Installed(list, f.key)) else Card(f, One(f))
  }

  function Cards(list: seq<Entry>, single: set<string>): seq<Card> {
    var firsts := Firsts(list, single);
    seq(|firsts|, i requires 0 <= i < |firsts| => CardOf(list, firsts[i], single))
  }

  // ---- the two loops ----

  lemma HasSnoc(list: seq<Entry>, d: Entry)
    ensures forall key :: Has(list + [d], key) <==> Has(list, key) || d.key == key
  {
    var all := list + [d];
    assert all[|list|] == d && forall i :: 0 <= i < |list| ==> all[i] == list[i];
    forall key | Has(list, key) ensures Has(all, key) {
      var i :| 0 <= i < |list| && list[i].key == key;
      assert all[i].key == key;
    }
    forall key | Has(all, key) && d.key != key ensures Has(list, key) {
      var i :| 0 <= i < |all| && all[i].key == key;
      assert list[i].key == key;
    }
  }

  lemma Snoc(list: seq<Entry>, k: nat)
    requires k < |list|
    ensures list[..k + 1] == list[..k] + [list[k]] && list[..k + 1][..k] == list[..k]
    ensures forall key :: Has(list[..k + 1], key) <==> Has(list[..k], key) || list[k].key == key
  {
    HasSnoc(list[..k], list[k]);
    assert list[..k + 1] == list[..k] + [list[k]];
  }

  method FirstPerSingleCardKey(list: seq<Entry>, single: set<string>) returns (out: seq<Entry>)
    ensures out == Firsts(list, single)
  {
    var seen: set<string> := {};
    out := [];
    for k := 0 to |list|
      invariant out == Firsts(list[..k], single)
      invariant forall key :: key in seen <==> key in single && Has(list[..k], key)
    {
      var d := list[k];
      Snoc(list, k);
      if d.key !in single {
        out := out + [d];
      } else if d.key !in seen {
        seen := seen + {d.key};
        out := out + [d];
      }
    }
    assert list[..|list|] == list;
  }

  /** A single-card key has one card. */
  lemma {:induction false} OneCardPerKey(list: seq<Entry>, single: set<string>)
    ensures forall key :: Has(Firsts(list, single), key) <==> Has(list, key)
    ensures forall i, j :: 0 <= i < j < |Firsts(list, single)| && Firsts(list, single)[i].key in single ==>
              Firsts(list, single)[i].key != Firsts(list, single)[j].key
  {
    if list != [] {
      var n := |list| - 1;
      OneCardPerKey(list[..n], single);
      var before, d := list[..n], list[n];
      HasSnoc(before, d);
      HasSnoc(Firsts(before, single), d);
      assert before + [d] == list;
      forall key ensures Has(Firsts(list, single), key) <==> Has(list, key) {
        assert Has(list, key) <==> Has(before, key) || d.key == key;
        if Starts(before, d, single) {
          assert Firsts(list, single) == Firsts(before, single) + [d];
        } else {
          assert Firsts(list, single) == Firsts(before, single);
        }
      }
    }
  }

  /** A new entry changes no card but its own key's. */
  lemma CardFrame(list: seq<Entry>, d: Entry, f: Entry, single: set<string>)
    requires f.key !in single || f.key != d.key
    ensures CardOf(list + [d], f, single) == CardOf(list, f, single)
  {
    assert (list + [d])[..|list|] == list;
  }

  lemma NewCard(list: seq<Entry>, d: Entry, single: set<string>)
    requires Starts(list, d, single)
    ensures CardOf(list + [d], d, single) == Card(d, One(d))
  {
    assert (list + [d])[..|list|] == list;
    if d.key in single {
      NoneInstalled(list, d.key);
    }
  }

  lemma {:induction false} NoneInstalled(list: seq<Entry>, key: string)
    requires !Has(list, key)
    ensures Installed(list, key) == 0
  {
    if list != [] {
      assert forall i :: 0 <= i < |list| - 1 ==> list[..|list| - 1][i] == list[i];
      NoneInstalled(list[..|list| - 1], key);
    }
  }

  function Joined(c: Card, d: Entry): Card {
    Card(if !c.entry.installed && d.installed then d else c.entry, c.instances + One(d))
  }

  lemma JoinedCard(list: seq<Entry>, d: Entry, f: Entry, single: set<string>)
    requires d.key in single && f.key == d.key && Has(list, d.key)
    ensures CardOf(list + [d], f, single) == Joined(CardOf(list, f, single), d)
  {
    assert (list + [d])[..|list|] == list;
  }

  /** One more entry either opens a card or joins the one at `at`. */
  lemma CardsSnoc(list: seq<Entry>, d: Entry, single: set<string>, at: nat)
    requires Starts(list, d, single) || (at < |Firsts(list, single)| && Firsts(list, single)[at].key == d.key)
    ensures Starts(list, d, single) ==>
              && Firsts(list + [d], single) == Firsts(list, single) + [d]
              && Cards(list + [d], single) == Cards(list, single) + [Card(d, One(d))]
    ensures !Starts(list, d, single) ==>
              && Firsts(list + [d], single) == Firsts(list, single)
              && Cards(list + [d], single) == Cards(list, single)[at := Joined(Cards(list, single)[at], d)]
  {
    var was, now := Firsts(list, single), Firsts(list + [d], single);
    assert (list + [d])[..|list|] == list;
    forall f: Entry | f.key !in single || f.key != d.key ensures CardOf(list + [d], f, single) == CardOf(list, f, single) {
      CardFrame(list, d, f, single);
    }
    OneCardPerKey(list, single);
    if Starts(list, d, single) {
      NewCard(list, d, single);
      forall i | 0 <= i < |was| ensures CardOf(list + [d], was[i], single) == CardOf(list, was[i], single) {
        assert Has(was, was[i].key);
      }
    } else {
      JoinedCard(list, d, was[at], single);
    }
  }

  /** Where each single-card key's card is. */
  ghost predicate Indexed(list: seq<Entry>, firsts: seq<Entry>, single: set<string>, seen: map<string, nat>) {
    && (forall key :: key in seen <==> key in single && Has(list, key))
    && (forall key :: key in seen ==> seen[key] < |firsts| && firsts[seen[key]].key == key)
  }

  lemma IndexedSnoc(list: seq<Entry>, d: Entry, single: set<string>, seen: map<string, nat>)
    requires Indexed(list, Firsts(list, single), single, seen)
    ensures Starts(list, d, single) <==> !(d.key in single && d.key in seen)
    ensures Indexed(list + [d], Firsts(list + [d], single), single,
                    if d.key in single && d.key !in seen then seen[d.key := |Firsts(list, single)|] else seen)
  {
    HasSnoc(list, d);
    assert (list + [d])[..|list|] == list;
  }

  /** The loop's state after the entries of `list`. */
  ghost predicate Collapsed(list: seq<Entry>, single: set<string>, out: seq<Card>, seen: map<string, nat>) {
    out == Cards(list, single) && Indexed(list, Firsts(list, single), single, seen)
  }

  lemma CollapseNext(list: seq<Entry>, k: nat, single: set<string>, out: seq<Card>, seen: map<string, nat>)
    requires k < |list| && Collapsed(list[..k], single, out, seen)
    ensures var d := list[k];
            if d.key in single && d.key in seen
            then seen[d.key] < |out| &&
                 Collapsed(list[..k + 1], single, out[seen[d.key] := Joined(out[seen[d.key]], d)], seen)
            else Collapsed(list[..k + 1], single, out + [Card(d, One(d))],
                           if d.key in single then seen[d.key := |out|] else seen)
  {
    var d := list[k];
    assert list[..k + 1] == list[..k] + [d];
    IndexedSnoc(list[..k], d, single, seen);
    CardsSnoc(list[..k], d, single, if d.key in seen then seen[d.key] else 0);
  }

  method CollapseSingleCardKeys(list: seq<Entry>, single: set<string>) returns (out: seq<Card>)
    ensures out == Cards(list, single)
    ensures |out| == |Firsts(list, single)| && forall i :: 0 <= i < |out| ==> out[i].entry.key == Firsts(list, single)[i].key
  {
    out := [];
    var seen: map<string, nat> := map[];
    for k := 0 to |list|
      invariant Collapsed(list[..k], single, out, seen)
    {
      var d := list[k];
      var one := if d.installed then 1 else 0;
      CollapseNext(list, k, single, out, seen);
      if d.key in single && d.key in seen {
        var at := seen[d.key];
        var cur := out[at];
        out := out[at := Card(if !cur.entry.installed && d.installed then d else cur.entry, cur.instances + one)];
      } else {
        if d.key in single { seen := seen[d.key := |out|]; }
        out := out + [Card(d, one)];
      }
    }
    assert list[..|list|] == list;
  }

  // ---- what the collapse keeps ----

  function Total(cards: seq<Card>): nat {
    if cards == [] then 0 else Total(cards[..|cards| - 1]) + cards[|cards| - 1].instances
  }

  function AllInstalled(list: seq<Entry>): nat {
    if list == [] then 0 else AllInstalled(list[..|list| - 1]) + One(list[|list| - 1])
  }

  lemma {:induction false} TotalUpdate(cards: seq<Card>, at: nat, c: Card)
    requires at < |cards|
    ensures Total(cards[at := c]) + cards[at].instances == Total(cards) + c.instances
  {
    var n := |cards| - 1;
    if at < n {
      TotalUpdate(cards[..n], at, c);
      assert cards[at := c][..n] == cards[..n][at := c];
    } else {
      assert cards[at := c][..n] == cards[..n];
    }
  }

  /** The counts on the cards sum to the number of installed entries. */
  lemma {:induction false} CountsAddUp(list: seq<Entry>, single: set<string>)
    ensures Total(Cards(list, single)) == AllInstalled(list)
  {
    if list != [] {
      var n := |list| - 1;
      var before, d := list[..n], list[n];
      CountsAddUp(before, single);
      assert list == before + [d];
      OneCardPerKey(before, single);
      var at := 0;
      if !Starts(before, d, single) {
        assert Has(Firsts(before, single), d.key);
        at :| 0 <= at < |Firsts(before, single)| && Firsts(before, single)[at].key == d.key;
        TotalUpdate(Cards(before, single), at, Joined(Cards(before, single)[at], d));
      }
      CardsSnoc(before, d, single, at);
    }
  }

  lemma {:induction false} InstalledIff(list: seq<Entry>, key: string)
    ensures Installed(list, key) > 0 <==> FirstOf(list, key, true).Some?
  {
    if list != [] { InstalledIff(list[..|list| - 1], key); }
  }

  /** A card reads "installed" exactly when its count is positive. */
  lemma InstalledIffCounted(list: seq<Entry>, single: set<string>, i: nat)
    requires i < |Cards(list, single)|
    ensures Cards(list, single)[i].entry.installed <==> Cards(list, single)[i].instances > 0
  {
    var f := Firsts(list, single)[i];
    InstalledIff(list, f.key);
    OneCardPerKey(list, single);
    assert Has(Firsts(list, single), f.key);
  }

  function Entries(cards: seq<Card>): seq<Entry> {
    seq(|cards|, i requires 0 <= i < |cards| => cards[i].entry)
  }

  /** A list with at most one entry per single-card key collapses to itself. */
  lemma {:induction false} AlreadyCollapsed(list: seq<Entry>, single: set<string>)
    requires forall i, j :: 0 <= i < j < |list| && list[i].key in single ==> list[i].key != list[j].key
    ensures Entries(Cards(list, single)) == list
  {
    if list != [] {
      var n := |list| - 1;
      var before, d := list[..n], list[n];
      AlreadyCollapsed(before, single);
      assert list == before + [d];
      assert Starts(before, d, single);
      CardsSnoc(before, d, single, 0);
    }
  }

  /** Collapsing the collapsed entries again changes nothing. */
  lemma CollapseIdempotent(list: seq<Entry>, single: set<string>)
    ensures Entries(Cards(Entries(Cards(list, single)), single)) == Entries(Cards(list, single))
  {
    var entries := Entries(Cards(list, single));
    OneCardPerKey(list, single);
    forall i, j | 0 <= i < j < |entries| && entries[i].key in single ensures entries[i].key != entries[j].key {
      assert entries[i].key == Firsts(list, single)[i].key && entries[j].key == Firsts(list, single)[j].key;
    }
    AlreadyCollapsed(entries, single);
  }
}
