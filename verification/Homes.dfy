/** The registry of homes, and which of them is active. */
module Homes {
  import opened Util

  datatype Home = Home(id: string, name: string, baseUrl: string)

  function Drop(homes: seq<Home>, p: Home -> bool): (r: seq<Home>)
    ensures forall h :: h in r <==> h in homes && !p(h)
    ensures |r| <= |homes|
  {
    if homes == [] then []
    else
      var n := |homes| - 1;
      assert homes == homes[..n] + [homes[n]];
      Drop(homes[..n], p) + if p(homes[n]) then [] else [homes[n]]
  }

  /** `at` says where the kept homes stood: in order, and all of them. */
  ghost predicate KeptAt(homes: seq<Home>, p: Home -> bool, r: seq<Home>, at: seq<nat>) {
    && |at| == |r|
    && (forall i :: 0 <= i < |at| ==> at[i] < |homes| && homes[at[i]] == r[i])
    && (forall i, j :: 0 <= i < j < |at| ==> at[i] < at[j])
    && (forall n: nat :: n < |homes| ==> (n in at <==> !p(homes[n])))
  }

  lemma KeptOne(homes: seq<Home>, h: Home, p: Home -> bool, r: seq<Home>, at: seq<nat>)
    requires KeptAt(homes, p, r, at) && !p(h)
    ensures KeptAt(homes + [h], p, r + [h], at + [|homes|])
  {
    var now := at + [|homes|];
    assert forall i :: 0 <= i < |at| ==> now[i] == at[i] && at[i] < |homes|;
    forall n: nat | n < |homes| + 1 ensures n in now <==> !p((homes + [h])[n]) {
      assert n in now <==> n in at || n == |homes|;
    }
  }

  lemma KeptNone(homes: seq<Home>, h: Home, p: Home -> bool, r: seq<Home>, at: seq<nat>)
    requires KeptAt(homes, p, r, at) && p(h)
    ensures KeptAt(homes + [h], p, r, at)
  {
    forall n: nat | n < |homes| + 1 ensures n in at <==> !p((homes + [h])[n]) {
      assert n in at ==> n < |homes|;
    }
  }

  /** Dropping keeps the order and the number of the rest. */
  lemma {:induction false} DropKeepsPlaces(homes: seq<Home>, p: Home -> bool) returns (at: seq<nat>)
    ensures KeptAt(homes, p, Drop(homes, p), at)
  {
    if homes == [] {
      at := [];
    } else {
      var n := |homes| - 1;
      at := DropKeepsPlaces(homes[..n], p);
      assert homes == homes[..n] + [homes[n]];
      if p(homes[n]) {
        KeptNone(homes[..n], homes[n], p, Drop(homes[..n], p), at);
      } else {
        KeptOne(homes[..n], homes[n], p, Drop(homes[..n], p), at);
        at := at + [n];
      }
    }
  }

  function AtUrl(url: string): Home -> bool { (h: Home) => h.baseUrl == url }
  function Named(id: string): Home -> bool { (h: Home) => h.id == id }

  predicate HasId(homes: seq<Home>, id: string) {
    exists i :: 0 <= i < |homes| && homes[i].id == id
  }

  /** No hub is registered twice. */
  ghost predicate OnePerHub(homes: seq<Home>) {
    forall i, j :: 0 <= i < j < |homes| ==> homes[i].baseUrl != homes[j].baseUrl
  }

  /** The stored choice if it is still registered, else the first home. */
  function ActiveOf(homes: seq<Home>, choice: Option<string>): (id: string)
    requires homes != []
    ensures HasId(homes, id)
  {
    if choice.GetOr("") != "" && HasId(homes, choice.value) then choice.value
    else
      assert homes[0].id == homes[0].id;
      homes[0].id
  }

  function Seeded(stored: seq<Home>, seed: Home): (homes: seq<Home>)
    ensures homes != []
  {
    if stored != [] then stored else [seed]
  }

  /** The stored list and the stored choice. */
  datatype Reg = Reg(homes: seq<Home>, choice: Option<string>)

  function AddTo(r: Reg, name: string, url: string, idOf: string -> string): Reg {
    r.(homes := Added(r.homes, name, url, idOf))
  }

  /** The one home left cannot be removed; the choice then moves to it if it is the active one. */
  predicate Refused(r: Reg, id: string)
    requires r.homes != []
  {
    HasId(Removed(r.homes, id), id) && ActiveOf(Removed(r.homes, id), r.choice) == id
  }

  function RemoveFrom(r: Reg, id: string): Reg
    requires r.homes != []
  {
    var left := Removed(r.homes, id);
    Reg(left, if Refused(r, id) then Some(left[0].id) else r.choice)
  }

  /** Addresses arrive normalised; `idOf` is the hash an id is made from. */
  class Registry {
    const seed: Home
    const idOf: string -> string
    var stored: seq<Home>
    var choice: Option<string>

    constructor (seed: Home, idOf: string -> string)
      ensures this.seed == seed && this.idOf == idOf && stored == [] && choice == None
    {
      this.seed, this.idOf := seed, idOf;
      stored, choice := [], None;
    }

    function Homes(): seq<Home>
      reads this
    {
      Seeded(stored, seed)
    }

    function R(): Reg
      reads this
    {
      Reg(Homes(), choice)
    }

    method LoadHomes() returns (homes: seq<Home>)
      modifies this`stored
      ensures homes == Homes() == old(Homes()) && stored == homes
    {
      if |stored| > 0 { return stored; }
      stored := [seed];
      homes := stored;
    }

    method ActiveHomeId() returns (id: string)
      modifies this`stored
      ensures stored == Homes() == old(Homes()) && id == ActiveOf(Homes(), choice)
      ensures id == if choice.Some? && choice.value != "" && HasId(stored, choice.value) then choice.value else stored[0].id
    {
      var homes := LoadHomes();
      if choice.GetOr("") != "" && HasId(homes, choice.value) { return choice.value; }
      id := homes[0].id;
    }

    method SetActive(id: string)
      modifies this`choice
      ensures choice == Some(id)
    {
      choice := Some(id);
    }

    method AddHome(name: string, url: string) returns (homes: seq<Home>)
      modifies this`stored
      ensures homes == Homes() == stored && R() == AddTo(old(R()), name, url, idOf)
    {
      var id := idOf(url);
      homes := LoadHomes();
      homes := Drop(homes, AtUrl(url)) + [Home(id, name, url)];
      stored := homes;
    }

    method RemoveHome(id: string) returns (homes: seq<Home>)
      modifies this`stored, this`choice
      ensures homes == Homes() == stored && R() == RemoveFrom(old(R()), id)
      ensures ActiveOf(homes, choice) == ActiveOf(homes, old(choice))
      ensures !HasId(homes, id) ==> choice == old(choice)
    {
      homes := LoadHomes();
      var next := Drop(homes, Named(id));
      assert |next| == 0 ==> forall h :: h in homes ==> h.id == id;
      if |next| > 0 { homes := next; }
      stored := homes;
      assert forall i :: 0 <= i < |homes| ==> homes[i] in homes;
      var active := ActiveHomeId();
      if active == id { SetActive(homes[0].id); }
    }
  }

  // ---- what the two edits come to ----

  function Added(homes: seq<Home>, name: string, url: string, idOf: string -> string): (r: seq<Home>)
    ensures r != [] && r[|r| - 1] == Home(idOf(url), name, url)
    ensures forall h :: h in r <==> h == Home(idOf(url), name, url) || (h in homes && h.baseUrl != url)
  {
    Drop(homes, AtUrl(url)) + [Home(idOf(url), name, url)]
  }

  function Removed(homes: seq<Home>, id: string): (r: seq<Home>)
    ensures homes != [] ==> r != []
    ensures if exists h :: h in homes && h.id != id then forall h :: h in r <==> h in homes && h.id != id else r == homes
  {
    var next := Drop(homes, Named(id));
    assert next != [] ==> next[0] in next;
    if next != [] then next else homes
  }

  /** The homes of other hubs come through an addition where they stood … */
  lemma AddedKeepsPlaces(homes: seq<Home>, name: string, url: string, idOf: string -> string) returns (at: seq<nat>)
    ensures var r := Added(homes, name, url, idOf); KeptAt(homes, AtUrl(url), r[..|r| - 1], at)
  {
    at := DropKeepsPlaces(homes, AtUrl(url));
    var r := Added(homes, name, url, idOf);
    assert r[..|r| - 1] == Drop(homes, AtUrl(url));
  }

  /** … and those of other ids through a removal. */
  lemma RemovedKeepsPlaces(homes: seq<Home>, id: string) returns (at: seq<nat>)
    requires exists h :: h in homes && h.id != id
    ensures KeptAt(homes, Named(id), Removed(homes, id), at)
  {
    at := DropKeepsPlaces(homes, Named(id));
  }

  lemma DropKeepsOnePerHub(homes: seq<Home>, p: Home -> bool)
    requires OnePerHub(homes)
    ensures OnePerHub(Drop(homes, p))
  {
    var at := DropKeepsPlaces(homes, p);
    forall i, j | 0 <= i < j < |at| ensures Drop(homes, p)[i].baseUrl != Drop(homes, p)[j].baseUrl {
      assert at[i] < at[j];
    }
  }

  lemma AddKeepsOnePerHub(homes: seq<Home>, name: string, url: string, idOf: string -> string)
    requires OnePerHub(homes)
    ensures OnePerHub(Added(homes, name, url, idOf))
  {
    var kept := Drop(homes, AtUrl(url));
    DropKeepsOnePerHub(homes, AtUrl(url));
    assert forall i :: 0 <= i < |kept| ==> kept[i] in kept;
  }

  datatype Edit = Add(name: string, url: string) | Remove(id: string)

  function Apply(homes: seq<Home>, e: Edit, idOf: string -> string): seq<Home> {
    match e
    case Add(name, url) => Added(homes, name, url, idOf)
    case Remove(id) => Removed(homes, id)
  }

  function ApplyAll(homes: seq<Home>, es: seq<Edit>, idOf: string -> string): seq<Home>
    decreases |es|
  {
    if es == [] then homes else ApplyAll(Apply(homes, es[0], idOf), es[1..], idOf)
  }

  /** However homes are added and removed, the list is never empty and no hub is in it twice. */
  lemma {:induction false} EditsKeepRegistry(homes: seq<Home>, es: seq<Edit>, idOf: string -> string)
    requires homes != [] && OnePerHub(homes)
    ensures ApplyAll(homes, es, idOf) != [] && OnePerHub(ApplyAll(homes, es, idOf))
    decreases |es|
  {
    if es != [] {
      match es[0] {
        case Add(name, url) => AddKeepsOnePerHub(homes, name, url, idOf);
        case Remove(id) => DropKeepsOnePerHub(homes, Named(id));
      }
      EditsKeepRegistry(Apply(homes, es[0], idOf), es[1..], idOf);
    }
  }

  /** A home is really gone after its removal exactly when some other id is registered. */
  lemma RemovedIff(homes: seq<Home>, id: string)
    requires HasId(homes, id)
    ensures !HasId(Removed(homes, id), id) <==> exists h :: h in homes && h.id != id
  {
    var next := Drop(homes, Named(id));
    assert forall i :: 0 <= i < |next| ==> next[i] in next;
    if next != [] {
      assert next[0] in homes && next[0].id != id;
    } else {
      assert forall h :: h in homes ==> h.id == id;
    }
  }

  function Take(r: Reg, e: Edit, idOf: string -> string): (v: Reg)
    requires r.homes != []
    ensures v.homes == Apply(r.homes, e, idOf) && v.homes != []
  {
    match e
    case Add(name, url) => AddTo(r, name, url, idOf)
    case Remove(id) => RemoveFrom(r, id)
  }

  /** `es` leads from `r` to `v`, no removal of a last active home among them. */
  ghost predicate Leads(r: Reg, es: seq<Edit>, v: Reg, idOf: string -> string)
    decreases |es|
  {
    if es == [] || r.homes == [] then v == r
    else !(es[0].Remove? && Refused(r, es[0].id)) && Leads(Take(r, es[0], idOf), es[1..], v, idOf)
  }

  lemma {:induction false} ChoiceStays(r: Reg, es: seq<Edit>, v: Reg, idOf: string -> string)
    requires r.homes != [] && Leads(r, es, v, idOf)
    ensures v.choice == r.choice && v.homes != []
    decreases |es|
  {
    if es != [] { ChoiceStays(Take(r, es[0], idOf), es[1..], v, idOf); }
  }

  /**
   * Removing the active home makes another one active but leaves the stored choice behind: whatever is
   * added and removed in between, registering that hub again silently makes it the active one again.
   */
  lemma ReaddingReactivates(
      r: Reg, id: string, gone: Reg, es: seq<Edit>, v: Reg, name: string, url: string, idOf: string -> string)
    requires r.homes != [] && r.choice == Some(id) && id != "" && idOf(url) == id
    requires HasId(r.homes, id) && exists h :: h in r.homes && h.id != id
    requires gone == RemoveFrom(r, id) && Leads(gone, es, v, idOf)
    ensures gone.homes != [] && ActiveOf(gone.homes, gone.choice) != id
    ensures var back := AddTo(v, name, url, idOf); ActiveOf(back.homes, back.choice) == id
  {
    RemovedIff(r.homes, id);
    ChoiceStays(gone, es, v, idOf);
    var back := AddTo(v, name, url, idOf);
    assert back.homes[|back.homes| - 1].id == id;
  }
}
