/** Fresh automation names: copies, bulk duplication and import. */
module Names {
  import opened Util
  import opened Text

  datatype Item = Item(id: string, name: string)

  /** "Lights" → "Lights Copy" → "Lights Copy 2" → … */
  function CopyName(base: string, n: nat): string {
    if n == 1 then base + " Copy" else base + " Copy " + Decimal(n)
  }

  lemma CopyNameInjective(base: string, m: nat, n: nat)
    requires CopyName(base, m) == CopyName(base, n)
    ensures m == n
  {
    var k := |base|;
    assert m != 1 ==> CopyName(base, m)[k + 6..] == Decimal(m);
    assert n != 1 ==> CopyName(base, n)[k + 6..] == Decimal(n);
    assert |CopyName(base, 1)| == k + 5;
    if m != 1 && n != 1 {
      DecimalInjective(m, n);
    }
  }

  /** Pigeonhole: a finite set cannot hold more copies of a name than it has elements. */
  lemma {:induction false} CopiesFit(base: string, existing: set<string>, n: nat)
    requires forall j :: 1 <= j <= n ==> CopyName(base, j) in existing
    ensures n <= |existing|
  {
    if n > 0 {
      var rest := existing - {CopyName(base, n)};
      forall j | 1 <= j <= n - 1 ensures CopyName(base, j) in rest {
        if CopyName(base, j) == CopyName(base, n) { CopyNameInjective(base, j, n); }
      }
      CopiesFit(base, rest, n - 1);
    }
  }

  /** `name` is the copy of `base` with the least free number. */
  ghost predicate IsNextCopy(base: string, existing: set<string>, name: string) {
    exists n :: 1 <= n <= |existing| + 1 && LeastFree(base, existing, n) && name == CopyName(base, n)
  }

  ghost predicate LeastFree(base: string, existing: set<string>, n: nat) {
    CopyName(base, n) !in existing && forall j :: 1 <= j < n ==> CopyName(base, j) in existing
  }

  method NextCopyName(base: string, existing: set<string>) returns (name: string)
    ensures name !in existing && IsNextCopy(base, existing, name)
    ensures if base + " Copy" !in existing then name == base + " Copy"
            else exists n :: n >= 2 && name == base + " Copy " + Decimal(n)
  {
    if base + " Copy" !in existing {
      assert LeastFree(base, existing, 1);
      return base + " Copy";
    }
    var n := 2;
    CopiesFit(base, existing, 1);
    while base + " Copy " + Decimal(n) in existing
      invariant 2 <= n <= |existing| + 1
      invariant forall j :: 1 <= j < n ==> CopyName(base, j) in existing
      decreases |existing| - n
    {
      assert CopyName(base, n) in existing;
      CopiesFit(base, existing, n);
      n := n + 1;
    }
    name := base + " Copy " + Decimal(n);
    assert name == CopyName(base, n) && LeastFree(base, existing, n);
  }

  /** The next copy is one particular name. */
  lemma NextCopyUnique(base: string, existing: set<string>, a: string, b: string)
    requires IsNextCopy(base, existing, a) && IsNextCopy(base, existing, b)
    ensures a == b
  {
    var m :| 1 <= m <= |existing| + 1 && LeastFree(base, existing, m) && a == CopyName(base, m);
    var n :| 1 <= n <= |existing| + 1 && LeastFree(base, existing, n) && b == CopyName(base, n);
    assert n <= m || n > m;
  }

  function Set(s: seq<string>): set<string> {
    set x | x in s
  }

  /** The names in use once `out` has been handed out on top of `existing`. */
  function Used(existing: set<string>, out: seq<string>): set<string> {
    existing + Set(out)
  }

  /** No name is repeated or already in use. */
  ghost predicate AllFresh(names: seq<string>, existing: set<string>) {
    Distinct(names) && forall i :: 0 <= i < |names| ==> names[i] !in existing
  }

  lemma AllFreshSnoc(names: seq<string>, existing: set<string>, x: string)
    requires AllFresh(names, existing) && x !in Used(existing, names)
    ensures AllFresh(names + [x], existing) && Used(existing, names + [x]) == Used(existing, names) + {x}
  {
    assert forall i :: 0 <= i < |names| ==> names[i] in Set(names);
    assert forall i :: 0 <= i < |names| ==> (names + [x])[i] == names[i];
  }

  /** What one wanted name becomes, given the names in use. */
  ghost predicate Resolves(wanted: string, used: set<string>, name: string) {
    if wanted in used then IsNextCopy(wanted, used, name) else name == wanted
  }

  ghost predicate ResolvesAll(wanted: seq<string>, existing: set<string>, out: seq<string>) {
    |out| <= |wanted| &&
    forall i :: 0 <= i < |out| ==> Resolves(wanted[i], Used(existing, out[..i]), out[i])
  }

  lemma ResolvesSnoc(wanted: seq<string>, existing: set<string>, out: seq<string>, x: string)
    requires |out| < |wanted| && ResolvesAll(wanted, existing, out)
    requires Resolves(wanted[|out|], Used(existing, out), x)
    ensures ResolvesAll(wanted, existing, out + [x])
  {
    var n := |out|;
    forall i | 0 <= i < n + 1 ensures Resolves(wanted[i], Used(existing, (out + [x])[..i]), (out + [x])[i]) {
      assert (out + [x])[..i] == out[..i];
      assert out[..n] == out;
    }
  }

  method Resolve(wanted: string, used: set<string>) returns (name: string)
    ensures name !in used && Resolves(wanted, used, name)
  {
    name := wanted;
    if name in used { name := NextCopyName(name, used); }
  }

  /**
   * The names an import ends up with: all fresh, and a name is kept exactly when neither the
   * hub nor an earlier automation of the file uses it.
   */
  method ResolvedNames(names: seq<string>, existing: set<string>) returns (out: seq<string>)
    ensures |out| == |names| && AllFresh(out, existing) && ResolvesAll(names, existing, out)
  {
    var used := existing;
    out := [];
    for k := 0 to |names|
      invariant |out| == k && used == Used(existing, out)
      invariant AllFresh(out, existing)
      invariant ResolvesAll(names, existing, out)
    {
      var name := Resolve(names[k], used);
      ResolvesSnoc(names, existing, out, name);
      AllFreshSnoc(out, existing, name);
      used := used + {name};
      out := out + [name];
    }
  }

  /** `items.find(x => x.id === id)` */
  function Find(items: seq<Item>, id: string): (r: Option<Item>)
    ensures r.Some? ==> r.value in items && r.value.id == id
    ensures r.None? ==> forall i :: 0 <= i < |items| ==> items[i].id != id
  {
    if items == [] then None else if items[0].id == id then Some(items[0]) else Find(items[1..], id)
  }

  function NamesOf(s: seq<Item>): seq<string> {
    seq(|s|, i requires 0 <= i < |s| => s[i].name)
  }

  /** The selected ids that still exist, in order. */
  function Present(items: seq<Item>, ids: seq<string>): seq<string> {
    if ids == [] then []
    else Present(items, ids[..|ids| - 1]) + (if Find(items, ids[|ids| - 1]).Some? then [ids[|ids| - 1]] else [])
  }

  /** `x` is the next copy of its source's name, given everything named before it. */
  ghost predicate IsCopy(items: seq<Item>, before: seq<Item>, x: Item) {
    Find(items, x.id).Some? &&
    IsNextCopy(Find(items, x.id).value.name, Used(Set(NamesOf(items)), NamesOf(before)), x.name)
  }

  ghost predicate CopiesAll(items: seq<Item>, out: seq<Item>) {
    forall i :: 0 <= i < |out| ==> IsCopy(items, out[..i], out[i])
  }

  lemma CopiesSnoc(items: seq<Item>, out: seq<Item>, x: Item)
    requires CopiesAll(items, out) && IsCopy(items, out, x)
    ensures CopiesAll(items, out + [x])
  {
    var next := out + [x];
    forall i | 0 <= i < |next| ensures IsCopy(items, next[..i], next[i]) {
      assert next[..i] == out[..i];
      assert out[..|out|] == out;
    }
  }

  function IdsOf(s: seq<Item>): seq<string> {
    seq(|s|, i requires 0 <= i < |s| => s[i].id)
  }

  lemma ProjectSnoc(out: seq<Item>, x: Item)
    ensures NamesOf(out + [x]) == NamesOf(out) + [x.name] && IdsOf(out + [x]) == IdsOf(out) + [x.id]
  {
  }

  /** Bulk duplication: one copy for every selected automation that still exists, in order, under fresh names. */
  method DuplicateSelected(items: seq<Item>, ids: seq<string>) returns (out: seq<Item>)
    ensures IdsOf(out) == Present(items, ids)
    ensures AllFresh(NamesOf(out), Set(NamesOf(items))) && CopiesAll(items, out)
  {
    var taken := Set(NamesOf(items));
    var existing := taken;
    out := [];
    for k := 0 to |ids|
      invariant IdsOf(out) == Present(items, ids[..k])
      invariant existing == Used(taken, NamesOf(out))
      invariant AllFresh(NamesOf(out), taken)
      invariant CopiesAll(items, out)
    {
      PresentSnoc(items, ids, k);
      var src := Find(items, ids[k]);
      if src.None? { continue; }
      var name := NextCopyName(src.value.name, existing);
      var copy := Item(ids[k], name);
      CopiesSnoc(items, out, copy);
      AllFreshSnoc(NamesOf(out), taken, name);
      ProjectSnoc(out, copy);
      existing := existing + {name};
      out := out + [copy];
    }
    assert ids[..|ids|] == ids;
  }

  lemma PresentSnoc(items: seq<Item>, ids: seq<string>, k: nat)
    requires k < |ids|
    ensures Present(items, ids[..k + 1]) ==
              Present(items, ids[..k]) + if Find(items, ids[k]).Some? then [ids[k]] else []
  {
    assert ids[..k + 1][..k] == ids[..k];
  }
}
