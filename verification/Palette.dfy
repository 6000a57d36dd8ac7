/** The command palette: a greedy subsequence score, and the ranking built on it. */
module Palette {
  import opened Util

  const LIMIT := 30

  /** Positions in `t` at which the characters of `q` occur, in order. */
  ghost predicate Embeds(q: string, t: string, e: seq<nat>) {
    && |e| == |q|
    && (forall i :: 0 <= i < |e| ==> e[i] < |t| && t[e[i]] == q[i])
    && (forall i, j :: 0 <= i < j < |e| ==> e[i] < e[j])
  }

  /** Halfway between where a match begins and where it ends. */
  function Middle(e: seq<nat>): real
    requires e != []
  {
    (e[0] + e[|e| - 1]) as real / 2.0
  }

  /** The best score any embedding of `q` in `t` could have; none when there is no embedding. */
  ghost predicate IsBest(q: string, t: string, s: Option<real>)
    requires q != ""
  {
    match s
    case None => forall e :: !Embeds(q, t, e)
    case Some(v) =>
      && (exists e :: Embeds(q, t, e) && Middle(e) == v)
      && (forall e :: Embeds(q, t, e) ==> v <= Middle(e))
  }

  ghost predicate IsScore(query: string, text: string, lower: string -> string, s: Option<real>)
    requires query != "" ==> lower(query) != ""
  {
    if query == "" then s == Some(0.0) else IsBest(lower(query), lower(text), s)
  }

  /**
   * After `ti` characters, `g` embeds what has been matched so far, no embedding of the whole
   * query has its matched part further left, and its next character is still to come.
   */
  ghost predicate Greedy(q: string, t: string, g: seq<nat>, ti: nat) {
    && |g| <= |q| && ti <= |t|
    && Embeds(q[..|g|], t, g)
    && (forall i :: 0 <= i < |g| ==> g[i] < ti)
    && forall e :: Embeds(q, t, e) ==>
         (forall i :: 0 <= i < |g| ==> g[i] <= e[i]) && (|g| < |q| ==> ti <= e[|g|])
  }

  lemma GreedyMatch(q: string, t: string, g: seq<nat>, ti: nat)
    requires Greedy(q, t, g, ti) && |g| < |q| && ti < |t| && t[ti] == q[|g|]
    ensures Greedy(q, t, g + [ti], ti + 1)
  {
    var h := g + [ti];
    assert Embeds(q[..|h|], t, h);
    forall e | Embeds(q, t, e)
      ensures (forall i :: 0 <= i < |h| ==> h[i] <= e[i]) && (|h| < |q| ==> ti + 1 <= e[|h|])
    {
      assert |h| < |q| ==> e[|g|] < e[|h|];
    }
  }

  lemma GreedySkip(q: string, t: string, g: seq<nat>, ti: nat)
    requires Greedy(q, t, g, ti) && |g| < |q| && ti < |t| && t[ti] != q[|g|]
    ensures Greedy(q, t, g, ti + 1)
  {
  }

  lemma GreedyEnd(q: string, t: string, g: seq<nat>, ti: nat)
    requires q != "" && Greedy(q, t, g, ti) && (ti == |t| || |g| == |q|)
    ensures |g| < |q| ==> IsBest(q, t, None)
    ensures |g| == |q| ==> IsBest(q, t, Some(Middle(g)))
  {
    if |g| == |q| {
      assert q[..|g|] == q;
      forall e | Embeds(q, t, e) ensures Middle(g) <= Middle(e) {
        assert g[0] <= e[0] && g[|g| - 1] <= e[|e| - 1];
      }
    } else {
      assert forall e :: Embeds(q, t, e) ==> |t| <= e[|g|];
    }
  }

  /** One greedy scan is optimal: it minimises the first and the last matched position at once. */
  method Score(query: string, text: string, lower: string -> string) returns (s: Option<real>)
    requires query != "" ==> lower(query) != ""
    ensures IsScore(query, text, lower, s)
  {
    if query == "" { return Some(0.0); }
    var q, t := lower(query), lower(text);
    var qi, first, last := 0, -1, -1;
    ghost var g: seq<nat> := [];
    var ti := 0;
    while ti < |t| && qi < |q|
      invariant |g| == qi <= |q| && ti <= |t|
      invariant Greedy(q, t, g, ti)
      invariant if qi == 0 then first == -1 else first == g[0] && last == g[qi - 1]
    {
      if t[ti] == q[qi] {
        GreedyMatch(q, t, g, ti);
        if first < 0 { first := ti; }
        last := ti;
        g := g + [ti];
        qi := qi + 1;
      } else {
        GreedySkip(q, t, g, ti);
      }
      ti := ti + 1;
    }
    GreedyEnd(q, t, g, ti);
    if qi < |q| { return None; }
    s := Some(first as real + (last - first) as real * 0.5);
    assert s.value == Middle(g);
  }

  // ---- ranking ----

  /** Lower score first; equal scores keep the order of the items. */
  predicate Ahead(scores: seq<Option<real>>, i: nat, j: nat) {
    i < |scores| && j < |scores| && scores[i].Some? && scores[j].Some?
    && (scores[i].value < scores[j].value || (scores[i].value == scores[j].value && i < j))
  }

  ghost predicate Ordered(scores: seq<Option<real>>, s: seq<nat>) {
    && (forall k :: 0 <= k < |s| ==> s[k] < |scores| && scores[s[k]].Some?)
    && forall i, j :: 0 <= i < j < |s| ==> Ahead(scores, s[i], s[j])
  }

  /** A stable insertion: after everything scored no higher. */
  function Insert(scores: seq<Option<real>>, s: seq<nat>, x: nat): seq<nat>
    requires Ordered(scores, s) && x < |scores| && scores[x].Some?
  {
    if s == [] || scores[s[|s| - 1]].value <= scores[x].value then s + [x]
    else Insert(scores, s[..|s| - 1], x) + [s[|s| - 1]]
  }

  lemma {:induction false} InsertHas(scores: seq<Option<real>>, s: seq<nat>, x: nat)
    requires Ordered(scores, s) && x < |scores| && scores[x].Some?
    ensures forall y :: y in Insert(scores, s, x) <==> y in s || y == x
  {
    if s != [] && scores[s[|s| - 1]].value > scores[x].value {
      var n := |s| - 1;
      InsertHas(scores, s[..n], x);
      assert s == s[..n] + [s[n]];
    }
  }

  lemma OrderedSnoc(scores: seq<Option<real>>, s: seq<nat>, x: nat)
    requires Ordered(scores, s) && x < |scores| && scores[x].Some?
    requires forall i :: 0 <= i < |s| ==> Ahead(scores, s[i], x)
    ensures Ordered(scores, s + [x])
  {
  }

  lemma {:induction false} InsertOrdered(scores: seq<Option<real>>, s: seq<nat>, x: nat)
    requires Ordered(scores, s) && x < |scores| && scores[x].Some?
    requires forall k :: 0 <= k < |s| ==> s[k] < x
    ensures Ordered(scores, Insert(scores, s, x))
  {
    if s == [] || scores[s[|s| - 1]].value <= scores[x].value {
      forall i | 0 <= i < |s| ensures Ahead(scores, s[i], x) {
        assert i < |s| - 1 ==> Ahead(scores, s[i], s[|s| - 1]);
      }
      OrderedSnoc(scores, s, x);
    } else {
      var n := |s| - 1;
      var r := Insert(scores, s[..n], x);
      InsertOrdered(scores, s[..n], x);
      InsertHas(scores, s[..n], x);
      forall i | 0 <= i < |r| ensures Ahead(scores, r[i], s[n]) {
        assert r[i] in s[..n] || r[i] == x;
      }
      OrderedSnoc(scores, r, s[n]);
    }
  }

  /** Every match among the first `n` items, best first: `map`, `filter` and a stable `sort`. */
  function Ranked(scores: seq<Option<real>>, n: nat): (r: seq<nat>)
    requires n <= |scores|
    ensures Ordered(scores, r)
    ensures forall y: nat :: y in r <==> y < n && scores[y].Some?
  {
    if n == 0 then []
    else
      var before := Ranked(scores, n - 1);
      if scores[n - 1].None? then before
      else
        assert forall k :: 0 <= k < |before| ==> before[k] in before;
        InsertOrdered(scores, before, n - 1);
        InsertHas(scores, before, n - 1);
        Insert(scores, before, n - 1)
  }

  /** `slice(0, 30)` of that. */
  function Picked(scores: seq<Option<real>>): seq<nat> {
    var r := Ranked(scores, |scores|);
    if |r| <= LIMIT then r else r[..LIMIT]
  }

  /**
   * What is shown: at most thirty matches in strict rank order, and anything that matches but
   * is not shown ranks behind all thirty of them.
   */
  lemma PickedIsTop(scores: seq<Option<real>>)
    ensures var p := Picked(scores);
            && |p| <= 30 && Ordered(scores, p)
            && forall y: nat :: y < |scores| && scores[y].Some? && y !in p ==>
                 |p| == 30 && forall k :: 0 <= k < |p| ==> Ahead(scores, p[k], y)
  {
    var r := Ranked(scores, |scores|);
    var p := Picked(scores);
    forall y: nat | y < |scores| && scores[y].Some? && y !in p
      ensures |p| == LIMIT && forall k :: 0 <= k < |p| ==> Ahead(scores, p[k], y)
    {
      assert y in r;
      var j :| 0 <= j < |r| && r[j] == y;
      assert forall k :: 0 <= k < |p| ==> p[k] == r[k] && p[k] != y;
      assert |p| <= j;
    }
  }

  /** Lower scores come first, equal ones in the order of the items, and nothing left out scores lower than anything shown. */
  lemma LowestFirst(scores: seq<Option<real>>)
    ensures var p := Picked(scores);
            && (forall i, j :: 0 <= i < j < |p| ==>
                  scores[p[i]].value < scores[p[j]].value || (scores[p[i]].value == scores[p[j]].value && p[i] < p[j]))
            && forall y, k :: 0 <= y < |scores| && scores[y].Some? && y !in p && 0 <= k < |p| ==>
                 scores[p[k]].value <= scores[y].value
  {
    PickedIsTop(scores);
    var p := Picked(scores);
    forall i, j | 0 <= i < j < |p|
      ensures scores[p[i]].value < scores[p[j]].value || (scores[p[i]].value == scores[p[j]].value && p[i] < p[j])
    {
      assert Ahead(scores, p[i], p[j]);
    }
  }

  lemma FirstDifference(scores: seq<Option<real>>, p: seq<nat>, q: seq<nat>, i: nat)
    requires Ordered(scores, p) && Ordered(scores, q)
    requires i < |p| && i < |q| && p[..i] == q[..i] && p[i] != q[i]
    requires p[i] !in q ==> Ahead(scores, q[i], p[i])
    ensures Ahead(scores, q[i], p[i])
  {
    if p[i] in q {
      var j :| 0 <= j < |q| && q[j] == p[i];
      assert j < i ==> p[..i][j] == q[..i][j] && Ahead(scores, p[j], p[i]);
    }
  }

  /** Nothing else could be shown: rank order and being the best matches determine the list. */
  lemma {:induction false} PickedUnique(scores: seq<Option<real>>, p: seq<nat>, q: seq<nat>, n: nat)
    requires Ordered(scores, p) && Ordered(scores, q) && n <= |p| == |q|
    requires forall y, k :: y in p && y !in q && 0 <= k < |q| ==> Ahead(scores, q[k], y)
    requires forall y, k :: y in q && y !in p && 0 <= k < |p| ==> Ahead(scores, p[k], y)
    ensures p[..n] == q[..n]
  {
    if n > 0 {
      PickedUnique(scores, p, q, n - 1);
      if p[n - 1] != q[n - 1] {
        FirstDifference(scores, p, q, n - 1);
        FirstDifference(scores, q, p, n - 1);
        assert false;
      }
    }
  }

  /** The whole pipeline over labelled items. */
  method Results(texts: seq<string>, query: string, lower: string -> string)
      returns (picked: seq<nat>, scores: seq<Option<real>>)
    requires query != "" ==> lower(query) != ""
    ensures |scores| == |texts|
    ensures forall i :: 0 <= i < |texts| ==> IsScore(query, texts[i], lower, scores[i])
    ensures picked == Picked(scores)
  {
    scores := [];
    for i := 0 to |texts|
      invariant |scores| == i
      invariant forall k :: 0 <= k < i ==> IsScore(query, texts[k], lower, scores[k])
    {
      var s := Score(query, texts[i], lower);
      scores := scores + [s];
    }
    picked := Picked(scores);
  }
}
