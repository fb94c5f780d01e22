/** Best common ancestors of two commits. */
module MergeBases {
  import opened Names
  import opened FiniteSets
  import opened Reach

  /** A commit id as its bytes; the answer is sorted by them. */
  type CommitId = string

  /** The commits a store holds, each with its parents in order. */
  type History = map<CommitId, seq<CommitId>>

  const MAX_ANCESTRY_COMMITS: nat := 1_000_000

  // ---- ancestor_map --------------------------------------------------------

  /** The walk from `a` meets only commits the store holds, and not too many. */
  ghost predicate Walkable(h: History, a: CommitId) {
    && (forall x :: Reaches(h, a, x) ==> x in h)
    && |Known(h, a)| <= 1_000_000
  }

  ghost function Known(h: History, a: CommitId): set<CommitId> { set x | x in h && Reaches(h, a, x) }

  /** The ancestors of `a`, each with its parents. */
  ghost predicate IsAncestorMap(h: History, a: CommitId, m: History) {
    && (forall x :: x in m <==> Reaches(h, a, x))
    && (forall x :: x in m ==> x in h && m[x] == h[x])
  }

  ghost predicate Frontier(h: History, a: CommitId, out: History, stack: seq<CommitId>) {
    && (forall x :: x in out ==> x in h && out[x] == h[x] && Reaches(h, a, x))
    && (forall x :: x in stack ==> Reaches(h, a, x))
    && (a in out || a in stack)
    && (forall x, y :: x in out && Edge(h, x, y) ==> y in out || y in stack)
  }

  lemma FrontierPush(h: History, a: CommitId, out: History, stack: seq<CommitId>, id: CommitId)
    requires Frontier(h, a, out, stack + [id]) && id in h
    ensures Frontier(h, a, out[id := h[id]], stack + h[id])
  {
    forall y | y in h[id] ensures Reaches(h, a, y) {
      OneEdge(h, id, y);
      assert id in stack + [id];
      ReachesTransitive(h, a, id, y);
    }
  }

  lemma FrontierPop(h: History, a: CommitId, out: History, stack: seq<CommitId>, id: CommitId)
    requires Frontier(h, a, out, stack + [id]) && id in out
    ensures Frontier(h, a, out, stack)
  {
    assert forall x :: x in stack + [id] <==> x in stack || x == id;
  }

  lemma FrontierDone(h: History, a: CommitId, out: History)
    requires Frontier(h, a, out, [])
    ensures IsAncestorMap(h, a, out) && out.Keys == Known(h, a)
  {
    forall x | Reaches(h, a, x) ensures x in out {
      ClosedHoldsReached(h, out.Keys, a, x);
    }
  }

  lemma Overfull(h: History, a: CommitId, out: History, id: CommitId)
    requires forall x :: x in out ==> x in h && Reaches(h, a, x)
    requires Reaches(h, a, id) && id !in out && |out| >= MAX_ANCESTRY_COMMITS
    ensures !Walkable(h, a)
  {
    if id in h {
      assert out.Keys + {id} <= Known(h, a);
      SubsetCount(out.Keys + {id}, Known(h, a));
      assert |out.Keys + {id}| == |out.Keys| + 1;
      assert |out.Keys| == |out|;
    }
  }

  /** `ancestor_map`: succeeds exactly when the whole ancestry is there and within
      the limit, and then holds exactly that ancestry. */
  method AncestorMap(h: History, start: CommitId) returns (r: Result<History>)
    ensures r.Ok? <==> Walkable(h, start)
    ensures r.Ok? ==> IsAncestorMap(h, start, r.value)
  {
    var out: History := map[];
    var stack := [start];
    ReachesSelf(h, start);
    while stack != []
      invariant Frontier(h, start, out, stack)
      invariant |out| <= MAX_ANCESTRY_COMMITS
      decreases h.Keys - out.Keys, |stack|
    {
      var id := stack[|stack| - 1];
      var rest := stack[..|stack| - 1];
      assert stack == rest + [id];
      assert id in stack;
      stack := rest;
      if id in out {
        FrontierPop(h, start, out, rest, id);
        continue;
      }
      if |out| >= MAX_ANCESTRY_COMMITS {
        Overfull(h, start, out, id);
        return Err(Invalid);
      }
      if id !in h {
        return Err(NotFound);
      }
      FrontierPush(h, start, out, rest, id);
      stack := stack + h[id];
      out := out[id := h[id]];
    }
    FrontierDone(h, start, out);
    assert |out| == |out.Keys|;
    r := Ok(out);
  }

  // ---- merge_bases ---------------------------------------------------------

  ghost predicate Common(h: History, a: CommitId, b: CommitId, x: CommitId) {
    Reaches(h, a, x) && Reaches(h, b, x)
  }

  /** A common ancestor that is not a proper ancestor of another. */
  ghost predicate Best(h: History, a: CommitId, b: CommitId, x: CommitId) {
    && Common(h, a, b, x)
    && forall y :: y != x && Common(h, a, b, y) ==> !ReachesOn(h, y, x)
  }

  /** Proper ancestors of one candidate, found by walking its ancestry map. */
  ghost predicate Swept(h: History, candidate: CommitId, am: History, seen: set<CommitId>, stack: seq<CommitId>) {
    && (forall x :: x in seen ==> x in am && ReachesOn(h, candidate, x))
    && (forall x :: x in stack ==> x in am && ReachesOn(h, candidate, x))
    && (forall x :: Edge(h, candidate, x) ==> x in seen || x in stack)
    && (forall x, y :: x in seen && Edge(h, x, y) ==> y in seen || y in stack)
  }

  lemma SweptPush(h: History, a: CommitId, candidate: CommitId, am: History, seen: set<CommitId>,
                  stack: seq<CommitId>, id: CommitId)
    requires IsAncestorMap(h, a, am) && Swept(h, candidate, am, seen, stack + [id]) && id in am
    ensures Swept(h, candidate, am, seen + {id}, stack + am[id])
  {
    assert id in stack + [id];
    forall y | y in am[id] ensures y in am && ReachesOn(h, candidate, y) {
      OneEdge(h, id, y);
      OnOrSelf(h, candidate, id);
      ReachesTransitive(h, candidate, id, y);
      ReachesTransitive(h, a, id, y);
    }
    assert forall x :: x in stack + [id] <==> x in stack || x == id;
  }

  lemma SweptDone(h: History, candidate: CommitId, am: History, seen: set<CommitId>, x: CommitId)
    requires Swept(h, candidate, am, seen, [])
    ensures x in seen <==> ReachesOn(h, candidate, x)
  {
    if ReachesOn(h, candidate, x) {
      var b := FirstEdge(h, candidate, x);
      ClosedHoldsReached(h, seen, b, x);
    }
  }

  /** The inner loop: common commits strictly above one candidate. */
  method Dominated(h: History, ghost a: CommitId, am: History, common: set<CommitId>, candidate: CommitId,
                   before: set<CommitId>)
    returns (dominated: set<CommitId>)
    requires IsAncestorMap(h, a, am) && candidate in am
    ensures forall x :: x in dominated <==> x in before || (x in common && ReachesOn(h, candidate, x))
  {
    dominated := before;
    var stack := am[candidate];
    var seen: set<CommitId> := {};
    forall y | y in stack ensures y in am && ReachesOn(h, candidate, y) {
      OneEdge(h, candidate, y);
      ReachesTransitive(h, a, candidate, y);
    }
    while stack != []
      invariant Swept(h, candidate, am, seen, stack)
      invariant forall x :: x in dominated <==> x in before || (x in common && x in seen)
      decreases am.Keys - seen, |stack|
    {
      var id := stack[|stack| - 1];
      var rest := stack[..|stack| - 1];
      assert stack == rest + [id];
      assert id in stack;
      stack := rest;
      if id in seen {
        assert forall x :: x in rest + [id] <==> x in rest || x == id;
        continue;
      }
      SweptPush(h, a, candidate, am, seen, rest, id);
      seen := seen + {id};
      if id in common {
        dominated := dominated + {id};
      }
      stack := stack + am[id];
    }
    forall x ensures x in seen <==> ReachesOn(h, candidate, x) { SweptDone(h, candidate, am, seen, x); }
  }

  /** `merge_bases`: exactly the best common ancestors, in id order. */
  method BestBases(h: History, a: CommitId, b: CommitId) returns (r: Result<seq<CommitId>>)
    requires Acyclic(h)
    ensures r.Ok? <==> if a == b then a in h else Walkable(h, a) && Walkable(h, b)
    ensures r.Ok? ==> StrictlySorted(r.value) && forall x :: x in r.value <==> Best(h, a, b, x)
  {
    if a == b {
      if a !in h {
        return Err(NotFound);
      }
      forall x ensures Best(h, a, a, x) <==> x == a { OwnBase(h, a, x); }
      return Ok([a]);
    }
    var am := AncestorMap(h, a);
    if am.Err? {
      return Err(am.error);
    }
    var bm := AncestorMap(h, b);
    if bm.Err? {
      return Err(bm.error);
    }
    var common := am.value.Keys * bm.value.Keys;
    var dominated: set<CommitId> := {};
    var rest := common;
    while rest != {}
      invariant rest <= common
      invariant forall x :: x in dominated <==>
        x in common && exists c :: c in common - rest && ReachesOn(h, c, x)
      decreases rest
    {
      var candidate :| candidate in rest;
      ghost var before := dominated;
      dominated := Dominated(h, a, am.value, common, candidate, dominated);
      assert common - (rest - {candidate}) == (common - rest) + {candidate};
      rest := rest - {candidate};
    }
    var bases := SortNames(common - dominated);
    r := Ok(bases);
  }

  lemma OwnBase(h: History, a: CommitId, x: CommitId)
    requires Acyclic(h)
    ensures Best(h, a, a, x) <==> x == a
  {
    ReachesSelf(h, a);
    OnOrSelf(h, a, x);
    if x == a {
      forall y | y != a && Reaches(h, a, y) ensures !ReachesOn(h, y, a) {
        OnOrSelf(h, a, y);
        OnOrSelf(h, y, a);
        if ReachesOn(h, y, a) { ReachesTransitive(h, a, y, a); }
      }
    }
  }

  /** The answer does not depend on the order of the two commits. */
  lemma BasesUnordered(h: History, a: CommitId, b: CommitId, r: seq<CommitId>, s: seq<CommitId>)
    requires StrictlySorted(r) && forall x :: x in r <==> Best(h, a, b, x)
    requires StrictlySorted(s) && forall x :: x in s <==> Best(h, b, a, x)
    ensures r == s
  {
    assert forall x :: Common(h, a, b, x) <==> Common(h, b, a, x);
    forall x ensures x in r <==> x in s {
      assert Best(h, a, b, x) <==> Best(h, b, a, x);
    }
    SortedUnique(r, s);
  }

  /** Common ancestors strictly below `x`: what shrinks on the way to a best one. */
  ghost function Above(h: History, a: CommitId, b: CommitId, x: CommitId): set<CommitId> {
    set y | y in h && Common(h, a, b, y) && ReachesOn(h, y, x)
  }

  /** Every common ancestor is some best one or an ancestor of it. */
  lemma {:induction false} BasesCover(h: History, a: CommitId, b: CommitId, x: CommitId) returns (best: CommitId)
    requires Acyclic(h) && Common(h, a, b, x)
    ensures Best(h, a, b, best) && Reaches(h, best, x)
    decreases |Above(h, a, b, x)|
  {
    if y :| y != x && Common(h, a, b, y) && ReachesOn(h, y, x) {
      AboveShrinks(h, a, b, x, y);
      best := BasesCover(h, a, b, y);
      OnOrSelf(h, y, x);
      ReachesTransitive(h, best, y, x);
    } else {
      best := x;
      ReachesSelf(h, x);
    }
  }

  lemma AboveShrinks(h: History, a: CommitId, b: CommitId, x: CommitId, y: CommitId)
    requires Acyclic(h) && Common(h, a, b, y) && ReachesOn(h, y, x)
    ensures |Above(h, a, b, y)| < |Above(h, a, b, x)|
  {
    forall z | z in Above(h, a, b, y) ensures z in Above(h, a, b, x) {
      OnOrSelf(h, z, y);
      OnOrSelf(h, y, x);
      ReachesTransitive(h, z, y, x);
    }
    var z := FirstEdge(h, y, x);
    assert y in Above(h, a, b, x) && y !in Above(h, a, b, y);
    SubsetCount(Above(h, a, b, y), Above(h, a, b, x));
  }
}
