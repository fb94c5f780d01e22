/** One collection: what it may unlink and what every survivor keeps. */
module Sweep {
  import opened Names
  import opened FiniteSets
  import opened Reach
  import opened ObjectGraph
  import opened GraphWalk

  const GC_COLLECT_MIN_AGE_FLOOR: nat := 60
  const GC_COLLECT_BATCH_LIMIT: nat := 4_096

  // ---- closed sets ---------------------------------------------------------

  /** Every member decodes and everything it names is a member. */
  ghost predicate Closed(objs: Objects, s: set<Id>) {
    forall x :: x in s ==> x in objs && Within(EdgesOf(objs[x]), s)
  }

  predicate Within(es: seq<GraphEdge>, s: set<Id>) { forall i :: 0 <= i < |es| ==> es[i].id in s }

  ghost predicate FromRoots(objs: Objects, roots: seq<GraphEdge>, x: Id) {
    exists r :: r in roots && Reaches(Links(objs), r.id, x)
  }

  lemma ClosedKeepsReached(objs: Objects, s: set<Id>, r: Id, x: Id)
    requires Closed(objs, s) && r in s && Reaches(Links(objs), r, x)
    ensures x in s
  {
    forall y, z | y in s && Edge(Links(objs), y, z) ensures z in s {
      var es := EdgesOf(objs[y]);
      var i :| 0 <= i < |es| && Targets(es)[i] == z;
    }
    ClosedHoldsReached(Links(objs), s, r, x);
  }

  // ---- the root walk -------------------------------------------------------

  /** What a walk that starts from `start` schedules: the roots, and whatever the objects
      it visits name. */
  ghost predicate Due(objs: Objects, roots: seq<GraphEdge>, start: set<Id>, x: Id) {
    || x in Targets(roots)
    || exists y :: y in objs && y !in start && FromRoots(objs, roots, y) && x in Targets(EdgesOf(objs[y]))
  }

  ghost function DueSet(objs: Objects, roots: seq<GraphEdge>, start: set<Id>): set<Id> {
    set x | x in Universe(objs, Targets(roots)) && Due(objs, roots, start, x)
  }

  /** Everything the roots lead to can be read, and the work queue holds it. */
  ghost predicate Walkable(objs: Objects, roots: seq<GraphEdge>, start: set<Id>, limit: nat) {
    && (forall x :: FromRoots(objs, roots, x) ==> x in objs)
    && |DueSet(objs, roots, start)| <= limit
  }

  lemma DueInSet(objs: Objects, roots: seq<GraphEdge>, start: set<Id>, x: Id)
    requires Due(objs, roots, start, x)
    ensures x in DueSet(objs, roots, start)
  {
  }

  /** The queue's ids are due, and hold what roots and visited objects name, up to `rest`. */
  ghost predicate Counted(objs: Objects, start: set<Id>, roots: seq<GraphEdge>, reachable: set<Id>,
                          ids: set<Id>, rest: seq<GraphEdge>)
  {
    && ids <= DueSet(objs, roots, start)
    && (forall c :: c in rest ==> c.id in DueSet(objs, roots, start))
    && (forall c :: c in roots ==> c in rest || c.id in ids)
    && (forall x, c :: x in reachable && x !in start && x in objs && c in EdgesOf(objs[x]) ==> c in rest || c.id in ids)
  }

  lemma CountPush(objs: Objects, start: set<Id>, roots: seq<GraphEdge>, reachable: set<Id>, ids: set<Id>,
                  edge: GraphEdge, rest: seq<GraphEdge>)
    requires Counted(objs, start, roots, reachable, ids, [edge] + rest)
    ensures Counted(objs, start, roots, reachable, ids + {edge.id}, rest)
  {
    assert edge in [edge] + rest;
    assert forall c :: c in rest ==> c in [edge] + rest;
    assert forall c :: c in [edge] + rest ==> c == edge || c in rest;
  }

  lemma CountFull(objs: Objects, start: set<Id>, roots: seq<GraphEdge>, reachable: set<Id>, ids: set<Id>,
                  edge: GraphEdge, rest: seq<GraphEdge>, limit: nat)
    requires Counted(objs, start, roots, reachable, ids, [edge] + rest) && edge.id !in ids && |ids| >= limit
    ensures !Walkable(objs, roots, start, limit)
  {
    assert edge in [edge] + rest;
    SubsetCount(ids + {edge.id}, DueSet(objs, roots, start));
  }

  lemma CountVisit(objs: Objects, start: set<Id>, roots: seq<GraphEdge>, reachable: set<Id>, ids: set<Id>, c: GraphEdge)
    requires Counted(objs, start, roots, reachable, ids, []) && start <= reachable
    requires c.id in objs && c.id !in reachable && FromRoots(objs, roots, c.id)
    ensures Counted(objs, start, roots, reachable + {c.id}, ids, EdgesOf(objs[c.id]))
  {
    var es := EdgesOf(objs[c.id]);
    forall e | e in es ensures e.id in DueSet(objs, roots, start) {
      var i :| 0 <= i < |es| && es[i] == e;
      assert Targets(es)[i] == e.id;
      DueInSet(objs, roots, start, e.id);
    }
  }

  /** A finished walk scheduled exactly what is due. */
  lemma CountEnds(objs: Objects, start: set<Id>, roots: seq<GraphEdge>, reachable: set<Id>, ids: set<Id>)
    requires Counted(objs, start, roots, reachable, ids, [])
    requires forall x :: FromRoots(objs, roots, x) ==> x in reachable
    ensures DueSet(objs, roots, start) == ids
  {
    forall x | x in DueSet(objs, roots, start) ensures x in ids {
      if x in Targets(roots) {
        var i :| 0 <= i < |roots| && Targets(roots)[i] == x;
        assert roots[i] in roots;
      } else {
        var y :| y in objs && y !in start && FromRoots(objs, roots, y) && x in Targets(EdgesOf(objs[y]));
        var es := EdgesOf(objs[y]);
        var i :| 0 <= i < |es| && Targets(es)[i] == x;
        assert es[i] in es;
      }
    }
  }

  /** Reached so far, and still to visit: `reachable` is closed up to the queue. */
  ghost predicate Walking(objs: Objects, start: set<Id>, roots: seq<GraphEdge>, reachable: set<Id>,
                          queue: seq<GraphEdge>, scheduled: set<(Id, nat)>, rest: seq<GraphEdge>)
  {
    && (forall x :: x in reachable ==> x in start || FromRoots(objs, roots, x))
    && (forall c :: c in queue ==> FromRoots(objs, roots, c.id))
    && (forall c :: c in rest ==> FromRoots(objs, roots, c.id))
    && start <= reachable
    && (forall x :: x in reachable ==> x in objs)
    && (forall x, c :: x in reachable && c in EdgesOf(objs[x]) ==>
          c.id in reachable || c in rest || (c.id, Key(c.expected)) in scheduled)
    && (forall c: GraphEdge :: (c.id, Key(c.expected)) in scheduled ==> c in queue || c.id in reachable)
  }

  lemma WalkPush(objs: Objects, start: set<Id>, roots: seq<GraphEdge>, reachable: set<Id>,
                 queue: seq<GraphEdge>, scheduled: set<(Id, nat)>, edge: GraphEdge, rest: seq<GraphEdge>)
    requires Walking(objs, start, roots, reachable, queue, scheduled, [edge] + rest)
    ensures Walking(objs, start, roots, reachable, queue + [edge], scheduled + {(edge.id, Key(edge.expected))}, rest)
    ensures (edge.id, Key(edge.expected)) in scheduled ==> Walking(objs, start, roots, reachable, queue, scheduled, rest)
  {
    assert edge in [edge] + rest;
    forall c: GraphEdge | c.id == edge.id && Key(c.expected) == Key(edge.expected) ensures c == edge {
      KeyInjective(c.expected, edge.expected);
    }
  }

  lemma WalkSkip(objs: Objects, start: set<Id>, roots: seq<GraphEdge>, reachable: set<Id>,
                 queue: seq<GraphEdge>, scheduled: set<(Id, nat)>, c: GraphEdge)
    requires Walking(objs, start, roots, reachable, [c] + queue, scheduled, []) && c.id in reachable
    ensures Walking(objs, start, roots, reachable, queue, scheduled, [])
  {
    forall e: GraphEdge | (e.id, Key(e.expected)) in scheduled ensures e in queue || e.id in reachable {
      assert e in [c] + queue || e.id in reachable;
    }
  }

  lemma WalkVisit(objs: Objects, start: set<Id>, roots: seq<GraphEdge>, reachable: set<Id>,
                  queue: seq<GraphEdge>, scheduled: set<(Id, nat)>, c: GraphEdge)
    requires Walking(objs, start, roots, reachable, [c] + queue, scheduled, []) && c.id in objs
    ensures Walking(objs, start, roots, reachable + {c.id}, queue, scheduled, EdgesOf(objs[c.id]))
  {
    assert c in [c] + queue;
    var r :| r in roots && Reaches(Links(objs), r.id, c.id);
    forall e | e in EdgesOf(objs[c.id]) ensures FromRoots(objs, roots, e.id) { TargetReached(objs, r.id, c.id, e); }
    forall e: GraphEdge | (e.id, Key(e.expected)) in scheduled ensures e in queue || e.id in reachable + {c.id} {
      assert e in [c] + queue || e.id in reachable;
    }
  }

  lemma WalkEnds(objs: Objects, start: set<Id>, roots: seq<GraphEdge>, reachable: set<Id>, scheduled: set<(Id, nat)>)
    requires Walking(objs, start, roots, reachable, [], scheduled, [])
    ensures Closed(objs, reachable)
  {
    forall x | x in reachable ensures Within(EdgesOf(objs[x]), reachable) {
      var es := EdgesOf(objs[x]);
      forall i | 0 <= i < |es| ensures es[i].id in reachable { assert es[i] in es; }
    }
  }

  method PushEdge(q: GraphWorkQueue, edge: GraphEdge, ghost rest: seq<GraphEdge>, ghost objs: Objects,
                  ghost start: set<Id>, ghost roots: seq<GraphEdge>, ghost reachable: set<Id>)
    returns (r: Result<bool>)
    requires q.Valid() && Walking(objs, start, roots, reachable, q.queue, q.scheduled, [edge] + rest)
    requires Counted(objs, start, roots, reachable, q.scheduledIds, [edge] + rest)
    modifies q
    ensures q.Valid()
    ensures (q.scheduled == old(q.scheduled) && q.queue == old(q.queue)) || old(q.scheduled) < q.scheduled
    ensures r.Ok? ==> Walking(objs, start, roots, reachable, q.queue, q.scheduled, rest)
    ensures r.Ok? ==> Counted(objs, start, roots, reachable, q.scheduledIds, rest)
    ensures r.Ok? ==> (edge.id, Key(edge.expected)) in q.scheduled
    ensures r.Err? ==> !Walkable(objs, roots, start, q.limit)
  {
    WalkPush(objs, start, roots, reachable, q.queue, q.scheduled, edge, rest);
    CountPush(objs, start, roots, reachable, q.scheduledIds, edge, rest);
    ghost var queue, scheduled, ids := q.queue, q.scheduled, q.scheduledIds;
    r := q.Schedule(edge);
    if r.Err? {
      CountFull(objs, start, roots, reachable, ids, edge, rest, q.limit);
    } else if r.value {
      assert q.queue == queue + [edge] && q.scheduled == scheduled + {(edge.id, Key(edge.expected))} && q.scheduledIds == ids + {edge.id};
    } else {
      assert ids + {edge.id} == ids;
    }
  }

  method PushAll(q: GraphWorkQueue, edges: seq<GraphEdge>, ghost objs: Objects, ghost start: set<Id>,
                 ghost roots: seq<GraphEdge>, ghost reachable: set<Id>)
    returns (r: Result<bool>)
    requires q.Valid() && Walking(objs, start, roots, reachable, q.queue, q.scheduled, edges)
    requires Counted(objs, start, roots, reachable, q.scheduledIds, edges)
    modifies q
    ensures q.Valid()
    ensures (q.scheduled == old(q.scheduled) && q.queue == old(q.queue)) || old(q.scheduled) < q.scheduled
    ensures r.Ok? ==> Walking(objs, start, roots, reachable, q.queue, q.scheduled, [])
    ensures r.Ok? ==> Counted(objs, start, roots, reachable, q.scheduledIds, [])
    ensures r.Ok? ==> forall c :: c in edges ==> (c.id, Key(c.expected)) in q.scheduled
    ensures r.Err? ==> !Walkable(objs, roots, start, q.limit)
  {
    var k := 0;
    r := Ok(true);
    assert edges[0..] == edges;
    while k < |edges|
      invariant 0 <= k <= |edges| && q.Valid() && r.Ok?
      invariant (q.scheduled == old(q.scheduled) && q.queue == old(q.queue)) || old(q.scheduled) < q.scheduled
      invariant Walking(objs, start, roots, reachable, q.queue, q.scheduled, edges[k..])
      invariant Counted(objs, start, roots, reachable, q.scheduledIds, edges[k..])
      invariant forall c :: c in edges[..k] ==> (c.id, Key(c.expected)) in q.scheduled
    {
      assert edges[k..] == [edges[k]] + edges[k + 1..];
      assert edges[..k + 1] == edges[..k] + [edges[k]];
      r := PushEdge(q, edges[k], edges[k + 1..], objs, start, roots, reachable);
      if r.Err? {
        return;
      }
      k := k + 1;
    }
    assert edges[k..] == [] && edges[..k] == edges;
  }

  /** `reachable_closure`: extends a closed set by everything the roots lead to, or
      fails; an object it cannot read stops it. */
  method ReachableClosure(objs: Objects, roots: seq<GraphEdge>, start: set<Id>, limit: nat)
    returns (r: Result<bool>, reachable: set<Id>)
    requires Closed(objs, start)
    ensures r.Ok? <==> Walkable(objs, roots, start, limit)
    ensures r.Ok? ==> Closed(objs, reachable)
    ensures r.Ok? ==> forall x :: x in reachable <==> x in start || FromRoots(objs, roots, x)
  {
    reachable := start;
    var q := new GraphWorkQueue(limit);
    BeginWalk(objs, start, roots, q.queue, q.scheduled);
    BeginCount(objs, start, roots, q.scheduledIds);
    r := PushAll(q, roots, objs, start, roots, reachable);
    if r.Err? {
      return;
    }
    while q.queue != []
      invariant fresh(q) && q.Valid() && q.limit == limit && r.Ok? && RootsIn(roots, q.scheduled)
      invariant Walking(objs, start, roots, reachable, q.queue, q.scheduled, [])
      invariant Counted(objs, start, roots, reachable, q.scheduledIds, [])
      decreases 8 * limit - |q.scheduled|, |q.queue|
    {
      q.Bounded();
      r, reachable := WalkOne(q, objs, start, roots, reachable);
      if r.Err? {
        return;
      }
      q.Bounded();
    }
    WalkIsWhole(objs, start, roots, reachable, q.scheduled);
    CountEnds(objs, start, roots, reachable, q.scheduledIds);
  }

  predicate RootsIn(roots: seq<GraphEdge>, scheduled: set<(Id, nat)>) {
    forall c :: c in roots ==> (c.id, Key(c.expected)) in scheduled
  }

  /** A finished walk holds the start, what the roots lead to, and nothing else. */
  lemma WalkIsWhole(objs: Objects, start: set<Id>, roots: seq<GraphEdge>, reachable: set<Id>, scheduled: set<(Id, nat)>)
    requires Walking(objs, start, roots, reachable, [], scheduled, []) && RootsIn(roots, scheduled)
    ensures Closed(objs, reachable) && forall x :: x in reachable <==> x in start || FromRoots(objs, roots, x)
    ensures forall x :: FromRoots(objs, roots, x) ==> x in objs
  {
    WalkEnds(objs, start, roots, reachable, scheduled);
    forall x | FromRoots(objs, roots, x) ensures x in reachable {
      var c :| c in roots && Reaches(Links(objs), c.id, x);
      assert (c.id, Key(c.expected)) in scheduled;
      ClosedKeepsReached(objs, reachable, c.id, x);
    }
  }

  lemma BeginCount(objs: Objects, start: set<Id>, roots: seq<GraphEdge>, ids: set<Id>)
    requires ids == {}
    ensures Counted(objs, start, roots, start, ids, roots)
  {
    forall c | c in roots ensures c.id in DueSet(objs, roots, start) {
      var i :| 0 <= i < |roots| && roots[i] == c;
      assert Targets(roots)[i] == c.id;
      DueInSet(objs, roots, start, c.id);
    }
  }

  lemma BeginWalk(objs: Objects, start: set<Id>, roots: seq<GraphEdge>, queue: seq<GraphEdge>, scheduled: set<(Id, nat)>)
    requires Closed(objs, start) && queue == [] && scheduled == {}
    ensures Walking(objs, start, roots, start, queue, scheduled, roots)
  {
    forall c | c in roots ensures FromRoots(objs, roots, c.id) { ReachesSelf(Links(objs), c.id); }
    forall x, c | x in start && c in EdgesOf(objs[x]) ensures c.id in start {
      var es := EdgesOf(objs[x]);
      assert Within(es, start);
      var i :| 0 <= i < |es| && es[i] == c;
    }
  }

  method WalkOne(q: GraphWorkQueue, objs: Objects, ghost start: set<Id>, ghost roots: seq<GraphEdge>, reachable0: set<Id>)
    returns (r: Result<bool>, reachable: set<Id>)
    requires q.Valid() && q.queue != []
    requires Walking(objs, start, roots, reachable0, q.queue, q.scheduled, [])
    requires Counted(objs, start, roots, reachable0, q.scheduledIds, [])
    modifies q
    ensures q.Valid() && old(q.scheduled) <= q.scheduled
    ensures (|q.scheduled| == |old(q.scheduled)| && |q.queue| < |old(q.queue)|) || |q.scheduled| > |old(q.scheduled)|
    ensures r.Ok? ==> Walking(objs, start, roots, reachable, q.queue, q.scheduled, [])
    ensures r.Ok? ==> Counted(objs, start, roots, reachable, q.scheduledIds, [])
    ensures r.Err? ==> !Walkable(objs, roots, start, q.limit)
  {
    reachable := reachable0;
    ghost var seen := q.scheduled;
    var next := q.PopFront();
    var edge := next.value;
    assert edge in [edge] + q.queue;
    if edge.id in reachable {
      WalkSkip(objs, start, roots, reachable, q.queue, q.scheduled, edge);
      return Ok(true), reachable;
    }
    reachable := reachable + {edge.id};
    if edge.id !in objs {
      return Err(Corrupt), reachable;
    }
    WalkVisit(objs, start, roots, reachable0, q.queue, q.scheduled, edge);
    CountVisit(objs, start, roots, reachable0, q.scheduledIds, edge);
    r := PushAll(q, EdgesOf(objs[edge.id]), objs, start, roots, reachable);
    if seen < q.scheduled { SubsetCount(seen, q.scheduled); }
  }

  // ---- protect_from_survivors ----------------------------------------------

  /** What a reader can follow out of an object: nothing, if it does not decode. */
  function Leads(objs: Objects, x: Id): seq<Id> { if x in objs then Targets(EdgesOf(objs[x])) else [] }

  ghost predicate FromSpared(objs: Objects, spared: seq<Id>, x: Id) {
    exists s :: s in spared && Reaches(Links(objs), s, x)
  }

  function Universe(objs: Objects, spared: seq<Id>): set<Id> {
    (set x | x in spared) + (set x, y | x in objs && y in Targets(EdgesOf(objs[x])) :: y)
  }

  ghost predicate Protecting(objs: Objects, spared: seq<Id>, base: set<Id>, reachable: set<Id>,
                             seen: set<Id>, pending: seq<Id>)
  {
    && base <= reachable
    && (forall x :: x in spared ==> x in base || x in seen)
    && (forall x :: x in seen ==> x in reachable || x in pending)
    && (forall x :: x in pending ==> x in seen)
    && (forall x :: x in reachable ==> x in base || (x in seen && forall y :: y in Leads(objs, x) ==> y in seen))
    && seen <= Universe(objs, spared)
    && (forall x :: x in seen ==> FromSpared(objs, spared, x))
  }

  lemma ProtectOne(objs: Objects, spared: seq<Id>, base: set<Id>, reachable: set<Id>, seen: set<Id>, pending: seq<Id>,
                   id: Id, more: set<Id>, after: seq<Id>)
    requires Protecting(objs, spared, base, reachable, seen, pending + [id])
    requires forall y :: y in more <==> y in seen || y in Leads(objs, id)
    requires forall y :: y in after <==> y in pending || (y in Leads(objs, id) && y !in seen)
    ensures Protecting(objs, spared, base, reachable + {id}, more, after)
  {
    assert id in pending + [id];
    assert forall x :: x in pending + [id] <==> x in pending || x == id;
    forall y | y in Leads(objs, id) ensures y in Universe(objs, spared) && FromSpared(objs, spared, y) {
      var s :| s in spared && Reaches(Links(objs), s, id);
      OneEdge(Links(objs), id, y);
      ReachesTransitive(Links(objs), s, id, y);
    }
  }

  /** `protect_from_survivors`: everything a spared object leads to is protected. */
  method ProtectFromSurvivors(objs: Objects, spared: seq<Id>, base: set<Id>) returns (reachable: set<Id>)
    ensures base <= reachable
    ensures forall x :: x in spared ==> x in reachable
    ensures forall x, y :: x in reachable && x !in base && y in Leads(objs, x) ==> y in reachable
    ensures forall x :: x in reachable ==> x in base || FromSpared(objs, spared, x)
    ensures Closed(objs, base) ==> forall x :: x in reachable <==> x in base || FromSpared(objs, spared, x)
  {
    reachable := base;
    var pending: seq<Id> := [];
    var k := 0;
    while k < |spared|
      invariant 0 <= k <= |spared|
      invariant forall x :: x in pending ==> x in spared
      invariant forall x :: x in spared[..k] ==> x in base || x in pending
    {
      if spared[k] !in reachable {
        pending := pending + [spared[k]];
      }
      assert spared[..k + 1] == spared[..k] + [spared[k]];
      k := k + 1;
    }
    assert spared[..k] == spared;
    var seen := set x | x in pending;
    forall x | x in seen ensures FromSpared(objs, spared, x) { ReachesSelf(Links(objs), x); }
    while pending != []
      invariant Protecting(objs, spared, base, reachable, seen, pending)
      decreases Universe(objs, spared) - seen, |pending|
    {
      var id := pending[|pending| - 1];
      ghost var rest := pending[..|pending| - 1];
      assert pending == rest + [id];
      ghost var seen0, reachable0 := seen, reachable;
      pending, seen := PushUnseen(Leads(objs, id), pending[..|pending| - 1], seen);
      ProtectOne(objs, spared, base, reachable0, seen0, rest, id, seen, pending);
      reachable := reachable + {id};
      assert seen0 != seen ==> Universe(objs, spared) - seen < Universe(objs, spared) - seen0;
    }
    if Closed(objs, base) { ProtectsAll(objs, spared, base, reachable); }
  }

  lemma ProtectsAll(objs: Objects, spared: seq<Id>, base: set<Id>, reachable: set<Id>)
    requires Closed(objs, base) && base <= reachable && (forall x :: x in spared ==> x in reachable)
    requires forall x, y :: x in reachable && x !in base && y in Leads(objs, x) ==> y in reachable
    ensures forall x :: FromSpared(objs, spared, x) ==> x in reachable
  {
    var g := Links(objs);
    forall y, z | y in reachable && Edge(g, y, z) ensures z in reachable {
      if y in base {
        var es := EdgesOf(objs[y]);
        assert Within(es, base);
        var i :| 0 <= i < |es| && Targets(es)[i] == z;
      }
    }
    forall x | FromSpared(objs, spared, x) ensures x in reachable {
      var s :| s in spared && Reaches(g, s, x);
      ClosedHoldsReached(g, reachable, s, x);
    }
  }

  method PushUnseen(targets: seq<Id>, pending0: seq<Id>, seen0: set<Id>) returns (pending: seq<Id>, seen: set<Id>)
    ensures forall y :: y in seen <==> y in seen0 || y in targets
    ensures forall y :: y in pending <==> y in pending0 || (y in targets && y !in seen0)
    ensures seen == seen0 ==> pending == pending0
    ensures seen0 <= seen
  {
    pending, seen := pending0, seen0;
    var k := 0;
    while k < |targets|
      invariant 0 <= k <= |targets| && seen0 <= seen
      invariant forall y :: y in seen <==> y in seen0 || y in targets[..k]
      invariant forall y :: y in pending <==> y in pending0 || (y in targets[..k] && y !in seen0)
      invariant seen == seen0 ==> pending == pending0
    {
      assert targets[..k + 1] == targets[..k] + [targets[k]];
      if targets[k] !in seen {
        seen := seen + {targets[k]};
        pending := pending + [targets[k]];
      }
      k := k + 1;
    }
    assert targets[..k] == targets;
  }

  // ---- the sweep -----------------------------------------------------------

  /** The clock and the files as the locked part of the sweep sees them. */
  datatype Files = Files(present: set<Id>, mtime: map<Id, int>, now: int, unstatable: set<Id>, stuck: set<Id>)

  predicate Statable(f: Files, x: Id) { x in f.present && x !in f.unstatable }

  /** A file from the future, or of unknown age, counts as new. */
  function Age(f: Files, x: Id): nat { if x in f.mtime && f.now >= f.mtime[x] then f.now - f.mtime[x] else 0 }

  predicate Offered(f: Files, minAge: nat, x: Id) { Statable(f, x) && Age(f, x) >= minAge }

  function Without(ids: seq<Id>, gone: set<Id>): seq<Id> {
    if ids == [] then [] else
    var rest := Without(ids[..|ids| - 1], gone);
    if ids[|ids| - 1] in gone then rest else rest + [ids[|ids| - 1]]
  }

  /** The unreached old ones of a list, in its order. */
  function Old(f: Files, minAge: nat, ids: seq<Id>, reachable: set<Id>): (r: seq<Id>)
    ensures forall x :: x in r <==> x in ids && x !in reachable && Offered(f, minAge, x)
  {
    if ids == [] then [] else
    var x, rest := ids[|ids| - 1], ids[..|ids| - 1];
    assert ids == rest + [x];
    if x !in reachable && Offered(f, minAge, x) then Old(f, minAge, rest, reachable) + [x]
    else Old(f, minAge, rest, reachable)
  }

  /** What one collection takes on, and what it leaves for the next. */
  function Batch(ids: seq<Id>): seq<Id> { if |ids| <= GC_COLLECT_BATCH_LIMIT then ids else ids[..GC_COLLECT_BATCH_LIMIT] }

  function Overflow(ids: seq<Id>): seq<Id> { if |ids| <= GC_COLLECT_BATCH_LIMIT then [] else ids[GC_COLLECT_BATCH_LIMIT..] }

  /** Young, or old and over the batch. */
  predicate Spares(f: Files, minAge: nat, ids: seq<Id>, reachable: set<Id>, x: Id) {
    || (x in ids && x !in reachable && Statable(f, x) && Age(f, x) < minAge)
    || x in Overflow(Old(f, minAge, ids, reachable))
  }

  /** What the split of a list comes to. */
  ghost predicate SplitOf(f: Files, minAge: nat, ids: seq<Id>, reachable: set<Id>,
                          doomed: seq<Id>, spared: seq<Id>, limited: bool)
  {
    && doomed == Batch(Old(f, minAge, ids, reachable))
    && (forall x :: x in spared <==> Spares(f, minAge, ids, reachable, x))
    && (limited <==> |Old(f, minAge, ids, reachable)| > GC_COLLECT_BATCH_LIMIT)
  }

  /** Split the shortlist: old enough and within the batch, or spared. */
  method Classify(f: Files, minAge: nat, shortlist: seq<Id>, reachable: set<Id>)
    returns (doomed: seq<Id>, spared: seq<Id>, limited: bool)
    ensures SplitOf(f, minAge, shortlist, reachable, doomed, spared, limited) && |doomed| <= GC_COLLECT_BATCH_LIMIT
    ensures forall x :: x in shortlist ==> x in reachable || !Statable(f, x) || x in doomed || x in spared
    ensures forall x :: x in doomed ==> x in shortlist && x !in reachable && Offered(f, minAge, x)
  {
    doomed, spared, limited := [], [], false;
    var k := 0;
    while k < |shortlist|
      invariant 0 <= k <= |shortlist|
      invariant SplitOf(f, minAge, shortlist[..k], reachable, doomed, spared, limited)
    {
      var x := shortlist[k];
      SplitSkips(f, minAge, shortlist[..k], x, shortlist[..k + 1], reachable, doomed, spared, limited);
      SplitTakes(f, minAge, shortlist[..k], x, shortlist[..k + 1], reachable, doomed, spared, limited);
      k := k + 1;
      if x in reachable || !Statable(f, x) {
        continue;
      }
      if Age(f, x) < minAge || |doomed| >= GC_COLLECT_BATCH_LIMIT {
        limited := limited || Age(f, x) >= minAge;
        spared := spared + [x];
      } else {
        doomed := doomed + [x];
      }
    }
    assert shortlist[..k] == shortlist;
    SplitMeaning(f, minAge, shortlist, reachable, doomed, spared, limited);
  }

  lemma SplitSkips(f: Files, minAge: nat, ids: seq<Id>, x: Id, more: seq<Id>, reachable: set<Id>,
                   doomed: seq<Id>, spared: seq<Id>, limited: bool)
    requires more == ids + [x] && SplitOf(f, minAge, ids, reachable, doomed, spared, limited)
    ensures x in reachable || !Statable(f, x) ==> SplitOf(f, minAge, more, reachable, doomed, spared, limited)
  {
    SplitOne(f, minAge, ids, x, more, reachable);
    SpareOne(f, minAge, ids, x, more, reachable);
  }

  lemma SplitTakes(f: Files, minAge: nat, ids: seq<Id>, x: Id, more: seq<Id>, reachable: set<Id>,
                   doomed: seq<Id>, spared: seq<Id>, limited: bool)
    requires more == ids + [x] && SplitOf(f, minAge, ids, reachable, doomed, spared, limited)
    ensures x !in reachable && Statable(f, x) ==>
              if Age(f, x) < minAge || |doomed| >= GC_COLLECT_BATCH_LIMIT
              then SplitOf(f, minAge, more, reachable, doomed, spared + [x], limited || Age(f, x) >= minAge)
              else SplitOf(f, minAge, more, reachable, doomed + [x], spared, limited)
  {
    SplitOne(f, minAge, ids, x, more, reachable);
    SpareOne(f, minAge, ids, x, more, reachable);
  }

  lemma SplitMeaning(f: Files, minAge: nat, ids: seq<Id>, reachable: set<Id>, doomed: seq<Id>, spared: seq<Id>, limited: bool)
    requires SplitOf(f, minAge, ids, reachable, doomed, spared, limited)
    ensures |doomed| <= GC_COLLECT_BATCH_LIMIT
    ensures forall x :: x in ids ==> x in reachable || !Statable(f, x) || x in doomed || x in spared
    ensures forall x :: x in doomed ==> x in ids && x !in reachable && Offered(f, minAge, x)
  {
    assert forall x :: x in Old(f, minAge, ids, reachable) ==> x in doomed || x in spared;
  }

  /** How one more candidate changes the split. */
  lemma SplitOne(f: Files, minAge: nat, ids: seq<Id>, x: Id, more: seq<Id>, reachable: set<Id>)
    requires more == ids + [x]
    ensures x in reachable || !Offered(f, minAge, x) ==> Old(f, minAge, more, reachable) == Old(f, minAge, ids, reachable)
    ensures x !in reachable && Offered(f, minAge, x) ==> Old(f, minAge, more, reachable) == Old(f, minAge, ids, reachable) + [x]
    ensures forall y :: y in more <==> y in ids || y == x
  {
    assert more[..|more| - 1] == ids;
  }

  lemma SpareOne(f: Files, minAge: nat, ids: seq<Id>, x: Id, more: seq<Id>, reachable: set<Id>)
    requires more == ids + [x]
    ensures x !in reachable && Statable(f, x) && (Age(f, x) < minAge || |Old(f, minAge, ids, reachable)| >= GC_COLLECT_BATCH_LIMIT) ==>
              forall y :: Spares(f, minAge, more, reachable, y) <==> Spares(f, minAge, ids, reachable, y) || y == x
    ensures x in reachable || !Statable(f, x) || (Age(f, x) >= minAge && |Old(f, minAge, ids, reachable)| < GC_COLLECT_BATCH_LIMIT) ==>
              forall y :: Spares(f, minAge, more, reachable, y) <==> Spares(f, minAge, ids, reachable, y)
  {
    SplitOne(f, minAge, ids, x, more, reachable);
    var was, now := Old(f, minAge, ids, reachable), Old(f, minAge, more, reachable);
    if now == was + [x] && |was| >= GC_COLLECT_BATCH_LIMIT {
      assert Overflow(now) == Overflow(was) + [x];
    } else if now == was + [x] {
      assert Overflow(now) == [] == Overflow(was);
    }
  }

  /** Unlink the doomed that nothing protects; a stuck file stops the sweep. */
  method UnlinkAll(f: Files, doomed: seq<Id>, protect: set<Id>) returns (r: Result<bool>, left: set<Id>)
    ensures left <= f.present
    ensures forall x :: x in f.present && x !in left ==> x in doomed && x !in protect
    ensures r.Ok? ==> forall x :: x in doomed && x !in protect ==> x !in left
    ensures r.Ok? <==> forall x :: x in doomed && x !in protect ==> x !in f.stuck
  {
    left := f.present;
    r := Ok(true);
    var k := 0;
    while k < |doomed|
      invariant 0 <= k <= |doomed| && left <= f.present && r.Ok?
      invariant forall x :: x in f.present && x !in left ==> x in doomed && x !in protect
      invariant forall x :: x in doomed[..k] && x !in protect ==> x !in left && x !in f.stuck
    {
      var x := doomed[k];
      assert doomed[..k + 1] == doomed[..k] + [x];
      k := k + 1;
      if x in protect {
        continue;
      }
      if x in f.stuck {
        return Err(Io), left;
      }
      left := left - {x};
    }
    assert doomed[..k] == doomed;
  }

  /** A survivor's child that was there is still there. */
  ghost predicate KeepsChildren(objs: Objects, f: Files, left: set<Id>, x: Id) {
    forall y :: y in Leads(objs, x) && y in f.present ==> y in left
  }

  ghost predicate LeadsFromYoung(objs: Objects, f: Files, minAge: nat, scanned: seq<Id>, y: Id, x: Id) {
    y in scanned && Statable(f, y) && Age(f, y) < minAge && Reaches(Links(objs), y, x)
  }

  /** What is unlinked was scanned, and is old by the clock read under the lock. */
  ghost predicate TakesOnlyOld(f: Files, scanned: seq<Id>, minAge: nat, left: set<Id>) {
    && left <= f.present
    && forall x :: x in f.present && x !in left ==>
         x in scanned && minAge >= GC_COLLECT_MIN_AGE_FLOOR && Offered(f, minAge, x)
  }

  /** Nothing a root leads to is unlinked. */
  ghost predicate SparesRooted(objs: Objects, f: Files, roots: seq<GraphEdge>, left: set<Id>) {
    forall x :: x in f.present && FromRoots(objs, roots, x) ==> x in left
  }

  /** No scanned survivor loses a child to the sweep. */
  ghost predicate LeavesNoGap(objs: Objects, f: Files, scanned: seq<Id>, roots: seq<GraphEdge>, left: set<Id>) {
    forall x :: x in scanned && x in left && (Statable(f, x) || FromRoots(objs, roots, x)) ==> KeepsChildren(objs, f, left, x)
  }

  /** All old garbage that no root and no young object leads to is gone. */
  ghost predicate TakesAllOld(objs: Objects, f: Files, scanned: seq<Id>, early: seq<GraphEdge>, roots: seq<GraphEdge>,
                              minAge: nat, left: set<Id>)
  {
    forall x :: x in scanned && x in left && Offered(f, minAge, x) ==>
      FromRoots(objs, roots, x) || FromRoots(objs, early, x) || exists y :: LeadsFromYoung(objs, f, minAge, scanned, y, x)
  }

  // ---- what a collection comes to ------------------------------------------

  /** One collection's inputs: `scanned` is the unlocked scan, `early` and `roots` the
      catalog as read before and inside the transaction, `objs` what each id decodes to. */
  datatype Plan = Plan(objs: Objects, files: Files, scanned: seq<Id>, early: seq<GraphEdge>, roots: seq<GraphEdge>,
                       minAge: nat, limit: nat)

  ghost function Reached(objs: Objects, roots: seq<GraphEdge>): set<Id> {
    set x | x in Universe(objs, Targets(roots)) && FromRoots(objs, roots, x)
  }

  lemma ReachedMeaning(objs: Objects, roots: seq<GraphEdge>, x: Id)
    ensures x in Reached(objs, roots) <==> FromRoots(objs, roots, x)
  {
    if FromRoots(objs, roots, x) {
      var r :| r in roots && Reaches(Links(objs), r.id, x);
      var i :| 0 <= i < |roots| && roots[i] == r;
      assert Targets(roots)[i] == r.id;
      var p :| ChainTo(Links(objs), r.id, x, p);
      if |p| > 1 { assert Edge(Links(objs), p[|p| - 2], p[|p| - 2 + 1]); }
    }
  }

  ghost function Live(p: Plan): set<Id> { Reached(p.objs, p.early) + Reached(p.objs, p.roots) }

  ghost function Candidates(p: Plan): seq<Id> { Old(p.files, p.minAge, p.scanned, Live(p)) }

  ghost predicate SparedBy(p: Plan, x: Id) { Spares(p.files, p.minAge, p.scanned, Live(p), x) }

  /** Live, or something a spared object leads to. */
  ghost predicate Protected(p: Plan, x: Id) {
    x in Live(p) || exists s :: SparedBy(p, s) && Reaches(Links(p.objs), s, x)
  }

  ghost predicate Taken(p: Plan, x: Id) { x in Batch(Candidates(p)) && !Protected(p, x) }

  /** The collection runs to its end: the floor is met, everything the early and the
      locked roots lead to can be read within the limit, and nothing to take is stuck. */
  ghost predicate Completes(p: Plan) {
    && p.minAge >= GC_COLLECT_MIN_AGE_FLOOR
    && Walkable(p.objs, p.early, {}, p.limit)
    && Walkable(p.objs, p.roots, Reached(p.objs, p.early), p.limit)
    && (forall x :: Taken(p, x) ==> x !in p.files.stuck)
  }

  ghost function Remaining(p: Plan): set<Id> { set x | x in p.files.present && !Taken(p, x) }

  lemma {:induction false} OldWithout(f: Files, minAge: nat, ids: seq<Id>, gone: set<Id>, reachable: set<Id>)
    requires gone <= reachable
    ensures Old(f, minAge, Without(ids, gone), reachable) == Old(f, minAge, ids, reachable)
    ensures forall x :: x in Without(ids, gone) <==> x in ids && x !in gone
  {
    if ids != [] {
      var x, rest := ids[|ids| - 1], ids[..|ids| - 1];
      assert ids == rest + [x];
      OldWithout(f, minAge, rest, gone, reachable);
      if x !in gone { SplitOne(f, minAge, Without(rest, gone), x, Without(ids, gone), reachable); }
    }
  }

  /** The shortlist loses nothing the split would have looked at. */
  lemma ShortlistEnough(f: Files, minAge: nat, scanned: seq<Id>, warm: set<Id>, reachable: set<Id>)
    requires warm <= reachable
    ensures Old(f, minAge, Without(scanned, warm), reachable) == Old(f, minAge, scanned, reachable)
    ensures forall x :: Spares(f, minAge, Without(scanned, warm), reachable, x) <==> Spares(f, minAge, scanned, reachable, x)
  {
    OldWithout(f, minAge, scanned, warm, reachable);
  }

  /** What a completed collection leaves keeps its children. */
  lemma RemainingNoGap(p: Plan)
    ensures LeavesNoGap(p.objs, p.files, p.scanned, p.roots, Remaining(p))
  {
    var left := Remaining(p);
    forall x | x in p.scanned && x in left && (Statable(p.files, x) || FromRoots(p.objs, p.roots, x))
      ensures KeepsChildren(p.objs, p.files, left, x)
    {
      SurvivorProtected(p, x);
      forall y | y in Leads(p.objs, x) ensures Protected(p, y) { ProtectedChild(p, x, y); }
    }
  }

  lemma SurvivorProtected(p: Plan, x: Id)
    requires x in p.scanned && x in Remaining(p) && (Statable(p.files, x) || FromRoots(p.objs, p.roots, x))
    ensures Protected(p, x)
  {
    ReachedMeaning(p.objs, p.roots, x);
    if x !in Live(p) && x !in Batch(Candidates(p)) {
      assert Offered(p.files, p.minAge, x) ==> x in Candidates(p);
      assert SparedBy(p, x);
      ReachesSelf(Links(p.objs), x);
    }
  }

  lemma ProtectedChild(p: Plan, x: Id, y: Id)
    requires Protected(p, x) && y in Leads(p.objs, x)
    ensures Protected(p, y)
  {
    var g := Links(p.objs);
    OneEdge(g, x, y);
    if x in Live(p) {
      ReachedMeaning(p.objs, p.early, x);
      ReachedMeaning(p.objs, p.roots, x);
      ReachedMeaning(p.objs, p.early, y);
      ReachedMeaning(p.objs, p.roots, y);
      if FromRoots(p.objs, p.roots, x) {
        var r :| r in p.roots && Reaches(g, r.id, x);
        ReachesTransitive(g, r.id, x, y);
      } else {
        var r :| r in p.early && Reaches(g, r.id, x);
        ReachesTransitive(g, r.id, x, y);
      }
    } else {
      var s :| SparedBy(p, s) && Reaches(g, s, x);
      ReachesTransitive(g, s, x, y);
    }
  }

  /** Below the batch limit, what is old and still there hangs on a root or on something young. */
  lemma RemainingTakesAll(p: Plan)
    requires |Candidates(p)| <= GC_COLLECT_BATCH_LIMIT
    ensures TakesAllOld(p.objs, p.files, p.scanned, p.early, p.roots, p.minAge, Remaining(p))
  {
    var f := p.files;
    forall x | x in p.scanned && x in Remaining(p) && Offered(f, p.minAge, x)
      ensures FromRoots(p.objs, p.roots, x) || FromRoots(p.objs, p.early, x)
              || exists y :: LeadsFromYoung(p.objs, f, p.minAge, p.scanned, y, x)
    {
      ReachedMeaning(p.objs, p.early, x);
      ReachedMeaning(p.objs, p.roots, x);
      if x !in Live(p) {
        assert x in Candidates(p) && Protected(p, x);
        var s :| SparedBy(p, s) && Reaches(Links(p.objs), s, x);
        assert LeadsFromYoung(p.objs, f, p.minAge, p.scanned, s, x);
      }
    }
  }

  /** The locked part of `gc_collect`, from the shortlist to the last unlink. */
  method SweepShortlist(p: Plan, shortlist: seq<Id>, reachable: set<Id>)
    returns (r: Result<bool>, left: set<Id>, limited: bool)
    requires reachable == Live(p) && Closed(p.objs, reachable)
    requires Old(p.files, p.minAge, shortlist, reachable) == Candidates(p)
    requires forall x :: Spares(p.files, p.minAge, shortlist, reachable, x) <==> SparedBy(p, x)
    ensures left <= p.files.present
    ensures forall x :: x in p.files.present && x !in left ==> Taken(p, x)
    ensures r.Ok? <==> forall x :: Taken(p, x) ==> x !in p.files.stuck
    ensures r.Ok? ==> left == Remaining(p)
    ensures limited <==> |Candidates(p)| > GC_COLLECT_BATCH_LIMIT
  {
    var doomed, spared;
    doomed, spared, limited := Classify(p.files, p.minAge, shortlist, reachable);
    var protect := ProtectFromSurvivors(p.objs, spared, reachable);
    forall x ensures x in protect <==> Protected(p, x) {
      if FromSpared(p.objs, spared, x) {
        var s :| s in spared && Reaches(Links(p.objs), s, x);
        assert SparedBy(p, s);
      }
      if s :| SparedBy(p, s) && Reaches(Links(p.objs), s, x) {
        assert s in spared;
        assert FromSpared(p.objs, spared, x);
      }
    }
    assert forall x :: x in doomed && x !in protect <==> Taken(p, x);
    r, left := UnlinkAll(p.files, doomed, protect);
  }

  // ---- the outcome, by files and by the fields of objects ------------------

  /** Old by the clock read under the lock, and not hidden from stat. */
  predicate OldFile(f: Files, minAge: nat, x: Id) { x in f.mtime && f.now - f.mtime[x] >= minAge && x !in f.unstatable }

  predicate YoungFile(f: Files, minAge: nat, x: Id) {
    x in f.present && x !in f.unstatable && (x in f.mtime ==> f.now - f.mtime[x] < minAge)
  }

  /** Everything a root leads to, field by field, stays. */
  ghost predicate KeepsHeld(objs: Objects, f: Files, roots: seq<GraphEdge>, left: set<Id>) {
    forall x :: x in f.present && Held(objs, roots, x) ==> x in left
  }

  predicate TakesOldFiles(f: Files, scanned: seq<Id>, minAge: nat, left: set<Id>) {
    left <= f.present && forall x :: x in f.present && x !in left ==> x in scanned && minAge >= 60 && OldFile(f, minAge, x)
  }

  /** A scanned survivor that could be statted, or that a root leads to, misses nothing
      one of its fields names that was there. */
  ghost predicate KeepsNamed(objs: Objects, f: Files, scanned: seq<Id>, roots: seq<GraphEdge>, left: set<Id>) {
    forall x, y :: x in scanned && x in left && x in objs && NamesId(objs[x], y) && y in f.present ==>
      (x in f.unstatable && !Held(objs, roots, x)) || y in left
  }

  /** What is old and still there hangs on a root or on something young. */
  ghost predicate TakesGarbage(objs: Objects, f: Files, scanned: seq<Id>, early: seq<GraphEdge>, roots: seq<GraphEdge>,
                               minAge: nat, left: set<Id>)
  {
    forall x :: x in scanned && x in left && OldFile(f, minAge, x) ==>
      Held(objs, roots, x) || Held(objs, early, x) || exists y :: HangsOnYoung(objs, f, minAge, scanned, y, x)
  }

  ghost predicate HangsOnYoung(objs: Objects, f: Files, minAge: nat, scanned: seq<Id>, y: Id, x: Id) {
    y in scanned && YoungFile(f, minAge, y) && LeadsTo(objs, y, x)
  }

  lemma HeldIsFromRoots(objs: Objects, roots: seq<GraphEdge>, x: Id)
    ensures Held(objs, roots, x) <==> FromRoots(objs, roots, x)
  {
    forall c ensures LeadsTo(objs, c, x) <==> Reaches(Links(objs), c, x) { LeadsIsReach(objs, c, x); }
    if FromRoots(objs, roots, x) {
      var r :| r in roots && Reaches(Links(objs), r.id, x);
      assert LeadsTo(objs, r.id, x);
    }
  }

  lemma OfferedIsOld(f: Files, minAge: nat, x: Id)
    requires minAge > 0 && x in f.present
    ensures Offered(f, minAge, x) <==> OldFile(f, minAge, x)
    ensures Statable(f, x) && Age(f, x) < minAge <==> YoungFile(f, minAge, x)
  {
  }

  lemma OutcomeInFields(p: Plan, left: set<Id>)
    requires TakesOnlyOld(p.files, p.scanned, p.minAge, left)
    requires SparesRooted(p.objs, p.files, p.roots, left) && SparesRooted(p.objs, p.files, p.early, left)
    ensures KeepsHeld(p.objs, p.files, p.roots, left) && KeepsHeld(p.objs, p.files, p.early, left)
    ensures TakesOldFiles(p.files, p.scanned, p.minAge, left)
  {
    forall x | x in p.files.present && x !in left
      ensures !Held(p.objs, p.roots, x) && !Held(p.objs, p.early, x) && OldFile(p.files, p.minAge, x)
    {
      HeldIsFromRoots(p.objs, p.roots, x);
      HeldIsFromRoots(p.objs, p.early, x);
      OfferedIsOld(p.files, p.minAge, x);
    }
  }

  lemma GapInFields(p: Plan, left: set<Id>)
    requires LeavesNoGap(p.objs, p.files, p.scanned, p.roots, left) && left <= p.files.present
    ensures KeepsNamed(p.objs, p.files, p.scanned, p.roots, left)
  {
    forall x, y | x in p.scanned && x in left && x in p.objs && NamesId(p.objs[x], y) && y in p.files.present
      ensures (x in p.files.unstatable && !Held(p.objs, p.roots, x)) || y in left
    {
      HeldIsFromRoots(p.objs, p.roots, x);
      LinkIsField(p.objs, x, y);
      assert y in Leads(p.objs, x);
      if x !in p.files.unstatable || Held(p.objs, p.roots, x) { assert KeepsChildren(p.objs, p.files, left, x); }
    }
  }

  lemma GarbageInFields(p: Plan, left: set<Id>)
    requires TakesAllOld(p.objs, p.files, p.scanned, p.early, p.roots, p.minAge, left) && left <= p.files.present
    requires p.minAge > 0
    ensures TakesGarbage(p.objs, p.files, p.scanned, p.early, p.roots, p.minAge, left)
  {
    var f := p.files;
    forall x | x in p.scanned && x in left && OldFile(f, p.minAge, x)
      ensures Held(p.objs, p.roots, x) || Held(p.objs, p.early, x)
              || exists y :: HangsOnYoung(p.objs, f, p.minAge, p.scanned, y, x)
    {
      OfferedIsOld(f, p.minAge, x);
      HeldIsFromRoots(p.objs, p.roots, x);
      HeldIsFromRoots(p.objs, p.early, x);
      if y :| LeadsFromYoung(p.objs, f, p.minAge, p.scanned, y, x) {
        OfferedIsOld(f, p.minAge, y);
        LeadsIsReach(p.objs, y, x);
        assert HangsOnYoung(p.objs, f, p.minAge, p.scanned, y, x);
      }
    }
  }

  /** `gc_collect`. */
  method GcCollect(objs: Objects, f: Files, scanned: seq<Id>, early: seq<GraphEdge>, roots: seq<GraphEdge>,
                   minAge: nat, limit: nat)
    returns (r: Result<bool>, left: set<Id>, limited: bool)
    ensures r.Ok? <==> Completes(Plan(objs, f, scanned, early, roots, minAge, limit))
    ensures r.Ok? ==> left == Remaining(Plan(objs, f, scanned, early, roots, minAge, limit))
    ensures TakesOnlyOld(f, scanned, minAge, left)
    ensures SparesRooted(objs, f, roots, left) && SparesRooted(objs, f, early, left)
    ensures KeepsHeld(objs, f, roots, left) && KeepsHeld(objs, f, early, left) && TakesOldFiles(f, scanned, minAge, left)
    ensures |f.present - left| <= 4_096
    ensures r.Ok? ==> KeepsNamed(objs, f, scanned, roots, left)
    ensures r.Ok? ==> (limited <==> |Candidates(Plan(objs, f, scanned, early, roots, minAge, limit))| > GC_COLLECT_BATCH_LIMIT)
    ensures r.Ok? && !limited ==> TakesGarbage(objs, f, scanned, early, roots, minAge, left)
  {
    var p := Plan(objs, f, scanned, early, roots, minAge, limit);
    left, limited := f.present, false;
    OutcomeInFields(p, left);
    assert f.present - left == {};
    if minAge < GC_COLLECT_MIN_AGE_FLOOR {
      return Err(Invalid), left, limited;
    }
    var empty: set<Id> := {};
    var first, warm := ReachableClosure(objs, early, empty, limit);
    if first.Err? {
      return first, left, limited;
    }
    forall x ensures x in warm <==> x in Reached(objs, early) { ReachedMeaning(objs, early, x); }
    assert warm == Reached(objs, early);
    var shortlist := Unreached(scanned, warm);
    var second, reachable := ReachableClosure(objs, roots, warm, limit);
    if second.Err? {
      return second, left, limited;
    }
    forall x ensures x in reachable <==> x in Live(p) { ReachedMeaning(objs, roots, x); }
    assert reachable == Live(p);
    ShortlistEnough(f, minAge, scanned, warm, reachable);
    r, left, limited := SweepShortlist(p, shortlist, reachable);
    TakenIsOld(p, left);
    TakenIsFew(p, left);
    OutcomeInFields(p, left);
    if r.Ok? {
      RemainingNoGap(p);
      GapInFields(p, left);
      if !limited {
        RemainingTakesAll(p);
        GarbageInFields(p, left);
      }
    }
  }

  lemma {:induction false} AtMostListed(ids: seq<Id>)
    ensures |set z | z in ids| <= |ids|
  {
    var all := set z | z in ids;
    if ids != [] {
      var rest, x := ids[..|ids| - 1], ids[|ids| - 1];
      assert ids == rest + [x];
      AtMostListed(rest);
      var fewer := set z | z in rest;
      assert all == fewer + {x};
    }
  }

  lemma TakenIsFew(p: Plan, left: set<Id>)
    requires forall x :: x in p.files.present && x !in left ==> Taken(p, x)
    ensures |p.files.present - left| <= 4_096
  {
    var batch := Batch(Candidates(p));
    AtMostListed(batch);
    SubsetCount(p.files.present - left, set z | z in batch);
  }

  lemma TakenIsOld(p: Plan, left: set<Id>)
    requires left <= p.files.present && p.minAge >= GC_COLLECT_MIN_AGE_FLOOR
    requires forall x :: x in p.files.present && x !in left ==> Taken(p, x)
    ensures TakesOnlyOld(p.files, p.scanned, p.minAge, left)
    ensures SparesRooted(p.objs, p.files, p.roots, left) && SparesRooted(p.objs, p.files, p.early, left)
  {
    forall x | x in p.files.present && x !in left
      ensures x in Candidates(p) && !FromRoots(p.objs, p.roots, x) && !FromRoots(p.objs, p.early, x)
    {
      ReachedMeaning(p.objs, p.early, x);
      ReachedMeaning(p.objs, p.roots, x);
    }
  }

  method Unreached(scanned: seq<Id>, reachable: set<Id>) returns (shortlist: seq<Id>)
    ensures shortlist == Without(scanned, reachable)
  {
    shortlist := [];
    var k := 0;
    while k < |scanned|
      invariant 0 <= k <= |scanned|
      invariant shortlist == Without(scanned[..k], reachable)
    {
      assert scanned[..k + 1][..k] == scanned[..k];
      if scanned[k] !in reachable {
        shortlist := shortlist + [scanned[k]];
      }
      k := k + 1;
    }
    assert scanned[..k] == scanned;
  }
}
