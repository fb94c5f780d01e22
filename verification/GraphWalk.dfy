/** The typed walk over the immutable object graph. */
module GraphWalk {
  import opened Names
  import opened FiniteSets
  import opened Reach
  import opened ObjectGraph

  /** The byte that stands for an expectation. */
  function Key(e: Expectation): nat {
    match e
    case Any => 0
    case Exact(Blob) => 1
    case Exact(Tree) => 2
    case Exact(Commit) => 3
    case Exact(Conflict) => 4
    case Exact(Snapshot) => 5
    case Exact(Contribution) => 6
    case TreeEntry => 255
  }

  lemma KeyInjective(a: Expectation, b: Expectation)
    requires Key(a) == Key(b)
    ensures a == b
  {
  }

  const Keys: set<nat> := {0, 1, 2, 3, 4, 5, 6, 255}

  // ---- the bounded work queue ----------------------------------------------

  function PairsOf(x: Id, ks: set<nat>): set<(Id, nat)> { set k | k in ks :: (x, k) }

  function Pairs(ids: set<Id>, ks: set<nat>): set<(Id, nat)> { set id, k | id in ids && k in ks :: (id, k) }

  lemma {:induction false} PairCount(x: Id, ks: set<nat>)
    ensures |PairsOf(x, ks)| == |ks|
  {
    if ks != {} {
      var k :| k in ks;
      PairCount(x, ks - {k});
      assert PairsOf(x, ks) == PairsOf(x, ks - {k}) + {(x, k)};
      assert (x, k) !in PairsOf(x, ks - {k});
    }
  }

  lemma {:induction false} PerId(ids: set<Id>, ks: set<nat>)
    ensures |Pairs(ids, ks)| == |ids| * |ks|
  {
    if ids == {} {
      assert Pairs(ids, ks) == {};
    } else {
      var x :| x in ids;
      var rest := ids - {x};
      PerId(rest, ks);
      PairCount(x, ks);
      PairsSplit(ids, x, ks);
      OneMore(|rest|, |ks|);
      assert |ids| == |rest| + 1;
    }
  }

  lemma OneMore(n: nat, m: nat)
    ensures (n + 1) * m == n * m + m
  {
  }

  lemma PairsSplit(ids: set<Id>, x: Id, ks: set<nat>)
    requires x in ids
    ensures Pairs(ids, ks) == Pairs(ids - {x}, ks) + PairsOf(x, ks) && Pairs(ids - {x}, ks) !! PairsOf(x, ks)
  {
  }

  class GraphWorkQueue {
    var queue: seq<GraphEdge>
    var scheduled: set<(Id, nat)>
    var scheduledIds: set<Id>
    const limit: nat

    ghost predicate Valid()
      reads this
    {
      && scheduled <= Pairs(scheduledIds, Keys)
      && |scheduledIds| <= limit
      && (forall e :: e in queue ==> (e.id, Key(e.expected)) in scheduled)
    }

    constructor (limit: nat)
      ensures Valid() && this.limit == limit && queue == [] && scheduled == {} && scheduledIds == {}
    {
      queue, scheduled, scheduledIds, this.limit := [], {}, {}, limit;
    }

    /** At most eight constraints per distinct id, so at most eight times the limit. */
    lemma Bounded()
      requires Valid()
      ensures |scheduled| <= 8 * |scheduledIds| <= 8 * limit
    {
      PerId(scheduledIds, Keys);
      assert |Keys| == 8;
      SubsetCount(scheduled, Pairs(scheduledIds, Keys));
    }

    method Schedule(edge: GraphEdge) returns (r: Result<bool>)
      requires Valid()
      modifies this
      ensures Valid()
      ensures r == Ok(false) <==> (edge.id, Key(edge.expected)) in old(scheduled)
      ensures r.Err? <==> edge.id !in old(scheduledIds) && |old(scheduledIds)| >= limit
                          && (edge.id, Key(edge.expected)) !in old(scheduled)
      ensures r.Err? ==> r.error == Invalid
      ensures r == Ok(true) ==>
        && queue == old(queue) + [edge]
        && scheduled == old(scheduled) + {(edge.id, Key(edge.expected))}
        && (edge.id, Key(edge.expected)) !in old(scheduled)
        && scheduledIds == old(scheduledIds) + {edge.id}
      ensures r != Ok(true) ==> queue == old(queue) && scheduled == old(scheduled) && scheduledIds == old(scheduledIds)
    {
      var constraint := (edge.id, Key(edge.expected));
      if constraint in scheduled {
        return Ok(false);
      }
      if edge.id !in scheduledIds && |scheduledIds| >= limit {
        return Err(Invalid);
      }
      scheduled := scheduled + {constraint};
      scheduledIds := scheduledIds + {edge.id};
      queue := queue + [edge];
      r := Ok(true);
    }

    method PopFront() returns (r: Option<GraphEdge>)
      requires Valid()
      modifies this`queue
      ensures Valid()
      ensures r.None? <==> old(queue) == []
      ensures r.Some? ==> old(queue) == [r.value] + queue
    {
      if queue == [] {
        return None;
      }
      r := Some(queue[0]);
      queue := queue[1..];
    }
  }

  // ---- what the walk proves ------------------------------------------------

  /** Some reachable object, or the request itself, demands this of an id. */
  ghost predicate Demanded(objs: Objects, root: Id, expected: ObjectType, c: GraphEdge) {
    || c == GraphEdge(root, Exact(expected))
    || exists x :: x in objs && Reaches(Links(objs), root, x) && c in EdgesOf(objs[x])
  }

  ghost predicate Met(objs: Objects, c: GraphEdge) { c.id in objs && Accepts(c.expected, TypeOf(objs[c.id])) }

  /** Every demand names an object that is there and has an accepted type. */
  ghost predicate Sound(objs: Objects, root: Id, expected: ObjectType) {
    forall c :: Demanded(objs, root, expected, c) ==> Met(objs, c)
  }

  ghost function ReachSet(objs: Objects, root: Id): set<Id> { set x | x in objs && Reaches(Links(objs), root, x) }

  lemma TargetReached(objs: Objects, root: Id, x: Id, c: GraphEdge)
    requires x in objs && Reaches(Links(objs), root, x) && c in EdgesOf(objs[x])
    ensures Reaches(Links(objs), root, c.id)
  {
    var es := EdgesOf(objs[x]);
    var i :| 0 <= i < |es| && es[i] == c;
    assert Targets(es)[i] == c.id;
    OneEdge(Links(objs), x, c.id);
    ReachesTransitive(Links(objs), root, x, c.id);
  }

  lemma DemandedReached(objs: Objects, root: Id, expected: ObjectType, c: GraphEdge)
    requires Demanded(objs, root, expected, c)
    ensures Reaches(Links(objs), root, c.id)
  {
    if c == GraphEdge(root, Exact(expected)) {
      ReachesSelf(Links(objs), root);
    } else {
      var x :| x in objs && Reaches(Links(objs), root, x) && c in EdgesOf(objs[x]);
      TargetReached(objs, root, x, c);
    }
  }

  /** Scheduled, and not yet checked only while still queued. */
  ghost predicate InHand(objs: Objects, queue: seq<GraphEdge>, verified: map<Id, ObjectType>, c: GraphEdge) {
    c in queue || (c.id in verified && Accepts(c.expected, verified[c.id]))
  }

  /** The state of the walk: `rest` are edges of a verified object still to schedule. */
  ghost predicate Walked(objs: Objects, root: Id, expected: ObjectType, queue: seq<GraphEdge>, scheduled: set<(Id, nat)>,
                         ids: set<Id>, verified: map<Id, ObjectType>, rest: seq<GraphEdge>)
  {
    && (forall id :: id in verified ==> id in objs && verified[id] == TypeOf(objs[id]))
    && (forall id :: id in verified ==> Reaches(Links(objs), root, id))
    && (forall id :: id in ids ==> Reaches(Links(objs), root, id))
    && (forall c :: c in queue ==> Demanded(objs, root, expected, c))
    && (forall c :: c in rest ==> Demanded(objs, root, expected, c))
    && (root, Key(Exact(expected))) in scheduled
    && (forall x, c :: x in verified && c in EdgesOf(objs[x]) ==> c in rest || (c.id, Key(c.expected)) in scheduled)
    && (forall c: GraphEdge :: (c.id, Key(c.expected)) in scheduled ==> InHand(objs, queue, verified, c))
  }

  lemma PushOne(objs: Objects, root: Id, expected: ObjectType, queue: seq<GraphEdge>, scheduled: set<(Id, nat)>,
                ids: set<Id>, verified: map<Id, ObjectType>, edge: GraphEdge, rest: seq<GraphEdge>)
    requires Walked(objs, root, expected, queue, scheduled, ids, verified, [edge] + rest)
    ensures Walked(objs, root, expected, queue + [edge], scheduled + {(edge.id, Key(edge.expected))}, ids + {edge.id}, verified, rest)
    ensures (edge.id, Key(edge.expected)) in scheduled ==> Walked(objs, root, expected, queue, scheduled, ids, verified, rest)
  {
    assert edge in [edge] + rest;
    DemandedReached(objs, root, expected, edge);
    forall c: GraphEdge | c.id == edge.id && Key(c.expected) == Key(edge.expected) ensures c == edge {
      KeyInjective(c.expected, edge.expected);
    }
    forall c: GraphEdge | (c.id, Key(c.expected)) in scheduled ensures InHand(objs, queue + [edge], verified, c) {
      assert InHand(objs, queue, verified, c);
    }
  }

  method ScheduleOne(q: GraphWorkQueue, edge: GraphEdge, ghost rest: seq<GraphEdge>, ghost objs: Objects, ghost root: Id,
                     ghost expected: ObjectType, ghost verified: map<Id, ObjectType>)
    returns (r: Result<bool>)
    requires q.Valid() && Walked(objs, root, expected, q.queue, q.scheduled, q.scheduledIds, verified, [edge] + rest)
    modifies q
    ensures q.Valid()
    ensures (q.scheduled == old(q.scheduled) && q.queue == old(q.queue)) || old(q.scheduled) < q.scheduled
    ensures r.Ok? ==> Walked(objs, root, expected, q.queue, q.scheduled, q.scheduledIds, verified, rest)
    ensures r.Err? ==> r.error == Invalid && TooMany(objs, root, q.limit)
  {
    PushOne(objs, root, expected, q.queue, q.scheduled, q.scheduledIds, verified, edge, rest);
    assert edge in [edge] + rest;
    DemandedReached(objs, root, expected, edge);
    ghost var queue, scheduled, ids := q.queue, q.scheduled, q.scheduledIds;
    r := q.Schedule(edge);
    if r.Err? {
      Overfull(objs, root, ids, edge.id, q.limit);
    } else if r.value {
      assert q.queue == queue + [edge] && q.scheduled == scheduled + {(edge.id, Key(edge.expected))} && q.scheduledIds == ids + {edge.id};
    }
  }

  /** The inner loop: schedule every edge of one object. */
  method ScheduleAll(q: GraphWorkQueue, edges: seq<GraphEdge>, ghost objs: Objects, ghost root: Id,
                     ghost expected: ObjectType, ghost verified: map<Id, ObjectType>)
    returns (r: Result<bool>)
    requires q.Valid() && Walked(objs, root, expected, q.queue, q.scheduled, q.scheduledIds, verified, edges)
    modifies q
    ensures q.Valid()
    ensures (q.scheduled == old(q.scheduled) && q.queue == old(q.queue)) || old(q.scheduled) < q.scheduled
    ensures r.Ok? ==> Walked(objs, root, expected, q.queue, q.scheduled, q.scheduledIds, verified, [])
    ensures r.Err? ==> r.error == Invalid && TooMany(objs, root, q.limit)
  {
    var k := 0;
    assert edges[0..] == edges;
    r := Ok(true);
    while k < |edges|
      invariant 0 <= k <= |edges| && q.Valid() && r.Ok?
      invariant (q.scheduled == old(q.scheduled) && q.queue == old(q.queue)) || old(q.scheduled) < q.scheduled
      invariant Walked(objs, root, expected, q.queue, q.scheduled, q.scheduledIds, verified, edges[k..])
    {
      assert edges[k..] == [edges[k]] + edges[k + 1..];
      r := ScheduleOne(q, edges[k], edges[k + 1..], objs, root, expected, verified);
      if r.Err? {
        return;
      }
      k := k + 1;
    }
    assert edges[k..] == [];
  }

  /** More than `limit` distinct ids are reachable. */
  ghost predicate TooMany(objs: Objects, root: Id, limit: nat) {
    exists s: set<Id> :: |s| > limit && AllReached(objs, root, s)
  }

  ghost predicate AllReached(objs: Objects, root: Id, s: set<Id>) {
    forall x :: x in s ==> Reaches(Links(objs), root, x)
  }

  lemma Overfull(objs: Objects, root: Id, ids: set<Id>, id: Id, limit: nat)
    requires |ids| >= limit && id !in ids
    requires Reaches(Links(objs), root, id) && forall x :: x in ids ==> Reaches(Links(objs), root, x)
    ensures TooMany(objs, root, limit)
  {
    assert |ids + {id}| == |ids| + 1 && AllReached(objs, root, ids + {id});
  }

  lemma TooManyIsExact(objs: Objects, root: Id, expected: ObjectType, limit: nat)
    requires Sound(objs, root, expected) && TooMany(objs, root, limit)
    ensures |ReachSet(objs, root)| > limit
  {
    var s: set<Id> :| |s| > limit && AllReached(objs, root, s);
    forall x | x in s ensures x in ReachSet(objs, root) { SoundHolds(objs, root, expected, x); }
    SubsetCount(s, ReachSet(objs, root));
  }

  /** In a sound graph everything reachable is there. */
  lemma SoundHolds(objs: Objects, root: Id, expected: ObjectType, x: Id)
    requires Sound(objs, root, expected) && Reaches(Links(objs), root, x)
    ensures x in objs
  {
    var g := Links(objs);
    var all := ReachSet(objs, root);
    assert Demanded(objs, root, expected, GraphEdge(root, Exact(expected)));
    assert Met(objs, GraphEdge(root, Exact(expected)));
    ReachesSelf(g, root);
    forall y, z | y in all && Edge(g, y, z) ensures z in all {
      var es := EdgesOf(objs[y]);
      var i :| 0 <= i < |es| && Targets(es)[i] == z;
      assert es[i] in es && Demanded(objs, root, expected, es[i]);
      assert Met(objs, es[i]);
      TargetReached(objs, root, y, es[i]);
    }
    ClosedHoldsReached(g, all, root, x);
  }

  lemma PopVerified(objs: Objects, root: Id, expected: ObjectType, queue: seq<GraphEdge>, scheduled: set<(Id, nat)>,
                    ids: set<Id>, verified: map<Id, ObjectType>, c: GraphEdge)
    requires Walked(objs, root, expected, [c] + queue, scheduled, ids, verified, [])
    requires c.id in verified && Accepts(c.expected, verified[c.id])
    ensures Walked(objs, root, expected, queue, scheduled, ids, verified, [])
  {
    forall e: GraphEdge | (e.id, Key(e.expected)) in scheduled ensures InHand(objs, queue, verified, e) {
      assert InHand(objs, [c] + queue, verified, e);
    }
  }

  lemma VerifyOne(objs: Objects, root: Id, expected: ObjectType, queue: seq<GraphEdge>, scheduled: set<(Id, nat)>,
                  ids: set<Id>, verified: map<Id, ObjectType>, c: GraphEdge)
    requires Walked(objs, root, expected, [c] + queue, scheduled, ids, verified, [])
    requires c.id in objs && c.id !in verified && Accepts(c.expected, TypeOf(objs[c.id]))
    ensures Walked(objs, root, expected, queue, scheduled, ids, verified[c.id := TypeOf(objs[c.id])], EdgesOf(objs[c.id]))
  {
    assert c in [c] + queue;
    DemandedReached(objs, root, expected, c);
    forall e: GraphEdge | (e.id, Key(e.expected)) in scheduled
      ensures InHand(objs, queue, verified[c.id := TypeOf(objs[c.id])], e)
    {
      assert InHand(objs, [c] + queue, verified, e);
    }
  }

  lemma WalkDone(objs: Objects, root: Id, expected: ObjectType, scheduled: set<(Id, nat)>, ids: set<Id>,
                 verified: map<Id, ObjectType>)
    requires Walked(objs, root, expected, [], scheduled, ids, verified, [])
    ensures verified.Keys == ReachSet(objs, root) && Sound(objs, root, expected)
  {
    var g := Links(objs);
    var start := GraphEdge(root, Exact(expected));
    assert InHand(objs, [], verified, start);
    forall y, z | y in verified && Edge(g, y, z) ensures z in verified {
      var es := EdgesOf(objs[y]);
      var i :| 0 <= i < |es| && Targets(es)[i] == z;
      assert es[i] in es;
      assert InHand(objs, [], verified, es[i]);
    }
    forall x | x in objs && Reaches(g, root, x) ensures x in verified {
      ClosedHoldsReached(g, verified.Keys, root, x);
    }
    forall c | Demanded(objs, root, expected, c) ensures Met(objs, c) {
      if c != start {
        var x :| x in objs && Reaches(g, root, x) && c in EdgesOf(objs[x]);
        assert x in verified;
        assert InHand(objs, [], verified, c);
      }
    }
  }

  datatype VerifiedObject = VerifiedObject(id: Id, objectType: ObjectType)

  function IdsOf(out: seq<VerifiedObject>): set<Id> { set i | 0 <= i < |out| :: out[i].id }

  /** The report lists each reachable object once, in id order, with its type. */
  ghost predicate Reports(objs: Objects, root: Id, out: seq<VerifiedObject>) {
    && (forall i, j :: 0 <= i < j < |out| ==> Less(out[i].id, out[j].id))
    && (forall i :: 0 <= i < |out| ==> out[i].id in objs && out[i].objectType == TypeOf(objs[out[i].id]))
    && IdsOf(out) == ReachSet(objs, root)
  }

  /** `reachable_graph_verified`: succeeds exactly on a graph that is wholly there,
      well typed along every edge and within the limit; a refusal for size means
      more than `limit` ids really are reachable. Cycles are no obstacle. */
  method ReachableGraphVerified(objs: Objects, root: Id, expected: ObjectType, limit: nat)
    returns (r: Result<seq<VerifiedObject>>)
    ensures r.Ok? <==> FieldsSound(objs, root, expected) && |ReachSet(objs, root)| <= limit
    ensures r.Ok? ==> Reports(objs, root, r.value) && Answers(objs, root, expected, r.value)
    ensures r == Err(Invalid) ==> TooMany(objs, root, limit)
    ensures r.Err? && r.error != Invalid ==> !FieldsSound(objs, root, expected)
  {
    if Sound(objs, root, expected) { SoundHasFields(objs, root, expected); }
    if FieldsSound(objs, root, expected) { FieldsAreSound(objs, root, expected); }
    var found, verified := Collect(objs, root, expected, limit);
    if found.Err? {
      if Sound(objs, root, expected) { TooManyIsExact(objs, root, expected, limit); }
      return Err(found.error);
    }
    assert |verified| == |verified.Keys|;
    var out := Listed(verified);
    ReportsAnswer(objs, root, expected, out);
    r := Ok(out);
  }

  // ---- the same, by the fields of the objects ------------------------------

  /** The root is there with the type asked of it, and whatever a field of a reachable
      object names is there with the type the field asks for. */
  ghost predicate FieldsSound(objs: Objects, root: Id, expected: ObjectType) {
    && root in objs && HasType(objs[root], expected)
    && forall x, id, e :: LeadsTo(objs, root, x) && x in objs && Asks(objs[x], id, e) ==> There(objs, id, e)
  }

  predicate There(objs: Objects, id: Id, e: Expectation) { id in objs && Suits(e, objs[id]) }

  lemma MetIsThere(objs: Objects, c: GraphEdge)
    ensures Met(objs, c) <==> There(objs, c.id, c.expected)
  {
    if c.id in objs { AcceptsSuits(c.expected, objs[c.id]); }
  }

  /** A demand is the request itself, or a field of an object the root leads to. */
  lemma DemandIsField(objs: Objects, root: Id, expected: ObjectType, c: GraphEdge) returns (x: Id)
    requires Demanded(objs, root, expected, c) && c != GraphEdge(root, Exact(expected))
    ensures x in objs && LeadsTo(objs, root, x) && Asks(objs[x], c.id, c.expected)
  {
    x :| x in objs && Reaches(Links(objs), root, x) && c in EdgesOf(objs[x]);
    LeadsIsReach(objs, root, x);
    EdgesAreFields(objs[x], c);
  }

  lemma FieldIsDemand(objs: Objects, root: Id, expected: ObjectType, x: Id, id: Id, e: Expectation)
    requires LeadsTo(objs, root, x) && x in objs && Asks(objs[x], id, e)
    ensures Demanded(objs, root, expected, GraphEdge(id, e))
  {
    LeadsIsReach(objs, root, x);
    EdgesAreFields(objs[x], GraphEdge(id, e));
  }

  lemma FieldsAreSound(objs: Objects, root: Id, expected: ObjectType)
    requires FieldsSound(objs, root, expected)
    ensures Sound(objs, root, expected)
  {
    forall c | Demanded(objs, root, expected, c) ensures Met(objs, c) {
      MetIsThere(objs, c);
      if c != GraphEdge(root, Exact(expected)) { var x := DemandIsField(objs, root, expected, c); }
    }
  }

  lemma SoundHasFields(objs: Objects, root: Id, expected: ObjectType)
    requires Sound(objs, root, expected)
    ensures FieldsSound(objs, root, expected)
  {
    var start := GraphEdge(root, Exact(expected));
    assert Demanded(objs, root, expected, start);
    MetIsThere(objs, start);
    forall x, id, e | LeadsTo(objs, root, x) && x in objs && Asks(objs[x], id, e) ensures There(objs, id, e) {
      FieldIsDemand(objs, root, expected, x, id, e);
      MetIsThere(objs, GraphEdge(id, e));
    }
  }

  ghost predicate Listing(out: seq<VerifiedObject>, id: Id) { exists j :: 0 <= j < |out| && out[j].id == id }

  /** The list starts from the root, follows every field, names nothing else, and gives
      each object the type it has. */
  ghost predicate Answers(objs: Objects, root: Id, expected: ObjectType, out: seq<VerifiedObject>) {
    && Listing(out, root)
    && (forall i :: 0 <= i < |out| ==> out[i].id in objs && HasType(objs[out[i].id], out[i].objectType))
    && (forall i :: 0 <= i < |out| ==> LeadsTo(objs, root, out[i].id))
    && (forall x, id, e :: Listing(out, x) && x in objs && Asks(objs[x], id, e) ==> Listing(out, id))
  }

  lemma ListsLed(objs: Objects, root: Id, out: seq<VerifiedObject>, x: Id)
    requires Reports(objs, root, out)
    ensures Listing(out, x) <==> x in objs && LeadsTo(objs, root, x)
  {
    LeadsIsReach(objs, root, x);
    assert Listing(out, x) <==> x in IdsOf(out);
  }

  lemma LedOn(objs: Objects, root: Id, x: Id, id: Id, e: Expectation)
    requires LeadsTo(objs, root, x) && x in objs && Asks(objs[x], id, e)
    ensures LeadsTo(objs, root, id)
  {
    LinkIsField(objs, x, id);
    LeadsIsReach(objs, root, x);
    OneEdge(Links(objs), x, id);
    ReachesTransitive(Links(objs), root, x, id);
    LeadsIsReach(objs, root, id);
  }

  lemma ReportsAnswer(objs: Objects, root: Id, expected: ObjectType, out: seq<VerifiedObject>)
    requires Reports(objs, root, out) && FieldsSound(objs, root, expected)
    ensures Answers(objs, root, expected, out)
  {
    ReachesSelf(Links(objs), root);
    LeadsIsReach(objs, root, root);
    ListsLed(objs, root, out, root);
    forall i | 0 <= i < |out| ensures HasType(objs[out[i].id], out[i].objectType) && LeadsTo(objs, root, out[i].id) {
      assert Listing(out, out[i].id);
      ListsLed(objs, root, out, out[i].id);
    }
    forall x, id, e | Listing(out, x) && x in objs && Asks(objs[x], id, e) ensures Listing(out, id) {
      ListsLed(objs, root, out, x);
      LedOn(objs, root, x, id, e);
      assert There(objs, id, e);
      ListsLed(objs, root, out, id);
    }
  }

  method Listed(verified: map<Id, ObjectType>) returns (out: seq<VerifiedObject>)
    ensures forall i, j :: 0 <= i < j < |out| ==> Less(out[i].id, out[j].id)
    ensures forall i :: 0 <= i < |out| ==> out[i].id in verified && out[i].objectType == verified[out[i].id]
    ensures IdsOf(out) == verified.Keys
  {
    var ids := SortNames(verified.Keys);
    out := seq(|ids|, i requires 0 <= i < |ids| && ids[i] in verified => VerifiedObject(ids[i], verified[ids[i]]));
    forall x | x in verified ensures x in IdsOf(out) {
      var i :| 0 <= i < |ids| && ids[i] == x;
      assert out[i].id == x;
    }
  }

  method Collect(objs: Objects, root: Id, expected: ObjectType, limit: nat)
    returns (r: Result<bool>, verified: map<Id, ObjectType>)
    ensures r.Ok? ==>
      && Sound(objs, root, expected) && verified.Keys == ReachSet(objs, root) && |verified| <= limit
      && forall id :: id in verified ==> verified[id] == TypeOf(objs[id])
    ensures r == Err(Invalid) ==> TooMany(objs, root, limit)
    ensures r.Err? && r.error != Invalid ==> !Sound(objs, root, expected)
  {
    verified := map[];
    var q;
    q, r := Start(objs, root, expected, limit, verified);
    if r.Err? {
      return;
    }
    while q.queue != []
      invariant fresh(q) && q.Valid() && q.limit == limit && |verified| <= limit && r.Ok?
      invariant Walked(objs, root, expected, q.queue, q.scheduled, q.scheduledIds, verified, [])
      decreases 8 * limit - |q.scheduled|, |q.queue|
    {
      q.Bounded();
      r, verified := Visit(q, objs, root, expected, verified);
      if r.Err? {
        return;
      }
      q.Bounded();
    }
    WalkDone(objs, root, expected, q.scheduled, q.scheduledIds, verified);
  }

  method Start(ghost objs: Objects, root: Id, expected: ObjectType, limit: nat, ghost verified: map<Id, ObjectType>)
    returns (q: GraphWorkQueue, r: Result<bool>)
    requires verified == map[]
    ensures fresh(q) && q.Valid() && q.limit == limit
    ensures r.Ok? ==> Walked(objs, root, expected, q.queue, q.scheduled, q.scheduledIds, verified, [])
    ensures r.Err? ==> r.error == Invalid && TooMany(objs, root, limit)
  {
    q := new GraphWorkQueue(limit);
    ReachesSelf(Links(objs), root);
    var start := GraphEdge(root, Exact(expected));
    r := q.Schedule(start);
    if r.Err? {
      ghost var none: set<Id> := {};
      Overfull(objs, root, none, root, limit);
      return;
    }
    assert r.value;
    StartWalk(objs, root, expected, q.queue, q.scheduled, q.scheduledIds, verified, []);
  }

  /** One turn of the walk: take an edge, check it, and queue what lies behind it. */
  method Visit(q: GraphWorkQueue, objs: Objects, ghost root: Id, ghost expected: ObjectType, verified0: map<Id, ObjectType>)
    returns (r: Result<bool>, verified: map<Id, ObjectType>)
    requires q.Valid() && q.queue != [] && |verified0| <= q.limit
    requires Walked(objs, root, expected, q.queue, q.scheduled, q.scheduledIds, verified0, [])
    modifies q
    ensures q.Valid()
    ensures (|q.scheduled| == |old(q.scheduled)| && |q.queue| < |old(q.queue)|) || |q.scheduled| > |old(q.scheduled)|
    ensures r.Ok? ==> |verified| <= q.limit
    ensures r.Ok? ==> Walked(objs, root, expected, q.queue, q.scheduled, q.scheduledIds, verified, [])
    ensures r == Err(Invalid) ==> TooMany(objs, root, q.limit)
    ensures r.Err? && r.error != Invalid ==> !Sound(objs, root, expected)
  {
    verified := verified0;
    ghost var seen := q.scheduled;
    var next := q.PopFront();
    var edge := next.value;
    assert edge in [edge] + q.queue;
    assert Demanded(objs, root, expected, edge);
    if edge.id in verified {
      if !Accepts(edge.expected, verified[edge.id]) {
        assert !Met(objs, edge);
        return Err(Corrupt), verified;
      }
      PopVerified(objs, root, expected, q.queue, q.scheduled, q.scheduledIds, verified, edge);
      return Ok(true), verified;
    }
    if |verified| >= q.limit {
      DemandedReached(objs, root, expected, edge);
      assert |verified.Keys| == |verified|;
      Overfull(objs, root, verified.Keys, edge.id, q.limit);
      return Err(Invalid), verified;
    }
    if edge.id !in objs || !Accepts(edge.expected, TypeOf(objs[edge.id])) {
      assert !Met(objs, edge);
      return Err(Corrupt), verified;
    }
    VerifyOne(objs, root, expected, q.queue, q.scheduled, q.scheduledIds, verified, edge);
    verified := verified[edge.id := TypeOf(objs[edge.id])];
    r := ScheduleAll(q, EdgesOf(objs[edge.id]), objs, root, expected, verified);
    if seen < q.scheduled { SubsetCount(seen, q.scheduled); }
  }

  lemma StartWalk(objs: Objects, root: Id, expected: ObjectType, queue: seq<GraphEdge>, scheduled: set<(Id, nat)>,
                  ids: set<Id>, verified: map<Id, ObjectType>, rest: seq<GraphEdge>)
    requires queue == [GraphEdge(root, Exact(expected))] && scheduled == {(root, Key(Exact(expected)))}
    requires ids == {root} && verified == map[] && rest == []
    ensures Walked(objs, root, expected, queue, scheduled, ids, verified, rest)
  {
    ReachesSelf(Links(objs), root);
    forall c: GraphEdge | (c.id, Key(c.expected)) in scheduled ensures InHand(objs, queue, verified, c) {
      KeyInjective(c.expected, Exact(expected));
    }
  }
}
