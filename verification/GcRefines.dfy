/** One collection is one sweep of the machine of writers and sweeps. */
module GcRefines {
  import opened Names
  import opened Reach
  import ObjectGraph
  import Sweep
  import W = GcWriters

  type Id = W.Id

  /** The machine's state as the locked part of a collection finds it. */
  ghost predicate Finds(f: Sweep.Files, roots: seq<ObjectGraph.GraphEdge>, s: W.State) {
    && s.sweep.None? && s.now == f.now && s.disk.Keys == f.present
    && (forall x :: x in s.disk && x in f.mtime ==> s.disk[x] == f.mtime[x])
    && (forall x :: x in s.roots <==> x in ObjectGraph.Targets(roots))
  }

  function Kept(disk: map<Id, int>, left: set<Id>): map<Id, int> { map x | x in disk && x in left :: disk[x] }

  predicate IsSweep(a: W.Action) { a.SweepBegin? || a.SweepDoom? || a.SweepUnlink? || a.SweepEnd? }

  /** What the machine asks of an object before a sweep dooms it. */
  ghost predicate Doomable(g: Graph, s: W.State, minAge: int, x: Id) {
    x in s.disk && !W.Rooted(g, s.roots, x) && s.now - s.disk[x] >= minAge
  }

  lemma RootedIsFromRoots(objs: ObjectGraph.Objects, f: Sweep.Files, roots: seq<ObjectGraph.GraphEdge>, s: W.State, x: Id)
    requires Finds(f, roots, s)
    ensures W.Rooted(ObjectGraph.Links(objs), s.roots, x) <==> Sweep.FromRoots(objs, roots, x)
  {
    var g := ObjectGraph.Links(objs);
    if W.Rooted(g, s.roots, x) {
      var r :| r in s.roots && Reaches(g, r, x);
      var i :| 0 <= i < |roots| && ObjectGraph.Targets(roots)[i] == r;
      assert roots[i] in roots;
    }
    if Sweep.FromRoots(objs, roots, x) {
      var c :| c in roots && Reaches(g, c.id, x);
      var i :| 0 <= i < |roots| && roots[i] == c;
      assert ObjectGraph.Targets(roots)[i] == c.id;
    }
  }

  lemma GoneIsDoomable(objs: ObjectGraph.Objects, f: Sweep.Files, scanned: seq<Id>, roots: seq<ObjectGraph.GraphEdge>,
                       minAge: nat, left: set<Id>, s: W.State, x: Id)
    requires Finds(f, roots, s) && Sweep.TakesOnlyOld(f, scanned, minAge, left) && Sweep.SparesRooted(objs, f, roots, left)
    requires x in f.present && x !in left
    ensures minAge >= Sweep.GC_COLLECT_MIN_AGE_FLOOR && Doomable(ObjectGraph.Links(objs), s, minAge, x)
  {
    RootedIsFromRoots(objs, f, roots, s, x);
  }

  /** Inside a sweep, doom and unlink one by one. */
  lemma {:induction false} TakeEach(r: W.Rule, g: Graph, s: W.State, xs: seq<W.Action>, t: W.State, minAge: int, gone: set<Id>)
    returns (ys: seq<W.Action>, u: W.State)
    requires W.Leads(r, g, s, xs, t) && (forall a :: a in xs ==> IsSweep(a))
    requires t.sweep == Some(W.Sweep(minAge, t.now, {}))
    requires forall x :: x in gone ==> Doomable(g, t, minAge, x)
    ensures W.Leads(r, g, s, ys, u) && (forall a :: a in ys ==> IsSweep(a))
    ensures u == t.(disk := t.disk - gone)
    decreases gone
  {
    if gone == {} {
      ys, u := xs, t;
      assert t.disk - gone == t.disk;
    } else {
      var x :| x in gone;
      var u1, u2;
      assert Doomable(g, t, minAge, x);
      ys, u1 := W.Last(r, g, s, xs, t, W.SweepDoom(x));
      ys, u2 := W.Last(r, g, s, ys, u1, W.SweepUnlink(x));
      assert u2 == t.(disk := t.disk - {x});
      forall y | y in gone - {x} ensures Doomable(g, u2, minAge, y) { assert Doomable(g, t, minAge, y); }
      ys, u := TakeEach(r, g, s, ys, u2, minAge, gone - {x});
      assert t.disk - {x} - (gone - {x}) == t.disk - gone;
    }
  }

  /** Whatever a collection that takes only old, unrooted objects unlinks, completed or
      stopped half way, some sweep of the machine unlinks, within every rule whose floor
      the collector enforces. */
  lemma CollectIsSweep(r: W.Rule, objs: ObjectGraph.Objects, f: Sweep.Files, scanned: seq<Id>,
                       roots: seq<ObjectGraph.GraphEdge>, minAge: nat, left: set<Id>, s: W.State)
    returns (acts: seq<W.Action>)
    requires r.floor <= Sweep.GC_COLLECT_MIN_AGE_FLOOR && Finds(f, roots, s)
    requires Sweep.TakesOnlyOld(f, scanned, minAge, left) && Sweep.SparesRooted(objs, f, roots, left)
    ensures W.Leads(r, ObjectGraph.Links(objs), s, acts, s.(disk := Kept(s.disk, left)))
    ensures forall a :: a in acts ==> IsSweep(a)
  {
    var g := ObjectGraph.Links(objs);
    var gone := set x | x in f.present && x !in left;
    forall x | x in gone ensures minAge >= Sweep.GC_COLLECT_MIN_AGE_FLOOR && Doomable(g, s, minAge, x) {
      GoneIsDoomable(objs, f, scanned, roots, minAge, left, s, x);
    }
    assert s.disk - gone == Kept(s.disk, left);
    acts := [];
    assert W.Leads(r, g, s, acts, s);
    if gone == {} {
      assert s.disk - gone == s.disk;
    } else {
      var u: W.State;
      acts, u := W.Last(r, g, s, acts, s, W.SweepBegin(minAge));
      forall x | x in gone ensures Doomable(g, u, minAge, x) { assert Doomable(g, s, minAge, x); }
      acts, u := TakeEach(r, g, s, acts, u, minAge, gone);
      acts, u := W.Last(r, g, s, acts, u, W.SweepEnd);
    }
  }
}
