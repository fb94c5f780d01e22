/** When a completed collection can leave a survivor without a child it had. */
module SweepGaps {
  import opened FiniteSets
  import opened Reach
  import opened ObjectGraph
  import opened GraphWalk
  import opened Sweep

  ghost predicate LosesChild(p: Plan, x: Id, y: Id) {
    && x in p.scanned && x in Remaining(p)
    && y in Leads(p.objs, x) && y in p.files.present && y !in Remaining(p)
  }

  /** Some graph and some roots make a completed collection over these files take a
      child from a survivor. */
  ghost predicate GapPossible(f: Files, scanned: seq<Id>, minAge: nat) {
    exists p, x, y :: OverFiles(p, f, scanned, minAge) && Completes(p) && LosesChild(p, x, y)
  }

  /** A collection over these files; whatever can be read is among them. */
  ghost predicate OverFiles(p: Plan, f: Files, scanned: seq<Id>, minAge: nat) {
    && p.files == f && p.scanned == scanned && p.minAge == minAge
    && forall x :: x in p.objs ==> x in f.present
  }

  /** `x` is there but cannot be statted; `y` is old and can be unlinked. */
  predicate BlindTo(f: Files, scanned: seq<Id>, minAge: nat, x: Id, y: Id) {
    && x in scanned && x in f.present && !Statable(f, x)
    && y in scanned && Offered(f, minAge, y) && y !in f.stuck
  }

  predicate Distinct(ids: seq<Id>) { forall i, j :: 0 <= i < j < |ids| ==> ids[i] != ids[j] }

  /** A scan lists each file once. Over such a scan no survivor loses a child, whatever
      the graph and the roots, exactly when no scanned file is hidden from stat or
      nothing old can be taken. */
  lemma GapIff(f: Files, scanned: seq<Id>, minAge: nat)
    requires Distinct(scanned)
    ensures GapPossible(f, scanned, minAge) <==>
              minAge >= GC_COLLECT_MIN_AGE_FLOOR && exists x, y :: BlindTo(f, scanned, minAge, x, y)
  {
    if GapPossible(f, scanned, minAge) {
      var p, x, y :| OverFiles(p, f, scanned, minAge) && Completes(p) && LosesChild(p, x, y);
      GapIsBlind(p, x, y);
    }
    if x, y :| minAge >= GC_COLLECT_MIN_AGE_FLOOR && BlindTo(f, scanned, minAge, x, y) {
      BlindLoses(f, scanned, minAge, x, y);
      assert OverFiles(Alone(f, scanned, minAge, x, y), f, scanned, minAge);
    }
  }

  /** Whoever loses a child could not be statted and is protected by nothing. */
  lemma GapIsBlind(p: Plan, x: Id, y: Id)
    requires Completes(p) && LosesChild(p, x, y)
    ensures BlindTo(p.files, p.scanned, p.minAge, x, y) && !Protected(p, x)
  {
    RemainingNoGap(p);
    assert !KeepsChildren(p.objs, p.files, Remaining(p), x);
    assert Taken(p, y) && y in Candidates(p);
    if Protected(p, x) { ProtectedChild(p, x, y); }
  }

  // ---- every blind file can lose every old one -----------------------------

  /** `x` is a tree holding `y`; every other scanned file that is there is a rooted blob. */
  function Alone(f: Files, scanned: seq<Id>, minAge: nat, x: Id, y: Id): Plan {
    Plan(map z | z in scanned && z in f.present :: if z == x then TreeObject([(Blob, y)]) else BlobObject,
         f, scanned, [], AllOf(Without(scanned, {x, y} + Missing(f, scanned)), Any), minAge, |scanned|)
  }

  function Missing(f: Files, scanned: seq<Id>): set<Id> { set z | z in scanned && z !in f.present }

  function Others(f: Files, scanned: seq<Id>, x: Id, y: Id): set<Id> {
    set z | z in scanned && z in f.present && z != x && z != y
  }

  lemma {:induction false} WithoutHolds(ids: seq<Id>, gone: set<Id>)
    ensures forall z :: z in Without(ids, gone) <==> z in ids && z !in gone
  {
    if ids != [] {
      assert ids == ids[..|ids| - 1] + [ids[|ids| - 1]];
      WithoutHolds(ids[..|ids| - 1], gone);
    }
  }

  lemma AloneRoots(f: Files, scanned: seq<Id>, minAge: nat, x: Id, y: Id, z: Id)
    requires x in scanned && y in scanned
    ensures z in Targets(Alone(f, scanned, minAge, x, y).roots) <==> z in Others(f, scanned, x, y)
  {
    var rest := Without(scanned, {x, y} + Missing(f, scanned));
    var roots := Alone(f, scanned, minAge, x, y).roots;
    WithoutHolds(scanned, {x, y} + Missing(f, scanned));
    assert |Targets(roots)| == |rest| && forall i :: 0 <= i < |rest| ==> Targets(roots)[i] == rest[i];
    if z in rest {
      var i :| 0 <= i < |rest| && rest[i] == z;
      assert Targets(roots)[i] == z;
    }
  }

  /** The roots lead to the other files and no further. */
  lemma AloneReach(f: Files, scanned: seq<Id>, minAge: nat, x: Id, y: Id, z: Id)
    requires x in scanned && y in scanned
    ensures FromRoots(Alone(f, scanned, minAge, x, y).objs, Alone(f, scanned, minAge, x, y).roots, z) <==> z in Others(f, scanned, x, y)
  {
    var p := Alone(f, scanned, minAge, x, y);
    var g := Links(p.objs);
    var others := Others(f, scanned, x, y);
    if FromRoots(p.objs, p.roots, z) {
      var r :| r in p.roots && Reaches(g, r.id, z);
      var i :| 0 <= i < |p.roots| && p.roots[i] == r;
      assert Targets(p.roots)[i] == r.id;
      AloneRoots(f, scanned, minAge, x, y, r.id);
      ClosedHoldsReached(g, others, r.id, z);
    }
    if z in others {
      AloneRoots(f, scanned, minAge, x, y, z);
      var i :| 0 <= i < |p.roots| && Targets(p.roots)[i] == z;
      assert p.roots[i] in p.roots && p.roots[i].id == z;
      ReachesSelf(g, z);
    }
  }

  lemma AloneWalks(f: Files, scanned: seq<Id>, minAge: nat, x: Id, y: Id, start: set<Id>)
    requires x in scanned && y in scanned
    ensures Walkable(Alone(f, scanned, minAge, x, y).objs, Alone(f, scanned, minAge, x, y).roots, start, |scanned|)
  {
    var p := Alone(f, scanned, minAge, x, y);
    var all := set z | z in scanned;
    forall z | FromRoots(p.objs, p.roots, z) ensures z in p.objs { AloneReach(f, scanned, minAge, x, y, z); }
    forall z | z in DueSet(p.objs, p.roots, start) ensures z in all {
      if z in Targets(p.roots) {
        AloneRoots(f, scanned, minAge, x, y, z);
      } else {
        var o :| o in p.objs && o !in start && FromRoots(p.objs, p.roots, o) && z in Targets(EdgesOf(p.objs[o]));
        AloneReach(f, scanned, minAge, x, y, o);
      }
    }
    AtMostListed(scanned);
    SubsetCount(DueSet(p.objs, p.roots, start), all);
  }

  lemma NothingFromNowhere(objs: Objects, start: set<Id>, limit: nat)
    ensures Reached(objs, []) == {} && Walkable(objs, [], start, limit)
  {
    forall x ensures !FromRoots(objs, [], x) { }
    assert Targets([]) == [];
    assert DueSet(objs, [], start) == {};
  }

  /** In a list without repetitions the only old file is listed alone. */
  lemma {:induction false} OnlyOld(f: Files, minAge: nat, ids: seq<Id>, reachable: set<Id>, y: Id)
    requires Distinct(ids) && forall z :: z in ids && z !in reachable && Offered(f, minAge, z) ==> z == y
    ensures Old(f, minAge, ids, reachable) == [] || Old(f, minAge, ids, reachable) == [y]
  {
    if ids != [] {
      var rest := ids[..|ids| - 1];
      assert ids == rest + [ids[|ids| - 1]];
      OnlyOld(f, minAge, rest, reachable, y);
      if ids[|ids| - 1] == y { assert y !in rest; }
    }
  }

  lemma AloneLive(f: Files, scanned: seq<Id>, minAge: nat, x: Id, y: Id)
    requires x in scanned && y in scanned
    ensures Live(Alone(f, scanned, minAge, x, y)) == Others(f, scanned, x, y)
  {
    var p := Alone(f, scanned, minAge, x, y);
    NothingFromNowhere(p.objs, {}, 0);
    forall z ensures z in Live(p) <==> z in Others(f, scanned, x, y) {
      ReachedMeaning(p.objs, p.roots, z);
      AloneReach(f, scanned, minAge, x, y, z);
    }
  }

  lemma AloneTakes(f: Files, scanned: seq<Id>, minAge: nat, x: Id, y: Id, z: Id)
    requires Distinct(scanned) && BlindTo(f, scanned, minAge, x, y)
    ensures Taken(Alone(f, scanned, minAge, x, y), z) <==> z == y
  {
    var p := Alone(f, scanned, minAge, x, y);
    AloneLive(f, scanned, minAge, x, y);
    OnlyOld(f, minAge, scanned, Live(p), y);
    assert y in Candidates(p);
    assert Candidates(p) == [y] && Overflow(Candidates(p)) == [];
    forall s ensures !SparedBy(p, s) {
      assert s in scanned && s in f.present && s !in Live(p) ==> s == x || s == y;
    }
  }

  lemma BlindLoses(f: Files, scanned: seq<Id>, minAge: nat, x: Id, y: Id)
    requires Distinct(scanned) && minAge >= GC_COLLECT_MIN_AGE_FLOOR && BlindTo(f, scanned, minAge, x, y)
    ensures Completes(Alone(f, scanned, minAge, x, y)) && LosesChild(Alone(f, scanned, minAge, x, y), x, y)
  {
    var p := Alone(f, scanned, minAge, x, y);
    NothingFromNowhere(p.objs, {}, p.limit);
    AloneWalks(f, scanned, minAge, x, y, Reached(p.objs, p.early));
    forall z ensures Taken(p, z) <==> z == y { AloneTakes(f, scanned, minAge, x, y, z); }
    assert EdgesOf(p.objs[x])[0].id == y;
    assert Targets(EdgesOf(p.objs[x]))[0] == y;
  }
}
