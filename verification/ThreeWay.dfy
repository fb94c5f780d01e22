/** The published three-way merge: its answer, its symmetry, and what a scoped
    resolution of its conflicts may change. */
module ThreeWay {
  import opened Names
  import opened Trees
  import opened Merge
  import opened Walk
  import opened MergeRun
  import opened Renames

  // ---- exact_rename_conflicts ----------------------------------------------

  function Identities(m: map<Path, TreeEntry>): set<Identity> { set p | p in m :: IdentityOf(m[p]) }

  /** Counting only identities that one side both deleted and added is enough. */
  lemma MovedIsRenamed(base: Tree, side: Tree, deleted: map<Path, TreeEntry>, added: map<Path, TreeEntry>,
                       wanted: set<Identity>, counts: map<Identity, nat>, p: Path, d: Path)
    requires WfTree(base)
    requires forall q :: q in deleted <==> Deleted(base, side, q)
    requires forall q :: q in added <==> Added(base, side, q)
    requires TrueEntries(base, deleted) && TrueEntries(side, added)
    requires Identities(deleted) * Identities(added) <= wanted && counts.Keys <= wanted
    requires forall i :: i in wanted ==> CountOf(counts, i) == Cap2(CountIn(base.entries, i))
    ensures MovedTo(deleted, added, counts, p, d) <==> RenamedTo(base, side, p, d)
  {
    RenamedIsByIdentity(base, side, p, d);
    if p in deleted {
      var i := IdentityOf(deleted[p]);
      CountOne(base, i);
      forall e | e in added ensures Holds(side, e, i) <==> IdentityOf(added[e]) == i {
        assert EntryAt(side, e) == Some(added[e]);
      }
      assert EntryAt(base, p) == Some(deleted[p]);
      if d in added && IdentityOf(added[d]) == i {
        assert i in Identities(deleted) && i in Identities(added);
        assert i in wanted;
      }
    }
  }

  ghost predicate Infers(base: Tree, side: Tree, renames: map<Path, Path>) {
    forall p, d :: (p in renames && renames[p] == d) <==> RenamedTo(base, side, p, d)
  }

  lemma InferenceIsExact(base: Tree, side: Tree, deleted: map<Path, TreeEntry>, added: map<Path, TreeEntry>,
                         wanted: set<Identity>, counts: map<Identity, nat>, renames: map<Path, Path>)
    requires WfTree(base)
    requires forall q :: q in deleted <==> Deleted(base, side, q)
    requires forall q :: q in added <==> Added(base, side, q)
    requires TrueEntries(base, deleted) && TrueEntries(side, added)
    requires Identities(deleted) * Identities(added) <= wanted && counts.Keys <= wanted
    requires forall i :: i in wanted ==> CountOf(counts, i) == Cap2(CountIn(base.entries, i))
    requires forall p, d :: (p in renames && renames[p] == d) <==> MovedTo(deleted, added, counts, p, d)
    ensures Infers(base, side, renames)
  {
    forall p, d ensures (p in renames && renames[p] == d) <==> RenamedTo(base, side, p, d) {
      MovedIsRenamed(base, side, deleted, added, wanted, counts, p, d);
    }
  }

  /** Sources both sides removed where an exact rename is involved and the
      destinations differ. */
  method ExactRenameConflicts(base: ObjectId, ours: ObjectId, theirs: ObjectId) returns (found: seq<ConflictPath>)
    requires WfId(base) && WfId(ours) && WfId(theirs)
    ensures Lists(found, RenameReports(base.tree, ours.tree, theirs.tree))
    ensures DistinctPaths(found)
  {
    var od, oa := TreeChanges(base, ours);
    var td, ta := TreeChanges(base, theirs);
    var wanted := Identities(od) * Identities(oa) + Identities(td) * Identities(ta);
    var counts := CountBaseIdentities(base, wanted);
    var or := InferExactRenames(od, oa, counts);
    var tr := InferExactRenames(td, ta, counts);
    InferenceIsExact(base.tree, ours.tree, od, oa, wanted, counts, or);
    InferenceIsExact(base.tree, theirs.tree, td, ta, wanted, counts, tr);
    found := CollectRenames(base.tree, ours.tree, theirs.tree, od, td, or, tr);
  }

  ghost predicate Collected(base: Tree, ours: Tree, theirs: Tree, done: set<Path>, found: seq<ConflictPath>) {
    forall c :: c in found <==> c.path in done && RenameReport(base, ours, theirs, c)
  }

  ghost predicate RenameReport(base: Tree, ours: Tree, theirs: Tree, c: ConflictPath) {
    RenameConflict(base, ours, theirs, c.path) && c == ConflictAt([], Some(base), ours, theirs, c.path)
  }

  method CollectRenames(ghost base: Tree, ghost ours: Tree, ghost theirs: Tree,
                        od: map<Path, TreeEntry>, td: map<Path, TreeEntry>, or: map<Path, Path>, tr: map<Path, Path>)
    returns (found: seq<ConflictPath>)
    requires forall q :: q in od <==> Deleted(base, ours, q)
    requires forall q :: q in td <==> Deleted(base, theirs, q)
    requires TrueEntries(base, od) && Infers(base, ours, or) && Infers(base, theirs, tr)
    ensures Lists(found, RenameReports(base, ours, theirs))
    ensures DistinctPaths(found)
  {
    found := [];
    var rest := od.Keys;
    while rest != {}
      invariant rest <= od.Keys && DistinctPaths(found)
      invariant Collected(base, ours, theirs, od.Keys - rest, found)
      decreases rest
    {
      var source :| source in rest;
      ghost var before := found;
      ghost var done := od.Keys - rest;
      DestinationsDecide(base, ours, theirs, or, tr, source);
      if source in td && (source in or || source in tr)
         && !(source in or && source in tr && or[source] == tr[source]) {
        DeletedReport(base, ours, theirs, source, od[source]);
        found := found + [ConflictPath(source, None, None, Some(od[source].id))];
      }
      CollectOne(base, ours, theirs, done, source, before, found);
      rest := rest - {source};
      assert od.Keys - rest == done + {source};
    }
    AllCollected(base, ours, theirs, od.Keys, found);
  }

  lemma CollectOne(base: Tree, ours: Tree, theirs: Tree, done: set<Path>, source: Path,
                   before: seq<ConflictPath>, after: seq<ConflictPath>)
    requires Collected(base, ours, theirs, done, before) && DistinctPaths(before) && source !in done
    requires after == if RenameConflict(base, ours, theirs, source)
                      then before + [ConflictAt([], Some(base), ours, theirs, source)] else before
    ensures Collected(base, ours, theirs, done + {source}, after) && DistinctPaths(after)
  {
    var c := ConflictAt([], Some(base), ours, theirs, source);
    assert c.path == source by { assert [] + source == source; }
    if RenameConflict(base, ours, theirs, source) {
      assert RenameReport(base, ours, theirs, c);
      AppendDistinct(done, before, c, after);
    }
    forall x ensures x in after <==> x.path in done + {source} && RenameReport(base, ours, theirs, x) {
      if x.path == source && RenameReport(base, ours, theirs, x) { assert x == c; }
    }
  }

  lemma AppendDistinct(done: set<Path>, before: seq<ConflictPath>, c: ConflictPath, after: seq<ConflictPath>)
    requires DistinctPaths(before) && (forall x :: x in before ==> x.path in done) && c.path !in done
    requires after == before + [c]
    ensures DistinctPaths(after) && forall x :: x in after <==> x in before || x == c
  {
    assert forall k :: 0 <= k < |before| ==> before[k] in before && after[k] == before[k];
  }

  lemma AllCollected(base: Tree, ours: Tree, theirs: Tree, done: set<Path>, found: seq<ConflictPath>)
    requires forall q :: q in done <==> Deleted(base, ours, q)
    requires Collected(base, ours, theirs, done, found)
    ensures Lists(found, RenameReports(base, ours, theirs))
  {
    forall c ensures c in RenameReports(base, ours, theirs) <==> c.path in done && RenameReport(base, ours, theirs, c) {
      assert forall p: Path :: [] + p == p;
    }
  }

  lemma DestinationsDecide(base: Tree, ours: Tree, theirs: Tree, or: map<Path, Path>, tr: map<Path, Path>, p: Path)
    requires forall d :: (p in or && or[p] == d) <==> RenamedTo(base, ours, p, d)
    requires forall d :: (p in tr && tr[p] == d) <==> RenamedTo(base, theirs, p, d)
    ensures RenameConflict(base, ours, theirs, p) <==>
      && Deleted(base, ours, p) && Deleted(base, theirs, p)
      && (p in or || p in tr) && !(p in or && p in tr && or[p] == tr[p])
  {
    if p in or { assert RenamedTo(base, ours, p, or[p]); }
    if p in tr { assert RenamedTo(base, theirs, p, tr[p]); }
  }

  lemma DeletedReport(base: Tree, ours: Tree, theirs: Tree, p: Path, e: TreeEntry)
    requires Deleted(base, ours, p) && Deleted(base, theirs, p) && EntryAt(base, p) == Some(e)
    ensures ConflictAt([], Some(base), ours, theirs, p) == ConflictPath(p, None, None, Some(e.id))
  {
    assert [] + p == p;
  }

  // ---- the sorted answer ---------------------------------------------------

  predicate SortedByPath(s: seq<ConflictPath>) {
    forall i, j :: 0 <= i < j < |s| ==> Less(Join(s[i].path), Join(s[j].path))
  }

  predicate ValidPaths(s: seq<ConflictPath>) { forall i :: 0 <= i < |s| ==> ValidPath(s[i].path) }

  method InsertConflict(s: seq<ConflictPath>, c: ConflictPath) returns (r: seq<ConflictPath>)
    requires SortedByPath(s) && ValidPaths(s) && ValidPath(c.path)
    requires forall i :: 0 <= i < |s| ==> s[i].path != c.path
    ensures SortedByPath(r) && ValidPaths(r)
    ensures forall x :: x in r <==> x == c || x in s
  {
    var i := 0;
    while i < |s| && Less(Join(s[i].path), Join(c.path))
      invariant 0 <= i <= |s|
      invariant forall k :: 0 <= k < i ==> Less(Join(s[k].path), Join(c.path))
    {
      i := i + 1;
    }
    Placed(s, c, i);
    r := s[..i] + [c] + s[i..];
  }

  lemma Placed(s: seq<ConflictPath>, c: ConflictPath, i: nat)
    requires SortedByPath(s) && ValidPaths(s) && ValidPath(c.path) && i <= |s|
    requires forall k :: 0 <= k < |s| ==> s[k].path != c.path
    requires forall k :: 0 <= k < i ==> Less(Join(s[k].path), Join(c.path))
    requires i < |s| ==> !Less(Join(s[i].path), Join(c.path))
    ensures var r := s[..i] + [c] + s[i..];
      SortedByPath(r) && ValidPaths(r) && forall x :: x in r <==> x == c || x in s
  {
    forall k | i <= k < |s| ensures Less(Join(c.path), Join(s[k].path)) {
      if Join(s[i].path) == Join(c.path) { JoinInjective(s[i].path, c.path); }
      LessTrichotomy(Join(s[i].path), Join(c.path));
      if i < k { LessTransitive(Join(c.path), Join(s[i].path), Join(s[k].path)); }
    }
    assert s == s[..i] + s[i..];
  }

  /** `paths.sort_by(path)`. */
  method SortConflicts(s: seq<ConflictPath>) returns (r: seq<ConflictPath>)
    requires DistinctPaths(s) && ValidPaths(s)
    ensures SortedByPath(r)
    ensures forall x :: x in r <==> x in s
  {
    r := [];
    var k := 0;
    while k < |s|
      invariant 0 <= k <= |s| && SortedByPath(r) && ValidPaths(r)
      invariant forall x :: x in r <==> x in s[..k]
    {
      forall i | 0 <= i < |r| ensures r[i].path != s[k].path {
        assert r[i] in s[..k];
      }
      r := InsertConflict(r, s[k]);
      assert s[..k + 1] == s[..k] + [s[k]];
      k := k + 1;
    }
    assert s[..k] == s;
  }

  lemma {:induction false} EntryPathValid(t: Tree, p: Path)
    requires WfTree(t) && EntryAt(t, p).Some?
    ensures ValidPath(p)
    decreases |p|
  {
    if |p| == 1 {
      WfGet(t, p[0]);
    } else {
      WfGet(t, p[0]);
      EntryPathValid(Subtree(Get(t, p[0])).value, p[1..]);
      assert p == [p[0]] + p[1..];
    }
  }

  /** Everything a merge of these trees reports: disagreements and renames. */
  ghost function AllReports(base: Option<Tree>, ours: Tree, theirs: Tree): iset<ConflictPath> {
    TreeReports([], base, ours, theirs)
    + (if base.Some? then RenameReports(base.value, ours, theirs) else iset{})
  }

  /** The answer of `auto_merge_tree`: the merged tree, and the reports in path order. */
  ghost predicate IsAutoMerge(base: Option<Tree>, ours: Tree, theirs: Tree, tree: Tree, paths: seq<ConflictPath>) {
    && tree == MergeTree(base, ours, theirs)
    && SortedByPath(paths)
    && Lists(paths, AllReports(base, ours, theirs))
  }

  lemma ReportsAreValidPaths(base: Option<Tree>, ours: Tree, theirs: Tree, c: ConflictPath)
    requires (base.Some? ==> WfTree(base.value)) && WfTree(ours) && WfTree(theirs)
    requires c in AllReports(base, ours, theirs)
    ensures ValidPath(c.path)
    ensures IsConflict(base, ours, theirs, c.path) || (base.Some? && RenameConflict(base.value, ours, theirs, c.path))
    ensures c == ConflictAt([], base, ours, theirs, c.path)
  {
    if c in TreeReports([], base, ours, theirs) {
      var p := ConflictOfReport(base, ours, theirs, c);
      ConflictPathValid(base, ours, theirs, p);
    } else {
      var p := RenamePath(base.value, ours, theirs, c);
      RenamePathValid(base.value, ours, theirs, p);
    }
  }

  lemma ConflictPathValid(base: Option<Tree>, ours: Tree, theirs: Tree, p: Path)
    requires WfTree(ours) && WfTree(theirs) && IsConflict(base, ours, theirs, p)
    ensures ValidPath(p)
  {
    if EntryAt(ours, p).Some? { EntryPathValid(ours, p); } else { EntryPathValid(theirs, p); }
  }

  lemma RenamePathValid(base: Tree, ours: Tree, theirs: Tree, p: Path)
    requires WfTree(base) && RenameConflict(base, ours, theirs, p)
    ensures ValidPath(p)
  {
    EntryPathValid(base, p);
  }

  /** The two kinds of report never name one path. */
  lemma RenameIsNoDisagreement(base: Tree, ours: Tree, theirs: Tree, p: Path)
    requires RenameConflict(base, ours, theirs, p)
    ensures !IsConflict(Some(base), ours, theirs, p)
  {
  }

  /** `auto_merge_tree`. */
  method AutoMergeTree(base: Option<ObjectId>, ours: ObjectId, theirs: ObjectId)
    returns (r: Result<ObjectId>, paths: seq<ConflictPath>)
    requires WfBase(base) && WfId(ours) && WfId(theirs)
    ensures r == MergeResult(TreeOf(base), ours.tree, theirs.tree)
    ensures r.Ok? ==> IsAutoMerge(TreeOf(base), ours.tree, theirs.tree, r.value.tree, paths)
  {
    paths := [];
    ghost var bt := TreeOf(base);
    if base.Some? && ours != theirs && ours != base.value && theirs != base.value {
      paths := ExactRenameConflicts(base.value, ours, theirs);
    } else if base.Some? {
      forall p ensures !RenameConflict(base.value.tree, ours.tree, theirs.tree, p) {
        NoRenameConflictOnShortcut(base.value.tree, ours.tree, theirs.tree, p);
      }
    }
    var found;
    r, found := MergeTrees([], base, ours, theirs);
    if r.Err? {
      return;
    }
    Together(bt, ours.tree, theirs.tree, paths, found);
    paths := SortConflicts(paths + found);
  }

  lemma Together(base: Option<Tree>, ours: Tree, theirs: Tree, renames: seq<ConflictPath>, found: seq<ConflictPath>)
    requires (base.Some? ==> WfTree(base.value)) && WfTree(ours) && WfTree(theirs)
    requires DistinctPaths(renames) && DistinctPaths(found)
    requires Lists(renames, if base.Some? then RenameReports(base.value, ours, theirs) else iset{})
    requires Lists(found, TreeReports([], base, ours, theirs))
    ensures Lists(renames + found, AllReports(base, ours, theirs))
    ensures DistinctPaths(renames + found) && ValidPaths(renames + found)
  {
    var all := renames + found;
    forall i | 0 <= i < |all| ensures ValidPath(all[i].path) {
      assert all[i] in all;
      ReportsAreValidPaths(base, ours, theirs, all[i]);
    }
    forall i, j | 0 <= i < |renames| <= j < |all| ensures all[i].path != all[j].path {
      assert all[i] in renames && all[j] in found;
      KindsDiffer(base, ours, theirs, all[i], all[j]);
    }
  }

  lemma KindsDiffer(base: Option<Tree>, ours: Tree, theirs: Tree, x: ConflictPath, y: ConflictPath)
    requires base.Some? && x in RenameReports(base.value, ours, theirs) && y in TreeReports([], base, ours, theirs)
    ensures x.path != y.path
  {
    var p := RenamePath(base.value, ours, theirs, x);
    var q := ConflictOfReport(base, ours, theirs, y);
    RenameIsNoDisagreement(base.value, ours, theirs, p);
  }

  lemma RenamePath(base: Tree, ours: Tree, theirs: Tree, x: ConflictPath) returns (p: Path)
    requires x in RenameReports(base, ours, theirs)
    ensures p == x.path && RenameConflict(base, ours, theirs, p) && x == ConflictAt([], Some(base), ours, theirs, p)
  {
    p :| RenameConflict(base, ours, theirs, p) && x == ConflictAt([], Some(base), ours, theirs, p);
    assert [] + p == p;
  }

  lemma ConflictOfReport(base: Option<Tree>, ours: Tree, theirs: Tree, y: ConflictPath) returns (q: Path)
    requires y in TreeReports([], base, ours, theirs)
    ensures q == y.path && IsConflict(base, ours, theirs, q) && y == ConflictAt([], base, ours, theirs, q)
  {
    q :| IsConflict(base, ours, theirs, q) && y == ConflictAt([], base, ours, theirs, q);
    assert [] + q == q;
  }

  // ---- symmetry ------------------------------------------------------------

  function Swapped(c: ConflictPath): ConflictPath { c.(a := c.b, b := c.a) }

  lemma ReportsSwap(base: Option<Tree>, ours: Tree, theirs: Tree, c: ConflictPath)
    requires c in AllReports(base, ours, theirs)
    ensures Swapped(c) in AllReports(base, theirs, ours)
  {
    if c in TreeReports([], base, ours, theirs) {
      var p :| IsConflict(base, ours, theirs, p) && c == ConflictAt([], base, ours, theirs, p);
      assert IsConflict(base, theirs, ours, p);
      assert Swapped(c) == ConflictAt([], base, theirs, ours, p);
    } else {
      var p :| RenameConflict(base.value, ours, theirs, p) && c == ConflictAt([], Some(base.value), ours, theirs, p);
      RenameSymmetric(base.value, ours, theirs, p);
      assert Swapped(c) == ConflictAt([], Some(base.value), theirs, ours, p);
    }
  }

  lemma {:induction false} SortedSwap(s: seq<ConflictPath>, t: seq<ConflictPath>)
    requires SortedByPath(s) && SortedByPath(t)
    requires forall c :: c in s <==> Swapped(c) in t
    ensures |s| == |t| && forall i :: 0 <= i < |s| ==> t[i] == Swapped(s[i])
  {
    LessIsStrictTotal();
    assert t != [] ==> t[0] == Swapped(Swapped(t[0]));
    if s != [] {
      assert s[0] in s;
      assert Swapped(s[0]) in t;
      assert Swapped(t[0]) in s;
      assert t[0] == Swapped(s[0]);
      forall c ensures c in s[1..] <==> Swapped(c) in t[1..] {
        assert c in s <==> c == s[0] || c in s[1..];
        assert Swapped(c) in t <==> Swapped(c) == t[0] || Swapped(c) in t[1..];
        assert Swapped(c) == Swapped(s[0]) <==> c == s[0];
        assert s[0] !in s[1..] && t[0] !in t[1..];
      }
      SortedSwap(s[1..], t[1..]);
      assert s == [s[0]] + s[1..] && t == [t[0]] + t[1..];
    }
  }

  /** Swapping ours and theirs swaps `a` and `b` in the same sorted reports, and
      leaves a clean result untouched. */
  lemma AutoMergeSymmetric(base: Option<Tree>, ours: Tree, theirs: Tree,
                           t1: Tree, ps1: seq<ConflictPath>, t2: Tree, ps2: seq<ConflictPath>)
    requires (base.Some? ==> WfTree(base.value)) && WfTree(ours) && WfTree(theirs)
    requires IsAutoMerge(base, ours, theirs, t1, ps1) && IsAutoMerge(base, theirs, ours, t2, ps2)
    ensures |ps1| == |ps2| && forall i :: 0 <= i < |ps1| ==> ps2[i] == Swapped(ps1[i])
    ensures ps1 == [] ==> t1 == t2
  {
    forall c ensures c in ps1 <==> Swapped(c) in ps2 {
      if c in ps1 { ReportsSwap(base, ours, theirs, c); }
      if Swapped(c) in ps2 { ReportsSwap(base, theirs, ours, Swapped(c)); assert Swapped(Swapped(c)) == c; }
    }
    SortedSwap(ps1, ps2);
    if ps1 == [] {
      NoReportsMeansClean(base, ours, theirs, ps1);
      MergeSymmetric(base, ours, theirs);
    }
  }

  lemma NoReportsMeansClean(base: Option<Tree>, ours: Tree, theirs: Tree, paths: seq<ConflictPath>)
    requires Lists(paths, AllReports(base, ours, theirs)) && paths == []
    ensures Clean(base, ours, theirs)
  {
    forall p ensures !IsConflict(base, ours, theirs, p) {
      assert ConflictAt([], base, ours, theirs, p) !in paths;
    }
  }

  // ---- meaning -------------------------------------------------------------

  /** `path_in_conflict_scope`, on components. */
  predicate PathInScope(p: Path, paths: seq<ConflictPath>) {
    exists i :: 0 <= i < |paths| && paths[i].path <= p
  }

  predicate SpelledInScope(p: Path, c: ConflictPath) {
    Join(p) == Join(c.path) || HasPrefix(Join(p), Join(c.path) + "/")
  }

  /** On spellings it is "equal, or starts with the path and a slash". */
  lemma ScopeSpelling(p: Path, paths: seq<ConflictPath>)
    requires ValidPath(p) && ValidPaths(paths)
    ensures PathInScope(p, paths) <==> exists i :: 0 <= i < |paths| && SpelledInScope(p, paths[i])
  {
    forall i | 0 <= i < |paths|
      ensures paths[i].path <= p <==> SpelledInScope(p, paths[i])
    {
      AtOrBelowSpelling(paths[i].path, p);
    }
  }

  lemma ConflictIsListed(base: Option<Tree>, ours: Tree, theirs: Tree, paths: seq<ConflictPath>, c: Path)
    requires Lists(paths, AllReports(base, ours, theirs))
    ensures IsConflict(base, ours, theirs, c) ==> exists i :: 0 <= i < |paths| && paths[i].path == c
  {
    assert [] + c == c;
    assert IsConflict(base, ours, theirs, c) ==> ConflictAt([], base, ours, theirs, c) in TreeReports([], base, ours, theirs);
  }

  /** Outside the reported scope, two sides agree on every file and the merged tree
      holds what the rule says; with no report that is every path. */
  lemma AutoMergeMeaning(base: Option<Tree>, ours: Tree, theirs: Tree, tree: Tree, paths: seq<ConflictPath>, p: Path)
    requires (base.Some? ==> WfTree(base.value)) && WfTree(ours) && WfTree(theirs)
    requires IsAutoMerge(base, ours, theirs, tree, paths)
    requires |p| > 0 && !PathInScope(p, paths)
    ensures var g, a, b := FileAt(OrEmpty(base), p), FileAt(ours, p), FileAt(theirs, p);
      && (a == b || a == g || b == g)
      && FileAt(tree, p) == Rule(g, a, b)
  {
    ScopeIsConflicts(base, ours, theirs, p);
    forall c | c <= p ensures !IsConflict(base, ours, theirs, c) {
      ConflictIsListed(base, ours, theirs, paths, c);
    }
    MergeMeaning(base, ours, theirs, p);
  }

  datatype Conflict = Conflict(bases: seq<ObjectId>, ours: ObjectId, theirs: ObjectId, paths: seq<ConflictPath>,
                               causal: seq<ObjectId>)

  datatype MergeOutcome = MergedTo(tree: ObjectId) | Conflicted(conflict: Conflict)

  /** The tree a reader expects: at every path what the rule says of the three files. */
  ghost predicate MergedByRule(base: Option<Tree>, ours: Tree, theirs: Tree, merged: Tree) {
    forall p :: |p| > 0 ==> FileAt(merged, p) == Rule(FileAt(OrEmpty(base), p), FileAt(ours, p), FileAt(theirs, p))
  }

  /** The id an optional entry has, or none. */
  predicate IsIdOf(id: Option<ObjectId>, e: Option<TreeEntry>) {
    (id.None? <==> e.None?) && (e.Some? ==> id == Some(e.value.id))
  }

  /** Each report gives our entry's id as `a`, theirs as `b` and the base's as `base`. */
  predicate RecordsSides(base: Option<Tree>, ours: Tree, theirs: Tree, paths: seq<ConflictPath>) {
    forall i :: 0 <= i < |paths| ==>
      && IsIdOf(paths[i].a, EntryAt(ours, paths[i].path))
      && IsIdOf(paths[i].b, EntryAt(theirs, paths[i].path))
      && IsIdOf(paths[i].base, if base.Some? then EntryAt(base.value, paths[i].path) else None)
  }

  lemma SidesRecorded(base: Option<Tree>, ours: Tree, theirs: Tree, paths: seq<ConflictPath>)
    requires (base.Some? ==> WfTree(base.value)) && WfTree(ours) && WfTree(theirs)
    requires Lists(paths, AllReports(base, ours, theirs))
    ensures RecordsSides(base, ours, theirs, paths)
  {
    forall i | 0 <= i < |paths|
      ensures IsIdOf(paths[i].a, EntryAt(ours, paths[i].path)) && IsIdOf(paths[i].b, EntryAt(theirs, paths[i].path))
      ensures IsIdOf(paths[i].base, if base.Some? then EntryAt(base.value, paths[i].path) else None)
    {
      assert paths[i] in paths;
      ReportsAreValidPaths(base, ours, theirs, paths[i]);
      if base.None? { EmptyHasNothing(paths[i].path); }
    }
  }

  /** The three entries at a path are all different, and not both sides are directories. */
  predicate Disputed(base: Option<Tree>, ours: Tree, theirs: Tree, p: Path) {
    var g, a, b := if base.Some? then EntryAt(base.value, p) else None, EntryAt(ours, p), EntryAt(theirs, p);
    && a != b && a != g && b != g
    && !(a.Some? && b.Some? && a.value.kind == KTree && b.value.kind == KTree)
  }

  /** At every path one of the entries decides, and no exact rename is in dispute. */
  ghost predicate NothingDisputed(base: Option<Tree>, ours: Tree, theirs: Tree) {
    && (forall p :: |p| > 0 ==> !Disputed(base, ours, theirs, p))
    && (base.Some? ==> forall p :: !RenameConflict(base.value, ours, theirs, p))
  }

  lemma DisputedIsDisagreement(base: Option<Tree>, ours: Tree, theirs: Tree, p: Path)
    ensures Disputed(base, ours, theirs, p) <==> Disagrees(base, ours, theirs, p)
  {
    if base.None? { EmptyHasNothing(p); }
  }

  /** There is a report exactly when something is disputed. */
  lemma DisputesAreReported(base: Option<Tree>, ours: Tree, theirs: Tree, paths: seq<ConflictPath>)
    requires (base.Some? ==> WfTree(base.value)) && WfTree(ours) && WfTree(theirs)
    requires Lists(paths, AllReports(base, ours, theirs))
    ensures paths == [] <==> NothingDisputed(base, ours, theirs)
  {
    if paths == [] {
      NoReportsMeansClean(base, ours, theirs, paths);
      forall p | |p| > 0 ensures !Disputed(base, ours, theirs, p) {
        DisputedIsDisagreement(base, ours, theirs, p);
        ScopeIsConflicts(base, ours, theirs, p);
        if Disagrees(base, ours, theirs, p) { assert p[..|p|] == p && InScope(base, ours, theirs, p); }
      }
      if base.Some? {
        forall p ensures !RenameConflict(base.value, ours, theirs, p) { RenamesAreListed(base.value, ours, theirs, paths, p); }
      }
    } else {
      assert paths[0] in paths;
      ReportsAreValidPaths(base, ours, theirs, paths[0]);
      DisputedIsDisagreement(base, ours, theirs, paths[0].path);
    }
  }

  lemma RenamesAreListed(base: Tree, ours: Tree, theirs: Tree, paths: seq<ConflictPath>, p: Path)
    requires Lists(paths, AllReports(Some(base), ours, theirs)) && paths == []
    ensures !RenameConflict(base, ours, theirs, p)
  {
    assert RenameConflict(base, ours, theirs, p) ==> ConflictAt([], Some(base), ours, theirs, p) in RenameReports(base, ours, theirs);
  }

  /** `three_way`: a tree when nothing is reported, otherwise a conflict object. */
  method ThreeWayMerge(base: Option<ObjectId>, ours: ObjectId, theirs: ObjectId) returns (r: Result<MergeOutcome>)
    requires WfBase(base) && WfId(ours) && WfId(theirs)
    ensures r.Err? <==> !Fits(MergeTree(TreeOf(base), ours.tree, theirs.tree))
    ensures r.Ok? ==> (r.value.MergedTo? <==> NothingDisputed(TreeOf(base), ours.tree, theirs.tree))
    ensures r.Ok? && r.value.MergedTo? ==>
      && r.value.tree.TreeId?
      && IsAutoMerge(TreeOf(base), ours.tree, theirs.tree, r.value.tree.tree, [])
      && MergedByRule(TreeOf(base), ours.tree, theirs.tree, r.value.tree.tree)
    ensures r.Ok? && r.value.Conflicted? ==>
      && r.value.conflict.paths != []
      && r.value.conflict.bases == (if base.Some? then [base.value] else [])
      && r.value.conflict.ours == ours && r.value.conflict.theirs == theirs && r.value.conflict.causal == []
      && RecordsSides(TreeOf(base), ours.tree, theirs.tree, r.value.conflict.paths)
      && IsAutoMerge(TreeOf(base), ours.tree, theirs.tree,
                     MergeTree(TreeOf(base), ours.tree, theirs.tree), r.value.conflict.paths)
  {
    var tree, paths := AutoMergeTree(base, ours, theirs);
    if tree.Err? {
      return Err(tree.error);
    }
    DisputesAreReported(TreeOf(base), ours.tree, theirs.tree, paths);
    if paths == [] {
      forall p | |p| > 0
        ensures FileAt(tree.value.tree, p)
          == Rule(FileAt(OrEmpty(TreeOf(base)), p), FileAt(ours.tree, p), FileAt(theirs.tree, p))
      {
        AutoMergeMeaning(TreeOf(base), ours.tree, theirs.tree, tree.value.tree, paths, p);
      }
      return Ok(MergedTo(tree.value));
    }
    SidesRecorded(TreeOf(base), ours.tree, theirs.tree, paths);
    r := Ok(Conflicted(Conflict(if base.Some? then [base.value] else [], ours, theirs, paths, [])));
  }

  // ---- scoped resolution ---------------------------------------------------

  /** Where two trees differ on a file, a changed path lies at or above it. */
  lemma {:induction false} DifferenceHasChange(l: Tree, r: Tree, p: Path) returns (q: Path)
    requires Typed(l) && Typed(r) && |p| > 0 && FileAt(l, p) != FileAt(r, p)
    ensures q <= p && WalkHit(Changes, l, r, q)
    decreases |p|
  {
    var n := p[0];
    var x, y := Get(l, n), Get(r, n);
    if x.Some? { TypedUnder(l, n); }
    if y.Some? { TypedUnder(r, n); }
    if |p| == 1 || !(IsDir(x) && IsDir(y)) {
      q := [n];
      assert p[..1] == [n];
      if |p| > 1 {
        assert p == [n] + p[1..];
        StepDown(l, n, p[1..]);
        StepDown(r, n, p[1..]);
      } else {
        assert p == [n];
      }
      WalkHitHere(Changes, l, r, n);
    } else {
      assert p == [n] + p[1..];
      StepDown(l, n, p[1..]);
      StepDown(r, n, p[1..]);
      var q' := DifferenceHasChange(Under(l, n), Under(r, n), p[1..]);
      q := [n] + q';
      WalkHitBelow(Changes, l, r, n, q');
    }
  }

  /** Conversely a changed path is no false alarm: in trees without empty directories
      some file at or below it differs. */
  lemma {:induction false} ChangeHasDifference(l: Tree, r: Tree, p: Path) returns (q: Path)
    requires WfTree(l) && WfTree(r) && NoEmptyDirs(l) && NoEmptyDirs(r) && WalkHit(Changes, l, r, p)
    ensures p <= q && FileAt(l, q) != FileAt(r, q)
    decreases |p|
  {
    var n := p[0];
    if |p| == 1 {
      assert p == [n];
      WalkHitHere(Changes, l, r, n);
      q := EntriesDiffer(l, r, n);
    } else {
      assert p == [n] + p[1..];
      WalkHitBelow(Changes, l, r, n, p[1..]);
      SoundBelow(l, n);
      SoundBelow(r, n);
      var q' := ChangeHasDifference(Under(l, n), Under(r, n), p[1..]);
      q := [n] + q';
      StepDown(l, n, q');
      StepDown(r, n, q');
    }
  }

  lemma SoundBelow(t: Tree, n: Name)
    requires WfTree(t) && NoEmptyDirs(t) && Subtree(Get(t, n)).Some?
    ensures WfTree(Under(t, n)) && NoEmptyDirs(Under(t, n)) && Under(t, n) != EmptyTree
  {
    var i :| 0 <= i < |t.entries| && t.entries[i] == Get(t, n).value;
    assert WfEntry(t.entries[i]);
  }

  /** Two different entries of one name that are not both directories hold different files. */
  lemma EntriesDiffer(l: Tree, r: Tree, n: Name) returns (q: Path)
    requires WfTree(l) && WfTree(r) && NoEmptyDirs(l) && NoEmptyDirs(r)
    requires Get(l, n) != Get(r, n) && !(IsDir(Get(l, n)) && IsDir(Get(r, n)))
    ensures [n] <= q && FileAt(l, q) != FileAt(r, q)
  {
    var x, y := Get(l, n), Get(r, n);
    if x.Some? { WfGet(l, n); }
    if y.Some? { WfGet(r, n); }
    if IsDir(x) {
      q := FileBelow(l, r, n);
    } else if IsDir(y) {
      q := FileBelow(r, l, n);
    } else {
      q := [n];
    }
  }

  lemma FileBelow(l: Tree, r: Tree, n: Name) returns (q: Path)
    requires WfTree(l) && NoEmptyDirs(l) && IsDir(Get(l, n)) && Subtree(Get(l, n)).Some? && Subtree(Get(r, n)).None?
    ensures [n] <= q && FileAt(l, q).Some? && FileAt(r, q).None?
  {
    SoundBelow(l, n);
    WfIsLooseAndFits(Under(l, n));
    var below := HasFile(Under(l, n));
    q := [n] + below;
    StepDown(l, n, below);
    StepDown(r, n, below);
    EmptyHasNothing(below);
  }

  /** `resolve --tree`: admit a tree only if it stays inside the conflict. */
  method AdmitTree(conflict: Conflict, oid: ObjectId) returns (r: Result<ObjectId>)
    requires WfId(conflict.ours) && WfId(conflict.theirs)
    requires forall i :: 0 <= i < |conflict.bases| ==> WfId(conflict.bases[i])
    requires oid.TreeId? ==> Typed(oid.tree)
    ensures !oid.TreeId? || (|conflict.bases| > 1 && conflict.paths != []) ==> r == Err(Invalid)
    ensures oid.TreeId? && conflict.paths == [] ==>
      r == if oid == conflict.ours || oid == conflict.theirs then Ok(oid) else Err(Invalid)
    ensures oid.TreeId? && conflict.paths != [] && |conflict.bases| <= 1 ==>
      var base := if |conflict.bases| == 1 then Some(conflict.bases[0]) else None;
      var auto := MergeTree(TreeOf(base), conflict.ours.tree, conflict.theirs.tree);
      r == if Fits(auto) && forall p :: WalkHit(Changes, auto, oid.tree, p) ==> PathInScope(p, conflict.paths)
           then Ok(oid) else Err(Invalid)
  {
    if !oid.TreeId? {
      return Err(Invalid);
    }
    if conflict.paths == [] {
      return if oid != conflict.ours && oid != conflict.theirs then Err(Invalid) else Ok(oid);
    }
    if |conflict.bases| > 1 {
      return Err(Invalid);
    }
    var auto, _ := AutoMergeTree(OneBase(conflict), conflict.ours, conflict.theirs);
    if auto.Err? {
      return Err(auto.error);
    }
    MergeLoose(TreeOf(OneBase(conflict)), conflict.ours.tree, conflict.theirs.tree);
    WfIsLooseAndFits(auto.value.tree);
    WfIsTyped(auto.value.tree);
    var changed := ChangedPaths(auto.value, oid);
    if exists p :: p in changed && !PathInScope(p, conflict.paths) {
      return Err(Invalid);
    }
    r := Ok(oid);
  }

  lemma ScopeInherits(p: Path, q: Path, paths: seq<ConflictPath>)
    requires q <= p && PathInScope(q, paths)
    ensures PathInScope(p, paths)
  {
    var i :| 0 <= i < |paths| && paths[i].path <= q;
    assert paths[i].path <= p;
  }

  function OneBase(c: Conflict): Option<ObjectId> {
    if |c.bases| == 1 then Some(c.bases[0]) else None
  }

  /** An admitted resolution of a single-base or no-base conflict obeys the rule at
      every path outside the conflict. */
  lemma ResolutionStaysInScope(base: Option<Tree>, ours: Tree, theirs: Tree, paths: seq<ConflictPath>, resolved: Tree, p: Path)
    requires (base.Some? ==> WfTree(base.value)) && WfTree(ours) && WfTree(theirs) && Typed(resolved)
    requires IsAutoMerge(base, ours, theirs, MergeTree(base, ours, theirs), paths)
    requires Fits(MergeTree(base, ours, theirs))
    requires forall q :: WalkHit(Changes, MergeTree(base, ours, theirs), resolved, q) ==> PathInScope(q, paths)
    requires |p| > 0 && !PathInScope(p, paths)
    ensures FileAt(resolved, p) == Rule(FileAt(OrEmpty(base), p), FileAt(ours, p), FileAt(theirs, p))
  {
    var auto := MergeTree(base, ours, theirs);
    AutoMergeMeaning(base, ours, theirs, auto, paths, p);
    MergeLoose(base, ours, theirs);
    WfIsLooseAndFits(auto);
    WfIsTyped(auto);
    if FileAt(auto, p) != FileAt(resolved, p) {
      var q := DifferenceHasChange(auto, resolved, p);
      ScopeInherits(p, q, paths);
    }
  }
}
