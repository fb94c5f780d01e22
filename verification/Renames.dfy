/** Exact-rename detection: delete/add frontiers matched by unique identity. */
module Renames {
  import opened Names
  import opened Trees
  import opened Merge
  import opened Walk
  import opened MergeRun

  datatype Identity = Identity(id: ObjectId, kind: EntryKind, exec: bool)

  function IdentityOf(e: TreeEntry): Identity { Identity(e.id, e.kind, e.exec) }

  // ---- what a rename is, on paths ------------------------------------------

  predicate Holds(t: Tree, p: Path, i: Identity) {
    EntryAt(t, p).Some? && IdentityOf(EntryAt(t, p).value) == i
  }

  ghost predicate OccursOnce(t: Tree, i: Identity) {
    exists p :: Holds(t, p, i) && forall q :: Holds(t, q, i) ==> q == p
  }

  predicate Deleted(base: Tree, side: Tree, p: Path) { WalkHit(Deletions, base, side, p) }

  predicate Added(base: Tree, side: Tree, p: Path) { WalkHit(Additions, base, side, p) }

  /** The same object, kind and executable bit under any name. */
  predicate SameButName(x: TreeEntry, y: TreeEntry) { y == x.(name := y.name) }

  predicate HasTwin(t: Tree, p: Path, x: TreeEntry) { EntryAt(t, p).Some? && SameButName(x, EntryAt(t, p).value) }

  /** `side` moved the entry at `p` to `d`: it occurs nowhere else in the base and
      `d` is the only place where `side` added it. */
  ghost predicate RenamedTo(base: Tree, side: Tree, p: Path, d: Path) {
    && Deleted(base, side, p)
    && EntryAt(base, p).Some?
    && var x := EntryAt(base, p).value;
    && (forall q :: HasTwin(base, q, x) ==> q == p)
    && Added(base, side, d) && HasTwin(side, d, x)
    && forall e :: Added(base, side, e) && HasTwin(side, e, x) ==> e == d
  }

  /** Identities leave out the name and nothing else. */
  lemma IdentityIsAllButName(x: TreeEntry, y: TreeEntry)
    ensures IdentityOf(x) == IdentityOf(y) <==> SameButName(x, y)
  {
  }

  lemma TwinHolds(t: Tree, p: Path, x: TreeEntry)
    ensures HasTwin(t, p, x) <==> Holds(t, p, IdentityOf(x))
  {
    if EntryAt(t, p).Some? { IdentityIsAllButName(x, EntryAt(t, p).value); }
  }

  /** The same, counted by identity. */
  ghost predicate RenamedByIdentity(base: Tree, side: Tree, p: Path, d: Path) {
    && Deleted(base, side, p)
    && EntryAt(base, p).Some?
    && var i := IdentityOf(EntryAt(base, p).value);
    && OccursOnce(base, i)
    && Added(base, side, d) && Holds(side, d, i)
    && forall e :: Added(base, side, e) && Holds(side, e, i) ==> e == d
  }

  lemma RenamedIsByIdentity(base: Tree, side: Tree, p: Path, d: Path)
    ensures RenamedTo(base, side, p, d) <==> RenamedByIdentity(base, side, p, d)
  {
    if EntryAt(base, p).Some? {
      var x := EntryAt(base, p).value;
      forall t, q ensures HasTwin(t, q, x) <==> Holds(t, q, IdentityOf(x)) { TwinHolds(t, q, x); }
      assert Holds(base, p, IdentityOf(x)) && HasTwin(base, p, x);
    }
  }

  /** An exact rename moves the very entry: only its name may be new. */
  lemma RenameKeepsEntry(base: Tree, side: Tree, p: Path, d: Path)
    requires RenamedTo(base, side, p, d)
    ensures |d| > 0 && EntryAt(side, d) == Some(EntryAt(base, p).value.(name := d[|d| - 1]))
  {
    EntryNamed(side, d);
  }

  lemma {:induction false} EntryNamed(t: Tree, p: Path)
    requires EntryAt(t, p).Some?
    ensures |p| > 0 && EntryAt(t, p).value.name == p[|p| - 1]
    decreases |p|
  {
    if |p| > 1 {
      assert p == [p[0]] + p[1..];
      StepDown(t, p[0], p[1..]);
      EntryNamed(Under(t, p[0]), p[1..]);
    }
  }

  /** Both sides removed `p`, at least one of them by an exact rename, and they did
      not move it to the same place. */
  ghost predicate RenameConflict(base: Tree, ours: Tree, theirs: Tree, p: Path) {
    && Deleted(base, ours, p) && Deleted(base, theirs, p)
    && (exists d :: RenamedTo(base, ours, p, d) || RenamedTo(base, theirs, p, d))
    && !(exists d :: RenamedTo(base, ours, p, d) && RenamedTo(base, theirs, p, d))
  }

  ghost function RenameReports(base: Tree, ours: Tree, theirs: Tree): iset<ConflictPath> {
    iset p | RenameConflict(base, ours, theirs, p) :: ConflictAt([], Some(base), ours, theirs, p)
  }

  lemma RenameSymmetric(base: Tree, ours: Tree, theirs: Tree, p: Path)
    ensures RenameConflict(base, ours, theirs, p) <==> RenameConflict(base, theirs, ours, p)
  {
  }

  /** When one side is untouched, or both are equal, there is no rename conflict,
      so skipping the search in those cases loses nothing. */
  lemma NoRenameConflictOnShortcut(base: Tree, ours: Tree, theirs: Tree, p: Path)
    requires Shortcut(Some(base), ours, theirs)
    ensures !RenameConflict(base, ours, theirs, p)
  {
    NoHitInEqual(Deletions, base, p);
  }

  // ---- tree_changes --------------------------------------------------------

  /** `deleted` and `added` hold base and side entries at their paths. */
  ghost predicate TrueEntries(t: Tree, m: map<Path, TreeEntry>) {
    forall p :: p in m ==> EntryAt(t, p) == Some(m[p])
  }

  /** `tree_changes`: the delete/add frontier between two trees. */
  method TreeChanges(base: ObjectId, side: ObjectId)
    returns (deleted: map<Path, TreeEntry>, added: map<Path, TreeEntry>)
    requires WfId(base) && WfId(side)
    ensures forall p :: p in deleted <==> Deleted(base.tree, side.tree, p)
    ensures forall p :: p in added <==> Added(base.tree, side.tree, p)
    ensures TrueEntries(base.tree, deleted) && TrueEntries(side.tree, added)
  {
    deleted, added := map[], map[];
    WfIsTyped(base.tree);
    WfIsTyped(side.tree);
    var stack := [Item([], base.tree, side.tree)];
    forall w, p ensures InStack(w, stack, p) <==> WalkHit(w, base.tree, side.tree, p) {
      assert p[0..] == p;
      assert stack == [] + stack;
      InStackPush(w, [], stack[0], p);
    }
    while stack != []
      invariant ItemsAt(base.tree, side.tree, stack)
      invariant TrueEntries(base.tree, deleted) && TrueEntries(side.tree, added)
      invariant forall p :: Deleted(base.tree, side.tree, p) <==> Seen(Deletions, deleted.Keys, stack, p)
      invariant forall p :: Added(base.tree, side.tree, p) <==> Seen(Additions, added.Keys, stack, p)
      decreases StackWeight(stack)
    {
      var it := stack[|stack| - 1];
      ghost var before := stack;
      stack := stack[..|stack| - 1];
      forall w, p ensures InStack(w, before, p) <==> InStack(w, stack, p) || p in ItemPaths(w, it) {
        InStackPop(w, before, p);
      }
      deleted, added, stack := ChangesLevel(base.tree, side.tree, it, deleted, added, stack);
    }
  }

  method ChangesLevel(ghost l: Tree, ghost r: Tree, it: Item,
                      deleted0: map<Path, TreeEntry>, added0: map<Path, TreeEntry>, stack0: seq<Item>)
    returns (deleted: map<Path, TreeEntry>, added: map<Path, TreeEntry>, stack: seq<Item>)
    requires ItemsAt(l, r, stack0) && ItemAt(l, r, it) && TrueEntries(l, deleted0) && TrueEntries(r, added0)
    ensures ItemsAt(l, r, stack) && TrueEntries(l, deleted) && TrueEntries(r, added)
    ensures StackWeight(stack) < StackWeight(stack0) + Weight(it.l)
    ensures forall p ::
      Seen(Deletions, deleted.Keys, stack, p) <==>
      Seen(Deletions, deleted0.Keys, stack0, p) || p in ItemPaths(Deletions, it)
    ensures forall p ::
      Seen(Additions, added.Keys, stack, p) <==>
      Seen(Additions, added0.Keys, stack0, p) || p in ItemPaths(Additions, it)
  {
    deleted, added, stack := deleted0, added0, stack0;
    if it.l == it.r {
      forall w, p ensures p !in ItemPaths(w, it) {
        if it.prefix < p { NoHitInEqual(w, it.l, p[|it.prefix|..]); }
      }
      return;
    }
    var names := SortNames(NamesOf(it.l) + NamesOf(it.r));
    WeightBound(it.l.entries, names);
    assert names[0..] == names;
    forall w, p ensures p in ItemPaths(w, it) <==> InLevel(w, it, names[0..], p) {
      LevelStart(w, it, names, p);
    }
    var k := 0;
    while k < |names|
      invariant 0 <= k <= |names| && ItemsAt(l, r, stack) && TrueEntries(l, deleted) && TrueEntries(r, added)
      invariant StackWeight(stack) + WeightNames(it.l.entries, names[k..])
        <= StackWeight(stack0) + WeightEntries(it.l.entries)
      invariant forall p ::
        (Seen(Deletions, deleted.Keys, stack, p) || InLevel(Deletions, it, names[k..], p)) <==>
        (Seen(Deletions, deleted0.Keys, stack0, p) || p in ItemPaths(Deletions, it))
      invariant forall p ::
        (Seen(Additions, added.Keys, stack, p) || InLevel(Additions, it, names[k..], p)) <==>
        (Seen(Additions, added0.Keys, stack0, p) || p in ItemPaths(Additions, it))
    {
      deleted, added, stack := ChangesName(l, r, it, names, k, deleted, added, stack);
      k := k + 1;
    }
  }

  method ChangesName(ghost l: Tree, ghost r: Tree, it: Item, names: seq<Name>, k: nat,
                     deleted0: map<Path, TreeEntry>, added0: map<Path, TreeEntry>, stack0: seq<Item>)
    returns (deleted: map<Path, TreeEntry>, added: map<Path, TreeEntry>, stack: seq<Item>)
    requires ItemsAt(l, r, stack0) && ItemAt(l, r, it) && TrueEntries(l, deleted0) && TrueEntries(r, added0)
    requires k < |names| && StrictlySorted(names)
    ensures ItemsAt(l, r, stack) && TrueEntries(l, deleted) && TrueEntries(r, added)
    ensures StackWeight(stack) + WeightNames(it.l.entries, names[k + 1..])
      <= StackWeight(stack0) + WeightNames(it.l.entries, names[k..])
    ensures forall p ::
      (Seen(Deletions, deleted.Keys, stack, p) || InLevel(Deletions, it, names[k + 1..], p)) <==>
      (Seen(Deletions, deleted0.Keys, stack0, p) || InLevel(Deletions, it, names[k..], p))
    ensures forall p ::
      (Seen(Additions, added.Keys, stack, p) || InLevel(Additions, it, names[k + 1..], p)) <==>
      (Seen(Additions, added0.Keys, stack0, p) || InLevel(Additions, it, names[k..], p))
  {
    deleted, added, stack := deleted0, added0, stack0;
    var n := names[k];
    var before, after := Get(it.l, n), Get(it.r, n);
    WeightStep(it.l.entries, names, k);
    LaterDiffer(names, k);
    EntryUnderItem(l, r, it, n);
    if before.Some? { TypedUnder(it.l, n); }
    if after.Some? { TypedUnder(it.r, n); }
    if before.Some? && after.None? {
      deleted := deleted[it.prefix + [n] := before.value];
    } else if before.None? && after.Some? {
      added := added[it.prefix + [n] := after.value];
    } else if before.None? || before == after {
    } else if before.value.kind.KTree? && after.value.kind.KTree? {
      ChildItemAt(l, r, it, n);
      StackWeightPush(stack, ChildItem(it, n));
      stack := stack + [Item(it.prefix + [n], before.value.id.tree, after.value.id.tree)];
    }
    forall p
      ensures (Seen(Deletions, deleted.Keys, stack, p) || InLevel(Deletions, it, names[k + 1..], p)) <==>
              (Seen(Deletions, deleted0.Keys, stack0, p) || InLevel(Deletions, it, names[k..], p))
      ensures (Seen(Additions, added.Keys, stack, p) || InLevel(Additions, it, names[k + 1..], p)) <==>
              (Seen(Additions, added0.Keys, stack0, p) || InLevel(Additions, it, names[k..], p))
    {
      LevelStep(Deletions, it, names, k, p);
      LevelStep(Additions, it, names, k, p);
      if stack != stack0 {
        InStackPush(Deletions, stack0, ChildItem(it, n), p);
        InStackPush(Additions, stack0, ChildItem(it, n), p);
      }
    }
  }

  // ---- count_base_identities -----------------------------------------------

  /** Paths at or below one entry that hold identity `i`. */
  function EntryPaths(e: TreeEntry, i: Identity): set<Path>
    decreases e, 1
  {
    (if IdentityOf(e) == i then {[e.name]} else {})
    + (if e.kind.KTree? && e.id.TreeId? then (set q | q in PathsOf(e.id.tree.entries, i) :: [e.name] + q) else {})
  }

  function PathsOf(es: seq<TreeEntry>, i: Identity): set<Path>
    decreases es, 0
  {
    if es == [] then {} else EntryPaths(es[0], i) + PathsOf(es[1..], i)
  }

  /** The same paths, counted the way the walk counts them. */
  function CountEntry(e: TreeEntry, i: Identity): nat
    decreases e, 1
  {
    (if IdentityOf(e) == i then 1 else 0)
    + (if e.kind.KTree? && e.id.TreeId? then CountIn(e.id.tree.entries, i) else 0)
  }

  function CountIn(es: seq<TreeEntry>, i: Identity): nat
    decreases es, 0
  {
    if es == [] then 0 else CountEntry(es[0], i) + CountIn(es[1..], i)
  }

  predicate WfEntries(es: seq<TreeEntry>) { NamesSorted(es) && forall k :: 0 <= k < |es| ==> WfEntry(es[k]) }

  lemma {:induction false} EntryPathsHold(e: TreeEntry, i: Identity, p: Path)
    requires WfEntry(e)
    ensures p in EntryPaths(e, i) <==>
      && |p| > 0 && p[0] == e.name
      && (if |p| == 1 then IdentityOf(e) == i else e.kind.KTree? && Holds(e.id.tree, p[1..], i))
    decreases e, 1
  {
    assert |p| == 1 && p[0] == e.name ==> p == [e.name];
    if e.kind.KTree? {
      var sub := PathsOf(e.id.tree.entries, i);
      assert Tree(e.id.tree.entries) == e.id.tree;
      if |p| > 0 && p[0] == e.name {
        assert p == [e.name] + p[1..];
        PathsOfHolds(e.id.tree.entries, i, p[1..]);
        var image := set q | q in sub :: [e.name] + q;
        assert |p| == 1 ==> p == [e.name] && p[1..] == [];
        assert EntryPaths(e, i) == (if IdentityOf(e) == i then {[e.name]} else {}) + image;
        assert p in image <==> p[1..] in sub by {
          assert forall q: Path :: ([e.name] + q)[1..] == q;
        }
      } else {
        assert forall q: Path :: ([e.name] + q)[0] == e.name;
      }
    }
  }

  lemma {:induction false} PathsOfHolds(es: seq<TreeEntry>, i: Identity, p: Path)
    requires WfEntries(es)
    ensures p in PathsOf(es, i) <==> Holds(Tree(es), p, i)
    decreases es, 0
  {
    if es != [] {
      EntryPathsHold(es[0], i, p);
      PathsOfHolds(es[1..], i, p);
      if |p| > 0 { HeadFind(es, p); }
      if |p| > 1 && p[0] == es[0].name {
        assert p == [es[0].name] + p[1..];
        StepDown(Tree(es), es[0].name, p[1..]);
        EmptyHasNothing(p[1..]);
      }
    }
  }

  lemma HeadFind(es: seq<TreeEntry>, p: Path)
    requires es != [] && NamesSorted(es) && |p| > 0
    ensures p[0] != es[0].name ==> EntryAt(Tree(es), p) == EntryAt(Tree(es[1..]), p)
    ensures p[0] == es[0].name ==> EntryAt(Tree(es[1..]), p) == None && Get(Tree(es), p[0]) == Some(es[0])
  {
    if p[0] == es[0].name {
      LessTrichotomy(p[0], p[0]);
      assert Find(es[1..], p[0]) == None;
    }
  }

  lemma {:induction false} EntryCountIsSize(e: TreeEntry, i: Identity)
    requires WfEntry(e)
    ensures CountEntry(e, i) == |EntryPaths(e, i)|
    decreases e, 1
  {
    if e.kind.KTree? {
      var sub := PathsOf(e.id.tree.entries, i);
      CountIsSize(e.id.tree.entries, i);
      PrefixImage(e.name, sub);
      forall q | q in sub ensures [e.name] + q != [e.name] {
        PathsOfHolds(e.id.tree.entries, i, q);
        assert |[e.name] + q| > 1;
      }
    }
  }

  lemma {:induction false} CountIsSize(es: seq<TreeEntry>, i: Identity)
    requires WfEntries(es)
    ensures CountIn(es, i) == |PathsOf(es, i)|
    decreases es, 0
  {
    if es != [] {
      EntryCountIsSize(es[0], i);
      CountIsSize(es[1..], i);
      forall p | p in EntryPaths(es[0], i) ensures p !in PathsOf(es[1..], i) {
        EntryPathsHold(es[0], i, p);
        PathsOfHolds(es[1..], i, p);
        HeadFind(es, p);
      }
    }
  }

  lemma {:induction false} PrefixImage(n: Name, s: set<Path>)
    ensures |set q | q in s :: [n] + q| == |s|
    decreases s
  {
    var image := set q | q in s :: [n] + q;
    if s != {} {
      var x :| x in s;
      PrefixImage(n, s - {x});
      var rest := set q | q in s - {x} :: [n] + q;
      assert image == rest + {[n] + x};
      assert forall q :: q in s - {x} ==> ([n] + q)[1..] == q;
      assert ([n] + x)[1..] == x;
      assert [n] + x !in rest;
    }
  }

  /** A count of one is a unique occurrence. */
  lemma CountOne(t: Tree, i: Identity)
    requires WfTree(t)
    ensures CountIn(t.entries, i) == 1 <==> OccursOnce(t, i)
  {
    CountIsSize(t.entries, i);
    var s := PathsOf(t.entries, i);
    forall p ensures p in s <==> Holds(t, p, i) {
      PathsOfHolds(t.entries, i, p);
      assert Tree(t.entries) == t;
    }
    if |s| == 1 {
      var p :| p in s;
      assert |s - {p}| == 0;
      assert s == {p};
    }
    if OccursOnce(t, i) {
      var p :| Holds(t, p, i) && forall q :: Holds(t, q, i) ==> q == p;
      assert s == {p};
    }
  }

  function Cap2(n: nat): nat { if n < 2 then n else 2 }

  function CountOf(counts: map<Identity, nat>, i: Identity): nat { if i in counts then counts[i] else 0 }

  function CountStack(stack: seq<Tree>, i: Identity): nat {
    if stack == [] then 0 else CountIn(stack[|stack| - 1].entries, i) + CountStack(stack[..|stack| - 1], i)
  }

  function TreeStackWeight(stack: seq<Tree>): nat {
    if stack == [] then 0 else Weight(stack[|stack| - 1]) + TreeStackWeight(stack[..|stack| - 1])
  }

  /** What is counted plus what is still on the work list. */
  ghost function Total(counts: map<Identity, nat>, stack: seq<Tree>, es: seq<TreeEntry>, i: Identity): nat {
    Cap2(CountOf(counts, i) + CountStack(stack, i) + CountIn(es, i))
  }

  /** `count_base_identities`: occurrences of the wanted identities, capped at two. */
  method CountBaseIdentities(base: ObjectId, wanted: set<Identity>) returns (counts: map<Identity, nat>)
    requires WfId(base)
    ensures counts.Keys <= wanted
    ensures forall i :: i in wanted ==> CountOf(counts, i) == Cap2(CountIn(base.tree.entries, i))
  {
    counts := map[];
    if wanted == {} {
      return;
    }
    var stack := [base.tree];
    forall i ensures CountStack(stack, i) == CountIn(base.tree.entries, i) { assert stack[..0] == []; }
    while stack != []
      invariant counts.Keys <= wanted && forall i :: CountOf(counts, i) <= 2
      invariant forall k :: 0 <= k < |stack| ==> WfTree(stack[k])
      invariant forall i :: i in wanted ==> Total(counts, stack, [], i) == Cap2(CountIn(base.tree.entries, i))
      decreases TreeStackWeight(stack)
    {
      var tree := stack[|stack| - 1];
      stack := stack[..|stack| - 1];
      counts, stack := CountEntries(tree, wanted, counts, stack);
    }
  }

  method CountEntries(tree: Tree, wanted: set<Identity>, counts0: map<Identity, nat>, stack0: seq<Tree>)
    returns (counts: map<Identity, nat>, stack: seq<Tree>)
    requires WfTree(tree) && counts0.Keys <= wanted && forall k :: 0 <= k < |stack0| ==> WfTree(stack0[k])
    requires forall i :: CountOf(counts0, i) <= 2
    ensures counts.Keys <= wanted && forall k :: 0 <= k < |stack| ==> WfTree(stack[k])
    ensures forall i :: CountOf(counts, i) <= 2
    ensures TreeStackWeight(stack) < TreeStackWeight(stack0) + Weight(tree)
    ensures forall i :: i in wanted ==> Total(counts, stack, [], i) == Total(counts0, stack0, tree.entries, i)
  {
    counts, stack := counts0, stack0;
    var es := tree.entries;
    var k := 0;
    assert es[0..] == es;
    while k < |es|
      invariant 0 <= k <= |es| && counts.Keys <= wanted && forall j :: 0 <= j < |stack| ==> WfTree(stack[j])
      invariant forall i :: CountOf(counts, i) <= 2
      invariant TreeStackWeight(stack) + WeightEntries(es[k..]) <= TreeStackWeight(stack0) + WeightEntries(es)
      invariant forall i :: i in wanted ==> Total(counts, stack, es[k..], i) == Total(counts0, stack0, es, i)
    {
      var e := es[k];
      assert WfEntry(e);
      forall i | i in wanted
        ensures Total(Bump(counts, wanted, e), PushDir(stack, e), es[k + 1..], i) == Total(counts, stack, es[k..], i)
      {
        CountStep(counts, wanted, stack, es, k, i);
      }
      WeightPush(stack, es, k);
      counts := Bump(counts, wanted, e);
      stack := PushDir(stack, e);
      k := k + 1;
    }
  }

  /** `*count = (*count + 1).min(2)` for a wanted identity. */
  function Bump(counts: map<Identity, nat>, wanted: set<Identity>, e: TreeEntry): map<Identity, nat> {
    var i := IdentityOf(e);
    if i in wanted then counts[i := Cap2(CountOf(counts, i) + 1)] else counts
  }

  function PushDir(stack: seq<Tree>, e: TreeEntry): seq<Tree> {
    if e.kind.KTree? && e.id.TreeId? then stack + [e.id.tree] else stack
  }

  lemma PushDirCounts(stack: seq<Tree>, e: TreeEntry, i: Identity)
    ensures CountStack(PushDir(stack, e), i)
      == CountStack(stack, i) + (if e.kind.KTree? && e.id.TreeId? then CountIn(e.id.tree.entries, i) else 0)
    ensures TreeStackWeight(PushDir(stack, e))
      == TreeStackWeight(stack) + (if e.kind.KTree? && e.id.TreeId? then Weight(e.id.tree) else 0)
  {
    if e.kind.KTree? && e.id.TreeId? {
      assert (stack + [e.id.tree])[..|stack|] == stack;
    }
  }

  lemma CountStep(counts: map<Identity, nat>, wanted: set<Identity>, stack: seq<Tree>, es: seq<TreeEntry>, k: nat, i: Identity)
    requires k < |es| && i in wanted && CountOf(counts, i) <= 2
    ensures Total(Bump(counts, wanted, es[k]), PushDir(stack, es[k]), es[k + 1..], i) == Total(counts, stack, es[k..], i)
  {
    assert es[k..][0] == es[k] && es[k..][1..] == es[k + 1..];
    assert CountIn(es[k..], i) == CountEntry(es[k], i) + CountIn(es[k + 1..], i);
    PushDirCounts(stack, es[k], i);
    assert CountOf(Bump(counts, wanted, es[k]), i)
      == if i == IdentityOf(es[k]) then Cap2(CountOf(counts, i) + 1) else CountOf(counts, i);
  }

  lemma WeightPush(stack: seq<Tree>, es: seq<TreeEntry>, k: nat)
    requires k < |es| && WfEntry(es[k])
    ensures TreeStackWeight(PushDir(stack, es[k])) + WeightEntries(es[k + 1..])
      == TreeStackWeight(stack) + WeightEntries(es[k..])
  {
    assert es[k..][0] == es[k] && es[k..][1..] == es[k + 1..];
    PushDirCounts(stack, es[k], IdentityOf(es[k]));
  }

  // ---- infer_exact_renames -------------------------------------------------

  ghost predicate MovedTo(deleted: map<Path, TreeEntry>, added: map<Path, TreeEntry>,
                          counts: map<Identity, nat>, p: Path, d: Path) {
    && p in deleted && CountOf(counts, IdentityOf(deleted[p])) == 1
    && d in added && IdentityOf(added[d]) == IdentityOf(deleted[p])
    && forall e :: e in added && IdentityOf(added[e]) == IdentityOf(deleted[p]) ==> e == d
  }

  predicate DestOf(destinations: map<Identity, set<Path>>, i: Identity, d: Path) {
    i in destinations && d in destinations[i]
  }

  function Destinations(destinations: map<Identity, set<Path>>, i: Identity): set<Path> {
    if i in destinations then destinations[i] else {}
  }

  ghost predicate Grouped(added: map<Path, TreeEntry>, rest: set<Path>, destinations: map<Identity, set<Path>>) {
    forall i, d {:trigger DestOf(destinations, i, d)} ::
      DestOf(destinations, i, d) <==> d in added && d !in rest && IdentityOf(added[d]) == i
  }

  /** Added paths grouped by identity. */
  method GroupByIdentity(added: map<Path, TreeEntry>) returns (destinations: map<Identity, set<Path>>)
    ensures Grouped(added, {}, destinations)
  {
    destinations := map[];
    var rest := added.Keys;
    while rest != {}
      invariant rest <= added.Keys && Grouped(added, rest, destinations)
      decreases rest
    {
      var path :| path in rest;
      var i := IdentityOf(added[path]);
      var next := destinations[i := Destinations(destinations, i) + {path}];
      forall j, d ensures DestOf(next, j, d) <==> DestOf(destinations, j, d) || (j == i && d == path) {
      }
      destinations := next;
      rest := rest - {path};
    }
  }

  /** `infer_exact_renames`: sources of unique identity with one destination. */
  method InferExactRenames(deleted: map<Path, TreeEntry>, added: map<Path, TreeEntry>, counts: map<Identity, nat>)
    returns (renames: map<Path, Path>)
    ensures forall p, d :: (p in renames && renames[p] == d) <==> MovedTo(deleted, added, counts, p, d)
  {
    var destinations := GroupByIdentity(added);
    renames := map[];
    var rest := deleted.Keys;
    while rest != {}
      invariant rest <= deleted.Keys && renames.Keys <= deleted.Keys - rest
      invariant forall p, d :: p !in rest ==>
        ((p in renames && renames[p] == d) <==> MovedTo(deleted, added, counts, p, d))
      decreases rest
    {
      var source :| source in rest;
      var identity := IdentityOf(deleted[source]);
      var matches := Destinations(destinations, identity);
      forall d
        ensures MovedTo(deleted, added, counts, source, d) <==> CountOf(counts, identity) == 1 && matches == {d}
      {
        assert forall e {:trigger DestOf(destinations, identity, e)} :: e in matches <==> DestOf(destinations, identity, e);
        assert forall e :: e in matches <==> e in added && IdentityOf(added[e]) == identity by {
          forall e ensures e in matches <==> e in added && IdentityOf(added[e]) == identity {
            assert e in matches <==> DestOf(destinations, identity, e);
          }
        }
        Singleton(matches, d);
      }
      if CountOf(counts, identity) == 1 && |matches| == 1 {
        var d :| d in matches;
        OneElement(matches, d);
        renames := renames[source := d];
      }
      rest := rest - {source};
    }
  }

  lemma Singleton(s: set<Path>, d: Path)
    ensures s == {d} <==> d in s && forall e :: e in s ==> e == d
  {
  }

  lemma OneElement(s: set<Path>, d: Path)
    requires |s| == 1 && d in s
    ensures s == {d}
  {
    assert |s - {d}| == 0;
  }
}
