/** Walking two trees side by side down the directories they share. */
module Walk {
  import opened Names
  import opened Trees
  import opened Merge

  /** What a walk collects: entries gone, entries new, or entries different. */
  datatype Which = Deletions | Additions | Changes

  predicate Hit(w: Which, x: Option<TreeEntry>, y: Option<TreeEntry>) {
    match w
    case Deletions => x.Some? && y.None?
    case Additions => x.None? && y.Some?
    case Changes => x != y && !(IsDir(x) && IsDir(y))
  }

  predicate DirAt(t: Tree, p: Path) { p == [] || Subtree(EntryAt(t, p)).Some? }

  /** `p` is on the frontier: its parent is a directory on both sides and the two
      entries there are a hit. */
  predicate WalkHit(w: Which, l: Tree, r: Tree, p: Path) {
    && |p| > 0
    && DirAt(l, p[..|p| - 1]) && DirAt(r, p[..|p| - 1])
    && Hit(w, EntryAt(l, p), EntryAt(r, p))
  }

  lemma WalkHitHere(w: Which, l: Tree, r: Tree, n: Name)
    ensures WalkHit(w, l, r, [n]) <==> Hit(w, Get(l, n), Get(r, n))
  {
    assert [n][..0] == [];
  }

  lemma WalkHitBelow(w: Which, l: Tree, r: Tree, n: Name, q: Path)
    requires |q| > 0
    ensures WalkHit(w, l, r, [n] + q) <==>
      Subtree(Get(l, n)).Some? && Subtree(Get(r, n)).Some? && WalkHit(w, Under(l, n), Under(r, n), q)
  {
    var p := [n] + q;
    StepDown(l, n, q);
    StepDown(r, n, q);
    assert p[..|p| - 1] == [n] + q[..|q| - 1];
    if |q| == 1 {
      assert p[..|p| - 1] == [n];
    } else {
      StepDown(l, n, q[..|q| - 1]);
      StepDown(r, n, q[..|q| - 1]);
      EmptyHasNothing(q[..|q| - 1]);
    }
  }

  lemma {:induction false} NoHitInEqual(w: Which, t: Tree, p: Path)
    ensures !WalkHit(w, t, t, p)
  {
  }

  // ---- the work list -------------------------------------------------------

  /** A pair of directories still to compare, and where they sit. */
  datatype Item = Item(prefix: Path, l: Tree, r: Tree)

  ghost function ItemPaths(w: Which, it: Item): iset<Path> {
    iset p | it.prefix < p && WalkHit(w, it.l, it.r, p[|it.prefix|..])
  }

  ghost predicate InStack(w: Which, stack: seq<Item>, p: Path) {
    exists i :: 0 <= i < |stack| && p in ItemPaths(w, stack[i])
  }

  /** Hits below `prefix` whose next component is one of `names`. */
  ghost predicate InLevel(w: Which, it: Item, names: seq<Name>, p: Path) {
    it.prefix < p && p[|it.prefix|] in names && p in ItemPaths(w, it)
  }

  /** `p` is collected already, or will be when the work list is done. */
  ghost predicate Seen(w: Which, out: set<Path>, stack: seq<Item>, p: Path) { p in out || InStack(w, stack, p) }

  lemma InStackPush(w: Which, stack: seq<Item>, it: Item, p: Path)
    ensures InStack(w, stack + [it], p) <==> InStack(w, stack, p) || p in ItemPaths(w, it)
  {
    var s := stack + [it];
    if InStack(w, stack, p) {
      var i :| 0 <= i < |stack| && p in ItemPaths(w, stack[i]);
      assert s[i] == stack[i];
    }
    if p in ItemPaths(w, it) { assert s[|stack|] == it; }
  }

  lemma InStackPop(w: Which, stack: seq<Item>, p: Path)
    requires |stack| > 0
    ensures InStack(w, stack, p) <==> InStack(w, stack[..|stack| - 1], p) || p in ItemPaths(w, stack[|stack| - 1])
  {
    assert stack == stack[..|stack| - 1] + [stack[|stack| - 1]];
    InStackPush(w, stack[..|stack| - 1], stack[|stack| - 1], p);
  }

  /** The whole item is its level over all the names of either side. */
  lemma LevelStart(w: Which, it: Item, names: seq<Name>, p: Path)
    requires forall n :: n in names <==> n in NamesOf(it.l) + NamesOf(it.r)
    ensures p in ItemPaths(w, it) <==> InLevel(w, it, names, p)
  {
    if p in ItemPaths(w, it) {
      var q := p[|it.prefix|..];
      assert q == [q[0]] + q[1..];
      NamesOfGet(it.l, q[0]);
      NamesOfGet(it.r, q[0]);
      if |q| == 1 { WalkHitHere(w, it.l, it.r, q[0]); } else { WalkHitBelow(w, it.l, it.r, q[0], q[1..]); }
    }
  }

  predicate Descend(it: Item, n: Name) {
    && Get(it.l, n) != Get(it.r, n)
    && Subtree(Get(it.l, n)).Some? && Subtree(Get(it.r, n)).Some?
  }

  function ChildItem(it: Item, n: Name): Item { Item(it.prefix + [n], Under(it.l, n), Under(it.r, n)) }

  /** One name of a level accounts for its own path, or for a child item. */
  lemma LevelStep(w: Which, it: Item, names: seq<Name>, k: nat, p: Path)
    requires k < |names| && (forall i :: k < i < |names| ==> names[i] != names[k])
    ensures InLevel(w, it, names[k..], p) <==>
      || InLevel(w, it, names[k + 1..], p)
      || (p == it.prefix + [names[k]] && Hit(w, Get(it.l, names[k]), Get(it.r, names[k])))
      || (Descend(it, names[k]) && p in ItemPaths(w, ChildItem(it, names[k])))
  {
    var n := names[k];
    assert names[k..] == [n] + names[k + 1..];
    if it.prefix < p {
      var q := p[|it.prefix|..];
      if q[0] == n {
        HeadPath(w, it, n, p);
      } else {
        assert p != it.prefix + [n] by { assert (it.prefix + [n])[|it.prefix|] == n; }
        assert !(it.prefix + [n] < p) by { assert (it.prefix + [n])[|it.prefix|] == n; }
      }
    } else {
      assert (it.prefix + [n])[..|it.prefix|] == it.prefix;
    }
  }

  lemma HeadPath(w: Which, it: Item, n: Name, p: Path)
    requires it.prefix < p && p[|it.prefix|] == n
    ensures p in ItemPaths(w, it) <==>
      || (p == it.prefix + [n] && Hit(w, Get(it.l, n), Get(it.r, n)))
      || (Descend(it, n) && p in ItemPaths(w, ChildItem(it, n)))
  {
    var q := p[|it.prefix|..];
    assert p == it.prefix + q && q[0] == n;
    if |q| == 1 {
      assert q == [n];
      WalkHitHere(w, it.l, it.r, n);
    } else {
      assert q == [n] + q[1..];
      assert p == it.prefix + [n] + q[1..];
      assert p[|it.prefix + [n]|..] == q[1..];
      WalkHitBelow(w, it.l, it.r, n, q[1..]);
      if Get(it.l, n) == Get(it.r, n) { NoHitInEqual(w, Under(it.l, n), q[1..]); }
    }
  }

  // ---- termination ---------------------------------------------------------

  /** Number of directories in a tree, counting itself. */
  function Weight(t: Tree): (w: nat)
    ensures w > 0
    decreases t, 1
  {
    1 + WeightEntries(t.entries)
  }

  function WeightEntries(es: seq<TreeEntry>): nat
    decreases es, 0
  {
    if es == [] then 0
    else (if es[0].id.TreeId? then Weight(es[0].id.tree) else 0) + WeightEntries(es[1..])
  }

  function WeightOf(e: Option<TreeEntry>): nat {
    if e.Some? && e.value.id.TreeId? then Weight(e.value.id.tree) else 0
  }

  function WeightNames(es: seq<TreeEntry>, names: seq<Name>): nat {
    if names == [] then 0 else WeightOf(Find(es, names[0])) + WeightNames(es, names[1..])
  }

  lemma {:induction false} WeightBound(es: seq<TreeEntry>, names: seq<Name>)
    requires NamesSorted(es) && StrictlySorted(names)
    ensures WeightNames(es, names) <= WeightEntries(es)
    decreases |es| + |names|
  {
    if names == [] {
    } else if es == [] {
      WeightBound(es, names[1..]);
    } else if es[0].name == names[0] {
      SkipHead(es, names[1..]);
      WeightBound(es[1..], names[1..]);
    } else {
      LessTrichotomy(es[0].name, names[0]);
      if Less(names[0], es[0].name) {
        NotFoundBelow(es, names[0]);
        WeightBound(es, names[1..]);
      } else {
        HeadBelowKeys(es[0].name, names);
        SkipHead(es, names);
        WeightBound(es[1..], names);
      }
    }
  }

  lemma NotFoundBelow(es: seq<TreeEntry>, n: Name)
    requires es != [] && NamesSorted(es) && Less(n, es[0].name)
    ensures Find(es, n) == None
  {
    forall i | 0 <= i < |es| ensures es[i].name != n {
      if i > 0 { LessTransitive(n, es[0].name, es[i].name); }
      LessTrichotomy(n, es[i].name);
    }
  }

  lemma {:induction false} SkipHead(es: seq<TreeEntry>, names: seq<Name>)
    requires es != [] && StrictlySorted(names) && forall i :: 0 <= i < |names| ==> Less(es[0].name, names[i])
    ensures WeightNames(es, names) == WeightNames(es[1..], names)
  {
    if names != [] {
      LessTrichotomy(es[0].name, names[0]);
      SkipHead(es, names[1..]);
    }
  }

  function StackWeight(stack: seq<Item>): nat {
    if stack == [] then 0 else Weight(stack[|stack| - 1].l) + StackWeight(stack[..|stack| - 1])
  }

  lemma StackWeightPush(stack: seq<Item>, it: Item)
    ensures StackWeight(stack + [it]) == StackWeight(stack) + Weight(it.l)
  {
    assert (stack + [it])[..|stack|] == stack;
  }

  lemma WeightStep(es: seq<TreeEntry>, names: seq<Name>, k: nat)
    requires k < |names|
    ensures WeightNames(es, names[k..]) == WeightOf(Find(es, names[k])) + WeightNames(es, names[k + 1..])
  {
    assert names[k..][0] == names[k] && names[k..][1..] == names[k + 1..];
  }

  /** Every item on the work list is the pair of directories at its prefix. */
  predicate ItemsAt(l: Tree, r: Tree, stack: seq<Item>) {
    forall i :: 0 <= i < |stack| ==> ItemAt(l, r, stack[i])
  }

  predicate ItemAt(l: Tree, r: Tree, it: Item) {
    && Typed(it.l) && Typed(it.r)
    && (if it.prefix == [] then it.l == l && it.r == r
        else Subtree(EntryAt(l, it.prefix)) == Some(it.l) && Subtree(EntryAt(r, it.prefix)) == Some(it.r))
  }

  lemma EntryUnderItem(l: Tree, r: Tree, it: Item, n: Name)
    requires ItemAt(l, r, it)
    ensures EntryAt(l, it.prefix + [n]) == Get(it.l, n) && EntryAt(r, it.prefix + [n]) == Get(it.r, n)
  {
    if it.prefix == [] {
      assert it.prefix + [n] == [n];
    } else {
      WalkOn(l, it.prefix, [n]);
      WalkOn(r, it.prefix, [n]);
    }
  }

  lemma ChildItemAt(l: Tree, r: Tree, it: Item, n: Name)
    requires ItemAt(l, r, it) && Descend(it, n)
    ensures ItemAt(l, r, ChildItem(it, n))
  {
    EntryUnderItem(l, r, it, n);
    TypedUnder(it.l, n);
    TypedUnder(it.r, n);
  }

  // ---- changed_paths -------------------------------------------------------

  /** `changed_paths`: every path whose entry identity differs, descending only
      where both sides are directories. */
  method ChangedPaths(left: ObjectId, right: ObjectId) returns (out: set<Path>)
    requires left.TreeId? && right.TreeId? && Typed(left.tree) && Typed(right.tree)
    ensures forall p :: p in out <==> WalkHit(Changes, left.tree, right.tree, p)
  {
    out := {};
    var stack := [Item([], left.tree, right.tree)];
    assert forall p :: InStack(Changes, stack, p) <==> WalkHit(Changes, left.tree, right.tree, p) by {
      forall p ensures InStack(Changes, stack, p) <==> WalkHit(Changes, left.tree, right.tree, p) {
        assert p[0..] == p;
        assert stack == [] + stack;
        InStackPush(Changes, [], stack[0], p);
      }
    }
    while stack != []
      invariant ItemsAt(left.tree, right.tree, stack)
      invariant forall p :: WalkHit(Changes, left.tree, right.tree, p) <==> Seen(Changes, out, stack, p)
      decreases StackWeight(stack)
    {
      var it := stack[|stack| - 1];
      ghost var before := stack;
      stack := stack[..|stack| - 1];
      forall p ensures InStack(Changes, before, p) <==> InStack(Changes, stack, p) || p in ItemPaths(Changes, it) {
        InStackPop(Changes, before, p);
      }
      out, stack := ChangedLevel(left.tree, right.tree, it, out, stack);
    }
  }

  method ChangedLevel(ghost l: Tree, ghost r: Tree, it: Item, out0: set<Path>, stack0: seq<Item>)
    returns (out: set<Path>, stack: seq<Item>)
    requires ItemsAt(l, r, stack0) && ItemAt(l, r, it)
    ensures ItemsAt(l, r, stack)
    ensures StackWeight(stack) < StackWeight(stack0) + Weight(it.l)
    ensures forall p ::
      Seen(Changes, out, stack, p) <==> Seen(Changes, out0, stack0, p) || p in ItemPaths(Changes, it)
  {
    out, stack := out0, stack0;
    if it.l == it.r {
      forall p ensures p !in ItemPaths(Changes, it) {
        if it.prefix < p { NoHitInEqual(Changes, it.l, p[|it.prefix|..]); }
      }
      return;
    }
    var names := SortNames(NamesOf(it.l) + NamesOf(it.r));
    WeightBound(it.l.entries, names);
    assert names[0..] == names;
    forall p ensures p in ItemPaths(Changes, it) <==> InLevel(Changes, it, names[0..], p) {
      LevelStart(Changes, it, names, p);
    }
    var k := 0;
    while k < |names|
      invariant 0 <= k <= |names| && ItemsAt(l, r, stack)
      invariant StackWeight(stack) + WeightNames(it.l.entries, names[k..]) <= StackWeight(stack0) + WeightEntries(it.l.entries)
      invariant forall p ::
        (Seen(Changes, out, stack, p) || InLevel(Changes, it, names[k..], p)) <==>
        (Seen(Changes, out0, stack0, p) || p in ItemPaths(Changes, it))
    {
      out, stack := ChangedName(l, r, it, names, k, out, stack);
      k := k + 1;
    }
  }

  method ChangedName(ghost l: Tree, ghost r: Tree, it: Item, names: seq<Name>, k: nat, out0: set<Path>, stack0: seq<Item>)
    returns (out: set<Path>, stack: seq<Item>)
    requires ItemsAt(l, r, stack0) && ItemAt(l, r, it)
    requires k < |names| && StrictlySorted(names)
    ensures ItemsAt(l, r, stack)
    ensures StackWeight(stack) + WeightNames(it.l.entries, names[k + 1..]) <= StackWeight(stack0) + WeightNames(it.l.entries, names[k..])
    ensures forall p ::
      (Seen(Changes, out, stack, p) || InLevel(Changes, it, names[k + 1..], p)) <==>
      (Seen(Changes, out0, stack0, p) || InLevel(Changes, it, names[k..], p))
  {
    out, stack := out0, stack0;
    var n := names[k];
    var a, b := Get(it.l, n), Get(it.r, n);
    WeightStep(it.l.entries, names, k);
    LaterDiffer(names, k);
    if a.Some? { TypedUnder(it.l, n); }
    if b.Some? { TypedUnder(it.r, n); }
    if a.Some? && b.Some? && a == b {
    } else if a.Some? && b.Some? && a.value.kind.KTree? && b.value.kind.KTree? {
      ChildItemAt(l, r, it, n);
      StackWeightPush(stack, ChildItem(it, n));
      stack := stack + [Item(it.prefix + [n], a.value.id.tree, b.value.id.tree)];
    } else if a != b {
      out := out + {it.prefix + [n]};
    }
    forall p
      ensures (Seen(Changes, out, stack, p) || InLevel(Changes, it, names[k + 1..], p)) <==>
              (Seen(Changes, out0, stack0, p) || InLevel(Changes, it, names[k..], p))
    {
      LevelStep(Changes, it, names, k, p);
      if stack != stack0 { InStackPush(Changes, stack0, ChildItem(it, n), p); }
    }
  }

  lemma LaterDiffer(names: seq<Name>, k: nat)
    requires StrictlySorted(names) && k < |names|
    ensures forall i :: k < i < |names| ==> names[i] != names[k]
  {
    LessTrichotomy(names[k], names[k]);
  }
}
