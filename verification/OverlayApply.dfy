/** `apply_overlay` as the program runs it, proved against the fold. */
module OverlayApply {
  import opened Names
  import opened Trees
  import opened OverlayFold

  /** The rows strictly below `prefix`, relative to it. */
  ghost function Strip(ov: Overlay, prefix: Path): (r: Overlay)
    ensures forall q {:trigger q in r} :: q in r <==> |q| > 0 && prefix + q in ov
    ensures forall q {:trigger q in r} :: q in r ==> r[q] == ov[prefix + q]
  {
    var tails := set p | p in ov && |p| > |prefix| && prefix <= p :: p[|prefix|..];
    assert forall q :: q in tails ==> prefix + q in ov by {
      forall q | q in tails ensures prefix + q in ov {
        var p :| p in ov && |p| > |prefix| && prefix <= p && q == p[|prefix|..];
        assert p == prefix + q;
      }
    }
    assert forall q :: |q| > 0 && prefix + q in ov ==> q in tails by {
      forall q | |q| > 0 && prefix + q in ov ensures q in tails {
        assert (prefix + q)[|prefix|..] == q;
      }
    }
    map q | q in tails :: ov[prefix + q]
  }

  lemma StripNothing(ov: Overlay)
    requires ValidOverlay(ov)
    ensures Strip(ov, []) == ov
  {
    assert forall q: Path :: [] + q == q;
  }

  lemma StripTwice(ov: Overlay, sub: Overlay, prefix: Path, n: Name)
    requires IsGroup(prefix, ov, n, sub)
    ensures Strip(sub, prefix + [n]) == Sub(Strip(ov, prefix), n)
  {
    var a, b := Strip(sub, prefix + [n]), Sub(Strip(ov, prefix), n);
    forall q ensures (q in a <==> q in b) && (q in a ==> a[q] == b[q]) {
      InStripGroup(ov, sub, prefix, n, q);
      InSubStrip(ov, prefix, n, q);
    }
  }

  lemma InStrip(ov: Overlay, c: Path, q: Path)
    ensures q in Strip(ov, c) <==> |q| > 0 && c + q in ov
    ensures q in Strip(ov, c) ==> Strip(ov, c)[q] == ov[c + q]
  {
  }

  lemma InStripGroup(ov: Overlay, sub: Overlay, prefix: Path, n: Name, q: Path)
    requires IsGroup(prefix, ov, n, sub)
    ensures q in Strip(sub, prefix + [n]) <==> |q| > 0 && prefix + ([n] + q) in ov
    ensures q in Strip(sub, prefix + [n]) ==> Strip(sub, prefix + [n])[q] == ov[prefix + ([n] + q)]
  {
    Regroup(prefix, [n], q);
    var c := prefix + [n];
    InStrip(sub, c, q);
    assert |q| > 0 ==> c < c + q;
  }

  // ---- the two-way merge of one level --------------------------------------

  function EditList(e: Option<TreeEntry>): seq<TreeEntry> { if e.Some? then [e.value] else [] }

  /** The merge of sorted entries with edits listed in key order. */
  function MergeSorted(base: seq<TreeEntry>, keys: seq<Name>, edits: map<Name, Option<TreeEntry>>): seq<TreeEntry>
    requires forall i :: 0 <= i < |keys| ==> keys[i] in edits
    decreases |base| + |keys|
  {
    if keys == [] then base
    else if base != [] && Less(base[0].name, keys[0]) then
      [base[0]] + MergeSorted(base[1..], keys, edits)
    else
      EditList(edits[keys[0]])
      + MergeSorted(if base != [] && base[0].name == keys[0] then base[1..] else base, keys[1..], edits)
  }

  predicate AllAbove(m: Name, es: seq<TreeEntry>) { forall i :: 0 <= i < |es| ==> Less(m, es[i].name) }

  lemma {:induction false} MergeAbove(m: Name, base: seq<TreeEntry>, keys: seq<Name>, edits: map<Name, Option<TreeEntry>>)
    requires forall i :: 0 <= i < |keys| ==> keys[i] in edits
    requires forall n :: n in edits && edits[n].Some? ==> edits[n].value.name == n
    requires AllAbove(m, base) && forall i :: 0 <= i < |keys| ==> Less(m, keys[i])
    ensures AllAbove(m, MergeSorted(base, keys, edits))
    decreases |base| + |keys|
  {
    if keys == [] {
    } else if base != [] && Less(base[0].name, keys[0]) {
      MergeAbove(m, base[1..], keys, edits);
    } else {
      MergeAbove(m, if base != [] && base[0].name == keys[0] then base[1..] else base, keys[1..], edits);
    }
  }

  lemma {:induction false} MergeStaysSorted(base: seq<TreeEntry>, keys: seq<Name>, edits: map<Name, Option<TreeEntry>>)
    requires NamesSorted(base) && StrictlySorted(keys)
    requires forall i :: 0 <= i < |keys| ==> keys[i] in edits
    requires forall n :: n in edits && edits[n].Some? ==> edits[n].value.name == n
    ensures NamesSorted(MergeSorted(base, keys, edits))
    decreases |base| + |keys|
  {
    if keys == [] {
    } else if base != [] && Less(base[0].name, keys[0]) {
      MergeStaysSorted(base[1..], keys, edits);
      HeadBelowKeys(base[0].name, keys);
      MergeAbove(base[0].name, base[1..], keys, edits);
    } else {
      var rest := if base != [] && base[0].name == keys[0] then base[1..] else base;
      MergeStaysSorted(rest, keys[1..], edits);
      KeyBelowBase(base, keys[0]);
      MergeAbove(keys[0], rest, keys[1..], edits);
    }
  }

  lemma KeyBelowBase(base: seq<TreeEntry>, k: Name)
    requires NamesSorted(base)
    requires base == [] || !Less(base[0].name, k)
    ensures AllAbove(k, if base != [] && base[0].name == k then base[1..] else base)
  {
    if base != [] {
      LessTrichotomy(base[0].name, k);
      if base[0].name != k {
        forall i | 0 <= i < |base| ensures Less(k, base[i].name) {
          if i > 0 { LessTransitive(k, base[0].name, base[i].name); }
        }
      }
    }
  }

  lemma NotAbove(m: Name, es: seq<TreeEntry>)
    requires AllAbove(m, es)
    ensures Find(es, m) == None
  {
    LessTrichotomy(m, m);
  }

  /** An edited name reads its edit, any other name reads the base. */
  lemma {:induction false} MergeFind(base: seq<TreeEntry>, keys: seq<Name>, edits: map<Name, Option<TreeEntry>>, n: Name)
    requires NamesSorted(base) && StrictlySorted(keys)
    requires forall i :: 0 <= i < |keys| ==> keys[i] in edits
    requires forall n :: n in edits && edits[n].Some? ==> edits[n].value.name == n
    ensures Find(MergeSorted(base, keys, edits), n) == if n in keys then edits[n] else Find(base, n)
    decreases |base| + |keys|
  {
    if keys == [] {
    } else if base != [] && Less(base[0].name, keys[0]) {
      MergeFind(base[1..], keys, edits, n);
      HeadBelowKeys(base[0].name, keys);
      LessTrichotomy(n, n);
    } else {
      var rest := if base != [] && base[0].name == keys[0] then base[1..] else base;
      MergeFind(rest, keys[1..], edits, n);
      KeyBelowBase(base, keys[0]);
      HeadNotLater(keys);
      if n == keys[0] {
        NotAbove(n, rest);
      }
      var e := EditList(edits[keys[0]]);
      assert e == [] ==> e + MergeSorted(rest, keys[1..], edits) == MergeSorted(rest, keys[1..], edits);
    }
  }

  lemma HeadNotLater(keys: seq<Name>)
    requires keys != [] && StrictlySorted(keys)
    ensures keys[0] !in keys[1..]
  {
    LessTrichotomy(keys[0], keys[0]);
  }

  lemma MergeTake(base: seq<TreeEntry>, keys: seq<Name>, edits: map<Name, Option<TreeEntry>>, i: int, j: int)
    requires 0 <= i < |base| && 0 <= j < |keys| && forall k :: 0 <= k < |keys| ==> keys[k] in edits
    requires Less(base[i].name, keys[j])
    ensures MergeSorted(base[i..], keys[j..], edits) == [base[i]] + MergeSorted(base[i + 1..], keys[j..], edits)
  {
    assert keys[j..][0] == keys[j] && base[i..][0] == base[i] && base[i..][1..] == base[i + 1..];
  }

  lemma MergeEdit(base: seq<TreeEntry>, keys: seq<Name>, edits: map<Name, Option<TreeEntry>>, i: int, j: int, i': int)
    requires 0 <= i <= |base| && 0 <= j < |keys| && forall k :: 0 <= k < |keys| ==> keys[k] in edits
    requires i == |base| || !Less(base[i].name, keys[j])
    requires i' == if i < |base| && base[i].name == keys[j] then i + 1 else i
    ensures MergeSorted(base[i..], keys[j..], edits) == EditList(edits[keys[j]]) + MergeSorted(base[i'..], keys[j + 1..], edits)
  {
    assert keys[j..][0] == keys[j] && keys[j..][1..] == keys[j + 1..];
    if i < |base| {
      assert base[i..][0] == base[i] && base[i..][1..] == base[i + 1..];
    }
  }

  /** One pass over base entries and edits, a cursor on each. */
  method MergeInOrder(base: seq<TreeEntry>, keys: seq<Name>, edits: map<Name, Option<TreeEntry>>)
    returns (out: seq<TreeEntry>)
    requires forall i :: 0 <= i < |keys| ==> keys[i] in edits
    ensures out == MergeSorted(base, keys, edits)
  {
    out := [];
    var i, j := 0, 0;
    assert base[0..] == base && keys[0..] == keys;
    ghost var todo := MergeSorted(base, keys, edits);
    while j < |keys|
      invariant 0 <= i <= |base| && 0 <= j <= |keys|
      invariant todo == MergeSorted(base[i..], keys[j..], edits)
      invariant out + todo == MergeSorted(base, keys, edits)
      decreases |base| - i + |keys| - j
    {
      if i < |base| && Less(base[i].name, keys[j]) {
        MergeTake(base, keys, edits, i, j);
        todo := MergeSorted(base[i + 1..], keys[j..], edits);
        Regroup(out, [base[i]], todo);
        out := out + [base[i]];
        i := i + 1;
      } else {
        var i' := if i < |base| && base[i].name == keys[j] then i + 1 else i;
        MergeEdit(base, keys, edits, i, j, i');
        todo := MergeSorted(base[i'..], keys[j + 1..], edits);
        Regroup(out, EditList(edits[keys[j]]), todo);
        out := out + EditList(edits[keys[j]]);
        i, j := i', j + 1;
      }
    }
    out := out + base[i..];
  }

  lemma Regroup<T>(a: seq<T>, b: seq<T>, c: seq<T>)
    ensures (a + b) + c == a + (b + c)
  {
  }

  /** Merge canonical base entries with sorted sparse edits in one pass. */
  method MergeSortedEntries(base: seq<TreeEntry>, edits: map<Name, Option<TreeEntry>>)
    returns (out: seq<TreeEntry>)
    requires NamesSorted(base)
    requires forall n :: n in edits && edits[n].Some? ==> edits[n].value.name == n
    ensures NamesSorted(out)
    ensures forall n :: Find(out, n) == if n in edits then edits[n] else Find(base, n)
  {
    var keys := SortNames(edits.Keys);
    out := MergeInOrder(base, keys, edits);
    MergeStaysSorted(base, keys, edits);
    forall n ensures Find(out, n) == if n in edits then edits[n] else Find(base, n) {
      MergeFind(base, keys, edits, n);
    }
  }

  // ---- one level of the fold -----------------------------------------------

  /** `groups` and `files` are the rows of `ov` below `prefix`, sorted by child. */
  ghost predicate IsSplit(prefix: Path, ov: Overlay, groups: map<Name, Overlay>, files: map<Name, Option<File>>) {
    && (forall n :: n in files <==> prefix + [n] in ov)
    && (forall n :: n in files ==> files[n] == ov[prefix + [n]])
    && (forall n :: n in groups <==> HasGroup(prefix, ov, n))
    && (forall n :: n in groups ==> IsGroup(prefix, ov, n, groups[n]))
  }

  ghost predicate HasGroup(prefix: Path, ov: Overlay, n: Name) { exists p :: p in ov && prefix + [n] < p }

  ghost predicate IsGroup(prefix: Path, ov: Overlay, n: Name, g: Overlay) {
    && (forall p {:trigger p in g} :: p in g <==> p in ov && prefix + [n] < p)
    && (forall p {:trigger p in g} :: p in g ==> g[p] == ov[p])
  }

  function AddToGroup(groups: map<Name, Overlay>, n: Name, p: Path, op: Option<File>): map<Name, Overlay> {
    groups[n := (if n in groups then groups[n] else map[])[p := op]]
  }

  lemma SplitNested(prefix: Path, ov: Overlay, groups: map<Name, Overlay>, files: map<Name, Option<File>>, path: Path, op: Option<File>)
    requires IsSplit(prefix, ov, groups, files)
    requires prefix < path && |path| > |prefix| + 1 && path !in ov
    ensures IsSplit(prefix, ov[path := op], AddToGroup(groups, path[|prefix|], path, op), files)
  {
    var ov', groups' := ov[path := op], AddToGroup(groups, path[|prefix|], path, op);
    forall n ensures n in groups' <==> HasGroup(prefix, ov', n) {
      GroupAfter(prefix, ov, path, op, n);
    }
    forall n | n in groups' ensures IsGroup(prefix, ov', n, groups'[n]) {
      GroupRows(prefix, ov, groups, path, op, n);
    }
    forall n ensures prefix + [n] in ov' <==> prefix + [n] in ov { assert |prefix + [n]| < |path|; }
  }

  lemma GroupAfter(prefix: Path, ov: Overlay, path: Path, op: Option<File>, n: Name)
    requires prefix < path && |path| > |prefix| + 1
    ensures HasGroup(prefix, ov[path := op], n) <==> HasGroup(prefix, ov, n) || n == path[|prefix|]
  {
    ChildOf(prefix, n, path);
    var ov' := ov[path := op];
    if HasGroup(prefix, ov, n) { var p :| p in ov && prefix + [n] < p; assert p in ov'; }
    if n == path[|prefix|] { assert path in ov'; }
    if HasGroup(prefix, ov', n) && n != path[|prefix|] { var p :| p in ov' && prefix + [n] < p; assert p in ov; }
  }

  lemma GroupRows(prefix: Path, ov: Overlay, groups: map<Name, Overlay>, path: Path, op: Option<File>, n: Name)
    requires prefix < path && |path| > |prefix| + 1 && path !in ov
    requires n in groups <==> HasGroup(prefix, ov, n)
    requires n in groups ==> IsGroup(prefix, ov, n, groups[n])
    requires n in groups || n == path[|prefix|]
    ensures IsGroup(prefix, ov[path := op], n, AddToGroup(groups, path[|prefix|], path, op)[n])
  {
    ChildOf(prefix, n, path);
  }

  lemma ChildOf(prefix: Path, n: Name, path: Path)
    requires prefix < path
    ensures prefix + [n] <= path <==> n == path[|prefix|]
  {
    assert path[..|prefix| + 1] == prefix + [path[|prefix|]];
    assert (prefix + [n])[|prefix|] == n;
  }

  lemma SplitDirect(prefix: Path, ov: Overlay, groups: map<Name, Overlay>, files: map<Name, Option<File>>, n: Name, op: Option<File>)
    requires IsSplit(prefix, ov, groups, files) && prefix + [n] !in ov
    ensures IsSplit(prefix, ov[prefix + [n] := op], groups, files[n := op])
  {
    var path := prefix + [n];
    var ov' := ov[path := op];
    forall m ensures HasGroup(prefix, ov', m) <==> HasGroup(prefix, ov, m) {
      if HasGroup(prefix, ov, m) { var p :| p in ov && prefix + [m] < p; assert p in ov'; }
      if HasGroup(prefix, ov', m) { var p :| p in ov' && prefix + [m] < p; assert p != path; }
    }
    forall m | m in groups ensures IsGroup(prefix, ov', m, groups[m]) {
      assert IsGroup(prefix, ov, m, groups[m]);
      assert !(prefix + [m] < path);
    }
    forall m ensures prefix + [m] == path <==> m == n { assert (prefix + [m])[|prefix|] == m; }
  }

  lemma SplitElsewhere(prefix: Path, ov: Overlay, groups: map<Name, Overlay>, files: map<Name, Option<File>>, path: Path, op: Option<File>)
    requires IsSplit(prefix, ov, groups, files) && !(prefix < path) && path !in ov
    ensures IsSplit(prefix, ov[path := op], groups, files)
  {
    var ov' := ov[path := op];
    forall m ensures prefix + [m] != path && !(prefix + [m] < path) {
      assert (prefix + [m])[..|prefix|] == prefix;
    }
    forall m ensures HasGroup(prefix, ov', m) <==> HasGroup(prefix, ov, m) {
      if HasGroup(prefix, ov, m) { var p :| p in ov && prefix + [m] < p; assert p in ov'; }
      if HasGroup(prefix, ov', m) { var p :| p in ov' && prefix + [m] < p; assert p in ov; }
    }
    forall m | m in groups ensures IsGroup(prefix, ov', m, groups[m]) {
      assert IsGroup(prefix, ov, m, groups[m]);
    }
  }

  /** Sort the rows below `prefix` into direct edits and per-child groups. */
  method SplitLevel(prefix: Path, overlay: Overlay)
    returns (groups: map<Name, Overlay>, files: map<Name, Option<File>>)
    ensures IsSplit(prefix, overlay, groups, files)
  {
    groups, files := map[], map[];
    var rest := overlay.Keys;
    assert overlay - rest == map[];
    while rest != {}
      invariant rest <= overlay.Keys
      invariant IsSplit(prefix, overlay - rest, groups, files)
      decreases rest
    {
      var path :| path in rest;
      var op := overlay[path];
      if prefix < path {
        if |path| > |prefix| + 1 {
          SplitNested(prefix, overlay - rest, groups, files, path, op);
          groups := AddToGroup(groups, path[|prefix|], path, op);
        } else {
          assert path == prefix + [path[|prefix|]];
          SplitDirect(prefix, overlay - rest, groups, files, path[|prefix|], op);
          files := files[path[|prefix|] := op];
        }
      } else {
        SplitElsewhere(prefix, overlay - rest, groups, files, path, op);
      }
      RowDone(overlay, rest, path);
      rest := rest - {path};
    }
    assert overlay - {} == overlay;
  }

  lemma RowDone(overlay: Overlay, rest: set<Path>, path: Path)
    requires path in rest && rest <= overlay.Keys
    ensures (overlay - rest)[path := overlay[path]] == overlay - (rest - {path})
  {
  }

  lemma GroupNonempty(overlay: Overlay, prefix: Path, n: Name)
    ensures HasGroup(prefix, overlay, n) <==> Sub(Strip(overlay, prefix), n) != map[]
  {
    if HasGroup(prefix, overlay, n) {
      var p :| p in overlay && prefix + [n] < p;
      assert p == prefix + ([n] + p[|prefix| + 1..]);
      InSubStrip(overlay, prefix, n, p[|prefix| + 1..]);
    }
    if Sub(Strip(overlay, prefix), n).Keys != {} {
      var q :| q in Sub(Strip(overlay, prefix), n).Keys;
      InSubStrip(overlay, prefix, n, q);
      assert prefix + [n] < prefix + ([n] + q);
    }
  }

  lemma InSubStrip(overlay: Overlay, prefix: Path, n: Name, q: Path)
    ensures q in Sub(Strip(overlay, prefix), n) <==> |q| > 0 && prefix + ([n] + q) in overlay
    ensures q in Sub(Strip(overlay, prefix), n) ==> Sub(Strip(overlay, prefix), n)[q] == overlay[prefix + ([n] + q)]
  {
    assert q in Sub(Strip(overlay, prefix), n) <==> |q| > 0 && [n] + q in Strip(overlay, prefix);
  }

  /** What one level knows once the children outside `rest` are folded: `want`
      is the entry each name should end up with. */
  ghost predicate LevelDone(want: Name -> Option<TreeEntry>, files: set<Name>, groups: set<Name>,
                            edits: map<Name, Option<TreeEntry>>, rest: set<Name>) {
    && edits.Keys == files + (groups - rest)
    && (forall n :: n in edits && edits[n].Some? ==> edits[n].value.name == n)
    && (forall n :: n in edits && n !in rest ==> edits[n] == want(n))
    && (forall n :: n in groups - rest ==> EditFits(edits[n]))
  }

  predicate EditFits(e: Option<TreeEntry>) { e.Some? ==> e.value.id.TreeId? && Fits(e.value.id.tree) }

  lemma LevelStep(want: Name -> Option<TreeEntry>, files: set<Name>, groups: set<Name>,
                  edits: map<Name, Option<TreeEntry>>, rest: set<Name>, n: Name, e: Option<TreeEntry>)
    requires LevelDone(want, files, groups, edits, rest) && rest <= groups && n in rest
    requires e == want(n) && (e.Some? ==> e.value.name == n) && EditFits(e)
    ensures LevelDone(want, files, groups, edits[n := e], rest - {n})
  {
  }

  /** The entry the fold gives each name. */
  ghost function Want(base: Tree, ov: Overlay): Name -> Option<TreeEntry> {
    (n: Name) => FoldEntry(Get(base, n), ov, n)
  }

  /** Fold the rows below `prefix` onto `base`, one directory level per call. */
  method ApplyLevel(base: Option<ObjectId>, prefix: Path, overlay: Overlay) returns (r: Result<ObjectId>)
    requires base.Some? ==> base.value.TreeId? && WfTree(base.value.tree)
    requires ValidOverlay(overlay)
    ensures r == FoldResult(BaseTree(base), Strip(overlay, prefix))
    decreases MaxLen(Strip(overlay, prefix).Keys)
  {
    var baseTree := BaseTree(base);
    var groups, files := SplitLevel(prefix, overlay);
    var edits := FileEdits(files);
    ghost var want := Want(baseTree, Strip(overlay, prefix));
    LevelStart(prefix, overlay, groups, files, baseTree);
    var rest := groups.Keys;
    while rest != {}
      invariant rest <= groups.Keys
      invariant LevelDone(want, files.Keys, groups.Keys, edits, rest)
      decreases rest
    {
      var name :| name in rest;
      var childBase := None;
      if name !in files {
        var e := BinarySearchGet(baseTree, name);
        if e.Some? && e.value.kind.KTree? {
          childBase := Some(e.value.id);
        }
      }
      ChildReady(prefix, overlay, groups, files, baseTree, childBase, name);
      var child := ApplyLevel(childBase, prefix + [name], groups[name]);
      ChildAnswer(baseTree, Strip(overlay, prefix), name, child);
      if child.Err? {
        return child;
      }
      LevelStep(want, files.Keys, groups.Keys, edits, rest, name, ChildEdit(name, child.value));
      edits := edits[name := ChildEdit(name, child.value)];
      rest := rest - {name};
    }
    var entries := MergeSortedEntries(baseTree.entries, edits);
    LevelResult(baseTree, prefix, overlay, groups, files, edits, entries);
    if |entries| > MAX_TREE_ENTRIES {
      return Err(Invalid);
    }
    r := Ok(TreeId(Tree(entries)));
  }

  function FileEdits(files: map<Name, Option<File>>): map<Name, Option<TreeEntry>> {
    map n | n in files ::
      if files[n].Some? then Some(TreeEntry(n, KBlob, files[n].value.id, files[n].value.exec)) else None
  }

  /** An emptied child directory is dropped, not kept as an empty tree. */
  function ChildEdit(n: Name, child: ObjectId): Option<TreeEntry> {
    if child.TreeId? && child.tree.entries == [] then None else Some(TreeEntry(n, KTree, child, false))
  }

  lemma SplitMeans(prefix: Path, overlay: Overlay, groups: map<Name, Overlay>, files: map<Name, Option<File>>, n: Name)
    requires IsSplit(prefix, overlay, groups, files)
    ensures n in groups <==> Sub(Strip(overlay, prefix), n) != map[]
    ensures n in files <==> [n] in Strip(overlay, prefix)
    ensures n in files ==> files[n] == Strip(overlay, prefix)[[n]]
  {
    GroupNonempty(overlay, prefix, n);
  }

  lemma LevelStart(prefix: Path, overlay: Overlay, groups: map<Name, Overlay>, files: map<Name, Option<File>>, base: Tree)
    requires IsSplit(prefix, overlay, groups, files)
    ensures LevelDone(Want(base, Strip(overlay, prefix)), files.Keys, groups.Keys, FileEdits(files), groups.Keys)
  {
    forall n | n in files && n !in groups
      ensures FileEdits(files)[n] == Want(base, Strip(overlay, prefix))(n)
    {
      SplitMeans(prefix, overlay, groups, files, n);
    }
  }

  lemma ChildReady(prefix: Path, overlay: Overlay, groups: map<Name, Overlay>, files: map<Name, Option<File>>,
                   base: Tree, childBase: Option<ObjectId>, n: Name)
    requires IsSplit(prefix, overlay, groups, files) && n in groups && WfTree(base) && ValidOverlay(overlay)
    requires childBase == (if n !in files && Get(base, n).Some? && Get(base, n).value.kind.KTree?
                           then Some(Get(base, n).value.id) else None)
    ensures Sub(Strip(overlay, prefix), n) != map[]
    ensures ValidOverlay(groups[n])
    ensures Strip(groups[n], prefix + [n]) == Sub(Strip(overlay, prefix), n)
    ensures MaxLen(Strip(groups[n], prefix + [n]).Keys) < MaxLen(Strip(overlay, prefix).Keys)
    ensures BaseTree(childBase) == ChildBase(Get(base, n), Strip(overlay, prefix), n)
    ensures childBase.Some? ==> childBase.value.TreeId? && WfTree(childBase.value.tree)
  {
    SplitMeans(prefix, overlay, groups, files, n);
    assert IsGroup(prefix, overlay, n, groups[n]);
    StripTwice(overlay, groups[n], prefix, n);
    SubShorter(Strip(overlay, prefix), n);
    if Get(base, n).Some? { WfGet(base, n); }
  }

  /** A child's answer is its final entry, or dooms the whole fold. */
  lemma ChildAnswer(base: Tree, ov: Overlay, n: Name, child: Result<ObjectId>)
    requires Sub(ov, n) != map[]
    requires child == FoldResult(ChildBase(Get(base, n), ov, n), Sub(ov, n))
    ensures child.Err? ==> child == FoldResult(base, ov)
    ensures child.Ok? ==> ChildEdit(n, child.value) == Want(base, ov)(n) && EditFits(ChildEdit(n, child.value))
  {
    if child.Err? {
      ChildOverflows(base, ov, n);
    } else {
      assert child.value.tree.entries == [] <==> child.value.tree == EmptyTree;
    }
  }

  lemma LevelResult(base: Tree, prefix: Path, overlay: Overlay, groups: map<Name, Overlay>,
                    files: map<Name, Option<File>>, edits: map<Name, Option<TreeEntry>>, entries: seq<TreeEntry>)
    requires WfTree(base) && ValidOverlay(overlay) && IsSplit(prefix, overlay, groups, files)
    requires LevelDone(Want(base, Strip(overlay, prefix)), files.Keys, groups.Keys, edits, {})
    requires NamesSorted(entries)
    requires forall n :: Find(entries, n) == if n in edits then edits[n] else Find(base.entries, n)
    ensures FoldResult(base, Strip(overlay, prefix)) ==
      if |entries| > MAX_TREE_ENTRIES then Err(Invalid) else Ok(TreeId(Tree(entries)))
  {
    forall n ensures Find(entries, n) == Want(base, Strip(overlay, prefix))(n) {
      SplitMeans(prefix, overlay, groups, files, n);
      if n !in edits { Untouched(base, Strip(overlay, prefix), n); }
    }
    MergedIsFold(base, Strip(overlay, prefix), entries);
    forall i | 0 <= i < |entries| && entries[i].id.TreeId? ensures Fits(entries[i].id.tree) {
      GetAt(Tree(entries), i);
      SplitMeans(prefix, overlay, groups, files, entries[i].name);
      LevelEntryFits(base, Strip(overlay, prefix), groups.Keys, files.Keys, edits, entries[i]);
    }
  }

  lemma Untouched(base: Tree, ov: Overlay, n: Name)
    requires [n] !in ov && Sub(ov, n) == map[]
    ensures Want(base, ov)(n) == Find(base.entries, n)
  {
  }

  lemma LevelEntryFits(base: Tree, ov: Overlay, groups: set<Name>, files: set<Name>,
                       edits: map<Name, Option<TreeEntry>>, e: TreeEntry)
    requires WfTree(base) && LevelDone(Want(base, ov), files, groups, edits, {})
    requires Some(e) == (if e.name in edits then edits[e.name] else Find(base.entries, e.name))
    requires e.name !in groups ==> Sub(ov, e.name) == map[]
    requires e.name in files ==> [e.name] in ov
    requires e.name in files && ov[[e.name]].Some? ==> ov[[e.name]].value.id.BlobId?
    requires e.id.TreeId?
    ensures Fits(e.id.tree)
  {
    if e.name in groups {
      assert EditFits(edits[e.name]);
    } else if e.name !in files {
      BaseEntryFits(base, e);
    } else {
      DirectEdit(base, ov, e.name);
    }
  }

  lemma DirectEdit(base: Tree, ov: Overlay, n: Name)
    requires Sub(ov, n) == map[] && [n] in ov
    ensures Want(base, ov)(n).Some? ==> ov[[n]].Some? && Want(base, ov)(n).value.id == ov[[n]].value.id
  {
  }

  lemma BaseEntryFits(base: Tree, e: TreeEntry)
    requires WfTree(base) && e in base.entries && e.id.TreeId?
    ensures Fits(e.id.tree)
  {
    var j :| 0 <= j < |base.entries| && base.entries[j] == e;
    assert WfEntry(base.entries[j]);
    WfIsLooseAndFits(e.id.tree);
  }

  function BaseTree(base: Option<ObjectId>): Tree {
    if base.Some? && base.value.TreeId? then base.value.tree else EmptyTree
  }

  /** The fold, or a refusal when some directory of it would be over-full. */
  ghost function FoldResult(base: Tree, ov: Overlay): Result<ObjectId> {
    if Fits(Fold(base, ov)) then Ok(TreeId(Fold(base, ov))) else Err(Invalid)
  }

  lemma MergedIsFold(base: Tree, ov: Overlay, entries: seq<TreeEntry>)
    requires NamesSorted(entries)
    requires forall n :: Find(entries, n) == Want(base, ov)(n)
    ensures Tree(entries) == Fold(base, ov)
  {
    forall n ensures Get(Tree(entries), n) == Get(Fold(base, ov), n) && NamesSorted(Fold(base, ov).entries) {
      FoldGet(base, ov, n);
    }
    Canonical(Tree(entries), Fold(base, ov));
  }

  lemma ChildOverflows(base: Tree, ov: Overlay, n: Name)
    requires Sub(ov, n) != map[] && !Fits(Fold(ChildBase(Get(base, n), ov, n), Sub(ov, n)))
    ensures !Fits(Fold(base, ov))
  {
    FoldGet(base, ov, n);
    var e := Get(Fold(base, ov), n);
    var i :| 0 <= i < |Fold(base, ov).entries| && Fold(base, ov).entries[i] == e.value;
  }

  /** `apply_overlay`: the published tree is the fold of all staged rows. */
  method ApplyOverlay(base: Option<ObjectId>, overlay: Overlay) returns (r: Result<ObjectId>)
    requires base.Some? ==> base.value.TreeId? && WfTree(base.value.tree)
    requires ValidOverlay(overlay)
    ensures r == FoldResult(BaseTree(base), overlay)
    ensures r.Ok? ==> r.value.TreeId? && WfTree(r.value.tree)
    ensures r.Ok? ==> forall p :: |p| > 0 ==> FileAt(r.value.tree, p) == FoldedFile(BaseTree(base), overlay, p)
  {
    StripNothing(overlay);
    r := ApplyLevel(base, [], overlay);
    if r.Ok? {
      FoldWellFormed(BaseTree(base), overlay);
      WfIsLooseAndFits(r.value.tree);
      forall p | |p| > 0 ensures FileAt(r.value.tree, p) == FoldedFile(BaseTree(base), overlay, p) {
        FoldMeaning(BaseTree(base), overlay, p);
      }
    }
  }
}
