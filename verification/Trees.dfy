/** Copy-on-write trees, content identity, and what a tree holds at a path. */
module Trees {
  import opened Names

  const MAX_TREE_ENTRIES: nat := 100_000

  datatype EntryKind = KBlob | KTree

  /** Content identity as a free term: the id of a tree determines the tree, so
      comparing ids is comparing contents. */
  datatype ObjectId = BlobId(digest: nat) | TreeId(tree: Tree)

  datatype TreeEntry = TreeEntry(name: Name, kind: EntryKind, id: ObjectId, exec: bool)

  datatype Tree = Tree(entries: seq<TreeEntry>)

  const EmptyTree: Tree := Tree([])

  /** What a regular file is: its blob and its executable bit. */
  datatype File = File(id: ObjectId, exec: bool)

  predicate NamesSorted(es: seq<TreeEntry>) {
    forall i, j :: 0 <= i < j < |es| ==> Less(es[i].name, es[j].name)
  }

  /** An entry's kind agrees with the object it names, a directory entry never
      carries the executable bit, and subtrees are well-formed in turn. */
  predicate WfEntry(e: TreeEntry)
    decreases e
  {
    && ValidName(e.name)
    && (e.kind.KTree? <==> e.id.TreeId?)
    && (e.kind.KTree? ==> !e.exec && WfTree(e.id.tree))
  }

  predicate WfTree(t: Tree)
    decreases t
  {
    && |t.entries| <= MAX_TREE_ENTRIES
    && NamesSorted(t.entries)
    && forall i :: 0 <= i < |t.entries| ==> WfEntry(t.entries[i])
  }

  /** Well-formed except that a level may exceed the fan-out limit. */
  predicate WfLoose(t: Tree)
    decreases t, 1
  {
    && NamesSorted(t.entries)
    && forall i :: 0 <= i < |t.entries| ==> WfLooseEntry(t.entries[i])
  }

  predicate WfLooseEntry(e: TreeEntry)
    decreases e, 0
  {
    && ValidName(e.name)
    && (e.kind.KTree? <==> e.id.TreeId?)
    && (e.kind.KTree? ==> !e.exec && WfLoose(e.id.tree))
  }

  /** Every level respects the fan-out limit that `Tree::encode` enforces. */
  predicate Fits(t: Tree)
    decreases t
  {
    && |t.entries| <= MAX_TREE_ENTRIES
    && forall i :: 0 <= i < |t.entries| && t.entries[i].id.TreeId? ==> Fits(t.entries[i].id.tree)
  }

  lemma {:induction false} WfIsLooseAndFits(t: Tree)
    ensures WfTree(t) <==> WfLoose(t) && Fits(t)
    decreases t
  {
    forall i | 0 <= i < |t.entries| && t.entries[i].id.TreeId?
      ensures WfTree(t.entries[i].id.tree) <==> WfLoose(t.entries[i].id.tree) && Fits(t.entries[i].id.tree)
    {
      WfIsLooseAndFits(t.entries[i].id.tree);
    }
    if WfTree(t) {
      forall i | 0 <= i < |t.entries| ensures WfLooseEntry(t.entries[i]) {
        assert WfEntry(t.entries[i]);
      }
    }
    if WfLoose(t) && Fits(t) {
      forall i | 0 <= i < |t.entries| ensures WfEntry(t.entries[i]) {
        assert WfLooseEntry(t.entries[i]);
      }
    }
  }

  /** `Tree::get` on the canonical vector: the entry of that name, if any. */
  function Find(es: seq<TreeEntry>, n: Name): (r: Option<TreeEntry>)
    ensures r.Some? ==> r.value in es && r.value.name == n
    ensures r.None? ==> forall i :: 0 <= i < |es| ==> es[i].name != n
  {
    if es == [] then None
    else if es[0].name == n then Some(es[0])
    else Find(es[1..], n)
  }

  function Get(t: Tree, n: Name): (r: Option<TreeEntry>)
    ensures r.Some? ==> r.value in t.entries && r.value.name == n
    ensures r.None? ==> forall i :: 0 <= i < |t.entries| ==> t.entries[i].name != n
  {
    Find(t.entries, n)
  }

  /** In a sorted vector a name has one entry. */
  lemma GetAt(t: Tree, i: int)
    requires NamesSorted(t.entries) && 0 <= i < |t.entries|
    ensures Get(t, t.entries[i].name) == Some(t.entries[i])
  {
    LessIsStrictTotal();
    var r := Get(t, t.entries[i].name);
    var j :| 0 <= j < |t.entries| && t.entries[j] == r.value;
    assert !(i < j) && !(j < i);
  }

  /** `binary_search_by` over the canonical vector finds exactly `Get`. */
  method BinarySearchGet(t: Tree, n: Name) returns (r: Option<TreeEntry>)
    requires NamesSorted(t.entries)
    ensures r == Get(t, n)
  {
    LessIsStrictTotal();
    var lo, hi := 0, |t.entries|;
    while lo < hi
      invariant 0 <= lo <= hi <= |t.entries|
      invariant forall k :: 0 <= k < lo ==> Less(t.entries[k].name, n)
      invariant forall k :: hi <= k < |t.entries| ==> Less(n, t.entries[k].name)
    {
      var mid := (lo + hi) / 2;
      if t.entries[mid].name == n {
        GetAt(t, mid);
        return Some(t.entries[mid]);
      } else if Less(t.entries[mid].name, n) {
        lo := mid + 1;
      } else {
        hi := mid;
      }
    }
    r := None;
    assert forall k :: 0 <= k < |t.entries| ==> t.entries[k].name != n;
  }

  function NamesOf(t: Tree): set<Name> {
    set i | 0 <= i < |t.entries| :: t.entries[i].name
  }

  lemma NamesOfGet(t: Tree, n: Name)
    ensures n in NamesOf(t) <==> Get(t, n).Some?
  {
  }

  function NameSeq(t: Tree): seq<Name> { seq(|t.entries|, i requires 0 <= i < |t.entries| => t.entries[i].name) }

  /** Canonical form: sorted vectors with equal lookups are one tree, hence one id. */
  lemma Canonical(s: Tree, t: Tree)
    requires NamesSorted(s.entries) && NamesSorted(t.entries)
    requires forall n :: Get(s, n) == Get(t, n)
    ensures s == t
  {
    var a, b := NameSeq(s), NameSeq(t);
    forall n ensures n in a <==> n in b {
      assert n in a <==> Get(s, n).Some? by {
        if Get(s, n).Some? { var i :| 0 <= i < |s.entries| && s.entries[i] == Get(s, n).value; assert a[i] == n; }
      }
      assert n in b <==> Get(t, n).Some? by {
        if Get(t, n).Some? { var i :| 0 <= i < |t.entries| && t.entries[i] == Get(t, n).value; assert b[i] == n; }
      }
    }
    SortedUnique(a, b);
    forall i | 0 <= i < |s.entries| ensures s.entries[i] == t.entries[i] {
      assert a[i] == b[i];
      GetAt(s, i);
      GetAt(t, i);
    }
    assert s.entries == t.entries;
  }

  /** The canonical tree holding exactly the entries of `m`. */
  ghost function FromMap(m: map<Name, TreeEntry>): (t: Tree)
    requires forall n :: n in m ==> m[n].name == n
    ensures NamesSorted(t.entries)
    ensures forall n :: Get(t, n) == if n in m then Some(m[n]) else None
    ensures |t.entries| == |m|
  {
    var ks := SortedSeq(m.Keys);
    var t := Tree(seq(|ks|, i requires 0 <= i < |ks| => m[ks[i]]));
    FromMapCorrect(m, ks, t);
    t
  }

  lemma FromMapCorrect(m: map<Name, TreeEntry>, ks: seq<Name>, t: Tree)
    requires forall n :: n in m ==> m[n].name == n
    requires StrictlySorted(ks) && forall n :: n in ks <==> n in m
    requires |t.entries| == |ks| && forall i :: 0 <= i < |ks| ==> t.entries[i] == m[ks[i]]
    ensures NamesSorted(t.entries)
    ensures forall n :: Get(t, n) == if n in m then Some(m[n]) else None
    ensures |t.entries| == |m|
  {
    forall i | 0 <= i < |ks| ensures t.entries[i].name == ks[i] { assert ks[i] in m; }
    forall n ensures Get(t, n) == if n in m then Some(m[n]) else None {
      if n in m {
        var i :| 0 <= i < |ks| && ks[i] == n;
        GetAt(t, i);
      }
    }
    LessIsStrictTotal();
    DistinctCount(ks, m.Keys);
  }

  lemma {:induction false} DistinctCount(ks: seq<Name>, s: set<Name>)
    requires forall i, j :: 0 <= i < j < |ks| ==> ks[i] != ks[j]
    requires forall n :: n in ks <==> n in s
    ensures |ks| == |s|
  {
    if ks == [] {
      assert s == {};
    } else {
      assert ks[0] in s;
      forall n ensures n in ks[1..] <==> n in s - {ks[0]} {
        assert n in ks <==> n == ks[0] || n in ks[1..];
      }
      DistinctCount(ks[1..], s - {ks[0]});
    }
  }

  // ---- contents at a path --------------------------------------------------

  /** The directory an entry opens, or nothing. */
  function Subtree(e: Option<TreeEntry>): (r: Option<Tree>) {
    if e.Some? && e.value.kind.KTree? && e.value.id.TreeId? then Some(e.value.id.tree) else None
  }

  /** The entry found by walking `p` down from `t`. */
  function EntryAt(t: Tree, p: Path): Option<TreeEntry>
    decreases |p|
  {
    if |p| == 0 then None
    else if |p| == 1 then Get(t, p[0])
    else
      match Subtree(Get(t, p[0]))
      case None => None
      case Some(sub) => EntryAt(sub, p[1..])
  }

  function FileOf(e: Option<TreeEntry>): Option<File> {
    if e.Some? && e.value.kind.KBlob? then Some(File(e.value.id, e.value.exec)) else None
  }

  /** The file map of a tree: `FileAt(t, p)` is the file at `p`, if there is one. */
  function FileAt(t: Tree, p: Path): Option<File> { FileOf(EntryAt(t, p)) }

  ghost predicate SameFiles(s: Tree, t: Tree) { forall p :: FileAt(s, p) == FileAt(t, p) }

  lemma EmptyHasNothing(p: Path)
    ensures EntryAt(EmptyTree, p) == None
  {
  }

  /** No directory below the root is empty. */
  predicate NoEmptyDirs(t: Tree)
    decreases t
  {
    forall i :: 0 <= i < |t.entries| && t.entries[i].id.TreeId? ==>
      t.entries[i].id.tree != EmptyTree && NoEmptyDirs(t.entries[i].id.tree)
  }

  lemma WfGet(t: Tree, n: Name)
    requires WfTree(t) && Get(t, n).Some?
    ensures WfEntry(Get(t, n).value)
  {
  }

  /** A well-formed tree without empty directories holds a file unless it is empty. */
  lemma {:induction false} HasFile(t: Tree) returns (p: Path)
    requires WfLoose(t) && NoEmptyDirs(t) && t != EmptyTree
    ensures |p| > 0 && FileAt(t, p).Some?
    decreases t
  {
    assert |t.entries| > 0;
    var e := t.entries[0];
    assert WfLooseEntry(e);
    GetAt(t, 0);
    if e.kind.KBlob? {
      p := [e.name];
    } else {
      var q := HasFile(e.id.tree);
      p := [e.name] + q;
      assert p[1..] == q;
    }
  }

  /** Without empty directories the file map determines the tree, and so its id. */
  lemma {:induction false} FilesDetermineTree(s: Tree, t: Tree)
    requires WfLoose(s) && WfLoose(t) && NoEmptyDirs(s) && NoEmptyDirs(t)
    requires SameFiles(s, t)
    ensures s == t
    decreases s
  {
    forall n ensures Get(s, n) == Get(t, n) {
      FilesDetermineEntry(s, t, n);
    }
    Canonical(s, t);
  }

  lemma {:induction false} FilesDetermineEntry(s: Tree, t: Tree, n: Name)
    requires WfLoose(s) && WfLoose(t) && NoEmptyDirs(s) && NoEmptyDirs(t)
    requires SameFiles(s, t)
    ensures Get(s, n) == Get(t, n)
    decreases s, 0
  {
    assert FileAt(s, [n]) == FileAt(t, [n]);
    var x, y := Get(s, n), Get(t, n);
    assert x.Some? ==> WfLooseEntry(x.value);
    assert y.Some? ==> WfLooseEntry(y.value);
    SubFiles(s, t, n);
    if Subtree(x).Some? && Subtree(y).Some? {
      FilesDetermineTree(Subtree(x).value, Subtree(y).value);
    } else if Subtree(x).Some? {
      var q := HasFile(Subtree(x).value);
    } else if Subtree(y).Some? {
      var q := HasFile(Subtree(y).value);
    }
  }

  function OrEmpty(t: Option<Tree>): Tree { if t.Some? then t.value else EmptyTree }

  lemma SubFiles(s: Tree, t: Tree, n: Name)
    requires SameFiles(s, t)
    ensures SameFiles(OrEmpty(Subtree(Get(s, n))), OrEmpty(Subtree(Get(t, n))))
  {
    var x, y := OrEmpty(Subtree(Get(s, n))), OrEmpty(Subtree(Get(t, n)));
    forall q ensures FileAt(x, q) == FileAt(y, q) {
      if |q| > 0 {
        assert ([n] + q)[1..] == q;
        assert FileAt(s, [n] + q) == FileAt(t, [n] + q);
        StepDown(s, n, q);
        StepDown(t, n, q);
      }
    }
  }

  /** One step of the walk: below `n` there is the subtree of `n`, or nothing. */
  lemma StepDown(t: Tree, n: Name, q: Path)
    requires |q| > 0
    ensures EntryAt(t, [n] + q) == EntryAt(OrEmpty(Subtree(Get(t, n))), q)
  {
    assert ([n] + q)[1..] == q;
    EmptyHasNothing(q);
  }

  /** Below a directory at `d` the walk continues inside it. */
  lemma {:induction false} WalkOn(t: Tree, d: Path, q: Path)
    requires |d| > 0 && |q| > 0
    ensures EntryAt(t, d + q) == EntryAt(OrEmpty(Subtree(EntryAt(t, d))), q)
    decreases |d|
  {
    EmptyHasNothing(q);
    if |d| == 1 {
      assert d == [d[0]];
      StepDown(t, d[0], q);
    } else {
      assert d + q == [d[0]] + (d[1..] + q);
      StepDown(t, d[0], d[1..] + q);
      StepDown(t, d[0], d[1..]);
      assert d == [d[0]] + d[1..];
      WalkOn(OrEmpty(Subtree(Get(t, d[0]))), d[1..], q);
    }
  }
}
