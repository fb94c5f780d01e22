/** Overlay-aware reads, and how far they agree with what a checkin publishes. */
module ReadPath {
  import opened Names
  import opened Trees
  import opened OverlayFold

  datatype Resolved = ResolvedTree(id: ObjectId) | ResolvedBlob(id: ObjectId, exec: bool)

  /** The file a resolution delivers, if it delivers one. */
  function BlobOf(r: Result<Resolved>): Option<File> {
    if r.Ok? && r.value.ResolvedBlob? then Some(File(r.value.id, r.value.exec)) else None
  }

  /** The file visible to a reader: its own row, else the base file unless some
      row lies above it. Rows below are not consulted. */
  ghost function VisibleFile(root: Tree, ov: Overlay, p: Path): Option<File> {
    if p in ov then ov[p] else if RowAbove(ov, p) then None else FileAt(root, p)
  }

  /** Walking down to `p` meets a staged file before it leaves the base tree. */
  ghost predicate FileInTheWay(root: Tree, ov: Overlay, p: Path) { exists k: nat :: BlocksAt(root, ov, p, k) }

  ghost predicate BlocksAt(root: Tree, ov: Overlay, p: Path, k: nat) {
    && 0 < k < |p| && p[..k] in ov && ov[p[..k]].Some?
    && (forall j :: 0 < j < k ==> p[..j] !in ov)
    && (k == 1 || Subtree(EntryAt(root, p[..k - 1])).Some?)
  }

  /** The walk has reached directory `cur` after `i` components and met no row. */
  ghost predicate Reached(root: Tree, ov: Overlay, p: Path, i: nat, cur: Tree) {
    && i < |p|
    && (if i == 0 then cur == root else Subtree(EntryAt(root, p[..i])) == Some(cur))
    && (forall j :: 0 < j <= i ==> p[..j] !in ov)
  }

  lemma {:induction false} NextEntry(root: Tree, ov: Overlay, p: Path, i: nat, cur: Tree)
    requires Reached(root, ov, p, i, cur)
    ensures EntryAt(root, p[..i + 1]) == Get(cur, p[i])
  {
    if i > 0 {
      assert p[..i + 1] == p[..i] + [p[i]];
      WalkOn(root, p[..i], [p[i]]);
    } else {
      assert p[..1] == [p[0]];
    }
  }

  /** Past an entry that opens no directory there is neither a file nor a block. */
  lemma DeadEnd(root: Tree, ov: Overlay, p: Path, i: nat, cur: Tree)
    requires Reached(root, ov, p, i, cur) && p[..i + 1] !in ov
    requires Subtree(Get(cur, p[i])).None? && i + 1 < |p|
    ensures EntryAt(root, p) == None && !FileInTheWay(root, ov, p)
  {
    NextEntry(root, ov, p, i, cur);
    assert p == p[..i + 1] + p[i + 1..];
    WalkOn(root, p[..i + 1], p[i + 1..]);
    EmptyHasNothing(p[i + 1..]);
    forall k: nat ensures !BlocksAt(root, ov, p, k) {
      if i + 2 < k < |p| {
        assert p[..k - 1] == p[..i + 1] + p[i + 1..k - 1];
        WalkOn(root, p[..i + 1], p[i + 1..k - 1]);
        EmptyHasNothing(p[i + 1..k - 1]);
      }
    }
  }

  lemma WholeWay(root: Tree, ov: Overlay, p: Path, i: nat, cur: Tree)
    requires Reached(root, ov, p, i, cur) && p !in ov && i + 1 == |p|
    ensures !RowAbove(ov, p) && !FileInTheWay(root, ov, p) && EntryAt(root, p) == Get(cur, p[i])
  {
    NextEntry(root, ov, p, i, cur);
    assert p[..i + 1] == p;
    assert forall k :: k in ov && 0 < |k| < |p| ==> p[..|k|] != k;
  }

  lemma RowMet(root: Tree, ov: Overlay, p: Path, i: nat, cur: Tree)
    requires Reached(root, ov, p, i, cur) && i + 1 < |p| && p[..i + 1] in ov
    ensures RowAbove(ov, p) && (FileInTheWay(root, ov, p) <==> ov[p[..i + 1]].Some?)
  {
    assert p[..i + 1] < p;
    if ov[p[..i + 1]].Some? {
      assert BlocksAt(root, ov, p, i + 1);
    }
    if FileInTheWay(root, ov, p) {
      var k: nat :| BlocksAt(root, ov, p, k);
      assert k == i + 1;
    }
  }

  /** Resolve a path through the overlay, then the committed tree. */
  method Resolve(root: ObjectId, ov: Overlay, rel: Path) returns (r: Result<Resolved>)
    requires root.TreeId? && WfTree(root.tree)
    ensures rel == [] ==> r == Ok(ResolvedTree(root))
    ensures rel != [] ==> BlobOf(r) == VisibleFile(root.tree, ov, rel)
    ensures forall id :: rel != [] ==>
      (r == Ok(ResolvedTree(id)) <==>
        rel !in ov && !RowAbove(ov, rel) && id.TreeId? && Subtree(EntryAt(root.tree, rel)) == Some(id.tree))
    ensures r == Err(Invalid) <==> rel != [] && rel !in ov && FileInTheWay(root.tree, ov, rel)
    ensures r != Err(Corrupt)
  {
    if rel != [] && rel in ov {
      var op := ov[rel];
      return if op.Some? then Ok(ResolvedBlob(op.value.id, op.value.exec)) else Err(NotFound);
    }
    if rel == [] {
      return Ok(ResolvedTree(root));
    }
    var cur, i := root, 0;
    while true
      invariant cur.TreeId? && WfTree(cur.tree)
      invariant Reached(root.tree, ov, rel, i, cur.tree)
      decreases |rel| - i
    {
      var last := i + 1 == |rel|;
      var soFar := rel[..i + 1];
      assert last ==> soFar == rel;
      if soFar in ov {
        RowMet(root.tree, ov, rel, i, cur.tree);
        return if ov[soFar].None? then Err(NotFound) else Err(Invalid);
      }
      var ent := BinarySearchGet(cur.tree, rel[i]);
      if ent.Some? { WfGet(cur.tree, rel[i]); }
      if last {
        WholeWay(root.tree, ov, rel, i, cur.tree);
        return if ent.None? then Err(NotFound)
          else if ent.value.kind.KBlob? then Ok(ResolvedBlob(ent.value.id, ent.value.exec))
          else Ok(ResolvedTree(ent.value.id));
      }
      if ent.None? || !ent.value.kind.KTree? {
        DeadEnd(root.tree, ov, rel, i, cur.tree);
        return Err(NotFound);
      }
      NextEntry(root.tree, ov, rel, i, cur.tree);
      cur, i := ent.value.id, i + 1;
    }
  }

  /** A read and the published tree agree at `p` unless a row strictly below `p`
      turns a visible file into a directory, or into nothing. */
  lemma ReadRefinesPublish(root: Tree, ov: Overlay, p: Path)
    requires |p| > 0
    ensures VisibleFile(root, ov, p) == FileAt(Fold(root, ov), p)
      <==> !(RowBelow(ov, p) && VisibleFile(root, ov, p).Some?)
  {
    FoldMeaning(root, ov, p);
  }

  /** A staged `d/x` over a base file `d`: the reader still sees `d`, the
      published tree does not. */
  lemma ReadOutlivesPublish(f: File, g: File, d: Name, x: Name)
    ensures var root := Tree([TreeEntry(d, KBlob, f.id, f.exec)]);
      var ov: Overlay := map[[d, x] := Some(g)];
      VisibleFile(root, ov, [d]) == Some(f) && FileAt(Fold(root, ov), [d]) == None
  {
    var root := Tree([TreeEntry(d, KBlob, f.id, f.exec)]);
    var ov: Overlay := map[[d, x] := Some(g)];
    assert [d] < [d, x] && [d, x] in ov;
    NothingAboveHead(ov, d);
    GetAt(root, 0);
    ReadRefinesPublish(root, ov, [d]);
    FoldMeaning(root, ov, [d]);
  }
}
