/** `merge_trees` as the program runs it, proved against the merge function. */
module MergeRun {
  import opened Names
  import opened Trees
  import opened Merge

  function IdOf(e: Option<TreeEntry>): Option<ObjectId> { if e.Some? then Some(e.value.id) else None }

  /** The record reported for a conflict at `p` below `prefix`. */
  function ConflictAt(prefix: Path, base: Option<Tree>, ours: Tree, theirs: Tree, p: Path): ConflictPath {
    ConflictPath(prefix + p, IdOf(EntryAt(ours, p)), IdOf(EntryAt(theirs, p)), IdOf(EntryAt(OrEmpty(base), p)))
  }

  /** Everything a merge of these three trees must report. */
  ghost function TreeReports(prefix: Path, base: Option<Tree>, ours: Tree, theirs: Tree): iset<ConflictPath> {
    iset p | IsConflict(base, ours, theirs, p) :: ConflictAt(prefix, base, ours, theirs, p)
  }

  /** The part of it whose path starts with `n`. */
  ghost function NameReports(prefix: Path, base: Option<Tree>, ours: Tree, theirs: Tree, n: Name): iset<ConflictPath> {
    iset p | IsConflict(base, ours, theirs, p) && p[0] == n :: ConflictAt(prefix, base, ours, theirs, p)
  }

  ghost predicate Lists<T(!new)>(s: seq<T>, all: iset<T>) { forall c :: c in s <==> c in all }

  predicate DistinctPaths(s: seq<ConflictPath>) {
    forall i, j :: 0 <= i < j < |s| ==> s[i].path != s[j].path
  }

  lemma ReportsSplit(prefix: Path, base: Option<Tree>, ours: Tree, theirs: Tree, c: ConflictPath)
    ensures c in TreeReports(prefix, base, ours, theirs)
      <==> exists n :: c in NameReports(prefix, base, ours, theirs, n)
  {
    if c in TreeReports(prefix, base, ours, theirs) {
      var p :| IsConflict(base, ours, theirs, p) && c == ConflictAt(prefix, base, ours, theirs, p);
      assert c in NameReports(prefix, base, ours, theirs, p[0]);
    }
  }

  lemma ReportNamesItsChild(prefix: Path, base: Option<Tree>, ours: Tree, theirs: Tree, n: Name, c: ConflictPath)
    requires c in NameReports(prefix, base, ours, theirs, n)
    ensures |c.path| > |prefix| && c.path[|prefix|] == n
    ensures Get(ours, n).Some? || Get(theirs, n).Some?
  {
    var p :| IsConflict(base, ours, theirs, p) && p[0] == n && c == ConflictAt(prefix, base, ours, theirs, p);
  }

  // ---- one name ------------------------------------------------------------

  lemma ReportHere(prefix: Path, base: Option<Tree>, ours: Tree, theirs: Tree, n: Name)
    requires EntryConflict(Get(OrEmpty(base), n), Get(ours, n), Get(theirs, n))
    ensures Lists([ConflictAt(prefix, base, ours, theirs, [n])], NameReports(prefix, base, ours, theirs, n))
  {
    ConflictHere(base, ours, theirs, n);
    forall p | IsConflict(base, ours, theirs, p) && p[0] == n ensures p == [n] {
      if |p| > 1 {
        assert p == [n] + p[1..];
        ConflictBelow(base, ours, theirs, n, p[1..]);
      }
    }
    assert ConflictAt(prefix, base, ours, theirs, [n]) in NameReports(prefix, base, ours, theirs, n);
  }

  lemma ReportNothing(prefix: Path, base: Option<Tree>, ours: Tree, theirs: Tree, n: Name)
    requires var g, a, b := Get(OrEmpty(base), n), Get(ours, n), Get(theirs, n); a == b || a == g || b == g
    ensures Lists([], NameReports(prefix, base, ours, theirs, n))
  {
    forall p ensures !(IsConflict(base, ours, theirs, p) && p[0] == n) {
      if |p| > 1 && p[0] == n {
        assert p == [n] + p[1..];
        AgreeHere(base, ours, theirs, n, p[1..]);
      } else if |p| == 1 && p[0] == n {
        assert p == [n];
        ConflictHere(base, ours, theirs, n);
      }
    }
  }

  lemma ReportBelow(prefix: Path, base: Option<Tree>, ours: Tree, theirs: Tree, n: Name, q: Path)
    requires IsDir(Get(ours, n)) && IsDir(Get(theirs, n)) && |q| > 0
    ensures IsConflict(base, ours, theirs, [n] + q)
      <==> IsConflict(BaseUnder(base, n), Under(ours, n), Under(theirs, n), q)
    ensures ConflictAt(prefix, base, ours, theirs, [n] + q)
      == ConflictAt(prefix + [n], BaseUnder(base, n), Under(ours, n), Under(theirs, n), q)
  {
    ConflictBelow(base, ours, theirs, n, q);
    DisagreesHere(base, ours, theirs, n);
    StepDown(ours, n, q);
    StepDown(theirs, n, q);
    StepDown(OrEmpty(base), n, q);
    assert prefix + ([n] + q) == prefix + [n] + q;
  }

  lemma ReportDirs(prefix: Path, base: Option<Tree>, ours: Tree, theirs: Tree, n: Name, found: seq<ConflictPath>)
    requires IsDir(Get(ours, n)) && IsDir(Get(theirs, n))
    requires Lists(found, TreeReports(prefix + [n], BaseUnder(base, n), Under(ours, n), Under(theirs, n)))
    ensures Lists(found, NameReports(prefix, base, ours, theirs, n))
  {
    forall c ensures c in found <==> c in NameReports(prefix, base, ours, theirs, n) {
      if c in found {
        var q :| IsConflict(BaseUnder(base, n), Under(ours, n), Under(theirs, n), q)
          && c == ConflictAt(prefix + [n], BaseUnder(base, n), Under(ours, n), Under(theirs, n), q);
        ReportBelow(prefix, base, ours, theirs, n, q);
        assert ([n] + q)[0] == n;
      }
      if c in NameReports(prefix, base, ours, theirs, n) {
        var p :| IsConflict(base, ours, theirs, p) && p[0] == n && c == ConflictAt(prefix, base, ours, theirs, p);
        ConflictHere(base, ours, theirs, n);
        assert |p| == 1 ==> p == [n];
        assert p == [n] + p[1..];
        ReportBelow(prefix, base, ours, theirs, n, p[1..]);
      }
    }
  }

  /** The Ok/Err answer of a merge: over-full results are refused. */
  ghost function MergeResult(base: Option<Tree>, ours: Tree, theirs: Tree): Result<ObjectId> {
    if Fits(MergeTree(base, ours, theirs)) then Ok(TreeId(MergeTree(base, ours, theirs))) else Err(Invalid)
  }

  function TreeOf(id: Option<ObjectId>): Option<Tree> {
    if id.Some? && id.value.TreeId? then Some(id.value.tree) else None
  }

  predicate WfId(id: ObjectId) { id.TreeId? && WfTree(id.tree) }

  predicate WfBase(id: Option<ObjectId>) { id.Some? ==> WfId(id.value) }

  /** The `match` on one name: what to push and what to report. */
  method MergeName(prefix: Path, base: Option<ObjectId>, ours: ObjectId, theirs: ObjectId, name: Name)
    returns (r: Result<Option<TreeEntry>>, found: seq<ConflictPath>)
    requires WfBase(base) && WfId(ours) && WfId(theirs)
    requires !Shortcut(TreeOf(base), ours.tree, theirs.tree)
    ensures r.Err? ==> MergeResult(TreeOf(base), ours.tree, theirs.tree) == Err(r.error)
    ensures r.Ok? ==> r.value == MergeEntry(TreeOf(base), ours.tree, theirs.tree, name)
    ensures r.Ok? && r.value.Some? && r.value.value.id.TreeId? ==> Fits(r.value.value.id.tree)
    ensures r.Ok? ==> Lists(found, NameReports(prefix, TreeOf(base), ours.tree, theirs.tree, name))
    ensures r.Ok? ==> DistinctPaths(found)
    decreases ours.tree, 0
  {
    found := [];
    var pg := if base.Some? then Get(base.value.tree, name) else None;
    var pa, pb := Get(ours.tree, name), Get(theirs.tree, name);
    ghost var bt := TreeOf(base);
    WfUnder(bt, ours.tree, theirs.tree, name);
    FitsUnder(ours.tree, name);
    FitsUnder(theirs.tree, name);
    if pa.None? && pb.None? {
      ReportNothing(prefix, bt, ours.tree, theirs.tree, name);
      return Ok(None), [];
    } else if pb.None? || pa.None? {
      if pg == pa || pg == pb {
        ReportNothing(prefix, bt, ours.tree, theirs.tree, name);
        return Ok(if pg.None? then (if pa.Some? then pa else pb) else None), [];
      }
      ReportHere(prefix, bt, ours.tree, theirs.tree, name);
      found := [ConflictPath(prefix + [name], IdOf(pa), IdOf(pb), IdOf(pg))];
      return Ok(None), found;
    } else if pa == pb || pg == pa || pg == pb {
      ReportNothing(prefix, bt, ours.tree, theirs.tree, name);
      return Ok(if pa == pb || pg == pb then pa else pb), [];
    } else if pa.value.kind.KTree? && pb.value.kind.KTree? {
      var baseSub := if pg.Some? && pg.value.kind.KTree? then Some(pg.value.id) else None;
      BaseSubtree(bt, name, baseSub);
      var merged, below := MergeTrees(prefix + [name], baseSub, pa.value.id, pb.value.id);
      if merged.Err? {
        SubOverflows(bt, ours.tree, theirs.tree, name);
        return Err(merged.error), [];
      }
      ReportDirs(prefix, bt, ours.tree, theirs.tree, name, below);
      MergeDirEntry(bt, ours.tree, theirs.tree, name);
      return Ok(Some(pa.value.(id := merged.value))), below;
    } else {
      ReportHere(prefix, bt, ours.tree, theirs.tree, name);
      found := [ConflictPath(prefix + [name], IdOf(pa), IdOf(pb), IdOf(pg))];
      return Ok(pa), found;
    }
  }

  lemma FitsUnder(t: Tree, n: Name)
    requires WfTree(t)
    ensures Get(t, n).Some? && Get(t, n).value.id.TreeId? ==> Fits(Get(t, n).value.id.tree)
  {
    if Get(t, n).Some? && Get(t, n).value.id.TreeId? {
      WfGet(t, n);
      WfIsLooseAndFits(Get(t, n).value.id.tree);
    }
  }

  lemma BaseSubtree(base: Option<Tree>, n: Name, sub: Option<ObjectId>)
    requires base.Some? ==> WfTree(base.value)
    requires sub == (if Get(OrEmpty(base), n).Some? && Get(OrEmpty(base), n).value.kind.KTree?
                     then Some(Get(OrEmpty(base), n).value.id) else None)
    ensures WfBase(sub) && TreeOf(sub) == BaseUnder(base, n)
  {
    if Get(OrEmpty(base), n).Some? { WfGet(OrEmpty(base), n); }
  }

  lemma MergeDirEntry(base: Option<Tree>, ours: Tree, theirs: Tree, n: Name)
    requires Subtree(Get(ours, n)).Some? && Subtree(Get(theirs, n)).Some?
    requires var g, a, b := Get(OrEmpty(base), n), Get(ours, n), Get(theirs, n); a != b && a != g && b != g
    ensures MergeEntry(base, ours, theirs, n) == Some(Get(ours, n).value.(id :=
      TreeId(MergeTree(BaseUnder(base, n), Under(ours, n), Under(theirs, n)))))
  {
  }

  lemma SubOverflows(base: Option<Tree>, ours: Tree, theirs: Tree, n: Name)
    requires Subtree(Get(ours, n)).Some? && Subtree(Get(theirs, n)).Some?
    requires var g, a, b := Get(OrEmpty(base), n), Get(ours, n), Get(theirs, n); a != b && a != g && b != g
    requires !Shortcut(base, ours, theirs)
    requires !Fits(MergeTree(BaseUnder(base, n), Under(ours, n), Under(theirs, n)))
    ensures !Fits(MergeTree(base, ours, theirs))
  {
    DirEntry(base, ours, theirs, n);
    var t := MergeTree(base, ours, theirs);
    var i :| 0 <= i < |t.entries| && t.entries[i] == Get(t, n).value;
  }

  // ---- the loop over names -------------------------------------------------

  /** `out` holds, in name order, what `want` gives the names done so far. */
  ghost predicate Collected(want: Name -> Option<TreeEntry>, done: seq<Name>, out: seq<TreeEntry>) {
    && NamesSorted(out)
    && (forall i :: 0 <= i < |out| ==> out[i].name in done)
    && (forall n :: n in done ==> Find(out, n) == want(n))
    && (forall i :: 0 <= i < |out| && out[i].id.TreeId? ==> Fits(out[i].id.tree))
  }

  function EntryList(e: Option<TreeEntry>): seq<TreeEntry> { if e.Some? then [e.value] else [] }

  lemma {:induction false} FindAppend(s: seq<TreeEntry>, t: seq<TreeEntry>, n: Name)
    ensures Find(s + t, n) == if Find(s, n).Some? then Find(s, n) else Find(t, n)
  {
    if s == [] {
      assert s + t == t;
    } else {
      assert (s + t)[1..] == s[1..] + t;
      FindAppend(s[1..], t, n);
    }
  }

  lemma CollectStep(want: Name -> Option<TreeEntry>, names: seq<Name>, k: nat, out: seq<TreeEntry>, e: Option<TreeEntry>)
    requires StrictlySorted(names) && k < |names| && Collected(want, names[..k], out)
    requires e == want(names[k]) && (e.Some? ==> e.value.name == names[k])
    requires e.Some? && e.value.id.TreeId? ==> Fits(e.value.id.tree)
    ensures Collected(want, names[..k + 1], out + EntryList(e))
  {
    var out' := out + EntryList(e);
    assert names[..k + 1] == names[..k] + [names[k]];
    forall i | 0 <= i < |out| ensures Less(out[i].name, names[k]) {
      var j :| 0 <= j < k && names[..k][j] == out[i].name;
    }
    LessTrichotomy(names[k], names[k]);
    assert Find(out, names[k]).None?;
    forall n | n in names[..k + 1] ensures Find(out', n) == want(n) {
      FindAppend(out, EntryList(e), n);
    }
  }

  /** `found` reports exactly the conflicts under the names done so far. */
  ghost predicate Reported(report: Name -> iset<ConflictPath>, prefix: Path, done: seq<Name>, found: seq<ConflictPath>) {
    && (forall c :: c in found <==> exists n :: n in done && c in report(n))
    && (forall c :: c in found ==> |c.path| > |prefix| && c.path[|prefix|] in done)
    && DistinctPaths(found)
  }

  lemma ReportStep(report: Name -> iset<ConflictPath>, prefix: Path, names: seq<Name>, k: nat,
                   found: seq<ConflictPath>, more: seq<ConflictPath>)
    requires StrictlySorted(names) && k < |names| && Reported(report, prefix, names[..k], found)
    requires Lists(more, report(names[k])) && DistinctPaths(more)
    requires forall c :: c in more ==> |c.path| > |prefix| && c.path[|prefix|] == names[k]
    ensures Reported(report, prefix, names[..k + 1], found + more)
  {
    assert names[..k + 1] == names[..k] + [names[k]];
    LessIsStrictTotal();
    assert names[k] !in names[..k];
    forall c ensures c in found + more <==> exists n :: n in names[..k + 1] && c in report(n) {
      if c in more { assert names[k] in names[..k + 1]; }
      if c in found { var n :| n in names[..k] && c in report(n); assert n in names[..k + 1]; }
    }
    var all := found + more;
    forall i, j | 0 <= i < j < |all| ensures all[i].path != all[j].path {
      if i < |found| <= j {
        assert all[i] in found && all[j] in more;
      }
    }
  }

  ghost function WantMerge(base: Option<Tree>, ours: Tree, theirs: Tree): Name -> Option<TreeEntry> {
    (n: Name) => MergeEntry(base, ours, theirs, n)
  }

  ghost function ReportMerge(prefix: Path, base: Option<Tree>, ours: Tree, theirs: Tree): Name -> iset<ConflictPath> {
    (n: Name) => NameReports(prefix, base, ours, theirs, n)
  }

  /** `merge_trees`: shortcuts by id, otherwise a merge name by name. */
  method MergeTrees(prefix: Path, base: Option<ObjectId>, ours: ObjectId, theirs: ObjectId)
    returns (r: Result<ObjectId>, found: seq<ConflictPath>)
    requires WfBase(base) && WfId(ours) && WfId(theirs)
    ensures r == MergeResult(TreeOf(base), ours.tree, theirs.tree)
    ensures r.Ok? ==> Lists(found, TreeReports(prefix, TreeOf(base), ours.tree, theirs.tree))
    ensures r.Ok? ==> DistinctPaths(found)
    decreases ours.tree, 1
  {
    found := [];
    ghost var bt := TreeOf(base);
    if ours == theirs || Some(ours) == base || Some(theirs) == base {
      ShortcutAnswer(prefix, bt, ours.tree, theirs.tree);
      return Ok(if Some(ours) == base then theirs else ours), [];
    }
    var names := SortNames(NamesOf(ours.tree) + NamesOf(theirs.tree) +
                           (if base.Some? then NamesOf(base.value.tree) else {}));
    var out: seq<TreeEntry> := [];
    var k := 0;
    ghost var want := WantMerge(bt, ours.tree, theirs.tree);
    ghost var report := ReportMerge(prefix, bt, ours.tree, theirs.tree);
    while k < |names|
      invariant 0 <= k <= |names|
      invariant Collected(want, names[..k], out)
      invariant Reported(report, prefix, names[..k], found)
    {
      var e, more := MergeName(prefix, base, ours, theirs, names[k]);
      if e.Err? {
        return Err(e.error), [];
      }
      forall c | c in more ensures |c.path| > |prefix| && c.path[|prefix|] == names[k] {
        ReportNamesItsChild(prefix, bt, ours.tree, theirs.tree, names[k], c);
      }
      CollectStep(want, names, k, out, e.value);
      ReportStep(report, prefix, names, k, found, more);
      out := out + EntryList(e.value);
      found := found + more;
      k := k + 1;
    }
    assert names[..k] == names;
    MergeDone(prefix, bt, ours.tree, theirs.tree, names, out, found);
    r := if |out| > MAX_TREE_ENTRIES then Err(Invalid) else Ok(TreeId(Tree(out)));
  }

  lemma ShortcutAnswer(prefix: Path, base: Option<Tree>, ours: Tree, theirs: Tree)
    requires Shortcut(base, ours, theirs) && WfTree(ours) && WfTree(theirs)
    ensures MergeResult(base, ours, theirs) == Ok(TreeId(if base == Some(ours) then theirs else ours))
    ensures Lists([], TreeReports(prefix, base, ours, theirs))
  {
    WfIsLooseAndFits(ours);
    WfIsLooseAndFits(theirs);
    forall p ensures !IsConflict(base, ours, theirs, p) {
      if IsConflict(base, ours, theirs, p) { NoShortcut(base, ours, theirs, p); }
    }
  }

  lemma MergeDone(prefix: Path, base: Option<Tree>, ours: Tree, theirs: Tree, names: seq<Name>,
                  out: seq<TreeEntry>, found: seq<ConflictPath>)
    requires !Shortcut(base, ours, theirs)
    requires forall n :: n in names <==> n in NamesOf(ours) + NamesOf(theirs) + NamesOf(OrEmpty(base))
    requires Collected(WantMerge(base, ours, theirs), names, out)
    requires Reported(ReportMerge(prefix, base, ours, theirs), prefix, names, found)
    ensures MergeResult(base, ours, theirs) == if |out| > MAX_TREE_ENTRIES then Err(Invalid) else Ok(TreeId(Tree(out)))
    ensures Lists(found, TreeReports(prefix, base, ours, theirs))
  {
    forall n ensures Get(Tree(out), n) == Get(MergeTree(base, ours, theirs), n) {
      MergeGet(base, ours, theirs, n);
      NamesOfGet(ours, n);
      NamesOfGet(theirs, n);
    }
    MergeGet(base, ours, theirs, "");
    Canonical(Tree(out), MergeTree(base, ours, theirs));
    forall c ensures c in found <==> c in TreeReports(prefix, base, ours, theirs) {
      ReportsSplit(prefix, base, ours, theirs, c);
      forall n | c in NameReports(prefix, base, ours, theirs, n) ensures n in names {
        ReportNamesItsChild(prefix, base, ours, theirs, n, c);
        NamesOfGet(ours, n);
        NamesOfGet(theirs, n);
      }
    }
  }
}
