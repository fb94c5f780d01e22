/** The path-granular three-way merge: what it computes and what it reports. */
module Merge {
  import opened Names
  import opened Trees

  datatype ConflictPath = ConflictPath(path: Path, a: Option<ObjectId>, b: Option<ObjectId>, base: Option<ObjectId>)

  // ---- the merge as a function ---------------------------------------------

  function IsDir(e: Option<TreeEntry>): bool { e.Some? && e.value.kind.KTree? }

  /** The merged entry for one name. Entry identity is (id, kind, exec); at one
      name that is equality of entries. */
  ghost function MergeEntry(base: Option<Tree>, ours: Tree, theirs: Tree, n: Name): (r: Option<TreeEntry>)
    ensures r.Some? ==> r.value.name == n
    decreases ours, 0
  {
    var g, a, b := Get(OrEmpty(base), n), Get(ours, n), Get(theirs, n);
    match (a, b)
    case (None, None) => None
    case (Some(x), None) => if g == Some(x) then None else if g.None? then Some(x) else None
    case (None, Some(y)) => if g == Some(y) then None else if g.None? then Some(y) else None
    case (Some(x), Some(y)) =>
      if x == y then Some(x)
      else if g == Some(x) then Some(y)
      else if g == Some(y) then Some(x)
      else if Subtree(a).Some? && Subtree(b).Some? then
        Some(x.(id := TreeId(MergeTree(Subtree(g), x.id.tree, y.id.tree))))
      else Some(x)
  }

  ghost function MergeMap(base: Option<Tree>, ours: Tree, theirs: Tree): (m: map<Name, TreeEntry>)
    ensures forall n :: n in m ==> m[n].name == n
    decreases ours, 1
  {
    map n | n in NamesOf(ours) + NamesOf(theirs) && MergeEntry(base, ours, theirs, n).Some?
          :: MergeEntry(base, ours, theirs, n).value
  }

  ghost function MergeTree(base: Option<Tree>, ours: Tree, theirs: Tree): Tree
    decreases ours, 2
  {
    if ours == theirs then ours
    else if base == Some(ours) then theirs
    else if base == Some(theirs) then ours
    else FromMap(MergeMap(base, ours, theirs))
  }

  predicate Shortcut(base: Option<Tree>, ours: Tree, theirs: Tree) {
    ours == theirs || base == Some(ours) || base == Some(theirs)
  }

  lemma MergeGet(base: Option<Tree>, ours: Tree, theirs: Tree, n: Name)
    requires !Shortcut(base, ours, theirs)
    ensures NamesSorted(MergeTree(base, ours, theirs).entries)
    ensures Get(MergeTree(base, ours, theirs), n) == MergeEntry(base, ours, theirs, n)
  {
    NamesOfGet(ours, n);
    NamesOfGet(theirs, n);
  }

  // ---- conflicts, independently of the recursion ---------------------------

  /** The three sides disagree pairwise and there is no pair of directories to
      descend into. */
  predicate EntryConflict(g: Option<TreeEntry>, a: Option<TreeEntry>, b: Option<TreeEntry>) {
    a != b && a != g && b != g && !(IsDir(a) && IsDir(b))
  }

  ghost predicate Disagrees(base: Option<Tree>, ours: Tree, theirs: Tree, p: Path) {
    EntryConflict(EntryAt(OrEmpty(base), p), EntryAt(ours, p), EntryAt(theirs, p))
  }

  /** A conflict path is a shortest path at which the sides disagree. */
  ghost predicate IsConflict(base: Option<Tree>, ours: Tree, theirs: Tree, p: Path) {
    && |p| > 0
    && Disagrees(base, ours, theirs, p)
    && forall k :: 0 < k < |p| ==> !Disagrees(base, ours, theirs, p[..k])
  }

  /** `p` is at or below some conflict. */
  ghost predicate InScope(base: Option<Tree>, ours: Tree, theirs: Tree, p: Path) {
    exists k :: 0 < k <= |p| && Disagrees(base, ours, theirs, p[..k])
  }

  lemma {:induction false} ScopeHasConflict(base: Option<Tree>, ours: Tree, theirs: Tree, p: Path, k: nat) returns (c: Path)
    requires 0 < k <= |p| && Disagrees(base, ours, theirs, p[..k])
    ensures IsConflict(base, ours, theirs, c) && c <= p
    decreases k
  {
    c := p[..k];
    if j :| 0 < j < k && Disagrees(base, ours, theirs, c[..j]) {
      assert c[..j] == p[..j];
      c := ScopeHasConflict(base, ours, theirs, p, j);
    }
  }

  /** Being in scope is being at or below a reported conflict path. */
  lemma ScopeIsConflicts(base: Option<Tree>, ours: Tree, theirs: Tree, p: Path)
    ensures InScope(base, ours, theirs, p) <==> exists c :: IsConflict(base, ours, theirs, c) && c <= p
  {
    if InScope(base, ours, theirs, p) {
      var k :| 0 < k <= |p| && Disagrees(base, ours, theirs, p[..k]);
      var c := ScopeHasConflict(base, ours, theirs, p, k);
    }
    if exists c :: IsConflict(base, ours, theirs, c) && c <= p {
      var c :| IsConflict(base, ours, theirs, c) && c <= p;
      assert c == p[..|c|];
    }
  }

  /** The subtree a side offers below `n`. */
  function Under(t: Tree, n: Name): Tree { OrEmpty(Subtree(Get(t, n))) }

  function BaseUnder(base: Option<Tree>, n: Name): Option<Tree> { Subtree(Get(OrEmpty(base), n)) }

  lemma DisagreesHere(base: Option<Tree>, ours: Tree, theirs: Tree, n: Name)
    ensures Disagrees(base, ours, theirs, [n])
      <==> EntryConflict(Get(OrEmpty(base), n), Get(ours, n), Get(theirs, n))
  {
  }

  lemma DisagreesBelow(base: Option<Tree>, ours: Tree, theirs: Tree, n: Name, q: Path)
    requires |q| > 0
    ensures Disagrees(base, ours, theirs, [n] + q)
      <==> Disagrees(BaseUnder(base, n), Under(ours, n), Under(theirs, n), q)
  {
    StepDown(OrEmpty(base), n, q);
    StepDown(ours, n, q);
    StepDown(theirs, n, q);
  }

  /** Where two of three entries coincide there is nothing to report below. */
  lemma AgreeHere(base: Option<Tree>, ours: Tree, theirs: Tree, n: Name, q: Path)
    requires |q| > 0
    requires var g, a, b := Get(OrEmpty(base), n), Get(ours, n), Get(theirs, n); a == b || a == g || b == g
    ensures !Disagrees(base, ours, theirs, [n] + q)
  {
    DisagreesBelow(base, ours, theirs, n, q);
  }

  lemma ConflictHere(base: Option<Tree>, ours: Tree, theirs: Tree, n: Name)
    ensures IsConflict(base, ours, theirs, [n])
      <==> EntryConflict(Get(OrEmpty(base), n), Get(ours, n), Get(theirs, n))
  {
  }

  /** A conflict below `n` is a conflict of the subtrees, unless `n` is one itself. */
  lemma ConflictBelow(base: Option<Tree>, ours: Tree, theirs: Tree, n: Name, q: Path)
    requires |q| > 0
    ensures IsConflict(base, ours, theirs, [n] + q) <==>
      !Disagrees(base, ours, theirs, [n]) && IsConflict(BaseUnder(base, n), Under(ours, n), Under(theirs, n), q)
  {
    var p := [n] + q;
    DisagreesBelow(base, ours, theirs, n, q);
    forall k | 0 < k < |q|
      ensures Disagrees(base, ours, theirs, p[..k + 1])
        <==> Disagrees(BaseUnder(base, n), Under(ours, n), Under(theirs, n), q[..k])
    {
      assert p[..k + 1] == [n] + q[..k];
      DisagreesBelow(base, ours, theirs, n, q[..k]);
    }
    assert p[..1] == [n];
    if IsConflict(base, ours, theirs, p) {
      forall k | 0 < k < |q| ensures !Disagrees(BaseUnder(base, n), Under(ours, n), Under(theirs, n), q[..k]) {
        assert !Disagrees(base, ours, theirs, p[..k + 1]);
      }
    }
    if !Disagrees(base, ours, theirs, [n]) && IsConflict(BaseUnder(base, n), Under(ours, n), Under(theirs, n), q) {
      forall k | 0 < k < |p| ensures !Disagrees(base, ours, theirs, p[..k]) {
        if k > 1 { assert !Disagrees(BaseUnder(base, n), Under(ours, n), Under(theirs, n), q[..k - 1]); }
      }
    }
  }

  lemma ScopeBelow(base: Option<Tree>, ours: Tree, theirs: Tree, n: Name, q: Path)
    requires |q| > 0 && !InScope(base, ours, theirs, [n] + q)
    ensures !Disagrees(base, ours, theirs, [n])
    ensures !InScope(BaseUnder(base, n), Under(ours, n), Under(theirs, n), q)
  {
    var p := [n] + q;
    assert p[..1] == [n];
    forall k | 0 < k <= |q| ensures !Disagrees(BaseUnder(base, n), Under(ours, n), Under(theirs, n), q[..k]) {
      assert p[..k + 1] == [n] + q[..k];
      DisagreesBelow(base, ours, theirs, n, q[..k]);
    }
  }

  // ---- meaning -------------------------------------------------------------

  /** The three-way rule on one value: agreement wins, otherwise the side that
      left the base wins. */
  function Rule<T(==)>(g: T, a: T, b: T): T { if a == b then a else if a == g then b else a }

  /** Outside conflict scope the merged entry follows the rule, except that two
      changed directories are merged. */
  lemma EntryRule(base: Option<Tree>, ours: Tree, theirs: Tree, n: Name)
    requires !Disagrees(base, ours, theirs, [n])
    ensures var g, a, b := Get(OrEmpty(base), n), Get(ours, n), Get(theirs, n);
      if a == b || a == g || b == g then MergeEntry(base, ours, theirs, n) == Rule(g, a, b)
      else IsDir(a) && IsDir(b) && IsDir(MergeEntry(base, ours, theirs, n))
  {
  }

  /** Everywhere outside conflict scope, two of the three sides hold the same file
      and the merged tree holds what the rule says. */
  lemma {:induction false} MergeMeaning(base: Option<Tree>, ours: Tree, theirs: Tree, p: Path)
    requires (base.Some? ==> WfTree(base.value)) && WfTree(ours) && WfTree(theirs)
    requires |p| > 0 && !InScope(base, ours, theirs, p)
    ensures var g, a, b := FileAt(OrEmpty(base), p), FileAt(ours, p), FileAt(theirs, p);
      && (a == b || a == g || b == g)
      && FileAt(MergeTree(base, ours, theirs), p) == Rule(g, a, b)
    decreases |p|, 1
  {
    if !Shortcut(base, ours, theirs) {
      var n, q := p[0], p[1..];
      assert p == [n] + q;
      if q == [] {
        assert p[..1] == p;
        MeaningHere(base, ours, theirs, n);
      } else {
        MeaningDeep(base, ours, theirs, n, q);
      }
    }
  }

  lemma {:induction false} MeaningDeep(base: Option<Tree>, ours: Tree, theirs: Tree, n: Name, q: Path)
    requires (base.Some? ==> WfTree(base.value)) && WfTree(ours) && WfTree(theirs)
    requires !Shortcut(base, ours, theirs) && |q| > 0 && !InScope(base, ours, theirs, [n] + q)
    ensures var g, a, b := FileAt(OrEmpty(base), [n] + q), FileAt(ours, [n] + q), FileAt(theirs, [n] + q);
      && (a == b || a == g || b == g)
      && FileAt(MergeTree(base, ours, theirs), [n] + q) == Rule(g, a, b)
    decreases |q| + 1, 0
  {
    ScopeBelow(base, ours, theirs, n, q);
    var g, a, b := Get(OrEmpty(base), n), Get(ours, n), Get(theirs, n);
    if a == b || a == g || b == g {
      MeaningAside(base, ours, theirs, n, q);
    } else {
      WfUnder(base, ours, theirs, n);
      MergeMeaning(BaseUnder(base, n), Under(ours, n), Under(theirs, n), q);
      MeaningBelow(base, ours, theirs, n, q);
    }
  }

  lemma WfUnder(base: Option<Tree>, ours: Tree, theirs: Tree, n: Name)
    requires (base.Some? ==> WfTree(base.value)) && WfTree(ours) && WfTree(theirs)
    ensures BaseUnder(base, n).Some? ==> WfTree(BaseUnder(base, n).value)
    ensures WfTree(Under(ours, n)) && WfTree(Under(theirs, n))
    ensures Get(ours, n).Some? ==> WfEntry(Get(ours, n).value)
    ensures Get(theirs, n).Some? ==> WfEntry(Get(theirs, n).value)
  {
    if Get(ours, n).Some? { WfGet(ours, n); }
    if Get(theirs, n).Some? { WfGet(theirs, n); }
    if Get(OrEmpty(base), n).Some? { WfGet(OrEmpty(base), n); }
  }

  lemma MeaningHere(base: Option<Tree>, ours: Tree, theirs: Tree, n: Name)
    requires !Shortcut(base, ours, theirs) && !Disagrees(base, ours, theirs, [n])
    ensures var g, a, b := FileAt(OrEmpty(base), [n]), FileAt(ours, [n]), FileAt(theirs, [n]);
      && (a == b || a == g || b == g)
      && FileAt(MergeTree(base, ours, theirs), [n]) == Rule(g, a, b)
  {
    MergeGet(base, ours, theirs, n);
    EntryRule(base, ours, theirs, n);
    var merged := MergeTree(base, ours, theirs);
    assert Get(merged, n) == MergeEntry(base, ours, theirs, n);
    RuleHere(OrEmpty(base), ours, theirs, merged, n);
  }

  /** The rule on entries is the rule on the files they hold. */
  lemma RuleHere(base: Tree, ours: Tree, theirs: Tree, merged: Tree, n: Name)
    requires var g, a, b, m := Get(base, n), Get(ours, n), Get(theirs, n), Get(merged, n);
      if a == b || a == g || b == g then m == Rule(g, a, b) else IsDir(a) && IsDir(b) && IsDir(m)
    ensures var g, a, b := FileAt(base, [n]), FileAt(ours, [n]), FileAt(theirs, [n]);
      && (a == b || a == g || b == g)
      && FileAt(merged, [n]) == Rule(g, a, b)
  {
    var g, a, b, m := Get(base, n), Get(ours, n), Get(theirs, n), Get(merged, n);
    if a == b || a == g || b == g {
      RuleOnFiles(g, a, b);
    } else {
      DirsHoldNoFile(a, b, m, g);
    }
  }

  lemma DirsHoldNoFile(a: Option<TreeEntry>, b: Option<TreeEntry>, m: Option<TreeEntry>, g: Option<TreeEntry>)
    requires IsDir(a) && IsDir(b) && IsDir(m)
    ensures FileOf(a) == None && FileOf(b) == None && FileOf(m) == Rule(FileOf(g), FileOf(a), FileOf(b))
  {
  }

  lemma RuleOnFiles(g: Option<TreeEntry>, a: Option<TreeEntry>, b: Option<TreeEntry>)
    requires a == b || a == g || b == g
    ensures FileOf(Rule(g, a, b)) == Rule(FileOf(g), FileOf(a), FileOf(b))
  {
  }

  lemma MeaningAside(base: Option<Tree>, ours: Tree, theirs: Tree, n: Name, q: Path)
    requires |q| > 0 && !Shortcut(base, ours, theirs) && !Disagrees(base, ours, theirs, [n])
    requires var g, a, b := Get(OrEmpty(base), n), Get(ours, n), Get(theirs, n); a == b || a == g || b == g
    ensures var g, a, b := FileAt(OrEmpty(base), [n] + q), FileAt(ours, [n] + q), FileAt(theirs, [n] + q);
      && (a == b || a == g || b == g)
      && FileAt(MergeTree(base, ours, theirs), [n] + q) == Rule(g, a, b)
  {
    MergeGet(base, ours, theirs, n);
    EntryRule(base, ours, theirs, n);
    StepDown(MergeTree(base, ours, theirs), n, q);
    StepDown(OrEmpty(base), n, q);
    StepDown(ours, n, q);
    StepDown(theirs, n, q);
  }

  /** Two changed directories: the merged entry is the merge of the subtrees. */
  lemma MergedDir(base: Option<Tree>, ours: Tree, theirs: Tree, n: Name)
    requires WfTree(ours) && WfTree(theirs) && !Shortcut(base, ours, theirs)
    requires IsDir(Get(ours, n)) && IsDir(Get(theirs, n))
    requires var g, a, b := Get(OrEmpty(base), n), Get(ours, n), Get(theirs, n); a != b && a != g && b != g
    ensures Get(MergeTree(base, ours, theirs), n)
      == Some(TreeEntry(n, KTree, TreeId(MergeTree(BaseUnder(base, n), Under(ours, n), Under(theirs, n))), false))
  {
    MergeGet(base, ours, theirs, n);
    WfGet(ours, n);
    WfGet(theirs, n);
  }

  lemma MeaningBelow(base: Option<Tree>, ours: Tree, theirs: Tree, n: Name, q: Path)
    requires |q| > 0 && WfTree(ours) && WfTree(theirs)
    requires !Shortcut(base, ours, theirs) && !Disagrees(base, ours, theirs, [n])
    requires var g, a, b := Get(OrEmpty(base), n), Get(ours, n), Get(theirs, n); a != b && a != g && b != g
    ensures FileAt(MergeTree(base, ours, theirs), [n] + q)
      == FileAt(MergeTree(BaseUnder(base, n), Under(ours, n), Under(theirs, n)), q)
    ensures FileAt(OrEmpty(base), [n] + q) == FileAt(OrEmpty(BaseUnder(base, n)), q)
    ensures FileAt(ours, [n] + q) == FileAt(Under(ours, n), q)
    ensures FileAt(theirs, [n] + q) == FileAt(Under(theirs, n), q)
  {
    EntryRule(base, ours, theirs, n);
    MergedDir(base, ours, theirs, n);
    StepDown(MergeTree(base, ours, theirs), n, q);
    StepDown(OrEmpty(base), n, q);
    StepDown(ours, n, q);
    StepDown(theirs, n, q);
  }

  /** What the partial tree holds at a conflict: ours where both sides have an
      entry, nothing where one side deleted. */
  lemma {:induction false} PartialAtConflict(base: Option<Tree>, ours: Tree, theirs: Tree, p: Path)
    requires (base.Some? ==> WfTree(base.value)) && WfTree(ours) && WfTree(theirs)
    requires IsConflict(base, ours, theirs, p)
    ensures EntryAt(MergeTree(base, ours, theirs), p)
      == if EntryAt(theirs, p).Some? then EntryAt(ours, p) else None
    decreases |p|
  {
    NoShortcut(base, ours, theirs, p);
    if |p| == 1 {
      assert p == [p[0]];
      MergeGet(base, ours, theirs, p[0]);
    } else {
      assert p == [p[0]] + p[1..];
      ConflictDescends(base, ours, theirs, p[0], p[1..]);
      WfUnder(base, ours, theirs, p[0]);
      PartialAtConflict(BaseUnder(base, p[0]), Under(ours, p[0]), Under(theirs, p[0]), p[1..]);
    }
  }

  lemma ConflictDescends(base: Option<Tree>, ours: Tree, theirs: Tree, n: Name, q: Path)
    requires |q| > 0 && WfTree(ours) && WfTree(theirs) && !Shortcut(base, ours, theirs)
    requires IsConflict(base, ours, theirs, [n] + q)
    ensures IsConflict(BaseUnder(base, n), Under(ours, n), Under(theirs, n), q)
    ensures EntryAt(MergeTree(base, ours, theirs), [n] + q)
      == EntryAt(MergeTree(BaseUnder(base, n), Under(ours, n), Under(theirs, n)), q)
    ensures EntryAt(ours, [n] + q) == EntryAt(Under(ours, n), q)
    ensures EntryAt(theirs, [n] + q) == EntryAt(Under(theirs, n), q)
  {
    ConflictBelow(base, ours, theirs, n, q);
    ConflictMeansDirs(base, ours, theirs, n, q);
    MergedDir(base, ours, theirs, n);
    StepDown(MergeTree(base, ours, theirs), n, q);
    StepDown(ours, n, q);
    StepDown(theirs, n, q);
  }

  lemma ConflictMeansDirs(base: Option<Tree>, ours: Tree, theirs: Tree, n: Name, q: Path)
    requires |q| > 0 && Disagrees(base, ours, theirs, [n] + q) && !Disagrees(base, ours, theirs, [n])
    ensures IsDir(Get(ours, n)) && IsDir(Get(theirs, n))
    ensures var g, a, b := Get(OrEmpty(base), n), Get(ours, n), Get(theirs, n); a != b && a != g && b != g
  {
    DisagreesBelow(base, ours, theirs, n, q);
  }

  lemma NoShortcut(base: Option<Tree>, ours: Tree, theirs: Tree, p: Path)
    requires Disagrees(base, ours, theirs, p)
    ensures !Shortcut(base, ours, theirs)
  {
  }

  // ---- well-formedness -----------------------------------------------------

  lemma {:induction false} MergeLoose(base: Option<Tree>, ours: Tree, theirs: Tree)
    requires (base.Some? ==> WfTree(base.value)) && WfTree(ours) && WfTree(theirs)
    ensures WfLoose(MergeTree(base, ours, theirs))
    decreases ours, 1
  {
    WfIsLooseAndFits(ours);
    WfIsLooseAndFits(theirs);
    if !Shortcut(base, ours, theirs) {
      var t := MergeTree(base, ours, theirs);
      MergeGet(base, ours, theirs, "");
      forall i | 0 <= i < |t.entries| ensures WfLooseEntry(t.entries[i]) {
        MergeGet(base, ours, theirs, t.entries[i].name);
        GetAt(t, i);
        MergeEntryLoose(base, ours, theirs, t.entries[i].name);
      }
    }
  }

  lemma {:induction false} MergeEntryLoose(base: Option<Tree>, ours: Tree, theirs: Tree, n: Name)
    requires (base.Some? ==> WfTree(base.value)) && WfTree(ours) && WfTree(theirs)
    requires MergeEntry(base, ours, theirs, n).Some?
    ensures WfLooseEntry(MergeEntry(base, ours, theirs, n).value)
    decreases ours, 0
  {
    WfUnder(base, ours, theirs, n);
    LooseGet(ours, n);
    LooseGet(theirs, n);
    var a, b := Get(ours, n), Get(theirs, n);
    if Subtree(a).Some? && Subtree(b).Some? {
      assert a.value in ours.entries;
      MergeLoose(BaseUnder(base, n), Under(ours, n), Under(theirs, n));
    }
  }

  lemma LooseGet(t: Tree, n: Name)
    requires WfTree(t)
    ensures Get(t, n).Some? ==> WfLooseEntry(Get(t, n).value)
  {
    WfIsLooseAndFits(t);
  }

  // ---- symmetry ------------------------------------------------------------

  ghost predicate Clean(base: Option<Tree>, ours: Tree, theirs: Tree) {
    forall p :: !IsConflict(base, ours, theirs, p)
  }

  lemma CleanUnder(base: Option<Tree>, ours: Tree, theirs: Tree, n: Name)
    requires Clean(base, ours, theirs)
    ensures !Disagrees(base, ours, theirs, [n])
    ensures Clean(BaseUnder(base, n), Under(ours, n), Under(theirs, n))
  {
    ConflictHere(base, ours, theirs, n);
    DisagreesHere(base, ours, theirs, n);
    forall q ensures !IsConflict(BaseUnder(base, n), Under(ours, n), Under(theirs, n), q) {
      if |q| > 0 { ConflictBelow(base, ours, theirs, n, q); assert !IsConflict(base, ours, theirs, [n] + q); }
    }
  }

  /** Names in order and kinds that fit the object named, whatever the executable bits
      say. `Tree::decode` checks the names; reading a subtree checks the kind. */
  predicate Typed(t: Tree)
    decreases t
  {
    && NamesSorted(t.entries)
    && forall i :: 0 <= i < |t.entries| ==>
         && (t.entries[i].kind.KTree? <==> t.entries[i].id.TreeId?)
         && (t.entries[i].id.TreeId? ==> Typed(t.entries[i].id.tree))
  }

  /** Both sides hold a directory there, each changed from the base and from the other. */
  predicate BothDirs(g: Option<TreeEntry>, a: Option<TreeEntry>, b: Option<TreeEntry>) {
    a != b && a != g && b != g && Subtree(a).Some? && Subtree(b).Some?
  }

  /** Wherever the merge descends into a pair of directories, their entries carry the
      same executable bit. */
  ghost predicate ExecAgree(base: Option<Tree>, ours: Tree, theirs: Tree)
    decreases ours
  {
    Shortcut(base, ours, theirs) || forall i :: 0 <= i < |ours.entries| ==>
      var x := ours.entries[i];
      var g, b := Get(OrEmpty(base), x.name), Get(theirs, x.name);
      BothDirs(g, Some(x), b) ==> x.exec == b.value.exec && ExecAgree(Subtree(g), x.id.tree, b.value.id.tree)
  }

  ghost predicate ExecAgreeAt(base: Option<Tree>, ours: Tree, theirs: Tree, n: Name) {
    BothDirs(Get(OrEmpty(base), n), Get(ours, n), Get(theirs, n)) ==>
      && Get(ours, n).value.exec == Get(theirs, n).value.exec
      && ExecAgree(BaseUnder(base, n), Under(ours, n), Under(theirs, n))
  }

  lemma ExecAgreeByName(base: Option<Tree>, ours: Tree, theirs: Tree)
    requires NamesSorted(ours.entries) && !Shortcut(base, ours, theirs)
    ensures ExecAgree(base, ours, theirs) <==> forall n :: ExecAgreeAt(base, ours, theirs, n)
  {
    forall i | 0 <= i < |ours.entries| ensures Get(ours, ours.entries[i].name) == Some(ours.entries[i]) { GetAt(ours, i); }
    if forall n :: ExecAgreeAt(base, ours, theirs, n) {
      forall i | 0 <= i < |ours.entries| ensures ExecAgreeAt(base, ours, theirs, ours.entries[i].name) {}
    }
    if ExecAgree(base, ours, theirs) {
      forall n | Get(ours, n).Some? ensures ExecAgreeAt(base, ours, theirs, n) {
        var i :| 0 <= i < |ours.entries| && ours.entries[i] == Get(ours, n).value;
      }
    }
  }

  lemma TypedUnder(t: Tree, n: Name)
    requires Typed(t) && Get(t, n).Some?
    ensures Get(t, n).value.kind.KTree? <==> Get(t, n).value.id.TreeId?
    ensures Typed(Under(t, n))
  {
    var i :| 0 <= i < |t.entries| && t.entries[i] == Get(t, n).value;
  }

  /** A clean merge is the same for both sides exactly when the executable bits agree
      on every pair of directories it descends into. */
  lemma {:induction false} MergeSymmetricIff(base: Option<Tree>, ours: Tree, theirs: Tree)
    requires Typed(ours) && Typed(theirs) && Clean(base, ours, theirs)
    ensures MergeTree(base, ours, theirs) == MergeTree(base, theirs, ours) <==> ExecAgree(base, ours, theirs)
    decreases ours, 1
  {
    if !Shortcut(base, ours, theirs) {
      var m, m' := MergeTree(base, ours, theirs), MergeTree(base, theirs, ours);
      forall n ensures Get(m, n) == Get(m', n) <==> ExecAgreeAt(base, ours, theirs, n) {
        SymmetricAtIff(base, ours, theirs, n);
      }
      ExecAgreeByName(base, ours, theirs);
      MergeGet(base, ours, theirs, "");
      MergeGet(base, theirs, ours, "");
      if forall n :: Get(m, n) == Get(m', n) { Canonical(m, m'); }
    }
  }

  lemma {:induction false} SymmetricAtIff(base: Option<Tree>, ours: Tree, theirs: Tree, n: Name)
    requires Typed(ours) && Typed(theirs) && Clean(base, ours, theirs) && !Shortcut(base, ours, theirs)
    ensures Get(MergeTree(base, ours, theirs), n) == Get(MergeTree(base, theirs, ours), n)
      <==> ExecAgreeAt(base, ours, theirs, n)
    decreases ours, 0
  {
    CleanUnder(base, ours, theirs, n);
    EntryRule(base, ours, theirs, n);
    EntryRule(base, theirs, ours, n);
    MergeGet(base, ours, theirs, n);
    MergeGet(base, theirs, ours, n);
    var g, a, b := Get(OrEmpty(base), n), Get(ours, n), Get(theirs, n);
    if a != b && a != g && b != g {
      TypedUnder(ours, n);
      TypedUnder(theirs, n);
      assert a.value in ours.entries;
      MergeSymmetricIff(BaseUnder(base, n), Under(ours, n), Under(theirs, n));
      DirEntry(base, ours, theirs, n);
      DirEntry(base, theirs, ours, n);
    }
  }

  lemma {:induction false} WfIsTyped(t: Tree)
    requires WfTree(t)
    ensures Typed(t)
  {
    forall i | 0 <= i < |t.entries| && t.entries[i].id.TreeId? ensures Typed(t.entries[i].id.tree) {
      assert WfEntry(t.entries[i]);
      WfIsTyped(t.entries[i].id.tree);
    }
    assert forall i :: 0 <= i < |t.entries| ==> WfEntry(t.entries[i]);
  }

  lemma {:induction false} WfExecAgree(base: Option<Tree>, ours: Tree, theirs: Tree)
    requires WfTree(ours) && WfTree(theirs)
    ensures ExecAgree(base, ours, theirs)
    decreases ours
  {
    forall i | 0 <= i < |ours.entries| && BothDirs(Get(OrEmpty(base), ours.entries[i].name), Some(ours.entries[i]), Get(theirs, ours.entries[i].name))
      ensures var x := ours.entries[i]; var b := Get(theirs, x.name);
        x.exec == b.value.exec && ExecAgree(Subtree(Get(OrEmpty(base), x.name)), x.id.tree, b.value.id.tree)
    {
      var x := ours.entries[i];
      assert WfEntry(x);
      WfGet(theirs, x.name);
      WfExecAgree(Subtree(Get(OrEmpty(base), x.name)), x.id.tree, Get(theirs, x.name).value.id.tree);
    }
  }

  /** Directories never carry the bit in a well-formed tree, so there a clean merge does
      not depend on which side is called ours. */
  lemma MergeSymmetric(base: Option<Tree>, ours: Tree, theirs: Tree)
    requires WfTree(ours) && WfTree(theirs) && Clean(base, ours, theirs)
    ensures MergeTree(base, ours, theirs) == MergeTree(base, theirs, ours)
  {
    WfIsTyped(ours);
    WfIsTyped(theirs);
    WfExecAgree(base, ours, theirs);
    MergeSymmetricIff(base, ours, theirs);
  }

  /** Symmetry needs "no directory entry carries the executable bit": if ours
      only sets it on a directory and theirs changes that directory, the merged
      entry follows the caller's order. */
  lemma DirExecBreaksSymmetry(base: Option<Tree>, ours: Tree, theirs: Tree, d: Name, s: Tree, t: Tree)
    requires Get(OrEmpty(base), d) == Some(TreeEntry(d, KTree, TreeId(s), false))
    requires Get(ours, d) == Some(TreeEntry(d, KTree, TreeId(s), true))
    requires Get(theirs, d) == Some(TreeEntry(d, KTree, TreeId(t), false)) && s != t
    ensures Get(MergeTree(base, ours, theirs), d) == Some(TreeEntry(d, KTree, TreeId(t), true))
    ensures Get(MergeTree(base, theirs, ours), d) == Some(TreeEntry(d, KTree, TreeId(t), false))
  {
    DirEntry(base, ours, theirs, d);
    DirEntry(base, theirs, ours, d);
    OneSided(s, t);
  }

  lemma DirEntry(base: Option<Tree>, ours: Tree, theirs: Tree, n: Name)
    requires var g, a, b := Get(OrEmpty(base), n), Get(ours, n), Get(theirs, n);
      a != b && a != g && b != g && Subtree(a).Some? && Subtree(b).Some?
    ensures Get(MergeTree(base, ours, theirs), n)
      == Some(Get(ours, n).value.(id := TreeId(MergeTree(BaseUnder(base, n), Under(ours, n), Under(theirs, n)))))
  {
    MergeGet(base, ours, theirs, n);
  }

  lemma OneSided(s: Tree, t: Tree)
    ensures MergeTree(Some(s), s, t) == t && MergeTree(Some(s), t, s) == t
  {
  }
}
