/** The copy-on-write fold of staged overlay rows onto a base tree. */
module OverlayFold {
  import opened Names
  import opened Trees

  /** Relative path to a staged file, or to a tombstone. */
  type Overlay = map<Path, Option<File>>

  ghost predicate ValidOverlay(ov: Overlay) {
    forall p :: p in ov ==> ValidPath(p) && (ov[p].Some? ==> ov[p].value.id.BlobId?)
  }

  // ---- the fold as a function of one level ---------------------------------

  ghost function MaxLen(s: set<Path>): (r: nat)
    ensures forall p :: p in s ==> |p| <= r
    ensures s != {} ==> exists p :: p in s && |p| == r
    decreases s
  {
    if s == {} then 0
    else
      var p :| p in s;
      var m := MaxLen(s - {p});
      if |p| > m then |p| else m
  }

  /** The rows strictly below the direct child `n`, relative to it. */
  ghost function Sub(ov: Overlay, n: Name): (r: Overlay)
    ensures forall q {:trigger q in r} :: q in r <==> |q| > 0 && [n] + q in ov
    ensures forall q {:trigger q in r} :: q in r ==> r[q] == ov[[n] + q]
  {
    var tails := set p | p in ov && |p| > 1 && p[0] == n :: p[1..];
    assert forall q :: q in tails ==> [n] + q in ov by {
      forall q | q in tails ensures [n] + q in ov {
        var p :| p in ov && |p| > 1 && p[0] == n && q == p[1..];
        assert p == [n] + q;
      }
    }
    assert forall q :: |q| > 0 && [n] + q in ov ==> q in tails by {
      forall q | |q| > 0 && [n] + q in ov ensures q in tails {
        assert ([n] + q)[1..] == q;
      }
    }
    map q | q in tails :: ov[[n] + q]
  }

  lemma SubShorter(ov: Overlay, n: Name)
    requires Sub(ov, n) != map[]
    ensures MaxLen(Sub(ov, n).Keys) < MaxLen(ov.Keys)
  {
    var s := Sub(ov, n);
    assert s.Keys != {};
    var q :| q in s.Keys && |q| == MaxLen(s.Keys);
    assert [n] + q in ov.Keys;
  }

  function Heads(ov: Overlay): set<Name> {
    set p | p in ov && |p| > 0 :: p[0]
  }

  /** What becomes of the direct child `n` whose base entry is `b`. */
  ghost function FoldEntry(b: Option<TreeEntry>, ov: Overlay, n: Name): (r: Option<TreeEntry>)
    requires b.Some? ==> b.value.name == n
    ensures r.Some? ==> r.value.name == n
    decreases MaxLen(ov.Keys), 0
  {
    if Sub(ov, n) != map[] then
      SubShorter(ov, n);
      var child := Fold(ChildBase(b, ov, n), Sub(ov, n));
      if child == EmptyTree then None else Some(TreeEntry(n, KTree, TreeId(child), false))
    else if [n] in ov then
      match ov[[n]]
      case None => None
      case Some(f) => Some(TreeEntry(n, KBlob, f.id, f.exec))
    else b
  }

  /** A staged row for the child itself hides the directory it had. */
  function ChildBase(b: Option<TreeEntry>, ov: Overlay, n: Name): Tree {
    if [n] in ov then EmptyTree else OrEmpty(Subtree(b))
  }

  ghost function FoldMap(base: Tree, ov: Overlay): (m: map<Name, TreeEntry>)
    ensures forall n :: n in m ==> m[n].name == n
    decreases MaxLen(ov.Keys), 1
  {
    map n | n in NamesOf(base) + Heads(ov) && FoldEntry(Get(base, n), ov, n).Some?
          :: FoldEntry(Get(base, n), ov, n).value
  }

  ghost function Fold(base: Tree, ov: Overlay): (t: Tree)
    decreases MaxLen(ov.Keys), 2
  {
    FromMap(FoldMap(base, ov))
  }

  lemma FoldGet(base: Tree, ov: Overlay, n: Name)
    ensures NamesSorted(Fold(base, ov).entries)
    ensures Get(Fold(base, ov), n) == FoldEntry(Get(base, n), ov, n)
  {
    if n !in NamesOf(base) + Heads(ov) {
      NamesOfGet(base, n);
      NoRows(ov, n);
    }
  }

  lemma NoRows(ov: Overlay, n: Name)
    requires n !in Heads(ov)
    ensures [n] !in ov && Sub(ov, n) == map[]
  {
    assert forall p :: p in ov && |p| > 0 ==> p[0] in Heads(ov);
  }

  // ---- meaning -------------------------------------------------------------

  ghost predicate RowBelow(ov: Overlay, p: Path) { exists k :: k in ov && p < k }

  ghost predicate RowAbove(ov: Overlay, p: Path) { exists k :: k in ov && |k| > 0 && k < p }

  /** The file map a fold should give: a staged row decides its own path unless
      another row lies below it; a base file survives when no row is at, above or
      below it. */
  ghost function FoldedFile(base: Tree, ov: Overlay, p: Path): Option<File> {
    if p in ov then (if RowBelow(ov, p) then None else ov[p])
    else if RowAbove(ov, p) || RowBelow(ov, p) then None
    else FileAt(base, p)
  }

  lemma BelowHead(ov: Overlay, n: Name)
    ensures RowBelow(ov, [n]) <==> Sub(ov, n) != map[]
  {
    if RowBelow(ov, [n]) {
      var k :| k in ov && [n] < k;
      assert k == [n] + k[1..];
      assert k[1..] in Sub(ov, n);
    }
    if Sub(ov, n) != map[] {
      assert Sub(ov, n).Keys != {};
      var q :| q in Sub(ov, n).Keys;
      assert [n] < [n] + q;
    }
  }

  lemma BelowTail(ov: Overlay, n: Name, q: Path)
    requires |q| > 0
    ensures RowBelow(ov, [n] + q) <==> RowBelow(Sub(ov, n), q)
  {
    if RowBelow(ov, [n] + q) {
      var k :| k in ov && [n] + q < k;
      assert k == [n] + k[1..];
      assert k[1..] in Sub(ov, n);
      assert q < k[1..];
    }
    if RowBelow(Sub(ov, n), q) {
      var k :| k in Sub(ov, n) && q < k;
      assert [n] + q < [n] + k;
    }
  }

  lemma AboveTail(ov: Overlay, n: Name, q: Path)
    requires |q| > 0
    ensures RowAbove(ov, [n] + q) <==> [n] in ov || RowAbove(Sub(ov, n), q)
  {
    if RowAbove(ov, [n] + q) {
      var k :| k in ov && |k| > 0 && k < [n] + q;
      assert k == [n] + k[1..];
      if |k| == 1 {
        assert k == [n];
      } else {
        assert k[1..] in Sub(ov, n) && k[1..] < q;
      }
    }
    if [n] in ov {
      assert [n] < [n] + q;
    }
    if RowAbove(Sub(ov, n), q) {
      var k :| k in Sub(ov, n) && |k| > 0 && k < q;
      assert [n] + k in ov && [n] + k < [n] + q;
    }
  }

  /** The fold means exactly the pointwise rule, for every base, overlay and path. */
  lemma {:induction false} FoldMeaning(base: Tree, ov: Overlay, p: Path)
    requires |p| > 0
    ensures FileAt(Fold(base, ov), p) == FoldedFile(base, ov, p)
    decreases |p|
  {
    if |p| == 1 {
      assert p == [p[0]];
      FoldMeaningHere(base, ov, p[0]);
    } else {
      assert p == [p[0]] + p[1..];
      if Sub(ov, p[0]) != map[] {
        FoldMeaning(ChildBase(Get(base, p[0]), ov, p[0]), Sub(ov, p[0]), p[1..]);
        FoldMeaningBelow(base, ov, p[0], p[1..]);
      } else {
        FoldMeaningAside(base, ov, p[0], p[1..]);
      }
    }
  }

  lemma FoldMeaningHere(base: Tree, ov: Overlay, n: Name)
    ensures FileAt(Fold(base, ov), [n]) == FoldedFile(base, ov, [n])
  {
    FoldGet(base, ov, n);
    BelowHead(ov, n);
    NothingAboveHead(ov, n);
  }

  lemma FoldMeaningBelow(base: Tree, ov: Overlay, n: Name, q: Path)
    requires |q| > 0 && Sub(ov, n) != map[]
    requires FileAt(Fold(ChildBase(Get(base, n), ov, n), Sub(ov, n)), q)
      == FoldedFile(ChildBase(Get(base, n), ov, n), Sub(ov, n), q)
    ensures FileAt(Fold(base, ov), [n] + q) == FoldedFile(base, ov, [n] + q)
  {
    FoldStep(base, ov, n, q);
    StepDown(base, n, q);
    BelowTail(ov, n, q);
    AboveTail(ov, n, q);
    EmptyHasNothing(q);
  }

  /** One step down a folded tree whose child `n` has rows below it. */
  lemma FoldStep(base: Tree, ov: Overlay, n: Name, q: Path)
    requires |q| > 0 && Sub(ov, n) != map[]
    ensures EntryAt(Fold(base, ov), [n] + q) == EntryAt(Fold(ChildBase(Get(base, n), ov, n), Sub(ov, n)), q)
  {
    FoldGet(base, ov, n);
    StepDown(Fold(base, ov), n, q);
    var child := Fold(ChildBase(Get(base, n), ov, n), Sub(ov, n));
    assert OrEmpty(Subtree(Get(Fold(base, ov), n))) == child;
  }

  lemma FoldMeaningAside(base: Tree, ov: Overlay, n: Name, q: Path)
    requires |q| > 0 && Sub(ov, n) == map[]
    ensures FileAt(Fold(base, ov), [n] + q) == FoldedFile(base, ov, [n] + q)
  {
    FoldGet(base, ov, n);
    StepDown(Fold(base, ov), n, q);
    StepDown(base, n, q);
    BelowTail(ov, n, q);
    AboveTail(ov, n, q);
    EmptyHasNothing(q);
    assert [n] + q in ov ==> q in Sub(ov, n);
  }

  lemma NothingAboveHead(ov: Overlay, n: Name)
    ensures !RowAbove(ov, [n])
  {
  }

  ghost predicate Within(ov: Overlay, d: nat) { forall p :: p in ov ==> |p| <= d }

  lemma SubWithin(ov: Overlay, d: nat, n: Name)
    requires Within(ov, d) && Sub(ov, n) != map[]
    ensures d > 0 && Within(Sub(ov, n), d - 1)
  {
    forall q | q in Sub(ov, n) ensures |q| + 1 <= d { assert |[n] + q| <= d; }
    assert Sub(ov, n).Keys != {};
    var q :| q in Sub(ov, n).Keys;
  }

  /** Folding keeps every level sorted, typed and free of directory exec bits. */
  lemma FoldWellFormed(base: Tree, ov: Overlay)
    requires WfTree(base) && ValidOverlay(ov)
    ensures WfLoose(Fold(base, ov))
  {
    WfIsLooseAndFits(base);
    FoldLoose(MaxLen(ov.Keys), base, ov);
  }

  lemma {:induction false} FoldLoose(d: nat, base: Tree, ov: Overlay)
    requires WfLoose(base) && ValidOverlay(ov) && Within(ov, d)
    ensures WfLoose(Fold(base, ov))
    decreases d, 1
  {
    var t := Fold(base, ov);
    forall i | 0 <= i < |t.entries| ensures WfLooseEntry(t.entries[i]) {
      FoldGet(base, ov, t.entries[i].name);
      GetAt(t, i);
      FoldEntryLoose(d, Get(base, t.entries[i].name), ov, t.entries[i].name);
    }
    FoldGet(base, ov, "");
  }

  lemma {:induction false} FoldEntryLoose(d: nat, b: Option<TreeEntry>, ov: Overlay, n: Name)
    requires b.Some? ==> b.value.name == n && WfLooseEntry(b.value)
    requires ValidOverlay(ov) && Within(ov, d)
    requires FoldEntry(b, ov, n).Some?
    ensures WfLooseEntry(FoldEntry(b, ov, n).value)
    decreases d, 0
  {
    if Sub(ov, n) != map[] {
      SubWithin(ov, d, n);
      SubValid(ov, n);
      FoldLoose(d - 1, ChildBase(b, ov, n), Sub(ov, n));
    } else if [n] in ov {
      assert ValidPath([n]) && [n][0] == n;
    }
  }

  lemma SubValid(ov: Overlay, n: Name)
    requires ValidOverlay(ov)
    ensures ValidOverlay(Sub(ov, n))
    ensures Sub(ov, n) != map[] ==> ValidName(n)
  {
    var s := Sub(ov, n);
    forall q | q in s ensures ValidPath(q) && ValidName(n) && (s[q].Some? ==> s[q].value.id.BlobId?) {
      var p := [n] + q;
      assert p in ov && p[0] == n;
      assert forall i :: 0 <= i < |q| ==> q[i] == p[i + 1];
    }
    if s != map[] {
      assert s.Keys != {};
      var q :| q in s.Keys;
    }
  }

  /** The fold leaves no empty directory behind, so it creates none. */
  lemma {:induction false} FoldNoEmptyDirs(d: nat, base: Tree, ov: Overlay)
    requires WfLoose(base) && NoEmptyDirs(base) && ValidOverlay(ov) && Within(ov, d)
    ensures NoEmptyDirs(Fold(base, ov))
    decreases d, 1
  {
    var t := Fold(base, ov);
    forall i | 0 <= i < |t.entries| && t.entries[i].id.TreeId?
      ensures t.entries[i].id.tree != EmptyTree && NoEmptyDirs(t.entries[i].id.tree)
    {
      FoldGet(base, ov, t.entries[i].name);
      GetAt(t, i);
      FoldEntryNoEmptyDirs(d, base, ov, t.entries[i].name);
    }
  }

  lemma {:induction false} FoldEntryNoEmptyDirs(d: nat, base: Tree, ov: Overlay, n: Name)
    requires WfLoose(base) && NoEmptyDirs(base) && ValidOverlay(ov) && Within(ov, d)
    requires FoldEntry(Get(base, n), ov, n).Some? && FoldEntry(Get(base, n), ov, n).value.id.TreeId?
    ensures FoldEntry(Get(base, n), ov, n).value.id.tree != EmptyTree
    ensures NoEmptyDirs(FoldEntry(Get(base, n), ov, n).value.id.tree)
    decreases d, 0
  {
    if Sub(ov, n) != map[] {
      SubWithin(ov, d, n);
      SubValid(ov, n);
      FoldNoEmptyDirs(d - 1, ChildBase(Get(base, n), ov, n), Sub(ov, n));
    }
  }

  // ---- the Noop test -------------------------------------------------------

  /** "The folded id equals the base id" decides on content. */
  ghost predicate NoopDecidesOnContent(base: Tree) {
    forall ov: Overlay :: ValidOverlay(ov) ==> (Fold(base, ov) == base <==> SameFiles(Fold(base, ov), base))
  }

  /** The Noop test and the stranded-work test are content tests exactly on bases
      without empty directories. */
  lemma NoopByContent(base: Tree)
    requires WfTree(base)
    ensures NoopDecidesOnContent(base) <==> NoEmptyDirs(base)
  {
    if NoEmptyDirs(base) {
      forall ov: Overlay | ValidOverlay(ov)
        ensures Fold(base, ov) == base <==> SameFiles(Fold(base, ov), base)
      {
        NoopOfContent(base, ov);
      }
    } else {
      var ov := NoopMisled(base);
    }
  }

  lemma NoopOfContent(base: Tree, ov: Overlay)
    requires WfTree(base) && NoEmptyDirs(base) && ValidOverlay(ov)
    ensures Fold(base, ov) == base <==> SameFiles(Fold(base, ov), base)
  {
    WfIsLooseAndFits(base);
    FoldWellFormed(base, ov);
    FoldNoEmptyDirs(MaxLen(ov.Keys), base, ov);
    if SameFiles(Fold(base, ov), base) {
      FilesDetermineTree(Fold(base, ov), base);
    }
  }

  /** A tombstone inside an empty directory removes the directory and no file. */
  lemma NoopMisled(base: Tree) returns (ov: Overlay)
    requires WfTree(base) && !NoEmptyDirs(base)
    ensures ValidOverlay(ov) && SameFiles(Fold(base, ov), base) && Fold(base, ov) != base
  {
    WfIsLooseAndFits(base);
    var d := EmptyDirPath(base);
    ov := TombstoneAt(d, "x");
    TombstoneSameFiles(base, ov, d, "x");
    TombstoneDropsDir(base, ov, d, "x");
  }

  lemma TombstoneAt(d: Path, x: Name) returns (ov: Overlay)
    requires ValidPath(d) && ValidName(x)
    ensures IsTombstone(ov, d, x) && ValidOverlay(ov)
  {
    ov := map[d + [x] := None];
  }

  lemma TombstoneSameFiles(base: Tree, ov: Overlay, d: Path, x: Name)
    requires |d| > 0 && Subtree(EntryAt(base, d)) == Some(EmptyTree)
    requires IsTombstone(ov, d, x)
    ensures SameFiles(Fold(base, ov), base)
  {
    forall p ensures FileAt(Fold(base, ov), p) == FileAt(base, p) {
      if |p| > 0 {
        FoldMeaning(base, ov, p);
        TombstoneInEmptyDir(base, ov, d, x, p);
      }
    }
  }

  /** No row changes what any path holds. */
  ghost predicate NoEffect(base: Tree, ov: Overlay) { forall p :: |p| > 0 ==> FoldedFile(base, ov, p) == FileAt(base, p) }

  lemma NoEffectIsSameFiles(base: Tree, ov: Overlay)
    requires ValidOverlay(ov)
    ensures NoEffect(base, ov) <==> SameFiles(Fold(base, ov), base)
  {
    forall p | |p| > 0 ensures FileAt(Fold(base, ov), p) == FoldedFile(base, ov, p) {
      FoldMeaning(base, ov, p);
    }
  }

  /** In terms of the rows alone: a Noop always means that no row has an effect, and the
      converse holds of every overlay exactly on bases without empty directories. */
  lemma NoopMeansNoEffect(base: Tree)
    requires WfTree(base)
    ensures forall ov: Overlay :: ValidOverlay(ov) && Fold(base, ov) == base ==> NoEffect(base, ov)
    ensures (forall ov: Overlay :: ValidOverlay(ov) && NoEffect(base, ov) ==> Fold(base, ov) == base) <==> NoEmptyDirs(base)
  {
    forall ov: Overlay | ValidOverlay(ov) ensures NoEffect(base, ov) <==> SameFiles(Fold(base, ov), base) {
      NoEffectIsSameFiles(base, ov);
    }
    NoopByContent(base);
  }

  lemma {:induction false} EmptyDirPath(t: Tree) returns (d: Path)
    requires WfLoose(t) && !NoEmptyDirs(t)
    ensures ValidPath(d) && Subtree(EntryAt(t, d)) == Some(EmptyTree)
    decreases t
  {
    var i :| 0 <= i < |t.entries| && t.entries[i].id.TreeId? &&
      (t.entries[i].id.tree == EmptyTree || !NoEmptyDirs(t.entries[i].id.tree));
    var e := t.entries[i];
    assert WfLooseEntry(e);
    GetAt(t, i);
    if e.id.tree == EmptyTree {
      d := [e.name];
    } else {
      var q := EmptyDirPath(e.id.tree);
      d := [e.name] + q;
      assert d[1..] == q;
    }
  }

  lemma TombstoneInEmptyDir(base: Tree, ov: Overlay, d: Path, x: Name, p: Path)
    requires |d| > 0 && |p| > 0 && Subtree(EntryAt(base, d)) == Some(EmptyTree)
    requires IsTombstone(ov, d, x)
    ensures FoldedFile(base, ov, p) == FileAt(base, p)
  {
    if d <= p && d != p {
      assert p == d + p[|d|..];
      WalkOn(base, d, p[|d|..]);
    } else if p <= d {
      assert d == p + d[|p|..];
      if p != d { DirsAbove(base, p, d[|p|..]); }
    } else {
      assert !RowBelow(ov, p) by {
        assert (d + [x])[..|d|] == d;
      }
      assert !RowAbove(ov, p) by {
        assert d + [x] < p ==> d <= p;
      }
      assert p == d + [x] ==> d <= p;
    }
  }

  lemma DirsAbove(t: Tree, p: Path, q: Path)
    requires |p| > 0 && |q| > 0 && EntryAt(t, p + q).Some?
    ensures Subtree(EntryAt(t, p)).Some?
  {
    WalkOn(t, p, q);
    EmptyHasNothing(q);
  }

  /** `ov` is one tombstone for the path `d/x`. */
  ghost predicate IsTombstone(ov: Overlay, d: Path, x: Name) {
    && (forall p :: p in ov <==> p == d + [x])
    && ov[d + [x]] == None
  }

  lemma {:induction false} TombstoneDropsDir(base: Tree, ov: Overlay, d: Path, x: Name)
    requires |d| > 0 && Subtree(EntryAt(base, d)) == Some(EmptyTree)
    requires IsTombstone(ov, d, x)
    ensures EntryAt(Fold(base, ov), d) == None
    decreases |d|
  {
    SubOfTombstone(ov, d, x);
    if |d| == 1 {
      assert d == [d[0]];
      TombstoneDropsChild(base, ov, d[0], x);
    } else {
      assert d == [d[0]] + d[1..];
      StepDown(base, d[0], d[1..]);
      EmptyHasNothing(d[1..]);
      TombstoneDropsDir(OrEmpty(Subtree(Get(base, d[0]))), Sub(ov, d[0]), d[1..], x);
      FoldStep(base, ov, d[0], d[1..]);
    }
  }

  lemma TombstoneDropsChild(base: Tree, ov: Overlay, n: Name, x: Name)
    requires Subtree(Get(base, n)) == Some(EmptyTree)
    requires IsTombstone(Sub(ov, n), [], x) && [n] !in ov
    ensures Get(Fold(base, ov), n) == None
  {
    assert [x] in Sub(ov, n);
    FoldToEmpty(ChildBase(Get(base, n), ov, n), Sub(ov, n), x);
    FoldGet(base, ov, n);
  }

  lemma SubOfTombstone(ov: Overlay, d: Path, x: Name)
    requires |d| > 0 && IsTombstone(ov, d, x)
    ensures IsTombstone(Sub(ov, d[0]), d[1..], x)
    ensures [d[0]] !in ov && Sub(ov, d[0]) != map[]
  {
    assert d + [x] == [d[0]] + (d[1..] + [x]);
    assert d[1..] + [x] in Sub(ov, d[0]);
    forall q | q in Sub(ov, d[0]) ensures q == d[1..] + [x] {
      assert [d[0]] + q == d + [x];
      assert q == ([d[0]] + q)[1..];
    }
  }

  lemma FoldToEmpty(e: Tree, ov: Overlay, x: Name)
    requires e == EmptyTree && IsTombstone(ov, [], x)
    ensures Fold(e, ov) == EmptyTree
  {
    forall n ensures Get(Fold(e, ov), n) == None {
      FoldGet(e, ov, n);
      assert forall q :: q in Sub(ov, n) ==> |[n] + q| > 1;
      assert Sub(ov, n) == map[];
      assert [n] in ov ==> [n] == [] + [x];
    }
    EmptyByGet(Fold(e, ov));
  }

  lemma EmptyByGet(t: Tree)
    requires forall n :: Get(t, n) == None
    ensures t == EmptyTree
  {
    assert |t.entries| > 0 ==> Get(t, t.entries[0].name).Some?;
  }
}
