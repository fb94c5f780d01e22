/** The part of the disk the store publishes into: directories are added there and never
    taken away; an object's own name is added by a link and taken away by a sweep. */
module ObjectArea {
  import opened Names
  import opened Device

  /** An object id as its hex digits; two pairs of them name the shard directories. */
  type Oid = s: string | |s| >= 4 witness "0000"

  const Objects: Path := ["objects"]
  const Tmp: Path := ["tmp"]

  function ShardA(id: Oid): Path { ["objects", id[..2]] }
  function ShardB(id: Oid): Path { ["objects", id[..2], id[2..4]] }
  function ObjectPath(id: Oid): Path { ["objects", id[..2], id[2..4], id] }
  function TmpPath(t: Name): Path { ["tmp", t] }

  /** Everything but the contents of `tmp/`. */
  predicate Kept(p: Path) { !(|p| > 1 && p[0] == "tmp") }

  /** An object's own name. */
  predicate Leaf(p: Path) { |p| == 4 && p[0] == "objects" }

  /** A name above the objects, or outside their area: only ever added. */
  predicate Fixed(p: Path) { Kept(p) && !(|p| >= 4 && p[0] == "objects") }

  /** Some published name leads to the inode. */
  ghost predicate Named(d: Disk, i: nat) { exists p :: Kept(p) && p in d.nsC && d.nsC[p] == FileNode(i) }

  predicate Bounded(node: Node, next: nat) { node.FileNode? ==> node.ino < next }

  /** A pending change of directory `dir`; to a fixed name it adds what is visible. */
  predicate OpOk(d: Disk, dir: Path, op: NameOp) {
    && op.path != [] && Parent(op.path) == dir
    && (op.node.Some? ==> Bounded(op.node.value, d.nextIno))
    && (Fixed(op.path) ==> op.path in d.nsC && op.node == Some(d.nsC[op.path]))
  }

  ghost predicate OpsOk(d: Disk) {
    forall dir, k :: 0 <= k < |PendNs(d, dir)| ==> OpOk(d, dir, PendNs(d, dir)[k])
  }

  ghost predicate NamesOk(d: Disk) {
    && Root in d.nsC && d.nsC[Root] == Dir && Root in d.nsD
    && (forall p :: p in d.nsD ==> Bounded(d.nsD[p], d.nextIno))
    && (forall p :: p in d.nsC ==> Bounded(d.nsC[p], d.nextIno))
    && (forall p :: Fixed(p) && p in d.nsD ==> p in d.nsC && d.nsC[p] == d.nsD[p])
  }

  /** A visible fixed name is durable or waiting in its directory. */
  ghost predicate Waits(d: Disk, p: Path)
    requires p in d.nsC
  {
    p in d.nsD || (p != [] && NameOp(p, Some(d.nsC[p])) in PendNs(d, Parent(p)))
  }

  function At(ns: map<Path, Node>, p: Path): Option<Node> { if p in ns then Some(ns[p]) else None }

  /** What the device holds at `p` once `k` pending changes of its directory reached it. */
  function Written(d: Disk, p: Path, k: nat): Option<Node>
    requires p != [] && k <= |PendNs(d, Parent(p))|
  {
    At(ApplyNames(d.nsD, PendNs(d, Parent(p))[..k]), p)
  }

  /** Once all of them have, the device agrees with what is visible. */
  predicate Coherent(d: Disk, p: Path)
    requires p != []
  {
    Written(d, p, |PendNs(d, Parent(p))|) == At(d.nsC, p)
  }

  /** However many of them have, the device holds what is visible. */
  ghost predicate Firm(d: Disk, p: Path)
    requires p != []
  {
    p in d.nsC && forall k :: 0 <= k <= |PendNs(d, Parent(p))| ==> Written(d, p, k) == Some(d.nsC[p])
  }

  lemma FirmIsDurable(d: Disk, p: Path)
    requires p != [] && Firm(d, p)
    ensures p in d.nsD && p in d.nsC && d.nsD[p] == d.nsC[p]
  {
    assert Written(d, p, 0) == Some(d.nsC[p]);
  }

  lemma NothingPending(d: Disk, p: Path)
    requires p != [] && PendNs(d, Parent(p)) == [] && Coherent(d, p)
    ensures p in d.nsC ==> Firm(d, p)
  {
  }

  ghost predicate WfDisk(d: Disk) {
    && NamesOk(d) && OpsOk(d)
    && (forall p :: Fixed(p) && p in d.nsC ==> Waits(d, p))
    && (forall p :: Leaf(p) ==> Coherent(d, p))
    && (forall i :: i in d.dur || i in d.pendW ==> i < d.nextIno)
  }

  /** What any step short of a sweep or a power cut may do to the disk: publish names, make
      things durable, write only to the inodes `touch` and create only the
      temporary names `made`. */
  ghost predicate Grows(d: Disk, e: Disk, touch: set<nat>, made: set<Path>) {
    && WfDisk(e) && d.nextIno <= e.nextIno
    && (forall p :: Kept(p) && p in d.nsC ==> p in e.nsC && e.nsC[p] == d.nsC[p])
    && (forall p :: Fixed(p) && p in d.nsD ==> p in e.nsD)
    && (forall p :: Leaf(p) && Firm(d, p) ==> Firm(e, p))
    && (forall p :: !Kept(p) && p in e.nsC && p !in made ==> p in d.nsC && e.nsC[p] == d.nsC[p])
    && (forall i :: 0 <= i < d.nextIno && i !in touch ==> Same(d, e, i))
  }

  ghost predicate Same(d: Disk, e: Disk, i: nat) {
    && Content(e, i) == Content(d, i)
    && (PendW(d, i) == [] ==> PendW(e, i) == [])
    && (Named(e, i) ==> Named(d, i))
  }

  lemma GrowsSelf(d: Disk)
    requires WfDisk(d)
    ensures Grows(d, d, {}, {})
  {
  }

  lemma GrowsThen(d: Disk, e: Disk, f: Disk)
    requires Grows(d, e, {}, {}) && Grows(e, f, {}, {})
    ensures Grows(d, f, {}, {})
  {
    forall i | 0 <= i < d.nextIno ensures Same(d, f, i) {
      assert Same(d, e, i) && Same(e, f, i);
    }
  }

  // ---- pending changes and one name ----------------------------------------

  lemma {:induction false} ApplyNamesSplit(ns: map<Path, Node>, ops: seq<NameOp>, k: nat)
    requires k <= |ops|
    ensures ApplyNames(ApplyNames(ns, ops[..k]), ops[k..]) == ApplyNames(ns, ops)
    decreases |ops|
  {
    if k == |ops| {
      assert ops[..k] == ops && ops[k..] == [];
    } else {
      var init := ops[..|ops| - 1];
      ApplyNamesSplit(ns, init, k);
      assert init[..k] == ops[..k] && ops[k..][..|ops| - k - 1] == init[k..];
    }
  }

  /** Changes act on each name by itself. */
  lemma {:induction false} ApplyNamesAt(m: map<Path, Node>, n: map<Path, Node>, ops: seq<NameOp>, p: Path)
    requires At(m, p) == At(n, p)
    ensures At(ApplyNames(m, ops), p) == At(ApplyNames(n, ops), p)
    decreases |ops|
  {
    if ops != [] { ApplyNamesAt(m, n, ops[..|ops| - 1], p); }
  }

  /** Changes of other names, none of them a directory above, leave a name alone. */
  lemma {:induction false} ApplyNamesElsewhere(ns: map<Path, Node>, ops: seq<NameOp>, p: Path)
    requires forall k :: 0 <= k < |ops| ==> ops[k].path != p && (ops[k].node.None? ==> !(ops[k].path <= p))
    ensures At(ApplyNames(ns, ops), p) == At(ns, p)
    decreases |ops|
  {
    if ops != [] {
      var init := ops[..|ops| - 1];
      assert forall k :: 0 <= k < |init| ==> init[k] == ops[k];
      ApplyNamesElsewhere(ns, init, p);
    }
  }

  /** One more pending change, seen at another name. */
  lemma OneMoreChange(d: Disk, e: Disk, op: NameOp, p: Path)
    requires op.path != [] && p != [] && op.path != p && (op.node.None? ==> !(op.path <= p))
    requires e.nsD == d.nsD && e.pendNs == d.pendNs[Parent(op.path) := PendNs(d, Parent(op.path)) + [op]]
    requires At(e.nsC, p) == At(d.nsC, p)
    ensures Coherent(d, p) ==> Coherent(e, p)
    ensures Coherent(d, p) && Firm(d, p) ==> Firm(e, p)
  {
    var was, now := PendNs(d, Parent(p)), PendNs(e, Parent(p));
    if Parent(p) == Parent(op.path) {
      assert now == was + [op];
      assert Written(e, p, |now|) == Written(d, p, |was|) by {
        assert now[..|now|] == now && was[..|was|] == was && now[..|now| - 1] == was;
        assert ApplyNames(d.nsD, now) == ApplyName(ApplyNames(d.nsD, was), op);
      }
      forall k | 0 <= k <= |now| ensures Written(e, p, k) == Written(d, p, if k < |now| then k else |was|) {
        if k < |now| { assert now[..k] == was[..k]; }
      }
    } else {
      assert now == was;
      forall k | 0 <= k <= |was| ensures Written(e, p, k) == Written(d, p, k) { }
    }
  }

  /** The changed name itself, after a change that makes it what is visible. */
  lemma OwnChange(d: Disk, e: Disk, op: NameOp)
    requires op.path != []
    requires e.nsD == d.nsD && e.pendNs == d.pendNs[Parent(op.path) := PendNs(d, Parent(op.path)) + [op]]
    requires At(e.nsC, op.path) == op.node
    ensures Coherent(e, op.path)
  {
    var now := PendNs(e, Parent(op.path));
    assert now[..|now|] == now && now[..|now| - 1] == PendNs(d, Parent(op.path));
  }

  /** Pending removals never lie above an object's name. */
  lemma RemovalsBelow(d: Disk, dir: Path, op: NameOp, p: Path)
    requires OpOk(d, dir, op) && Leaf(p) && op.path != p
    ensures op.node.None? ==> !(op.path <= p)
  {
    assert op.path <= p ==> op.path[0] == p[0];
  }

  // ---- one operation at a time --------------------------------------------

  /** Publishing a name that was not visible. */
  lemma AddGrows(d: Disk, p: Path, node: Node, touch: set<nat>)
    requires WfDisk(d) && Kept(p) && p != [] && p !in d.nsC && Bounded(node, d.nextIno)
    requires node.FileNode? ==> node.ino in touch
    ensures Grows(d, NsAdd(d, p, node), touch, {})
  {
    var e := NsAdd(d, p, node);
    AddOps(d, p, node);
    forall q | Fixed(q) && q in e.nsC ensures Waits(e, q) {
      if q != p { assert Waits(d, q); }
    }
    forall q | Leaf(q) ensures Coherent(e, q) && (Firm(d, q) ==> Firm(e, q)) {
      if q == p { OwnChange(d, e, NameOp(p, Some(node))); } else { OneMoreChange(d, e, NameOp(p, Some(node)), q); }
    }
    forall i | 0 <= i < d.nextIno && i !in touch ensures Same(d, e, i) {
      if q :| Kept(q) && q in e.nsC && e.nsC[q] == FileNode(i) {
        assert q != p;
        assert q in d.nsC && d.nsC[q] == FileNode(i);
      }
    }
  }

  lemma AddOps(d: Disk, p: Path, node: Node)
    requires WfDisk(d) && p != [] && p !in d.nsC && Bounded(node, d.nextIno)
    ensures OpsOk(NsAdd(d, p, node))
  {
    var e := NsAdd(d, p, node);
    forall dir, k | 0 <= k < |PendNs(e, dir)| ensures OpOk(e, dir, PendNs(e, dir)[k]) {
      if dir != Parent(p) || k < |PendNs(d, dir)| {
        assert PendNs(e, dir)[k] == PendNs(d, dir)[k];
        assert OpOk(d, dir, PendNs(d, dir)[k]);
      }
    }
  }

  /** A change confined to the contents of `tmp/`. */
  lemma TmpChange(d: Disk, e: Disk, op: NameOp, t: Name)
    requires WfDisk(d) && d.nextIno <= e.nextIno
    requires op.path == TmpPath(t) && (op.node.Some? ==> Bounded(op.node.value, e.nextIno))
    requires e.nsD == d.nsD && e.pendNs == d.pendNs[Tmp := PendNs(d, Tmp) + [op]]
    requires e.nsC == (if op.node.Some? then d.nsC[op.path := op.node.value] else d.nsC - {op.path})
    ensures NamesOk(e) && OpsOk(e) && (forall p :: Fixed(p) && p in e.nsC ==> Waits(e, p))
    ensures forall p :: Leaf(p) ==> Coherent(e, p) && (Firm(d, p) ==> Firm(e, p))
    ensures forall i :: Named(e, i) ==> Named(d, i)
  {
    assert !Kept(op.path) && Parent(op.path) == Tmp;
    forall p | Leaf(p) ensures Coherent(e, p) && (Firm(d, p) ==> Firm(e, p)) {
      assert op.path[0] != p[0];
      OneMoreChange(d, e, op, p);
    }
    forall dir, k | 0 <= k < |PendNs(e, dir)| ensures OpOk(e, dir, PendNs(e, dir)[k]) {
      if dir != Tmp || k < |PendNs(d, dir)| {
        assert OpOk(d, dir, PendNs(d, dir)[k]);
      }
    }
    forall q | Fixed(q) && q in e.nsC ensures Waits(e, q) { assert Waits(d, q); }
    forall i | Named(e, i) ensures Named(d, i) {
      var p :| Kept(p) && p in e.nsC && e.nsC[p] == FileNode(i);
      assert p in d.nsC;
    }
  }

  /** A fresh temporary file. */
  lemma CreateGrows(d: Disk, t: Name)
    requires WfDisk(d) && TmpPath(t) !in d.nsC
    ensures Grows(d, Create(d, TmpPath(t)), {}, {TmpPath(t)})
    ensures var e := Create(d, TmpPath(t)); !Named(e, d.nextIno) && Content(e, d.nextIno) == []
  {
    var e := Create(d, TmpPath(t));
    assert Parent(TmpPath(t)) == Tmp;
    TmpChange(d, e, NameOp(TmpPath(t), Some(FileNode(d.nextIno))), t);
    forall i | 0 <= i < d.nextIno ensures Same(d, e, i) { assert Dur(e, i) == Dur(d, i); }
    assert PendW(e, d.nextIno) == [];
    assert !Named(d, d.nextIno);
  }

  /** Removing a temporary name. */
  lemma UnlinkTmpGrows(d: Disk, t: Name)
    requires WfDisk(d)
    ensures Grows(d, NsDel(d, TmpPath(t)), {}, {})
  {
    assert Parent(TmpPath(t)) == Tmp;
    TmpChange(d, NsDel(d, TmpPath(t)), NameOp(TmpPath(t), None), t);
  }

  /** A file another program left under an object name, nothing of it synced. */
  function ForeignFile(d: Disk, p: Path, op: WriteOp): Disk {
    NsAdd(PendWrite(d.(nextIno := d.nextIno + 1), d.nextIno, op), p, FileNode(d.nextIno))
  }

  /** A whole new file under a kept name, none of it durable. */
  lemma ForeignGrows(d: Disk, p: Path, op: WriteOp)
    requires WfDisk(d) && Kept(p) && p != [] && p !in d.nsC
    ensures Grows(d, ForeignFile(d, p, op), {}, {})
  {
    var m := PendWrite(d.(nextIno := d.nextIno + 1), d.nextIno, op);
    var e := ForeignFile(d, p, op);
    assert e == NsAdd(m, p, FileNode(d.nextIno));
    MoreInodes(d, m);
    AddGrows(m, p, FileNode(d.nextIno), {d.nextIno});
    forall i | 0 <= i < d.nextIno ensures Same(d, m, i) { assert Content(m, i) == Content(d, i); }
    GrowsThrough(d, m, e);
  }

  /** What happens only to inodes that did not exist before does not matter. */
  lemma GrowsThrough(d: Disk, m: Disk, e: Disk)
    requires m.nsC == d.nsC && m.nsD == d.nsD && m.nextIno == d.nextIno + 1 && Grows(m, e, {d.nextIno}, {})
    requires forall i :: 0 <= i < d.nextIno ==> Same(d, m, i)
    requires forall p :: Leaf(p) && Firm(d, p) ==> Firm(m, p)
    ensures Grows(d, e, {}, {})
  {
    forall i | 0 <= i < d.nextIno ensures Same(d, e, i) { assert Same(d, m, i) && Same(m, e, i); }
  }

  lemma SameWritten(d: Disk, e: Disk, p: Path)
    requires e.nsC == d.nsC && e.nsD == d.nsD && e.pendNs == d.pendNs && Leaf(p)
    ensures Coherent(d, p) ==> Coherent(e, p)
    ensures Firm(d, p) ==> Firm(e, p)
  {
    forall k | 0 <= k <= |PendNs(d, Parent(p))| ensures Written(e, p, k) == Written(d, p, k) { }
  }

  lemma MoreInodes(d: Disk, m: Disk)
    requires WfDisk(d) && m.nsC == d.nsC && m.nsD == d.nsD && m.pendNs == d.pendNs && d.nextIno <= m.nextIno
    requires forall i :: i in m.dur || i in m.pendW ==> i < m.nextIno
    ensures WfDisk(m) && (forall i :: Named(m, i) ==> Named(d, i)) && (forall p :: Leaf(p) && Firm(d, p) ==> Firm(m, p))
  {
    forall dir, k | 0 <= k < |PendNs(m, dir)| ensures OpOk(m, dir, PendNs(m, dir)[k]) {
      assert OpOk(d, dir, PendNs(d, dir)[k]);
    }
    forall q | Fixed(q) && q in m.nsC ensures Waits(m, q) { assert Waits(d, q); }
    forall q | Leaf(q) ensures Coherent(m, q) && (Firm(d, q) ==> Firm(m, q)) { SameWritten(d, m, q); }
    forall i | Named(m, i) ensures Named(d, i) {
      var q :| Kept(q) && q in m.nsC && m.nsC[q] == FileNode(i);
      assert q in d.nsC;
    }
  }

  lemma SameNames(d: Disk, e: Disk)
    requires WfDisk(d) && e.nsC == d.nsC && e.nsD == d.nsD && e.pendNs == d.pendNs && e.nextIno == d.nextIno
    ensures NamesOk(e) && OpsOk(e) && (forall p :: Fixed(p) && p in e.nsC ==> Waits(e, p))
    ensures forall p :: Leaf(p) ==> Coherent(e, p) && (Firm(d, p) ==> Firm(e, p))
    ensures forall i :: Named(e, i) ==> Named(d, i)
  {
    forall p | Leaf(p) ensures Coherent(e, p) && (Firm(d, p) ==> Firm(e, p)) { SameWritten(d, e, p); }
    forall dir, k | 0 <= k < |PendNs(e, dir)| ensures OpOk(e, dir, PendNs(e, dir)[k]) {
      assert OpOk(d, dir, PendNs(d, dir)[k]);
    }
    forall p | Fixed(p) && p in e.nsC ensures Waits(e, p) { assert Waits(d, p); }
    forall i | Named(e, i) ensures Named(d, i) {
      var p :| Kept(p) && p in e.nsC && e.nsC[p] == FileNode(i);
      assert p in d.nsC;
    }
  }

  lemma WriteGrows(d: Disk, ino: nat, op: WriteOp)
    requires WfDisk(d) && ino < d.nextIno
    ensures Grows(d, PendWrite(d, ino, op), {ino}, {})
  {
    SameNames(d, PendWrite(d, ino, op));
  }

  lemma FlushFileGrows(d: Disk, ino: nat)
    requires WfDisk(d) && ino < d.nextIno
    ensures Grows(d, FlushFile(d, ino, None), {}, {})
    ensures PendW(FlushFile(d, ino, None), ino) == []
  {
    var e := FlushFile(d, ino, None);
    SameNames(d, e);
    forall i | 0 <= i < d.nextIno ensures Same(d, e, i) { FlushKeepsContent(d, ino, i); }
  }

  lemma WritebackFileGrows(d: Disk, ino: nat, k: nat)
    requires WfDisk(d) && ino < d.nextIno && k <= |PendW(d, ino)|
    ensures Grows(d, WritebackFile(d, ino, k), {}, {})
  {
    var e := WritebackFile(d, ino, k);
    SameNames(d, e);
    forall i | 0 <= i < d.nextIno ensures Same(d, e, i) { WritebackKeepsContent(d, ino, k, i); }
  }

  // ---- directory flushes ---------------------------------------------------

  /** Applying pending changes, seen at one fixed name. */
  lemma {:induction false} NamesApplied(d: Disk, dir: Path, ops: seq<NameOp>, p: Path)
    requires NamesOk(d) && Fixed(p) && forall k :: 0 <= k < |ops| ==> OpOk(d, dir, ops[k])
    ensures var r := ApplyNames(d.nsD, ops);
      && (p in r ==> p in d.nsC && r[p] == d.nsC[p])
      && (p in d.nsD ==> p in r)
      && (forall k :: 0 <= k < |ops| && ops[k].path == p ==> p in r)
      && (p in r ==> p in d.nsD || exists k :: 0 <= k < |ops| && ops[k].path == p)
    decreases |ops|
  {
    if ops != [] {
      var init, op := ops[..|ops| - 1], ops[|ops| - 1];
      NamesApplied(d, dir, init, p);
      assert OpOk(d, dir, op);
      assert op.path <= p ==> op.path[0] == p[0];
    }
  }

  lemma {:induction false} NamesBounded(d: Disk, dir: Path, ops: seq<NameOp>, p: Path)
    requires NamesOk(d) && forall k :: 0 <= k < |ops| ==> OpOk(d, dir, ops[k])
    ensures var r := ApplyNames(d.nsD, ops); p in r ==> Bounded(r[p], d.nextIno)
    decreases |ops|
  {
    if ops != [] {
      NamesBounded(d, dir, ops[..|ops| - 1], p);
      assert OpOk(d, dir, ops[|ops| - 1]);
    }
  }

  /** A directory after some of its changes reached the device. */
  ghost predicate Flushed(d: Disk, e: Disk, dir: Path, k: nat) {
    && k <= |PendNs(d, dir)|
    && e.nsD == ApplyNames(d.nsD, PendNs(d, dir)[..k])
    && PendNs(e, dir) == PendNs(d, dir)[k..]
    && (forall x :: x != dir ==> PendNs(e, x) == PendNs(d, x))
    && e.nsC == d.nsC && e.dur == d.dur && e.pendW == d.pendW && e.nextIno == d.nextIno
  }

  lemma FlushedNames(d: Disk, e: Disk, dir: Path, k: nat)
    requires WfDisk(d) && Flushed(d, e, dir, k)
    ensures NamesOk(e)
    ensures forall p :: Fixed(p) && p in d.nsD ==> p in e.nsD
    ensures forall p :: Fixed(p) && (exists j :: 0 <= j < k && PendNs(d, dir)[j].path == p) ==> p in e.nsD
  {
    var ops := PendNs(d, dir)[..k];
    assert forall j :: 0 <= j < k ==> OpOk(d, dir, ops[j]);
    forall p | Fixed(p)
      ensures p in e.nsD ==> p in d.nsC && e.nsD[p] == d.nsC[p]
      ensures p in d.nsD ==> p in e.nsD
      ensures (exists j :: 0 <= j < k && PendNs(d, dir)[j].path == p) ==> p in e.nsD
    {
      NamesApplied(d, dir, ops, p);
      if j :| 0 <= j < k && PendNs(d, dir)[j].path == p { assert ops[j].path == p; }
    }
    forall p | p in e.nsD ensures Bounded(e.nsD[p], e.nextIno) { NamesBounded(d, dir, ops, p); }
  }

  lemma FlushedOps(d: Disk, e: Disk, dir: Path, k: nat)
    requires WfDisk(d) && Flushed(d, e, dir, k)
    ensures OpsOk(e)
  {
    forall x, j | 0 <= j < |PendNs(e, x)| ensures OpOk(e, x, PendNs(e, x)[j]) {
      if x == dir {
        assert PendNs(e, x)[j] == PendNs(d, x)[k + j];
        assert OpOk(d, x, PendNs(d, x)[k + j]);
      } else {
        assert OpOk(d, x, PendNs(d, x)[j]);
      }
    }
  }

  lemma FlushedWaits(d: Disk, e: Disk, dir: Path, k: nat, p: Path)
    requires WfDisk(d) && Flushed(d, e, dir, k) && Fixed(p) && p in e.nsC
    ensures Waits(e, p)
    ensures p != [] && Parent(p) == dir && k == |PendNs(d, dir)| ==> p in e.nsD
  {
    FlushedNames(d, e, dir, k);
    assert Waits(d, p);
    if p !in d.nsD && Parent(p) == dir {
      var ops := PendNs(d, dir);
      var op := NameOp(p, Some(d.nsC[p]));
      var j :| 0 <= j < |ops| && ops[j] == op;
      if j >= k { assert ops[k..][j - k] == op; }
    }
  }

  /** At an object's name nothing changes but how much of the same story is written. */
  lemma FlushedHere(d: Disk, e: Disk, dir: Path, k: nat, p: Path, j: nat)
    requires Flushed(d, e, dir, k) && Leaf(p) && Parent(p) == dir && j <= |PendNs(e, dir)|
    ensures k + |PendNs(e, dir)| == |PendNs(d, dir)|
    ensures Written(e, p, j) == Written(d, p, k + j)
  {
    var was := PendNs(d, dir);
    ApplyNamesSplit(d.nsD, was[..k + j], k);
    assert was[..k + j][..k] == was[..k] && was[..k + j][k..] == PendNs(e, dir)[..j];
  }

  lemma FlushedThere(d: Disk, e: Disk, dir: Path, k: nat, p: Path)
    requires WfDisk(d) && Flushed(d, e, dir, k) && Leaf(p) && Parent(p) != dir
    ensures At(e.nsD, p) == At(d.nsD, p)
  {
    var ops := PendNs(d, dir)[..k];
    forall j | 0 <= j < |ops| ensures ops[j].path != p && (ops[j].node.None? ==> !(ops[j].path <= p)) {
      assert OpOk(d, dir, PendNs(d, dir)[j]);
      RemovalsBelow(d, dir, ops[j], p);
    }
    ApplyNamesElsewhere(d.nsD, ops, p);
  }

  lemma FlushedLeaf(d: Disk, e: Disk, dir: Path, k: nat, p: Path)
    requires WfDisk(d) && Flushed(d, e, dir, k) && Leaf(p)
    ensures Coherent(e, p) && (Firm(d, p) ==> Firm(e, p))
    ensures Parent(p) == dir && k == |PendNs(d, dir)| && p in d.nsC ==> Firm(e, p)
  {
    var now := PendNs(e, Parent(p));
    if Parent(p) == dir {
      FlushedHere(d, e, dir, k, p, 0);
      forall j | 0 <= j <= |now| ensures Written(e, p, j) == Written(d, p, k + j) { FlushedHere(d, e, dir, k, p, j); }
    } else {
      FlushedThere(d, e, dir, k, p);
      forall j | 0 <= j <= |now| ensures Written(e, p, j) == Written(d, p, j) { ApplyNamesAt(d.nsD, e.nsD, now[..j], p); }
    }
  }

  lemma FlushedGrows(d: Disk, e: Disk, dir: Path, k: nat)
    requires WfDisk(d) && Flushed(d, e, dir, k)
    ensures Grows(d, e, {}, {})
  {
    FlushedNames(d, e, dir, k);
    FlushedOps(d, e, dir, k);
    forall p | Fixed(p) && p in e.nsC ensures Waits(e, p) { FlushedWaits(d, e, dir, k, p); }
    forall p | Leaf(p) ensures Coherent(e, p) && (Firm(d, p) ==> Firm(e, p)) { FlushedLeaf(d, e, dir, k, p); }
    forall i | 0 <= i < d.nextIno ensures Same(d, e, i) {
      assert Named(e, i) ==> Named(d, i);
    }
  }

  lemma WritebackDirGrows(d: Disk, dir: Path, k: nat)
    requires WfDisk(d) && k <= |PendNs(d, dir)|
    ensures Grows(d, WritebackDir(d, dir, k), {}, {})
  {
    FlushedGrows(d, WritebackDir(d, dir, k), dir, k);
  }

  /** Syncing a directory makes every entry of it durable. */
  lemma FlushDirGrows(d: Disk, dir: Path)
    requires WfDisk(d)
    ensures Grows(d, FlushDir(d, dir, None), {}, {})
    ensures forall p :: Fixed(p) && p != [] && Parent(p) == dir && p in d.nsC ==> p in FlushDir(d, dir, None).nsD
    ensures forall p :: Leaf(p) && Parent(p) == dir && p in d.nsC ==> Firm(FlushDir(d, dir, None), p)
  {
    var e := FlushDir(d, dir, None);
    var k := |PendNs(d, dir)|;
    assert PendNs(d, dir)[..k] == PendNs(d, dir) && PendNs(d, dir)[k..] == [];
    assert Flushed(d, e, dir, k);
    FlushedGrows(d, e, dir, k);
    forall p | Fixed(p) && p != [] && Parent(p) == dir && p in d.nsC ensures p in e.nsD {
      FlushedWaits(d, e, dir, k, p);
    }
    forall p | Leaf(p) && Parent(p) == dir && p in d.nsC ensures Firm(e, p) { FlushedLeaf(d, e, dir, k, p); }
  }

  lemma {:induction false} FlushDirsGrow(d: Disk, dirs: seq<Path>)
    requires WfDisk(d)
    ensures var e := FlushDirs(d, dirs);
      && Grows(d, e, {}, {}) && e.nsC == d.nsC && e.pendW == d.pendW && e.nextIno == d.nextIno
      && (forall p :: Fixed(p) && p != [] && p in d.nsC && Parent(p) in dirs ==> p in e.nsD)
      && (forall p :: Leaf(p) && p in d.nsC && Parent(p) in dirs ==> Firm(e, p))
    decreases |dirs|
  {
    if dirs == [] {
      GrowsSelf(d);
    } else {
      var init, last := dirs[..|dirs| - 1], dirs[|dirs| - 1];
      FlushDirsGrow(d, init);
      FlushDirGrows(FlushDirs(d, init), last);
      GrowsThen(d, FlushDirs(d, init), FlushDirs(d, dirs));
    }
  }

  lemma {:induction false} FlushFilesGrow(d: Disk, inos: seq<nat>)
    requires WfDisk(d) && forall i :: i in inos ==> i < d.nextIno
    ensures var e := FlushFiles(d, inos); Grows(d, e, {}, {}) && e.nsD == d.nsD && e.nextIno == d.nextIno
    decreases |inos|
  {
    if inos == [] {
      GrowsSelf(d);
    } else {
      var init, last := inos[..|inos| - 1], inos[|inos| - 1];
      assert last in inos && forall i :: i in init ==> i in inos;
      FlushFilesGrow(d, init);
      FlushFileGrows(FlushFiles(d, init), last);
      GrowsThen(d, FlushFiles(d, init), FlushFiles(d, inos));
    }
  }

  /** A filesystem-wide sync makes every visible name durable. */
  lemma SyncFsGrows(d: Disk, dirs: seq<Path>, inos: seq<nat>)
    requires WfDisk(d) && CoversPending(d, dirs, inos) && forall i :: i in inos ==> i < d.nextIno
    ensures Grows(d, SyncFs(d, dirs, inos), {}, {})
    ensures forall p :: Fixed(p) && p in d.nsC ==> p in SyncFs(d, dirs, inos).nsD
    ensures forall p :: Leaf(p) && p in d.nsC ==> Firm(SyncFs(d, dirs, inos), p)
  {
    var m := FlushDirs(d, dirs);
    FlushDirsGrow(d, dirs);
    FlushFilesGrow(m, inos);
    GrowsThen(d, m, SyncFs(d, dirs, inos));
    forall p | Fixed(p) && p in d.nsC ensures p in m.nsD {
      assert Waits(d, p);
      if p !in d.nsD {
        assert Parent(p) in d.pendNs;
      }
    }
    forall p | Leaf(p) && p in d.nsC ensures Firm(m, p) {
      if Parent(p) !in d.pendNs { NothingPending(d, p); }
    }
  }

  // ---- durable objects -----------------------------------------------------

  /** Each directory on the way to `p` is visible, and durable unless its parent
      is one of the directories still owed a barrier. */
  ghost predicate DirsOk(d: Disk, owed: set<Path>, p: Path) {
    forall k :: 0 < k <= |p| ==>
      && p[..k] in d.nsC && d.nsC[p[..k]] == Dir
      && (p[..k] in d.nsD || p[..k - 1] in owed)
  }

  /** The object's bytes are on the device, and nothing more will be written to them. */
  ghost predicate BytesOk(h: Bytes -> Oid, d: Disk, i: nat, id: Oid) {
    i < d.nextIno && PendW(d, i) == [] && h(Dur(d, i)) == id
  }

  /** The object is published: durable, up to the barriers still owed. */
  ghost predicate ObjectOk(h: Bytes -> Oid, d: Disk, owed: set<Path>, id: Oid) {
    && DirsOk(d, owed, ShardB(id))
    && ObjectPath(id) in d.nsC && d.nsC[ObjectPath(id)].FileNode?
    && (Firm(d, ObjectPath(id)) || ShardB(id) in owed)
    && BytesOk(h, d, d.nsC[ObjectPath(id)].ino, id)
  }

  /** The object survives any power cut. */
  ghost predicate Durable(h: Bytes -> Oid, d: Disk, id: Oid) { ObjectOk(h, d, {}, id) }

  /** The directories whose entries the store proves. */
  predicate Solid(p: Path) { |p| <= 3 && (p == [] || p[0] == "objects" || p == Tmp) }

  lemma FixedPrefix(p: Path, k: nat)
    requires Solid(p) && k <= |p|
    ensures Fixed(p[..k])
  {
  }

  lemma DirsStay(d: Disk, e: Disk, touch: set<nat>, made: set<Path>, owed: set<Path>, p: Path)
    requires Grows(d, e, touch, made) && Solid(p) && DirsOk(d, owed, p)
    ensures DirsOk(e, owed, p)
  {
    forall k | 0 < k <= |p| ensures
      p[..k] in e.nsC && e.nsC[p[..k]] == Dir && (p[..k] in e.nsD || p[..k - 1] in owed)
    {
      FixedPrefix(p, k);
    }
  }

  lemma ObjectStays(h: Bytes -> Oid, d: Disk, e: Disk, touch: set<nat>, made: set<Path>, owed: set<Path>, id: Oid)
    requires Grows(d, e, touch, made) && ObjectOk(h, d, owed, id)
    requires forall i :: i in touch ==> !Named(d, i)
    ensures ObjectOk(h, e, owed, id)
  {
    DirsStay(d, e, touch, made, owed, ShardB(id));
    var i := d.nsC[ObjectPath(id)].ino;
    assert Named(d, i);
    assert Same(d, e, i);
  }

  /** A directory barrier discharges what was owed to that directory. */
  lemma SyncedDirs(d: Disk, owed: set<Path>, dir: Path, p: Path)
    requires WfDisk(d) && Solid(p) && DirsOk(d, owed, p)
    ensures DirsOk(FlushDir(d, dir, None), owed - {dir}, p)
  {
    FlushDirGrows(d, dir);
    var e := FlushDir(d, dir, None);
    forall k | 0 < k <= |p| ensures
      p[..k] in e.nsC && e.nsC[p[..k]] == Dir && (p[..k] in e.nsD || p[..k - 1] in owed - {dir})
    {
      FixedPrefix(p, k);
      assert Parent(p[..k]) == p[..k - 1];
    }
  }

  lemma SyncedObject(h: Bytes -> Oid, d: Disk, owed: set<Path>, dir: Path, id: Oid)
    requires WfDisk(d) && ObjectOk(h, d, owed, id)
    ensures ObjectOk(h, FlushDir(d, dir, None), owed - {dir}, id)
  {
    FlushDirGrows(d, dir);
    SyncedDirs(d, owed, dir, ShardB(id));
    ObjectStays(h, d, FlushDir(d, dir, None), {}, {}, owed, id);
    assert Parent(ObjectPath(id)) == ShardB(id) && Leaf(ObjectPath(id));
  }

  /** A filesystem-wide barrier discharges everything. */
  lemma FsSyncedDirs(d: Disk, owed: set<Path>, dirs: seq<Path>, inos: seq<nat>, p: Path)
    requires WfDisk(d) && CoversPending(d, dirs, inos) && (forall i :: i in inos ==> i < d.nextIno)
    requires Solid(p) && DirsOk(d, owed, p)
    ensures DirsOk(SyncFs(d, dirs, inos), {}, p)
  {
    SyncFsGrows(d, dirs, inos);
    forall k | 0 < k <= |p| ensures
      var e := SyncFs(d, dirs, inos);
      p[..k] in e.nsC && e.nsC[p[..k]] == Dir && p[..k] in e.nsD
    {
      FixedPrefix(p, k);
    }
  }

  lemma FsSyncedObject(h: Bytes -> Oid, d: Disk, owed: set<Path>, dirs: seq<Path>, inos: seq<nat>, id: Oid)
    requires WfDisk(d) && CoversPending(d, dirs, inos) && (forall i :: i in inos ==> i < d.nextIno)
    requires ObjectOk(h, d, owed, id)
    ensures Durable(h, SyncFs(d, dirs, inos), id)
  {
    SyncFsGrows(d, dirs, inos);
    FsSyncedDirs(d, owed, dirs, inos, ShardB(id));
    ObjectStays(h, d, SyncFs(d, dirs, inos), {}, {}, owed, id);
    assert Leaf(ObjectPath(id));
  }

  // ---- the cut -------------------------------------------------------------

  lemma CutWf(d: Disk)
    requires WfDisk(d)
    ensures WfDisk(Cut(d))
  {
    assert Reachable(d.nsD, Root);
  }

  lemma DurableReachable(d: Disk, p: Path)
    requires WfDisk(d) && Solid(p) && DirsOk(d, {}, p)
    ensures Reachable(d.nsD, p) && d.nsD[p] == Dir
    ensures DirsOk(Cut(d), {}, p)
  {
    assert p[..|p|] == p && p[..0] == [];
    forall k | 0 <= k <= |p| ensures p[..k] in d.nsD && d.nsD[p[..k]] == Dir {
      FixedPrefix(p, k);
      if k == 0 {
        assert p[..k] == Root;
      } else {
        var owed: set<Path> := {};
        assert p[..k - 1] !in owed;
        assert p[..k] in d.nsC && p[..k] in d.nsD;
      }
    }
    forall k | 0 <= k <= |p| ensures Reachable(d.nsD, p[..k]) {
      assert forall j :: 0 <= j < k ==> p[..k][..j] == p[..j];
    }
  }

  /** After the cut the object is still there, reachable, with the same bytes. */
  lemma DurableSurvivesCut(h: Bytes -> Oid, d: Disk, id: Oid)
    requires WfDisk(d) && Durable(h, d, id)
    ensures Durable(h, Cut(d), id)
    ensures var p := ObjectPath(id);
      && Reachable(Cut(d).nsD, p) && Cut(d).nsD[p].FileNode?
      && Dur(Cut(d), Cut(d).nsD[p].ino) == Content(d, d.nsC[p].ino)
  {
    var p := ObjectPath(id);
    FirmIsDurable(d, p);
    DurableReachable(d, ShardB(id));
    assert forall k :: 0 <= k < 4 ==> p[..k] == ShardB(id)[..k];
    assert ShardB(id)[..3] == ShardB(id);
    assert Reachable(d.nsD, p);
    forall k | 0 <= k < |p| ensures p[..k] in Cut(d).nsD && Cut(d).nsD[p[..k]] == Dir {
      assert p[..k] == ShardB(id)[..k];
      assert forall j :: 0 <= j < k ==> p[..k][..j] == p[..j];
      assert Reachable(d.nsD, p[..k]);
    }
  }

  // ---- a sweep -------------------------------------------------------------

  /** Unlinking one object leaves a sound disk. */
  lemma UnlinkWf(d: Disk, id: Oid)
    requires WfDisk(d) && ObjectPath(id) in d.nsC
    ensures WfDisk(NsDel(d, ObjectPath(id)))
    ensures forall i :: Named(NsDel(d, ObjectPath(id)), i) ==> Named(d, i)
  {
    var p := ObjectPath(id);
    var e := NsDel(d, p);
    assert Parent(p) == ShardB(id) && Leaf(p);
    forall dir, k | 0 <= k < |PendNs(e, dir)| ensures OpOk(e, dir, PendNs(e, dir)[k]) {
      if dir != Parent(p) || k < |PendNs(d, dir)| { assert OpOk(d, dir, PendNs(d, dir)[k]); }
    }
    forall q | Fixed(q) && q in e.nsC ensures Waits(e, q) { assert Waits(d, q); }
    forall q | Leaf(q) ensures Coherent(e, q) { UnlinkLeaf(d, p, q); }
    forall i | Named(e, i) ensures Named(d, i) {
      var q :| Kept(q) && q in e.nsC && e.nsC[q] == FileNode(i);
      assert q in d.nsC;
    }
  }

  lemma UnlinkLeaf(d: Disk, p: Path, q: Path)
    requires Leaf(p) && Leaf(q) && Coherent(d, q)
    ensures Coherent(NsDel(d, p), q)
    ensures q != p && Firm(d, q) ==> Firm(NsDel(d, p), q)
  {
    if q == p { OwnChange(d, NsDel(d, p), NameOp(p, None)); } else { OneMoreChange(d, NsDel(d, p), NameOp(p, None), q); }
  }

  /** Directories stay as they are, and so does every other object. */
  lemma UnlinkDirs(d: Disk, id: Oid, owed: set<Path>, p: Path)
    requires Solid(p) && DirsOk(d, owed, p)
    ensures DirsOk(NsDel(d, ObjectPath(id)), owed, p)
  {
  }

  lemma UnlinkObject(h: Bytes -> Oid, d: Disk, id: Oid, owed: set<Path>, other: Oid)
    requires WfDisk(d) && ObjectOk(h, d, owed, other) && other != id
    ensures ObjectOk(h, NsDel(d, ObjectPath(id)), owed, other)
  {
    assert ObjectPath(id)[3] != ObjectPath(other)[3];
    UnlinkDirs(d, id, owed, ShardB(other));
    UnlinkLeaf(d, ObjectPath(id), ObjectPath(other));
  }
}
