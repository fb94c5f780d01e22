/** The adversarial storage device: what is durable, what is only in the page
    cache, and what a power cut leaves. */
module Device {
  import opened Names

  type Byte = b: nat | b < 256

  type Bytes = seq<Byte>

  datatype Node = Dir | FileNode(ino: nat)

  datatype WriteOp = WriteAt(off: nat, data: Bytes) | SetSize(size: nat)

  /** A pending directory change; `None` removes the name. */
  datatype NameOp = NameOp(path: Path, node: Option<Node>)

  datatype Disk = Disk(
    dur: map<nat, Bytes>, pendW: map<nat, seq<WriteOp>>,
    nsD: map<Path, Node>, nsC: map<Path, Node>, pendNs: map<Path, seq<NameOp>>, nextIno: nat)

  const Root: Path := []

  function Parent(p: Path): Path
    requires p != []
  {
    p[..|p| - 1]
  }

  function PendNs(d: Disk, dir: Path): seq<NameOp> { if dir in d.pendNs then d.pendNs[dir] else [] }

  function PendW(d: Disk, ino: nat): seq<WriteOp> { if ino in d.pendW then d.pendW[ino] else [] }

  function Dur(d: Disk, ino: nat): Bytes { if ino in d.dur then d.dur[ino] else [] }

  // ---- effects -------------------------------------------------------------

  function Padded(buf: Bytes, size: nat): (r: Bytes)
    ensures |r| == if size < |buf| then |buf| else size
  {
    if size <= |buf| then buf else buf + seq(size - |buf|, _ => 0)
  }

  function ApplyWrite(buf: Bytes, op: WriteOp): Bytes {
    match op
    case SetSize(size) => if size < |buf| then buf[..size] else Padded(buf, size)
    case WriteAt(off, data) =>
      var b := Padded(buf, off);
      b[..off] + data + (if off + |data| <= |b| then b[off + |data|..] else [])
  }

  function ApplyWrites(buf: Bytes, ops: seq<WriteOp>): Bytes
    decreases |ops|
  {
    if ops == [] then buf else ApplyWrite(ApplyWrites(buf, ops[..|ops| - 1]), ops[|ops| - 1])
  }

  function ApplyName(ns: map<Path, Node>, op: NameOp): map<Path, Node> {
    if op.node.Some? then ns[op.path := op.node.value]
    else map q | q in ns && !(op.path <= q) :: ns[q]
  }

  function ApplyNames(ns: map<Path, Node>, ops: seq<NameOp>): map<Path, Node>
    decreases |ops|
  {
    if ops == [] then ns else ApplyName(ApplyNames(ns, ops[..|ops| - 1]), ops[|ops| - 1])
  }

  /** What a reader sees of an inode before any cut. */
  function Content(d: Disk, ino: nat): Bytes { ApplyWrites(Dur(d, ino), PendW(d, ino)) }

  // ---- operations ----------------------------------------------------------

  function NsAdd(d: Disk, p: Path, node: Node): Disk {
    if p == Root then d.(nsC := d.nsC[p := node], nsD := d.nsD[p := node])
    else d.(nsC := d.nsC[p := node], pendNs := d.pendNs[Parent(p) := PendNs(d, Parent(p)) + [NameOp(p, Some(node))]])
  }

  function NsDel(d: Disk, p: Path): Disk
    requires p != Root
  {
    d.(nsC := d.nsC - {p}, pendNs := d.pendNs[Parent(p) := PendNs(d, Parent(p)) + [NameOp(p, None)]])
  }

  function Create(d: Disk, p: Path): Disk {
    NsAdd(d.(nextIno := d.nextIno + 1,
             dur := if d.nextIno in d.dur then d.dur else d.dur[d.nextIno := []]), p, FileNode(d.nextIno))
  }

  function Link(d: Disk, p: Path, q: Path): Disk { if p in d.nsC then NsAdd(d, q, d.nsC[p]) else d }

  function PendWrite(d: Disk, ino: nat, op: WriteOp): Disk { d.(pendW := d.pendW[ino := PendW(d, ino) + [op]]) }

  /** `flush_dir`: the first `keep` changes reach the device, the others are forgotten. */
  function FlushDir(d: Disk, dir: Path, keep: Option<nat>): Disk {
    var ops := PendNs(d, dir);
    var kept := if keep.Some? && keep.value < |ops| then ops[..keep.value] else ops;
    d.(pendNs := d.pendNs - {dir}, nsD := ApplyNames(d.nsD, kept))
  }

  /** `flush_file`, likewise. */
  function FlushFile(d: Disk, ino: nat, keep: Option<nat>): Disk {
    var ops := PendW(d, ino);
    var kept := if keep.Some? && keep.value < |ops| then ops[..keep.value] else ops;
    d.(pendW := d.pendW - {ino}, dur := Stored(d.dur, ino, Dur(d, ino), kept))
  }

  /** Background writeback: a prefix reaches the device, the rest stays pending. */
  function WritebackDir(d: Disk, dir: Path, k: nat): Disk
    requires k <= |PendNs(d, dir)|
  {
    d.(pendNs := d.pendNs[dir := PendNs(d, dir)[k..]], nsD := ApplyNames(d.nsD, PendNs(d, dir)[..k]))
  }

  function WritebackFile(d: Disk, ino: nat, k: nat): Disk
    requires k <= |PendW(d, ino)|
  {
    d.(pendW := d.pendW[ino := PendW(d, ino)[k..]], dur := d.dur[ino := ApplyWrites(Dur(d, ino), PendW(d, ino)[..k])])
  }

  function FlushDirs(d: Disk, dirs: seq<Path>): Disk
    decreases |dirs|
  {
    if dirs == [] then d else FlushDir(FlushDirs(d, dirs[..|dirs| - 1]), dirs[|dirs| - 1], None)
  }

  function FlushFiles(d: Disk, inos: seq<nat>): Disk
    decreases |inos|
  {
    if inos == [] then d else FlushFile(FlushFiles(d, inos[..|inos| - 1]), inos[|inos| - 1], None)
  }

  /** `syncfs`, flushing in some order that misses nothing. */
  function SyncFs(d: Disk, dirs: seq<Path>, inos: seq<nat>): Disk { FlushFiles(FlushDirs(d, dirs), inos) }

  ghost predicate CoversPending(d: Disk, dirs: seq<Path>, inos: seq<nat>) {
    (forall x :: x in d.pendNs ==> x in dirs) && (forall x :: x in d.pendW ==> x in inos)
  }

  // ---- the cut -------------------------------------------------------------

  /** A name survives only through directories that survive. */
  ghost predicate Reachable(ns: map<Path, Node>, p: Path) {
    p in ns && forall k :: 0 <= k < |p| ==> p[..k] in ns && ns[p[..k]] == Dir
  }

  /** A power cut: everything pending is gone, and so is every unreachable name. */
  ghost function Cut(d: Disk): Disk {
    var left := map p | p in d.nsD && Reachable(d.nsD, p) :: d.nsD[p];
    d.(pendW := map[], pendNs := map[], nsD := left, nsC := left)
  }

  // ---- appends and prefixes ------------------------------------------------

  lemma {:induction false} ApplyWritesSplit(buf: Bytes, ops: seq<WriteOp>, k: nat)
    requires k <= |ops|
    ensures ApplyWrites(ApplyWrites(buf, ops[..k]), ops[k..]) == ApplyWrites(buf, ops)
    decreases |ops|
  {
    if k == |ops| {
      assert ops[..k] == ops && ops[k..] == [];
    } else {
      var init := ops[..|ops| - 1];
      ApplyWritesSplit(buf, init, k);
      assert init[..k] == ops[..k] && ops[k..][..|ops| - k - 1] == init[k..];
    }
  }

  /** The durable bytes after some writes; no write leaves the map alone. */
  function Stored(dur: map<nat, Bytes>, ino: nat, was: Bytes, ops: seq<WriteOp>): map<nat, Bytes> {
    if ops == [] then dur else dur[ino := ApplyWrites(was, ops)]
  }

  lemma StoreOneMore(dur: map<nat, Bytes>, ino: nat, was: Bytes, ops: seq<WriteOp>, k: nat)
    requires k < |ops| && was == if ino in dur then dur[ino] else []
    ensures var m := Stored(dur, ino, was, ops[..k]);
      Stored(dur, ino, was, ops[..k + 1]) == m[ino := ApplyWrite(if ino in m then m[ino] else [], ops[k])]
  {
    var next := ops[..k + 1];
    assert next[..|next| - 1] == ops[..k] && next[|next| - 1] == ops[k];
    var m := Stored(dur, ino, was, ops[..k]);
    var b := if ino in m then m[ino] else [];
    assert b == ApplyWrites(was, ops[..k]);
    assert Stored(dur, ino, was, next) == dur[ino := ApplyWrites(was, next)];
    assert m[ino := ApplyWrite(b, ops[k])] == dur[ino := ApplyWrite(b, ops[k])];
  }

  /** Writing at the end of a file appends. */
  lemma AppendWrite(d: Disk, ino: nat, end: nat, data: Bytes)
    requires end == |Content(d, ino)|
    ensures Content(PendWrite(d, ino, WriteAt(end, data)), ino) == Content(d, ino) + data
  {
    var op := WriteAt(end, data);
    var ops := PendW(d, ino) + [op];
    assert ops[..|ops| - 1] == PendW(d, ino);
    var b := Content(d, ino);
    assert b[..|b|] == b && b + data + [] == b + data;
  }

  /** A write puts its bytes at its offset, fills a gap with zeros, and leaves the rest. */
  lemma WriteBytes(buf: Bytes, off: nat, data: Bytes)
    ensures var r := ApplyWrite(buf, WriteAt(off, data));
      && |r| == (if off + |data| < |buf| then |buf| else off + |data|)
      && forall i :: 0 <= i < |r| ==>
           r[i] == if off <= i < off + |data| then data[i - off] else if i < |buf| then buf[i] else 0
  {
  }

  /** Setting the size cuts the end off, or appends zeros. */
  lemma SizeBytes(buf: Bytes, size: nat)
    ensures var r := ApplyWrite(buf, SetSize(size));
      |r| == size && forall i :: 0 <= i < size ==> r[i] == if i < |buf| then buf[i] else 0
  {
  }

  /** Flushing or writing back bytes never changes what a reader sees. */
  lemma FlushKeepsContent(d: Disk, ino: nat, i: nat)
    ensures Content(FlushFile(d, ino, None), i) == Content(d, i)
    ensures PendW(FlushFile(d, ino, None), i) == if i == ino then [] else PendW(d, i)
  {
  }

  lemma WritebackKeepsContent(d: Disk, ino: nat, k: nat, i: nat)
    requires k <= |PendW(d, ino)|
    ensures Content(WritebackFile(d, ino, k), i) == Content(d, i)
    ensures PendW(WritebackFile(d, ino, k), i) == if i == ino then PendW(d, i)[k..] else PendW(d, i)
  {
    ApplyWritesSplit(Dur(d, ino), PendW(d, ino), k);
  }

  /** A torn flush followed by the cut is a writeback followed by the cut. */
  lemma TornFlushIsWriteback(d: Disk, dir: Path, k: nat)
    requires k <= |PendNs(d, dir)|
    ensures Cut(FlushDir(d, dir, Some(k))) == Cut(WritebackDir(d, dir, k))
  {
    assert k == |PendNs(d, dir)| ==> PendNs(d, dir)[..k] == PendNs(d, dir);
  }

  // ---- the device as an object ---------------------------------------------

  class DeviceModel {
    var dur: map<nat, Bytes>
    var pendW: map<nat, seq<WriteOp>>
    var nsD: map<Path, Node>
    var nsC: map<Path, Node>
    var pendNs: map<Path, seq<NameOp>>
    var nextIno: nat

    function State(): Disk
      reads this
    {
      Disk(dur, pendW, nsD, nsC, pendNs, nextIno)
    }

    /** A baseline image: everything in it is durable and current. */
    constructor (files: map<nat, Bytes>, names: map<Path, Node>, next: nat)
      ensures State() == Disk(files, map[], names[Root := Dir], names[Root := Dir], map[], next)
    {
      dur, pendW, nsD, nsC, pendNs, nextIno := files, map[], names[Root := Dir], names[Root := Dir], map[], next;
    }

    method Add(p: Path, node: Node)
      modifies this
      ensures State() == NsAdd(old(State()), p, node)
    {
      nsC := nsC[p := node];
      if p == Root {
        nsD := nsD[p := node];
        return;
      }
      pendNs := pendNs[Parent(p) := PendNs(State(), Parent(p)) + [NameOp(p, Some(node))]];
    }

    method Remove(p: Path)
      requires p != Root
      modifies this
      ensures State() == NsDel(old(State()), p)
    {
      nsC := nsC - {p};
      pendNs := pendNs[Parent(p) := PendNs(State(), Parent(p)) + [NameOp(p, None)]];
    }

    method FlushDirectory(dir: Path, keep: Option<nat>)
      modifies this`pendNs, this`nsD
      ensures State() == FlushDir(old(State()), dir, keep)
    {
      var ops := PendNs(State(), dir);
      pendNs := pendNs - {dir};
      if keep.Some? && keep.value < |ops| {
        ops := ops[..keep.value];
      }
      var k := 0;
      while k < |ops|
        invariant 0 <= k <= |ops|
        invariant pendNs == old(pendNs) - {dir} && nsD == ApplyNames(old(nsD), ops[..k])
      {
        assert ops[..k + 1][..k] == ops[..k];
        nsD := ApplyName(nsD, ops[k]);
        k := k + 1;
      }
      assert ops[..k] == ops;
    }

    method FlushInode(ino: nat, keep: Option<nat>)
      modifies this`pendW, this`dur
      ensures State() == FlushFile(old(State()), ino, keep)
    {
      var ops := PendW(State(), ino);
      pendW := pendW - {ino};
      if keep.Some? && keep.value < |ops| {
        ops := ops[..keep.value];
      }
      Store(ino, ops);
    }

    method Store(ino: nat, ops: seq<WriteOp>)
      modifies this`dur
      ensures dur == Stored(old(dur), ino, if ino in old(dur) then old(dur)[ino] else [], ops)
    {
      ghost var was := if ino in dur then dur[ino] else [];
      var k := 0;
      while k < |ops|
        invariant 0 <= k <= |ops|
        invariant dur == Stored(old(dur), ino, was, ops[..k])
      {
        StoreOneMore(old(dur), ino, was, ops, k);
        var buf := if ino in dur then dur[ino] else [];
        dur := dur[ino := ApplyWrite(buf, ops[k])];
        k := k + 1;
      }
      assert ops[..k] == ops;
    }

    method OpCreate(p: Path)
      modifies this
      ensures State() == Create(old(State()), p)
    {
      var ino := nextIno;
      nextIno := nextIno + 1;
      if ino !in dur {
        dur := dur[ino := []];
      }
      Add(p, FileNode(ino));
    }

    method OpLink(p: Path, q: Path)
      modifies this
      ensures State() == Link(old(State()), p, q)
    {
      if p in nsC {
        Add(q, nsC[p]);
      }
    }

    /** A write to a path with no visible node first gives it a fresh inode. */
    method OpWrite(p: Path, off: nat, data: Bytes)
      requires p in nsC ==> nsC[p].FileNode?
      modifies this
      ensures var d := old(State());
        State() == if p in d.nsC then PendWrite(d, d.nsC[p].ino, WriteAt(off, data))
                   else PendWrite(NsAdd(d.(nextIno := d.nextIno + 1), p, FileNode(d.nextIno)), d.nextIno, WriteAt(off, data))
    {
      var ino;
      if p !in nsC {
        ino := nextIno;
        nextIno := nextIno + 1;
        Add(p, FileNode(ino));
      } else {
        ino := nsC[p].ino;
      }
      pendW := pendW[ino := PendW(State(), ino) + [WriteAt(off, data)]];
    }

    /** A synchronous write goes straight to the durable bytes. */
    method OpWriteSync(p: Path, off: nat, data: Bytes)
      requires p in nsC && nsC[p].FileNode?
      modifies this
      ensures var d := old(State()); var i := d.nsC[p].ino;
        State() == d.(dur := d.dur[i := ApplyWrite(Dur(d, i), WriteAt(off, data))])
    {
      var ino := nsC[p].ino;
      dur := dur[ino := ApplyWrite(Dur(State(), ino), WriteAt(off, data))];
    }

    method OpTruncate(p: Path, size: nat)
      modifies this
      ensures var d := old(State());
        State() == if p in d.nsC && d.nsC[p].FileNode? then PendWrite(d, d.nsC[p].ino, SetSize(size)) else d
    {
      if p in nsC && nsC[p].FileNode? {
        var ino := nsC[p].ino;
        pendW := pendW[ino := PendW(State(), ino) + [SetSize(size)]];
      }
    }

    method OpFsync(p: Path)
      modifies this
      ensures var d := old(State());
        State() == if p !in d.nsC && p !in d.nsD then d
                   else var node := if p in d.nsC then d.nsC[p] else d.nsD[p];
                     if node == Dir then FlushDir(d, p, None) else FlushFile(d, node.ino, None)
    {
      if p !in nsC && p !in nsD {
        return;
      }
      var node := if p in nsC then nsC[p] else nsD[p];
      if node == Dir {
        FlushDirectory(p, None);
      } else {
        FlushInode(node.ino, None);
      }
    }

    /** Everything pending reaches the device, whatever the order. */
    method OpSyncFs() returns (ghost dirs: seq<Path>, ghost inos: seq<nat>)
      modifies this
      ensures CoversPending(old(State()), dirs, inos)
      ensures State() == SyncFs(old(State()), dirs, inos)
      ensures pendNs == map[] && pendW == map[]
    {
      dirs, inos := [], [];
      while pendNs != map[]
        invariant State() == FlushDirs(old(State()), dirs)
        invariant pendW == old(pendW)
        invariant forall x :: x in old(pendNs) ==> x in dirs || x in pendNs
        decreases pendNs.Keys
      {
        var dir :| dir in pendNs;
        FlushDirectory(dir, None);
        assert (dirs + [dir])[..|dirs|] == dirs;
        dirs := dirs + [dir];
      }
      while pendW != map[]
        invariant State() == FlushFiles(FlushDirs(old(State()), dirs), inos)
        invariant pendNs == map[]
        invariant forall x :: x in old(pendW) ==> x in inos || x in pendW
        decreases pendW.Keys
      {
        var ino :| ino in pendW;
        FlushInode(ino, None);
        assert (inos + [ino])[..|inos|] == inos;
        inos := inos + [ino];
      }
    }
  }
}
