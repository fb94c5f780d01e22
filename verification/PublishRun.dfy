/** Every run of the publication machine keeps what it acknowledged. */
module PublishRun {
  import opened Names
  import opened Device
  import opened ObjectArea
  import opened Publish

  // ---- owing less or more --------------------------------------------------

  lemma DirsMore(d: Disk, owed: set<Path>, more: set<Path>, p: Path)
    requires DirsOk(d, owed, p) && owed <= more
    ensures DirsOk(d, more, p)
  {
  }

  lemma PromisesMore(h: Bytes -> Oid, d: Disk, st: Store, bt: Batch, owed: set<Path>, more: set<Path>)
    requires PromisesOk(h, d, st, bt, owed) && owed <= more
    ensures PromisesOk(h, d, st, bt, more)
  {
    forall p | p in bt.proofs ensures DirsOk(d, more, p) { DirsMore(d, owed, more, p); }
    forall id | id in bt.joined ensures ObjectOk(h, d, more, id) { DirsMore(d, owed, more, ShardB(id)); }
  }

  lemma ExtendDirs(d: Disk, owed: set<Path>, p: Path)
    requires p != [] && DirsOk(d, owed, Parent(p)) && p in d.nsC && d.nsC[p] == Dir
    requires p in d.nsD || Parent(p) in owed
    ensures DirsOk(d, owed, p)
  {
    assert p[..|p|] == p;
    assert forall k :: 0 <= k < |p| ==> p[..k] == Parent(p)[..k];
  }

  /** With no barrier owed above the leaf directories, a shard path is durable. */
  lemma NothingOwed(d: Disk, owed: set<Path>, p: Path)
    requires DirsOk(d, owed, p) && |p| <= 3 && forall x :: x in owed ==> |x| == 3
    ensures DirsOk(d, {}, p)
  {
    forall k | 0 < k <= |p| ensures p[..k] in d.nsC && d.nsC[p[..k]] == Dir && p[..k] in d.nsD {
      assert p[..k - 1] !in owed;
    }
  }

  lemma ShardParents(id: Oid)
    ensures Parent(ShardA(id)) == Objects && Parent(ShardB(id)) == ShardA(id) && Parent(ObjectPath(id)) == ShardB(id)
    ensures Solid(ShardA(id)) && Solid(ShardB(id)) && Fixed(ShardA(id)) && Fixed(ShardB(id)) && Leaf(ObjectPath(id))
  {
  }

  // ---- one put step: the disk ----------------------------------------------

  function PutTouch(bt: Batch, step: PutStep): set<nat> {
    if step.WriteSome? || step.LinkNew? then Private(bt.pc) else {}
  }

  function PutMade(step: PutStep): set<Path> { if step.CreateTmp? then {TmpPath(step.tmp)} else {} }

  lemma PutGrows(h: Bytes -> Oid, d: Disk, ulids: set<Name>, st: Store, bt: Batch, step: PutStep)
    requires WfDisk(d) && PcOk(h, d, ulids, Owed(bt), bt.pc) && PutEnabled(h, d, ulids, st, bt, step)
    ensures Grows(d, PutDisk(h, d, ulids, st, bt, step), PutTouch(bt, step), PutMade(step))
  {
    match step
    case DirMake => MakeGrows(h, d, ulids, Owed(bt), bt.pc);
    case DirSync => FlushDirGrows(d, Parent(bt.pc.child));
    case CreateTmp(t) => CreateGrows(d, t);
    case JoinSync => PutSyncGrows(h, d, ulids, st, bt, step);
    case WriteSome(n) => PutWriteGrows(h, d, ulids, st, bt, n);
    case SyncTmp => PutSyncGrows(h, d, ulids, st, bt, step);
    case LinkNew => PutLinkGrows(h, d, ulids, st, bt);
    case _ => GrowsSelf(d);
  }

  lemma PutSyncGrows(h: Bytes -> Oid, d: Disk, ulids: set<Name>, st: Store, bt: Batch, step: PutStep)
    requires WfDisk(d) && PcOk(h, d, ulids, Owed(bt), bt.pc) && PutEnabled(h, d, ulids, st, bt, step)
    requires step.JoinSync? || step.SyncTmp?
    ensures Grows(d, PutDisk(h, d, ulids, st, bt, step), {}, {})
  {
    if step.JoinSync? { ForceGrows(h, d, ulids, Owed(bt), bt.pc); } else { FlushFileGrows(d, bt.pc.ino); }
  }

  lemma PutWriteGrows(h: Bytes -> Oid, d: Disk, ulids: set<Name>, st: Store, bt: Batch, n: nat)
    requires WfDisk(d) && PcOk(h, d, ulids, Owed(bt), bt.pc) && PutEnabled(h, d, ulids, st, bt, WriteSome(n))
    ensures Grows(d, PutDisk(h, d, ulids, st, bt, WriteSome(n)), {bt.pc.ino}, {})
  {
    WriteShape(h, d, ulids, st, bt, n);
    WriteGrows(d, bt.pc.ino, WriteAt(bt.pc.written, bt.pc.data[bt.pc.written..bt.pc.written + n]));
  }

  lemma PutLinkGrows(h: Bytes -> Oid, d: Disk, ulids: set<Name>, st: Store, bt: Batch)
    requires WfDisk(d) && PcOk(h, d, ulids, Owed(bt), bt.pc) && PutEnabled(h, d, ulids, st, bt, LinkNew)
    ensures Grows(d, PutDisk(h, d, ulids, st, bt, LinkNew), {bt.pc.ino}, {})
  {
    LinkGrows(h, d, ulids, Owed(bt), bt.pc);
  }

  lemma PutTouchPrivate(h: Bytes -> Oid, d: Disk, ulids: set<Name>, bt: Batch, step: PutStep)
    requires PcOk(h, d, ulids, Owed(bt), bt.pc)
    ensures forall i :: i in PutTouch(bt, step) ==> !Named(d, i)
  {
  }

  lemma MakeGrows(h: Bytes -> Oid, d: Disk, ulids: set<Name>, owed: set<Path>, pc: Pc)
    requires WfDisk(d) && PcOk(h, d, ulids, owed, pc) && pc.NeedDir?
    ensures Grows(d, if pc.child in d.nsC then d else NsAdd(d, pc.child, Dir), {}, {})
  {
    ShardParents(h(pc.data));
    if pc.child in d.nsC { GrowsSelf(d); } else { AddGrows(d, pc.child, Dir, {}); }
  }

  lemma ForceGrows(h: Bytes -> Oid, d: Disk, ulids: set<Name>, owed: set<Path>, pc: Pc)
    requires WfDisk(d) && PcOk(h, d, ulids, owed, pc) && pc.Force?
    ensures Grows(d, FlushFile(d, pc.ino, None), {}, {})
  {
    assert Bounded(d.nsC[ObjectPath(h(pc.data))], d.nextIno);
    FlushFileGrows(d, pc.ino);
  }

  lemma LinkGrows(h: Bytes -> Oid, d: Disk, ulids: set<Name>, owed: set<Path>, pc: Pc)
    requires WfDisk(d) && PcOk(h, d, ulids, owed, pc) && pc.Linking?
    requires TmpPath(pc.tmp) in d.nsC && ObjectPath(h(pc.data)) !in d.nsC
    ensures Link(d, TmpPath(pc.tmp), ObjectPath(h(pc.data))) == NsAdd(d, ObjectPath(h(pc.data)), FileNode(pc.ino))
    ensures Grows(d, NsAdd(d, ObjectPath(h(pc.data)), FileNode(pc.ino)), {pc.ino}, {})
  {
    ShardParents(h(pc.data));
    AddGrows(d, ObjectPath(h(pc.data)), FileNode(pc.ino), {pc.ino});
  }

  // ---- one put step: the batch ---------------------------------------------

  /** A shard directory is proved, or its barrier is owed. */
  lemma DirReady(h: Bytes -> Oid, d: Disk, ulids: set<Name>, owed: set<Path>, data: Bytes, child: Path)
    requires child == ShardA(h(data)) || child == ShardB(h(data))
    requires DirsOk(d, owed, child)
    ensures PcOk(h, d, ulids, owed, AfterDir(h(data), data, child))
  {
  }

  lemma MakeDirOk(h: Bytes -> Oid, d: Disk, e: Disk, ulids: set<Name>, st: Store, bt: Batch)
    requires WfDisk(d) && BatchOk(h, d, ulids, st, bt) && StoreOk(h, d, st)
    requires PutEnabled(h, d, ulids, st, bt, DirMake) && e == PutDisk(h, d, ulids, st, bt, DirMake)
    ensures BatchOk(h, e, ulids, st, PutBatch(h, d, ulids, st, bt, DirMake))
  {
    ShardParents(h(bt.pc.data));
    MakeGrows(h, d, ulids, Owed(bt), bt.pc);
    PromisesStay(h, d, e, {}, {}, st, bt, Owed(bt));
    PcStays(h, d, e, {}, {}, ulids, ulids, Owed(bt), bt.pc);
    if Defers(st.policy) {
      DirsStay(d, e, {}, {}, {}, Objects);
      DeferDirOk(h, e, ulids, st, bt, PutBatch(h, d, ulids, st, bt, DirMake));
    }
  }

  lemma DeferDirOk(h: Bytes -> Oid, e: Disk, ulids: set<Name>, st: Store, bt: Batch, bt': Batch)
    requires PromisesOk(h, e, st, bt, Owed(bt)) && bt.pc.NeedDir? && PcOk(h, e, ulids, Owed(bt), bt.pc)
    requires DirsOk(e, {}, Objects) && bt.pc.child in e.nsC && e.nsC[bt.pc.child] == Dir && bt.pc.child != []
    requires Defers(st.policy)
    requires bt' == bt.(pathDirs := bt.pathDirs + {Parent(bt.pc.child)}, proofs := bt.proofs + {bt.pc.child},
                        pc := AfterDir(h(bt.pc.data), bt.pc.data, bt.pc.child))
    ensures BatchOk(h, e, ulids, st, bt')
  {
    var id, child := h(bt.pc.data), bt.pc.child;
    ShardParents(id);
    PromisesMore(h, e, st, bt, Owed(bt), Owed(bt'));
    if child == ShardA(id) {
      DirsMore(e, {}, Owed(bt'), Objects);
    } else {
      DirsMore(e, Owed(bt), Owed(bt'), ShardA(id));
    }
    ExtendDirs(e, Owed(bt'), child);
    DirReady(h, e, ulids, Owed(bt'), bt.pc.data, child);
  }

  lemma SyncDirOk(h: Bytes -> Oid, d: Disk, e: Disk, ulids: set<Name>, st: Store, bt: Batch)
    requires WfDisk(d) && BatchOk(h, d, ulids, st, bt) && StoreOk(h, d, st)
    requires PutEnabled(h, d, ulids, st, bt, DirSync) && e == PutDisk(h, d, ulids, st, bt, DirSync)
    ensures BatchOk(h, e, ulids, st, PutBatch(h, d, ulids, st, bt, DirSync))
    ensures Solid(bt.pc.child) && DirsOk(e, {}, bt.pc.child)
  {
    var id, child := h(bt.pc.data), bt.pc.child;
    ShardParents(id);
    FlushDirGrows(d, Parent(child));
    PromisesStay(h, d, e, {}, {}, st, bt, Owed(bt));
    if child == ShardA(id) {
      DirsStay(d, e, {}, {}, {}, Objects);
    } else {
      NothingOwed(d, Owed(bt), ShardA(id));
      DirsStay(d, e, {}, {}, {}, ShardA(id));
    }
    ExtendDirs(e, {}, child);
    DirsMore(e, {}, Owed(bt), child);
    DirReady(h, e, ulids, Owed(bt), bt.pc.data, child);
  }

  /** A successful put adds an object that owes at most its own directory's barrier. */
  lemma JoinsOk(h: Bytes -> Oid, e: Disk, ulids: set<Name>, st: Store, bt: Batch, id: Oid)
    requires PromisesOk(h, e, st, bt, bt.pathDirs + bt.dirs) && DirsOk(e, bt.pathDirs + bt.dirs, ShardB(id))
    requires ObjectPath(id) in e.nsC && e.nsC[ObjectPath(id)].FileNode?
    requires BytesOk(h, e, e.nsC[ObjectPath(id)].ino, id)
    ensures BatchOk(h, e, ulids, st, Joins(bt, id))
  {
    var owed := Owed(Joins(bt, id));
    PromisesMore(h, e, st, bt, bt.pathDirs + bt.dirs, owed);
    DirsMore(e, bt.pathDirs + bt.dirs, owed, ShardB(id));
    assert ObjectOk(h, e, owed, id);
  }

  lemma ForceOk(h: Bytes -> Oid, d: Disk, e: Disk, ulids: set<Name>, st: Store, bt: Batch)
    requires WfDisk(d) && BatchOk(h, d, ulids, st, bt)
    requires PutEnabled(h, d, ulids, st, bt, JoinSync) && e == PutDisk(h, d, ulids, st, bt, JoinSync)
    ensures BatchOk(h, e, ulids, st, PutBatch(h, d, ulids, st, bt, JoinSync))
  {
    ForceGrows(h, d, ulids, Owed(bt), bt.pc);
    PromisesStay(h, d, e, {}, {}, st, bt, Owed(bt));
    PcStays(h, d, e, {}, {}, ulids, ulids, Owed(bt), bt.pc);
    FlushKeepsContent(d, bt.pc.ino, bt.pc.ino);
    assert Bounded(e.nsC[ObjectPath(h(bt.pc.data))], e.nextIno);
    JoinsOk(h, e, ulids, st, bt, h(bt.pc.data));
  }

  lemma LinkOk(h: Bytes -> Oid, d: Disk, e: Disk, ulids: set<Name>, st: Store, bt: Batch)
    requires WfDisk(d) && BatchOk(h, d, ulids, st, bt)
    requires PutEnabled(h, d, ulids, st, bt, LinkNew) && e == PutDisk(h, d, ulids, st, bt, LinkNew)
    ensures BatchOk(h, e, ulids, st, PutBatch(h, d, ulids, st, bt, LinkNew))
  {
    LinkGrows(h, d, ulids, Owed(bt), bt.pc);
    assert e == NsAdd(d, ObjectPath(h(bt.pc.data)), FileNode(bt.pc.ino));
    LinkedOk(h, d, e, ulids, st, bt);
  }

  lemma LinkedOk(h: Bytes -> Oid, d: Disk, e: Disk, ulids: set<Name>, st: Store, bt: Batch)
    requires WfDisk(d) && PromisesOk(h, d, st, bt, Owed(bt)) && PcOk(h, d, ulids, Owed(bt), bt.pc) && bt.pc.Linking?
    requires e == NsAdd(d, ObjectPath(h(bt.pc.data)), FileNode(bt.pc.ino)) && Grows(d, e, {bt.pc.ino}, {})
    ensures BatchOk(h, e, ulids, st, Joins(bt, h(bt.pc.data)))
  {
    PromisesStay(h, d, e, {bt.pc.ino}, {}, st, bt, Owed(bt));
    DirsStay(d, e, {bt.pc.ino}, {}, Owed(bt), ShardB(h(bt.pc.data)));
    JoinsOk(h, e, ulids, st, bt, h(bt.pc.data));
  }

  lemma CreateOk(h: Bytes -> Oid, d: Disk, e: Disk, ulids: set<Name>, st: Store, bt: Batch, t: Name)
    requires WfDisk(d) && BatchOk(h, d, ulids, st, bt)
    requires PutEnabled(h, d, ulids, st, bt, CreateTmp(t)) && e == Create(d, TmpPath(t))
    ensures BatchOk(h, e, ulids + {t}, st, PutBatch(h, d, ulids, st, bt, CreateTmp(t)))
  {
    CreateGrows(d, t);
    PromisesStay(h, d, e, {}, {TmpPath(t)}, st, bt, Owed(bt));
    DirsStay(d, e, {}, {TmpPath(t)}, Owed(bt), ShardB(h(bt.pc.data)));
  }

  /** A put step that moves only the program counter. */
  lemma NewPc(h: Bytes -> Oid, d: Disk, e: Disk, touch: set<nat>, made: set<Path>, ulids: set<Name>, st: Store, bt: Batch, pc: Pc)
    requires Grows(d, e, touch, made) && (forall i :: i in touch ==> !Named(d, i))
    requires PromisesOk(h, d, st, bt, Owed(bt)) && InPut(bt.pc) && InPut(pc) && !pc.SyncParent?
    requires PcOk(h, e, ulids, Owed(bt), pc)
    ensures BatchOk(h, e, ulids, st, bt.(pc := pc))
  {
    PromisesStay(h, d, e, touch, made, st, bt, Owed(bt));
    assert Owed(bt.(pc := pc)) == Owed(bt);
    SamePromises(h, e, st, bt, bt.(pc := pc), Owed(bt));
  }

  lemma SamePromises(h: Bytes -> Oid, e: Disk, st: Store, bt: Batch, bt': Batch, owed: set<Path>)
    requires PromisesOk(h, e, st, bt, owed) && bt' == bt.(pc := bt'.pc)
    ensures PromisesOk(h, e, st, bt', owed)
  {
  }

  lemma WriteOk(h: Bytes -> Oid, d: Disk, e: Disk, ulids: set<Name>, st: Store, bt: Batch, n: nat)
    requires WfDisk(d) && BatchOk(h, d, ulids, st, bt)
    requires PutEnabled(h, d, ulids, st, bt, WriteSome(n)) && e == PutDisk(h, d, ulids, st, bt, WriteSome(n))
    ensures BatchOk(h, e, ulids, st, PutBatch(h, d, ulids, st, bt, WriteSome(n)))
  {
    WriteShape(h, d, ulids, st, bt, n);
    WriteGoesOn(h, d, e, ulids, st, bt, bt.pc.(written := bt.pc.written + n), n);
  }

  lemma WriteShape(h: Bytes -> Oid, d: Disk, ulids: set<Name>, st: Store, bt: Batch, n: nat)
    requires PutEnabled(h, d, ulids, st, bt, WriteSome(n))
    ensures bt.pc.Writing? && bt.pc.written + n <= |bt.pc.data|
    ensures PutDisk(h, d, ulids, st, bt, WriteSome(n)) == WriteDisk(d, bt.pc.ino, bt.pc.data, bt.pc.written, n)
    ensures PutBatch(h, d, ulids, st, bt, WriteSome(n)) == bt.(pc := bt.pc.(written := bt.pc.written + n))
  {
  }

  function WriteDisk(d: Disk, ino: nat, data: Bytes, written: nat, n: nat): Disk
    requires written + n <= |data|
  {
    PendWrite(d, ino, WriteAt(written, data[written..written + n]))
  }

  lemma WriteGoesOn(h: Bytes -> Oid, d: Disk, e: Disk, ulids: set<Name>, st: Store, bt: Batch, pc: Pc, n: nat)
    requires WfDisk(d) && PromisesOk(h, d, st, bt, Owed(bt)) && PcOk(h, d, ulids, Owed(bt), bt.pc)
    requires bt.pc.Writing? && bt.pc.written + n <= |bt.pc.data| && pc == bt.pc.(written := bt.pc.written + n)
    requires e == WriteDisk(d, bt.pc.ino, bt.pc.data, bt.pc.written, n)
    ensures BatchOk(h, e, ulids, st, bt.(pc := pc))
  {
    WritePcOk(h, d, e, ulids, Owed(bt), bt.pc, n);
    NewPc(h, d, e, {bt.pc.ino}, {}, ulids, st, bt, pc);
  }

  lemma WritePcOk(h: Bytes -> Oid, d: Disk, e: Disk, ulids: set<Name>, owed: set<Path>, pc: Pc, n: nat)
    requires WfDisk(d) && PcOk(h, d, ulids, owed, pc) && pc.Writing? && pc.written + n <= |pc.data|
    requires e == WriteDisk(d, pc.ino, pc.data, pc.written, n)
    ensures Grows(d, e, {pc.ino}, {}) && !Named(d, pc.ino)
    ensures PcOk(h, e, ulids, owed, pc.(written := pc.written + n))
  {
    WriteGrows(d, pc.ino, WriteAt(pc.written, pc.data[pc.written..pc.written + n]));
    DirsStay(d, e, {pc.ino}, {}, owed, ShardB(h(pc.data)));
    AppendOk(d, pc.ino, pc.data, pc.written, n);
    TmpWritten(d, e, ulids, pc.tmp, pc.ino);
  }

  lemma TmpWritten(d: Disk, e: Disk, ulids: set<Name>, t: Name, ino: nat)
    requires TmpOk(d, ulids, t, ino) && e.nsC == d.nsC && e.nextIno == d.nextIno
    ensures TmpOk(e, ulids, t, ino)
  {
    SameNamed(d, e, ino);
  }

  lemma SyncTmpOk(h: Bytes -> Oid, d: Disk, e: Disk, ulids: set<Name>, st: Store, bt: Batch)
    requires WfDisk(d) && BatchOk(h, d, ulids, st, bt)
    requires PutEnabled(h, d, ulids, st, bt, SyncTmp) && e == FlushFile(d, bt.pc.ino, None)
    ensures BatchOk(h, e, ulids, st, PutBatch(h, d, ulids, st, bt, SyncTmp))
  {
    FlushFileGrows(d, bt.pc.ino);
    PromisesStay(h, d, e, {}, {}, st, bt, Owed(bt));
    PcStays(h, d, e, {}, {}, ulids, ulids, Owed(bt), bt.pc);
    assert bt.pc.data[..|bt.pc.data|] == bt.pc.data;
  }

  lemma AppendOk(d: Disk, ino: nat, data: Bytes, written: nat, n: nat)
    requires written + n <= |data| && Content(d, ino) == data[..written]
    ensures Content(WriteDisk(d, ino, data, written, n), ino) == data[..written + n]
  {
    var chunk := data[written..written + n];
    AppendWrite(d, ino, written, chunk);
    SliceGrows(data, written, n);
  }

  lemma SliceGrows(data: Bytes, written: nat, n: nat)
    requires written + n <= |data|
    ensures data[..written] + data[written..written + n] == data[..written + n]
  {
  }

  lemma SameNamed(d: Disk, e: Disk, ino: nat)
    requires e.nsC == d.nsC
    ensures Named(e, ino) ==> Named(d, ino)
  {
    if Named(e, ino) {
      var p :| Kept(p) && p in e.nsC && e.nsC[p] == FileNode(ino);
      assert p in d.nsC;
    }
  }

  lemma PutOwnOk(h: Bytes -> Oid, d: Disk, ulids: set<Name>, st: Store, bt: Batch, step: PutStep)
    requires WfDisk(d) && BatchOk(h, d, ulids, st, bt) && StoreOk(h, d, st) && PutEnabled(h, d, ulids, st, bt, step)
    ensures BatchOk(h, PutDisk(h, d, ulids, st, bt, step), if step.CreateTmp? then ulids + {step.tmp} else ulids,
                    st, PutBatch(h, d, ulids, st, bt, step))
  {
    var e := PutDisk(h, d, ulids, st, bt, step);
    if step.DirMake? {
      MakeDirOk(h, d, e, ulids, st, bt);
    } else if step.DirSync? {
      SyncDirOk(h, d, e, ulids, st, bt);
    } else if step.CreateTmp? {
      CreateOk(h, d, e, ulids, st, bt, step.tmp);
    } else if step.WriteSome? || step.SyncTmp? || step.JoinSync? || step.LinkNew? {
      FileOk(h, d, ulids, st, bt, step);
    } else {
      QuietOk(h, d, ulids, st, bt, step);
    }
  }

  lemma FileOk(h: Bytes -> Oid, d: Disk, ulids: set<Name>, st: Store, bt: Batch, step: PutStep)
    requires WfDisk(d) && BatchOk(h, d, ulids, st, bt) && StoreOk(h, d, st) && PutEnabled(h, d, ulids, st, bt, step)
    requires step.WriteSome? || step.SyncTmp? || step.JoinSync? || step.LinkNew?
    ensures BatchOk(h, PutDisk(h, d, ulids, st, bt, step), ulids, st, PutBatch(h, d, ulids, st, bt, step))
  {
    var e := PutDisk(h, d, ulids, st, bt, step);
    match step
    case WriteSome(n) => WriteOk(h, d, e, ulids, st, bt, n);
    case SyncTmp => SyncTmpOk(h, d, e, ulids, st, bt);
    case JoinSync => ForceOk(h, d, e, ulids, st, bt);
    case LinkNew => LinkOk(h, d, e, ulids, st, bt);
  }

  /** Steps that only look. */
  lemma QuietOk(h: Bytes -> Oid, d: Disk, ulids: set<Name>, st: Store, bt: Batch, step: PutStep)
    requires BatchOk(h, d, ulids, st, bt) && StoreOk(h, d, st) && PutEnabled(h, d, ulids, st, bt, step)
    requires step.Begin? || step.DirHit? || step.Found? || step.JoinCached? || step.JoinVerify? || step.LinkTaken? || step.Fail?
    ensures BatchOk(h, d, ulids, st, PutBatch(h, d, ulids, st, bt, step))
  {
    match step
    case DirHit => HitOk(h, d, ulids, st, bt);
    case JoinCached => CachedOk(h, d, ulids, st, bt);
    case _ =>
  }

  lemma HitOk(h: Bytes -> Oid, d: Disk, ulids: set<Name>, st: Store, bt: Batch)
    requires BatchOk(h, d, ulids, st, bt) && StoreOk(h, d, st) && PutEnabled(h, d, ulids, st, bt, DirHit)
    ensures BatchOk(h, d, ulids, st, PutBatch(h, d, ulids, st, bt, DirHit))
  {
    DirsMore(d, {}, Owed(bt), bt.pc.child);
    DirReady(h, d, ulids, Owed(bt), bt.pc.data, bt.pc.child);
  }

  /** The store's caches after a put step name only durable things. */
  lemma PutStoreOk(h: Bytes -> Oid, d: Disk, ulids: set<Name>, st: Store, bt: Batch, step: PutStep)
    requires WfDisk(d) && BatchOk(h, d, ulids, st, bt) && StoreOk(h, d, st) && PutEnabled(h, d, ulids, st, bt, step)
    ensures StoreOk(h, PutDisk(h, d, ulids, st, bt, step), PutStore(st, bt, step))
  {
    PutStoreStays(h, d, ulids, st, bt, step);
    if step == DirSync { SyncDirOk(h, d, PutDisk(h, d, ulids, st, bt, step), ulids, st, bt); }
  }

  lemma PutStoreStays(h: Bytes -> Oid, d: Disk, ulids: set<Name>, st: Store, bt: Batch, step: PutStep)
    requires WfDisk(d) && PcOk(h, d, ulids, Owed(bt), bt.pc) && StoreOk(h, d, st) && PutEnabled(h, d, ulids, st, bt, step)
    ensures StoreOk(h, PutDisk(h, d, ulids, st, bt, step), st)
  {
    PutGrows(h, d, ulids, st, bt, step);
    PutTouchPrivate(h, d, ulids, bt, step);
    StoreStays(h, d, PutDisk(h, d, ulids, st, bt, step), PutTouch(bt, step), PutMade(step), st);
  }

  lemma CachedOk(h: Bytes -> Oid, d: Disk, ulids: set<Name>, st: Store, bt: Batch)
    requires BatchOk(h, d, ulids, st, bt) && StoreOk(h, d, st) && PutEnabled(h, d, ulids, st, bt, JoinCached)
    ensures BatchOk(h, d, ulids, st, PutBatch(h, d, ulids, st, bt, JoinCached))
  {
    var id := h(bt.pc.data);
    assert Durable(h, d, id);
    DirsMore(d, {}, Owed(bt), ShardB(id));
    assert ObjectOk(h, d, Owed(bt), id);
  }

  // ---- the world, action by action -----------------------------------------

  /** Only a store's policy and phase matter to its batches. */
  lemma SamePolicy(h: Bytes -> Oid, d: Disk, ulids: set<Name>, st: Store, st': Store, bt: Batch)
    requires BatchOk(h, d, ulids, st, bt) && st'.policy == st.policy && st'.phase == st.phase
    ensures BatchOk(h, d, ulids, st', bt)
  {
  }

  lemma DiskOnly(h: Bytes -> Oid, w: World, e: Disk)
    requires Inv(h, w) && Grows(w.disk, e, {}, {})
    ensures Inv(h, w.(disk := e))
  {
    StoresStay(h, w.disk, e, {}, {}, w.stores);
    BatchesStay(h, w.disk, e, {}, w.ulids, w.stores, w.batches);
    AckedStay(h, w.disk, e, {}, {}, w.acked);
  }

  /** One batch and its store move; the rest of the world only sees the disk grow. */
  ghost predicate Moves(h: Bytes -> Oid, w: World, v: World, b: nat, touch: set<nat>, made: set<Path>) {
    && Runs(w, b) && b in v.batches
    && var s := w.batches[b].store;
    && s in v.stores
    && v == w.(disk := v.disk, stores := w.stores[s := v.stores[s]], batches := w.batches[b := v.batches[b]], ulids := v.ulids)
    && v.batches[b].store == s && v.stores[s].policy == w.stores[s].policy && v.stores[s].phase == w.stores[s].phase
    && Grows(w.disk, v.disk, touch, made) && w.ulids <= v.ulids
    && (forall i :: i in touch ==> !Named(w.disk, i))
    && (forall t :: t in w.ulids ==> TmpPath(t) !in made)
    && touch <= Private(w.batches[b].pc)
    && (forall i :: i in Private(v.batches[b].pc) ==> i in Private(w.batches[b].pc) || w.disk.nextIno <= i)
  }

  lemma OthersStay(h: Bytes -> Oid, w: World, v: World, b: nat, touch: set<nat>, made: set<Path>, c: nat)
    requires WfDisk(w.disk) && BatchesOk(h, w.disk, w.ulids, w.stores, w.batches) && Apart(w.batches)
    requires Moves(h, w, v, b, touch, made) && c in w.batches && c != b
    ensures InPlace(h, v.disk, v.ulids, v.stores, v.batches[c])
  {
    var bt := w.batches[c];
    assert InPlace(h, w.disk, w.ulids, w.stores, bt);
    assert Private(w.batches[b].pc) !! Private(bt.pc);
    BatchStays(h, w.disk, v.disk, touch, made, w.ulids, v.ulids, w.stores[bt.store], bt);
    SamePolicy(h, v.disk, v.ulids, w.stores[bt.store], v.stores[bt.store], bt);
  }

  /** A batch's private file is old and its own, or new. */
  lemma StillApart(h: Bytes -> Oid, w: World, v: World, b: nat, touch: set<nat>, made: set<Path>)
    requires BatchesOk(h, w.disk, w.ulids, w.stores, w.batches) && Apart(w.batches) && Moves(h, w, v, b, touch, made)
    ensures Apart(v.batches)
  {
    forall c | c in w.batches && c != b ensures Private(v.batches[b].pc) !! Private(w.batches[c].pc) {
      assert InPlace(h, w.disk, w.ulids, w.stores, w.batches[c]);
      PrivateIsOld(h, w.disk, w.ulids, Owed(w.batches[c]), w.batches[c].pc);
    }
  }

  lemma PrivateIsOld(h: Bytes -> Oid, d: Disk, ulids: set<Name>, owed: set<Path>, pc: Pc)
    requires PcOk(h, d, ulids, owed, pc)
    ensures forall i :: i in Private(pc) ==> i < d.nextIno
  {
  }

  lemma StoresMove(h: Bytes -> Oid, w: World, v: World, b: nat, touch: set<nat>, made: set<Path>)
    requires StoresOk(h, w.disk, w.stores) && Moves(h, w, v, b, touch, made)
    requires StoreOk(h, v.disk, v.stores[w.batches[b].store])
    ensures StoresOk(h, v.disk, v.stores)
  {
    StoresStay(h, w.disk, v.disk, touch, made, w.stores);
  }

  lemma BatchesMove(h: Bytes -> Oid, w: World, v: World, b: nat, touch: set<nat>, made: set<Path>)
    requires WfDisk(w.disk) && BatchesOk(h, w.disk, w.ulids, w.stores, w.batches) && Apart(w.batches)
    requires Moves(h, w, v, b, touch, made) && InPlace(h, v.disk, v.ulids, v.stores, v.batches[b])
    ensures BatchesOk(h, v.disk, v.ulids, v.stores, v.batches)
  {
    forall c | c in v.batches ensures InPlace(h, v.disk, v.ulids, v.stores, v.batches[c]) {
      if c != b { OthersStay(h, w, v, b, touch, made, c); }
    }
  }

  lemma MovesInv(h: Bytes -> Oid, w: World, v: World, b: nat, touch: set<nat>, made: set<Path>)
    requires Inv(h, w) && Moves(h, w, v, b, touch, made)
    requires StoreOk(h, v.disk, v.stores[w.batches[b].store])
    requires BatchOk(h, v.disk, v.ulids, v.stores[w.batches[b].store], v.batches[b])
    ensures Inv(h, v)
  {
    StoresMove(h, w, v, b, touch, made);
    BatchesMove(h, w, v, b, touch, made);
    StillApart(h, w, v, b, touch, made);
    AckedStay(h, w.disk, v.disk, touch, made, w.acked);
  }

  lemma PutPrivate(h: Bytes -> Oid, d: Disk, ulids: set<Name>, st: Store, bt: Batch, put: PutStep)
    requires PutEnabled(h, d, ulids, st, bt, put)
    ensures PutTouch(bt, put) <= Private(bt.pc)
    ensures forall i :: i in Private(PutBatch(h, d, ulids, st, bt, put).pc) ==> i in Private(bt.pc) || d.nextIno <= i
    ensures forall t :: t in ulids ==> TmpPath(t) !in PutMade(put)
    ensures PutBatch(h, d, ulids, st, bt, put).store == bt.store
  {
  }

  lemma PutMoves(h: Bytes -> Oid, w: World, b: nat, put: PutStep)
    requires Inv(h, w) && Enabled(h, w, Put(b, put))
    ensures Moves(h, w, Next(h, w, Put(b, put)), b, PutTouch(w.batches[b], put), PutMade(put))
  {
    var bt := w.batches[b];
    var st := w.stores[bt.store];
    PutGrows(h, w.disk, w.ulids, st, bt, put);
    PutTouchPrivate(h, w.disk, w.ulids, bt, put);
    PutPrivate(h, w.disk, w.ulids, st, bt, put);
  }

  lemma PutInv(h: Bytes -> Oid, w: World, b: nat, put: PutStep)
    requires Inv(h, w) && Enabled(h, w, Put(b, put))
    ensures Inv(h, Next(h, w, Put(b, put)))
  {
    var bt := w.batches[b];
    var st := w.stores[bt.store];
    PutMoves(h, w, b, put);
    PutStoreOk(h, w.disk, w.ulids, st, bt, put);
    PutOwnOk(h, w.disk, w.ulids, st, bt, put);
    var v := Next(h, w, Put(b, put));
    SamePolicy(h, v.disk, v.ulids, st, v.stores[bt.store], v.batches[b]);
    MovesInv(h, w, v, b, PutTouch(bt, put), PutMade(put));
  }

  // ---- finish --------------------------------------------------------------

  lemma SyncedPromises(h: Bytes -> Oid, d: Disk, st: Store, bt: Batch, owed: set<Path>, dir: Path)
    requires WfDisk(d) && PromisesOk(h, d, st, bt, owed)
    ensures PromisesOk(h, FlushDir(d, dir, None), st, bt, owed - {dir})
  {
    var e := FlushDir(d, dir, None);
    forall p | p in bt.proofs ensures DirsOk(e, owed - {dir}, p) { SyncedDirs(d, owed, dir, p); }
    forall id | id in bt.joined ensures ObjectOk(h, e, owed - {dir}, id) { SyncedObject(h, d, owed, dir, id); }
  }

  lemma FinishOwnOk(h: Bytes -> Oid, d: Disk, ulids: set<Name>, st: Store, bt: Batch, step: FinishStep)
    requires WfDisk(d) && BatchOk(h, d, ulids, st, bt) && FinishEnabled(bt, step)
    ensures BatchOk(h, if step.SyncOne? then FlushDir(d, step.dir, None) else d, ulids, st, FinishBatch(st, bt, step))
  {
    if step.SyncOne? { SyncedPromises(h, d, st, bt, Owed(bt), step.dir); }
  }

  lemma FinishStoreOk(h: Bytes -> Oid, d: Disk, ulids: set<Name>, st: Store, bt: Batch, step: FinishStep)
    requires WfDisk(d) && BatchOk(h, d, ulids, st, bt) && StoreOk(h, d, st) && FinishEnabled(bt, step)
    ensures StoreOk(h, if step.SyncOne? then FlushDir(d, step.dir, None) else d, FinishStore(st, bt, step))
  {
    match step
    case SyncOne(dir) =>
      FlushDirGrows(d, dir);
      StoreStays(h, d, FlushDir(d, dir, None), {}, {}, st);
    case RecordDirs => assert Owed(bt) == {};
    case RecordOids => assert Owed(bt) == {} && forall id :: id in bt.oids ==> id in bt.joined;
    case _ =>
  }

  lemma FinishGrows(d: Disk, step: FinishStep)
    requires WfDisk(d)
    ensures Grows(d, if step.SyncOne? then FlushDir(d, step.dir, None) else d, {}, {})
  {
    if step.SyncOne? { FlushDirGrows(d, step.dir); } else { GrowsSelf(d); }
  }

  lemma FinishMoves(h: Bytes -> Oid, w: World, b: nat, step: FinishStep)
    requires Inv(h, w) && Enabled(h, w, Finish(b, step)) && !step.RecordOids?
    ensures Moves(h, w, Next(h, w, Finish(b, step)), b, {}, {})
  {
    FinishGrows(w.disk, step);
    var st, bt := w.stores[w.batches[b].store], w.batches[b];
    assert FinishStore(st, bt, step).policy == st.policy && FinishStore(st, bt, step).phase == st.phase;
    assert FinishBatch(st, bt, step).store == bt.store && Private(FinishBatch(st, bt, step).pc) == {};
  }

  lemma FinishInv(h: Bytes -> Oid, w: World, b: nat, step: FinishStep)
    requires Inv(h, w) && Enabled(h, w, Finish(b, step)) && !step.RecordOids?
    ensures Inv(h, Next(h, w, Finish(b, step)))
  {
    var bt := w.batches[b];
    var st := w.stores[bt.store];
    FinishMoves(h, w, b, step);
    FinishOwnOk(h, w.disk, w.ulids, st, bt, step);
    FinishStoreOk(h, w.disk, w.ulids, st, bt, step);
    var v := Next(h, w, Finish(b, step));
    SamePolicy(h, v.disk, v.ulids, st, v.stores[bt.store], v.batches[b]);
    MovesInv(h, w, v, b, {}, {});
  }

  /** Some batches, in place on stores of the same policy and phase. */
  ghost predicate Remain(stores: map<nat, Store>, batches: map<nat, Batch>, stores': map<nat, Store>, batches': map<nat, Batch>) {
    && (forall b :: b in batches' ==> b in batches && batches'[b] == batches[b] && batches'[b].store in stores')
    && (forall s :: s in stores && s in stores' ==> stores'[s].policy == stores[s].policy && stores'[s].phase == stores[s].phase)
  }

  lemma BatchesRemain(h: Bytes -> Oid, d: Disk, ulids: set<Name>, stores: map<nat, Store>, batches: map<nat, Batch>,
                      stores': map<nat, Store>, batches': map<nat, Batch>)
    requires BatchesOk(h, d, ulids, stores, batches) && Remain(stores, batches, stores', batches')
    ensures BatchesOk(h, d, ulids, stores', batches')
  {
    forall b | b in batches' ensures InPlace(h, d, ulids, stores', batches'[b]) {
      var bt := batches[b];
      assert InPlace(h, d, ulids, stores, bt);
      SamePolicy(h, d, ulids, stores[bt.store], stores'[bt.store], bt);
    }
  }

  /** Stores may change their caches and batches may go away. */
  lemma Shuffle(h: Bytes -> Oid, w: World, v: World)
    requires Inv(h, w) && v == w.(stores := v.stores, batches := v.batches)
    requires StoresOk(h, w.disk, v.stores) && Remain(w.stores, w.batches, v.stores, v.batches)
    ensures Inv(h, v)
  {
    BatchesRemain(h, w.disk, w.ulids, w.stores, w.batches, v.stores, v.batches);
  }

  /** One store changes its caches. */
  lemma OneStore(h: Bytes -> Oid, d: Disk, stores: map<nat, Store>, s: nat, st: Store)
    requires StoresOk(h, d, stores) && StoreOk(h, d, st)
    ensures StoresOk(h, d, stores[s := st])
  {
  }

  lemma MoreAcked(h: Bytes -> Oid, w: World, ids: set<Oid>)
    requires Inv(h, w) && forall id :: id in ids ==> Durable(h, w.disk, id)
    ensures Inv(h, w.(acked := w.acked + ids))
  {
    assert AckedOk(h, w.disk, w.acked + ids);
  }

  /** A batch with no barrier left to take owes nothing. */
  lemma NothingLeft(h: Bytes -> Oid, w: World, b: nat)
    requires BatchesOk(h, w.disk, w.ulids, w.stores, w.batches) && b in w.batches && w.batches[b].pc.RecordingOids?
    ensures forall id :: id in w.batches[b].joined ==> Durable(h, w.disk, id)
  {
    assert InPlace(h, w.disk, w.ulids, w.stores, w.batches[b]) && Owed(w.batches[b]) == {};
  }

  /** The moment `finish` returns Ok: everything the batch joined is durable. */
  lemma RecordInv(h: Bytes -> Oid, w: World, b: nat)
    requires Inv(h, w) && Enabled(h, w, Finish(b, RecordOids))
    ensures Inv(h, Next(h, w, Finish(b, RecordOids)))
    ensures forall id :: id in w.batches[b].joined ==> Durable(h, w.disk, id)
  {
    var bt := w.batches[b];
    var u := w.(stores := w.stores[bt.store := FinishStore(w.stores[bt.store], bt, RecordOids)], batches := w.batches - {b});
    NothingLeft(h, w, b);
    RecordShuffle(h, w, b);
    MoreAcked(h, u, bt.joined);
    assert Next(h, w, Finish(b, RecordOids)) == u.(acked := u.acked + bt.joined);
  }

  /** `finish` teaches its store every directory and object the batch proved itself, and
      nothing else; each is durable. */
  lemma FinishTeaches(h: Bytes -> Oid, w: World, b: nat, step: FinishStep)
    requires Inv(h, w) && Enabled(h, w, Finish(b, step))
    ensures var bt, u, v := w.batches[b], w.stores[w.batches[b].store], Next(h, w, Finish(b, step)).stores[w.batches[b].store];
      && (forall p :: p in v.durableDirs <==> p in u.durableDirs || (step.RecordDirs? && p in bt.proofs))
      && (forall id :: id in v.durableOids <==> id in u.durableOids || (step.RecordOids? && id in bt.oids))
      && (step.RecordDirs? ==> forall p :: p in bt.proofs ==> DirsOk(w.disk, {}, p))
  {
    assert InPlace(h, w.disk, w.ulids, w.stores, w.batches[b]);
  }

  lemma RecordShuffle(h: Bytes -> Oid, w: World, b: nat)
    requires Inv(h, w) && Enabled(h, w, Finish(b, RecordOids))
    ensures var bt, s := w.batches[b], w.batches[b].store;
      Inv(h, w.(stores := w.stores[s := FinishStore(w.stores[s], bt, RecordOids)], batches := w.batches - {b}))
  {
    var bt := w.batches[b];
    var st := w.stores[bt.store];
    assert InPlace(h, w.disk, w.ulids, w.stores, bt);
    FinishStoreOk(h, w.disk, w.ulids, st, bt, RecordOids);
    OneStore(h, w.disk, w.stores, bt.store, FinishStore(st, bt, RecordOids));
    var u := w.(stores := w.stores[bt.store := FinishStore(st, bt, RecordOids)], batches := w.batches - {b});
    assert Remain(w.stores, w.batches, u.stores, u.batches);
    Shuffle(h, w, u);
  }

  // ---- opening, syncing everything, the cut --------------------------------

  lemma OpenGrows(h: Bytes -> Oid, d: Disk, st: Store)
    requires WfDisk(d) && StoreOk(h, d, st) && OpenEnabled(d, st)
    ensures Grows(d, OpenNext(d, st).0, {}, {})
  {
    match st.phase
    case MakeObjects => if Objects in d.nsC { GrowsSelf(d); } else { AddGrows(d, Objects, Dir, {}); }
    case SyncObjects => FlushDirGrows(d, Root);
    case MakeTmp => if Tmp in d.nsC { GrowsSelf(d); } else { AddGrows(d, Tmp, Dir, {}); }
    case SyncTmpDir => FlushDirGrows(d, Root);
  }

  lemma TopDir(d: Disk, p: Path)
    requires WfDisk(d) && (p == Objects || p == Tmp) && p in d.nsC && d.nsC[p] == Dir
    ensures DirsOk(FlushDir(d, Root, None), {}, p)
  {
    FlushDirGrows(d, Root);
    assert Parent(p) == Root && DirsOk(FlushDir(d, Root, None), {}, Root);
    ExtendDirs(FlushDir(d, Root, None), {}, p);
  }

  lemma OpenOk(h: Bytes -> Oid, d: Disk, st: Store)
    requires WfDisk(d) && StoreOk(h, d, st) && OpenEnabled(d, st)
    ensures StoreOk(h, OpenNext(d, st).0, OpenNext(d, st).1)
  {
    OpenGrows(h, d, st);
    StoreStays(h, d, OpenNext(d, st).0, {}, {}, st);
    if st.phase.SyncObjects? { TopDir(d, Objects); }
    if st.phase.SyncTmpDir? { TopDir(d, Tmp); }
  }

  lemma OpenInv(h: Bytes -> Oid, w: World, s: nat)
    requires Inv(h, w) && Enabled(h, w, OpenStep(s))
    ensures Inv(h, Next(h, w, OpenStep(s)))
  {
    var e, st := OpenNext(w.disk, w.stores[s]).0, OpenNext(w.disk, w.stores[s]).1;
    OpenGrows(h, w.disk, w.stores[s]);
    OpenOk(h, w.disk, w.stores[s]);
    DiskOnly(h, w, e);
    OneStore(h, e, w.stores, s, st);
    OtherStores(h, e, w.ulids, w.stores, w.batches, s, st);
  }

  /** Batches do not run on a store that is still opening. */
  lemma OtherStores(h: Bytes -> Oid, d: Disk, ulids: set<Name>, stores: map<nat, Store>, batches: map<nat, Batch>, s: nat, st: Store)
    requires BatchesOk(h, d, ulids, stores, batches) && s in stores && !stores[s].phase.Ready?
    ensures BatchesOk(h, d, ulids, stores[s := st], batches)
  {
    forall b | b in batches ensures InPlace(h, d, ulids, stores[s := st], batches[b]) {
      assert InPlace(h, d, ulids, stores, batches[b]);
    }
  }

  lemma CoveredBatch(h: Bytes -> Oid, d: Disk, ulids: set<Name>, st: Store, bt: Batch, dirs: seq<Path>, inos: seq<nat>)
    requires WfDisk(d) && CoversPending(d, dirs, inos) && forall i :: i in inos ==> i < d.nextIno
    requires BatchOk(h, d, ulids, st, bt) && bt.pc.Waiting?
    ensures BatchOk(h, SyncFs(d, dirs, inos), ulids, st, bt.(pc := Waiting(true)))
  {
    var e := SyncFs(d, dirs, inos);
    forall p | p in bt.proofs ensures DirsOk(e, {}, p) { FsSyncedDirs(d, Owed(bt), dirs, inos, p); }
    forall id | id in bt.joined ensures ObjectOk(h, e, {}, id) { FsSyncedObject(h, d, Owed(bt), dirs, inos, id); }
  }

  lemma SyncedBatch(h: Bytes -> Oid, d: Disk, ulids: set<Name>, stores: map<nat, Store>, bt: Batch, dirs: seq<Path>, inos: seq<nat>)
    requires WfDisk(d) && CoversPending(d, dirs, inos) && forall i :: i in inos ==> i < d.nextIno
    requires InPlace(h, d, ulids, stores, bt)
    ensures InPlace(h, SyncFs(d, dirs, inos), ulids, stores, if bt.pc.Waiting? then bt.(pc := Waiting(true)) else bt)
  {
    if bt.pc.Waiting? {
      CoveredBatch(h, d, ulids, stores[bt.store], bt, dirs, inos);
    } else {
      SyncFsGrows(d, dirs, inos);
      BatchStays(h, d, SyncFs(d, dirs, inos), {}, {}, ulids, ulids, stores[bt.store], bt);
    }
  }

  lemma SyncedBatches(h: Bytes -> Oid, d: Disk, ulids: set<Name>, stores: map<nat, Store>, batches: map<nat, Batch>,
                      dirs: seq<Path>, inos: seq<nat>)
    requires WfDisk(d) && CoversPending(d, dirs, inos) && forall i :: i in inos ==> i < d.nextIno
    requires BatchesOk(h, d, ulids, stores, batches)
    ensures BatchesOk(h, SyncFs(d, dirs, inos), ulids, stores, Covered(batches))
  {
    forall b | b in batches ensures InPlace(h, SyncFs(d, dirs, inos), ulids, stores, Covered(batches)[b]) {
      assert InPlace(h, d, ulids, stores, batches[b]);
      SyncedBatch(h, d, ulids, stores, batches[b], dirs, inos);
    }
  }

  lemma SyncEverythingInv(h: Bytes -> Oid, w: World, dirs: seq<Path>, inos: seq<nat>)
    requires Inv(h, w) && Enabled(h, w, SyncEverything(dirs, inos))
    ensures Inv(h, Next(h, w, SyncEverything(dirs, inos)))
  {
    var e := SyncFs(w.disk, dirs, inos);
    SyncFsGrows(w.disk, dirs, inos);
    StoresStay(h, w.disk, e, {}, {}, w.stores);
    SyncedBatches(h, w.disk, w.ulids, w.stores, w.batches, dirs, inos);
    CoveredApart(w.batches);
    AckedStay(h, w.disk, e, {}, {}, w.acked);
  }

  lemma CoveredApart(bs: map<nat, Batch>)
    requires Apart(bs)
    ensures Apart(Covered(bs))
  {
    forall b | b in bs ensures Private(Covered(bs)[b].pc) == Private(bs[b].pc) { }
  }

  lemma CutInv(h: Bytes -> Oid, w: World)
    requires Inv(h, w)
    ensures Inv(h, Next(h, w, PowerCut))
  {
    CutWf(w.disk);
    forall id | id in w.acked ensures Durable(h, Cut(w.disk), id) { DurableSurvivesCut(h, w.disk, id); }
  }

  lemma ForeignDirInv(h: Bytes -> Oid, w: World, p: Path)
    requires Inv(h, w) && Enabled(h, w, ForeignDir(p))
    ensures Inv(h, Next(h, w, ForeignDir(p)))
  {
    AddGrows(w.disk, p, Dir, {});
    DiskOnly(h, w, NsAdd(w.disk, p, Dir));
  }

  lemma ForeignObjectInv(h: Bytes -> Oid, w: World, id: Oid, data: Bytes)
    requires Inv(h, w) && Enabled(h, w, ForeignObject(id, data))
    ensures Inv(h, Next(h, w, ForeignObject(id, data)))
  {
    ForeignGrows(w.disk, ObjectPath(id), WriteAt(0, data));
    DiskOnly(h, w, ForeignFile(w.disk, ObjectPath(id), WriteAt(0, data)));
  }

  lemma UnlinkTmpInv(h: Bytes -> Oid, w: World, t: Name)
    requires Inv(h, w)
    ensures Inv(h, Next(h, w, UnlinkTmp(t)))
  {
    if TmpPath(t) in w.disk.nsC {
      UnlinkTmpGrows(w.disk, t);
      DiskOnly(h, w, NsDel(w.disk, TmpPath(t)));
    }
  }

  lemma WritebackInv(h: Bytes -> Oid, w: World, a: Action)
    requires Inv(h, w) && Enabled(h, w, a) && (a.WriteDirBack? || a.WriteFileBack?)
    ensures Inv(h, Next(h, w, a))
  {
    if a.WriteDirBack? {
      WritebackDirGrows(w.disk, a.dir, a.k);
      DiskOnly(h, w, WritebackDir(w.disk, a.dir, a.k));
    } else {
      WritebackFileGrows(w.disk, a.ino, a.k);
      DiskOnly(h, w, WritebackFile(w.disk, a.ino, a.k));
    }
  }

  lemma EvictOk(h: Bytes -> Oid, d: Disk, st: Store, dirs: set<Path>, oids: set<Oid>)
    requires StoreOk(h, d, st)
    ensures StoreOk(h, d, st.(durableDirs := st.durableDirs - dirs, durableOids := st.durableOids - oids))
  {
  }

  lemma EvictInv(h: Bytes -> Oid, w: World, a: Action)
    requires Inv(h, w) && Enabled(h, w, a) && (a.EvictDir? || a.EvictOid?)
    ensures Inv(h, Next(h, w, a))
  {
    var st, v := w.stores[a.s], Next(h, w, a);
    EvictOk(h, w.disk, st, if a.EvictDir? then {a.dir} else {}, if a.EvictOid? then {a.id} else {});
    assert st.durableDirs - {} == st.durableDirs && st.durableOids - {} == st.durableOids;
    OneStore(h, w.disk, w.stores, a.s, v.stores[a.s]);
    AllInPlace(h, w);
    Shuffle(h, w, v);
  }

  lemma AllInPlace(h: Bytes -> Oid, w: World)
    requires Inv(h, w)
    ensures forall b :: b in w.batches ==> w.batches[b].store in w.stores
  {
    forall b | b in w.batches ensures w.batches[b].store in w.stores { assert InPlace(h, w.disk, w.ulids, w.stores, w.batches[b]); }
  }

  lemma OpenStoreInv(h: Bytes -> Oid, w: World, s: nat, policy: Policy)
    requires Inv(h, w) && Enabled(h, w, OpenStore(s, policy))
    ensures Inv(h, Next(h, w, OpenStore(s, policy)))
  {
    OneStore(h, w.disk, w.stores, s, Store(policy, MakeObjects, {}, {}));
    AllInPlace(h, w);
    Shuffle(h, w, Next(h, w, OpenStore(s, policy)));
  }

  lemma LeaveInv(h: Bytes -> Oid, w: World, a: Action)
    requires Inv(h, w) && Enabled(h, w, a) && (a.CloseStore? || a.DropBatch?)
    ensures Inv(h, Next(h, w, a))
  {
    var v := Next(h, w, a);
    AllInPlace(h, w);
    FewerStores(h, w.disk, w.stores, v.stores);
    Shuffle(h, w, v);
  }

  lemma FewerStores(h: Bytes -> Oid, d: Disk, stores: map<nat, Store>, fewer: map<nat, Store>)
    requires StoresOk(h, d, stores) && forall s :: s in fewer ==> s in stores && fewer[s] == stores[s]
    ensures StoresOk(h, d, fewer)
  {
  }

  lemma AddBatch(h: Bytes -> Oid, w: World, b: nat, bt: Batch)
    requires Inv(h, w) && b !in w.batches && Private(bt.pc) == {} && InPlace(h, w.disk, w.ulids, w.stores, bt)
    ensures Inv(h, w.(batches := w.batches[b := bt]))
  {
    assert Apart(w.batches[b := bt]);
    assert BatchesOk(h, w.disk, w.ulids, w.stores, w.batches[b := bt]);
  }

  lemma BeginBatchInv(h: Bytes -> Oid, w: World, b: nat, s: nat)
    requires Inv(h, w) && Enabled(h, w, BeginBatch(b, s))
    ensures Inv(h, Next(h, w, BeginBatch(b, s)))
  {
    AddBatch(h, w, b, Batch(s, {}, {}, {}, {}, {}, Idle));
  }

  lemma BatchStepInv(h: Bytes -> Oid, w: World, a: Action)
    requires Inv(h, w) && Enabled(h, w, a) && (a.BeginBatch? || a.DropBatch? || a.Put? || a.Finish?)
    ensures Inv(h, Next(h, w, a))
  {
    match a
    case BeginBatch(b, st) => BeginBatchInv(h, w, b, st);
    case DropBatch(_) => LeaveInv(h, w, a);
    case Put(b, put) => PutInv(h, w, b, put);
    case Finish(b, step) => if step.RecordOids? { RecordInv(h, w, b); } else { FinishInv(h, w, b, step); }
  }

  lemma StoreStepInv(h: Bytes -> Oid, w: World, a: Action)
    requires Inv(h, w) && Enabled(h, w, a)
    requires a.OpenStore? || a.OpenStep? || a.CloseStore? || a.EvictDir? || a.EvictOid?
    ensures Inv(h, Next(h, w, a))
  {
    match a
    case OpenStore(st, policy) => OpenStoreInv(h, w, st, policy);
    case OpenStep(s) => OpenInv(h, w, s);
    case CloseStore(_) => LeaveInv(h, w, a);
    case EvictDir(_, _) => EvictInv(h, w, a);
    case EvictOid(_, _) => EvictInv(h, w, a);
  }

  lemma DiskStepInv(h: Bytes -> Oid, w: World, a: Action)
    requires Inv(h, w) && Enabled(h, w, a)
    requires a.UnlinkTmp? || a.WriteDirBack? || a.WriteFileBack? || a.SyncEverything? || a.ForeignDir? || a.ForeignObject? || a.PowerCut?
    ensures Inv(h, Next(h, w, a))
  {
    match a
    case UnlinkTmp(t) => UnlinkTmpInv(h, w, t);
    case WriteDirBack(_, _) => WritebackInv(h, w, a);
    case WriteFileBack(_, _) => WritebackInv(h, w, a);
    case SyncEverything(dirs, inos) => SyncEverythingInv(h, w, dirs, inos);
    case ForeignDir(p) => ForeignDirInv(h, w, p);
    case ForeignObject(id, data) => ForeignObjectInv(h, w, id, data);
    case PowerCut => CutInv(h, w);
  }

  // ---- a sweep -------------------------------------------------------------

  lemma StoreSwept(h: Bytes -> Oid, d: Disk, st: Store, id: Oid, clear: bool)
    requires WfDisk(d) && StoreOk(h, d, st) && (id in st.durableOids ==> clear)
    ensures StoreOk(h, NsDel(d, ObjectPath(id)), if clear then st.(durableOids := st.durableOids - {id}) else st)
  {
    var e := NsDel(d, ObjectPath(id));
    if DirsOk(d, {}, Objects) { UnlinkDirs(d, id, {}, Objects); }
    forall p | p in st.durableDirs ensures DirsOk(e, {}, p) { UnlinkDirs(d, id, {}, p); }
    forall o | o in st.durableOids && o != id ensures Durable(h, e, o) { UnlinkObject(h, d, id, {}, o); }
  }

  lemma PromisesSwept(h: Bytes -> Oid, d: Disk, st: Store, bt: Batch, owed: set<Path>, id: Oid)
    requires WfDisk(d) && PromisesOk(h, d, st, bt, owed) && id !in bt.joined
    ensures PromisesOk(h, NsDel(d, ObjectPath(id)), st, bt, owed)
  {
    var e := NsDel(d, ObjectPath(id));
    forall p | p in bt.proofs ensures DirsOk(e, owed, p) { UnlinkDirs(d, id, owed, p); }
    forall o | o in bt.joined ensures ObjectOk(h, e, owed, o) { UnlinkObject(h, d, id, owed, o); }
  }

  lemma PcSwept(h: Bytes -> Oid, d: Disk, ulids: set<Name>, owed: set<Path>, pc: Pc, id: Oid)
    requires WfDisk(d) && PcOk(h, d, ulids, owed, pc) && ObjectPath(id) in d.nsC && !(pc.Force? && h(pc.data) == id)
    ensures PcOk(h, NsDel(d, ObjectPath(id)), ulids, owed, pc)
  {
    match pc
    case NeedDir(data, child) => if child != ShardA(h(data)) { UnlinkDirs(d, id, owed, ShardA(h(data))); }
    case SyncParent(data, child) => if child != ShardA(h(data)) { UnlinkDirs(d, id, owed, ShardA(h(data))); }
    case Look(data) => UnlinkDirs(d, id, owed, ShardB(h(data)));
    case Join(data) => UnlinkDirs(d, id, owed, ShardB(h(data)));
    case Force(data, _) =>
      UnlinkDirs(d, id, owed, ShardB(h(data)));
      assert ObjectPath(h(data))[3] != ObjectPath(id)[3];
    case Writing(_, _, _, _) => FilePcSwept(h, d, ulids, owed, pc, id);
    case Linking(_, _, _) => FilePcSwept(h, d, ulids, owed, pc, id);
    case _ =>
  }

  lemma FilePcSwept(h: Bytes -> Oid, d: Disk, ulids: set<Name>, owed: set<Path>, pc: Pc, id: Oid)
    requires WfDisk(d) && PcOk(h, d, ulids, owed, pc) && ObjectPath(id) in d.nsC && (pc.Writing? || pc.Linking?)
    ensures PcOk(h, NsDel(d, ObjectPath(id)), ulids, owed, pc)
  {
    UnlinkWf(d, id);
    UnlinkDirs(d, id, owed, ShardB(h(pc.data)));
  }

  lemma BatchSwept(h: Bytes -> Oid, d: Disk, ulids: set<Name>, st: Store, bt: Batch, id: Oid)
    requires WfDisk(d) && BatchOk(h, d, ulids, st, bt) && ObjectPath(id) in d.nsC && !Relies(h, bt, id)
    ensures BatchOk(h, NsDel(d, ObjectPath(id)), ulids, st, bt)
  {
    PromisesSwept(h, d, st, bt, Owed(bt), id);
    PcSwept(h, d, ulids, Owed(bt), bt.pc, id);
  }

  lemma StoresSwept(h: Bytes -> Oid, w: World, id: Oid, cleared: set<nat>)
    requires WfDisk(w.disk) && StoresOk(h, w.disk, w.stores) && Clears(w, Sweep(id, cleared))
    ensures StoresOk(h, NsDel(w.disk, ObjectPath(id)), Forget(w.stores, id, cleared))
  {
    var stores := Forget(w.stores, id, cleared);
    forall s | s in stores ensures StoreOk(h, NsDel(w.disk, ObjectPath(id)), stores[s]) {
      StoreSwept(h, w.disk, w.stores[s], id, s in cleared);
    }
  }

  lemma BatchesSwept(h: Bytes -> Oid, w: World, id: Oid, cleared: set<nat>)
    requires WfDisk(w.disk) && BatchesOk(h, w.disk, w.ulids, w.stores, w.batches) && Enabled(h, w, Sweep(id, cleared))
    ensures BatchesOk(h, NsDel(w.disk, ObjectPath(id)), w.ulids, Forget(w.stores, id, cleared), w.batches)
  {
    var e := NsDel(w.disk, ObjectPath(id));
    forall b | b in w.batches ensures InPlace(h, e, w.ulids, w.stores, w.batches[b]) {
      assert InPlace(h, w.disk, w.ulids, w.stores, w.batches[b]);
      BatchSwept(h, w.disk, w.ulids, w.stores[w.batches[b].store], w.batches[b], id);
    }
    assert forall b :: b in w.batches ==> InPlace(h, e, w.ulids, w.stores, w.batches[b]);
    BatchesRemain(h, e, w.ulids, w.stores, w.batches, Forget(w.stores, id, cleared), w.batches);
  }

  /** A sweep that no store's cache outlives keeps every promise about other objects. */
  lemma SweepInv(h: Bytes -> Oid, w: World, id: Oid, cleared: set<nat>)
    requires Inv(h, w) && Enabled(h, w, Sweep(id, cleared)) && Clears(w, Sweep(id, cleared))
    ensures Inv(h, Next(h, w, Sweep(id, cleared)))
  {
    var e := NsDel(w.disk, ObjectPath(id));
    UnlinkWf(w.disk, id);
    StoresSwept(h, w, id, cleared);
    BatchesSwept(h, w, id, cleared);
    forall o | o in w.acked && o != id ensures Durable(h, e, o) { UnlinkObject(h, w.disk, id, {}, o); }
  }

  /** Every action keeps every promise, sweeps provided no cache outlives them. */
  lemma StepInv(h: Bytes -> Oid, w: World, a: Action)
    requires Inv(h, w) && Enabled(h, w, a) && Clears(w, a)
    ensures Inv(h, Next(h, w, a))
  {
    if a.Sweep? {
      SweepInv(h, w, a.id, a.cleared);
    } else if a.BeginBatch? || a.DropBatch? || a.Put? || a.Finish? {
      BatchStepInv(h, w, a);
    } else if a.OpenStore? || a.OpenStep? || a.CloseStore? || a.EvictDir? || a.EvictOid? {
      StoreStepInv(h, w, a);
    } else {
      DiskStepInv(h, w, a);
    }
  }

  /** Nothing holds the device back: power may go at any time, the kernel may write back
      any prefix of what is pending, and temporary names may vanish. */
  lemma DeviceIsFree(h: Bytes -> Oid, w: World, i: nat, k: nat, p: Path, t: Name)
    ensures Enabled(h, w, PowerCut) && Enabled(h, w, UnlinkTmp(t))
    ensures Enabled(h, w, WriteDirBack(p, k)) <==> k <= |PendNs(w.disk, p)|
    ensures Enabled(h, w, WriteFileBack(i, k)) <==> i < w.disk.nextIno && k <= |PendW(w.disk, i)|
  {
  }

  /** Nor users: caches may forget, stores close, batches be dropped, and other programs
      leave what they like under a free name. */
  lemma UsersAreFree(h: Bytes -> Oid, w: World, s: nat, b: nat, p: Path, id: Oid, data: Bytes)
    ensures s in w.stores ==> Enabled(h, w, EvictDir(s, p)) && Enabled(h, w, EvictOid(s, id)) && Enabled(h, w, CloseStore(s))
    ensures b in w.batches ==> Enabled(h, w, DropBatch(b))
    ensures ObjectPath(id) !in w.disk.nsC ==> Enabled(h, w, ForeignObject(id, data))
    ensures p != [] && Kept(p) && p !in w.disk.nsC ==> Enabled(h, w, ForeignDir(p))
  {
  }

  /** A sweep may take any visible object no open batch has joined or is forcing; it
      takes that name away and nothing else. */
  lemma SweepTakesOne(h: Bytes -> Oid, w: World, id: Oid, cleared: set<nat>)
    requires ObjectPath(id) in w.disk.nsC && w.disk.nsC[ObjectPath(id)].FileNode?
    requires forall b :: b in w.batches ==> id !in w.batches[b].joined
    requires forall b :: b in w.batches && w.batches[b].pc.Force? ==> h(w.batches[b].pc.data) != id
    ensures Enabled(h, w, Sweep(id, cleared))
    ensures var v := Next(h, w, Sweep(id, cleared));
      && (forall p :: p in v.disk.nsC <==> p in w.disk.nsC && p != ObjectPath(id))
      && (forall p :: p in v.disk.nsC ==> v.disk.nsC[p] == w.disk.nsC[p])
      && v.disk.nsD == w.disk.nsD && v.batches == w.batches
      && (forall o :: o in v.acked <==> o in w.acked && o != id)
  {
  }

  // ---- whole runs ----------------------------------------------------------

  /** Any history over any disk: nothing open, nothing acknowledged yet. */
  ghost predicate Run(h: Bytes -> Oid, acts: seq<Action>, ws: seq<World>) {
    && |ws| == |acts| + 1
    && WfDisk(ws[0].disk) && ws[0] == World(ws[0].disk, map[], map[], {}, {})
    && forall i :: 0 <= i < |acts| ==> StepAt(h, acts, ws, i)
  }

  ghost predicate StepAt(h: Bytes -> Oid, acts: seq<Action>, ws: seq<World>, i: nat) {
    && i < |acts| && i + 1 < |ws| && Enabled(h, ws[i], acts[i]) && ws[i + 1] == Next(h, ws[i], acts[i])
  }

  /** Every sweep of the run takes the object out of every cache that holds it. */
  predicate AllClear(acts: seq<Action>, ws: seq<World>) { forall i :: 0 <= i < |acts| && i < |ws| ==> Clears(ws[i], acts[i]) }

  lemma {:induction false} RunInv(h: Bytes -> Oid, acts: seq<Action>, ws: seq<World>, i: nat)
    requires Run(h, acts, ws) && AllClear(acts, ws) && i < |ws|
    ensures Inv(h, ws[i])
  {
    if i > 0 {
      RunInv(h, acts, ws, i - 1);
      assert StepAt(h, acts, ws, i - 1) && Clears(ws[i - 1], acts[i - 1]);
      StepInv(h, ws[i - 1], acts[i - 1]);
    }
  }

  predicate Sweeps(a: Action, id: Oid) { a.Sweep? && a.id == id }

  /** What is acknowledged stays so until it is swept. */
  lemma {:induction false} AckedStays(h: Bytes -> Oid, acts: seq<Action>, ws: seq<World>, i: nat, j: nat, id: Oid)
    requires Run(h, acts, ws) && i <= j < |ws| && id in ws[i].acked
    requires forall k :: i <= k < j ==> !Sweeps(acts[k], id)
    ensures id in ws[j].acked
    decreases j - i
  {
    if i < j {
      AckedStays(h, acts, ws, i, j - 1, id);
      assert StepAt(h, acts, ws, j - 1) && !Sweeps(acts[j - 1], id);
    }
  }

  /** The object is there after a power cut, reachable, with bytes of its identity. */
  ghost predicate SurvivesCut(h: Bytes -> Oid, d: Disk, id: Oid) {
    var c, p := Cut(d), ObjectPath(id);
    Reachable(c.nsD, p) && c.nsD[p].FileNode? && h(Dur(c, c.nsD[p].ino)) == id
  }

  lemma AckedSurvives(h: Bytes -> Oid, acts: seq<Action>, ws: seq<World>, j: nat, id: Oid)
    requires Run(h, acts, ws) && AllClear(acts, ws) && j < |ws| && id in ws[j].acked
    ensures Durable(h, ws[j].disk, id) && SurvivesCut(h, ws[j].disk, id)
  {
    RunInv(h, acts, ws, j);
    DurableSurvivesCut(h, ws[j].disk, id);
  }

  /** Once `finish` returns Ok, every object the batch put or joined survives every
      later power cut, reachable and with bytes of its identity, until a sweep takes it. */
  lemma FinishedIsDurable(h: Bytes -> Oid, acts: seq<Action>, ws: seq<World>, i: nat, b: nat, id: Oid, j: nat)
    requires Run(h, acts, ws) && AllClear(acts, ws) && i < |acts| && acts[i] == Finish(b, RecordOids)
    requires b in ws[i].batches && id in ws[i].batches[b].joined && i < j < |ws|
    requires forall k :: i < k < j ==> !Sweeps(acts[k], id)
    ensures Durable(h, ws[j].disk, id) && SurvivesCut(h, ws[j].disk, id)
  {
    assert StepAt(h, acts, ws, i);
    AckedStays(h, acts, ws, i + 1, j, id);
    AckedSurvives(h, acts, ws, j, id);
  }

  /** With a collision-free hash those are exactly the bytes that were put. */
  lemma ExactBytes(h: Bytes -> Oid, d: Disk, data: Bytes)
    requires WfDisk(d) && Durable(h, d, h(data)) && forall x, y :: h(x) == h(y) ==> x == y
    ensures var c, p := Cut(d), ObjectPath(h(data)); Reachable(c.nsD, p) && c.nsD[p].FileNode? && Dur(c, c.nsD[p].ino) == data
  {
    DurableSurvivesCut(h, d, h(data));
  }

  /** In every reachable state every cached proof names something already durable. */
  lemma CachesAreSound(h: Bytes -> Oid, acts: seq<Action>, ws: seq<World>, i: nat, s: nat)
    requires Run(h, acts, ws) && AllClear(acts, ws) && i < |ws| && s in ws[i].stores
    ensures forall p :: p in ws[i].stores[s].durableDirs ==>
      Reachable(Cut(ws[i].disk).nsD, p) && Cut(ws[i].disk).nsD[p] == Dir
    ensures forall id :: id in ws[i].stores[s].durableOids ==> Durable(h, Cut(ws[i].disk), id)
  {
    RunInv(h, acts, ws, i);
    var d, st := ws[i].disk, ws[i].stores[s];
    CutWf(d);
    assert StoreOk(h, d, st);
    forall p | p in st.durableDirs ensures Reachable(Cut(d).nsD, p) && Cut(d).nsD[p] == Dir {
      DurableReachable(d, p);
      DurableReachable(Cut(d), p);
    }
    forall id | id in st.durableOids ensures Durable(h, Cut(d), id) { DurableSurvivesCut(h, d, id); }
  }
}
