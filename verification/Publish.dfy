/** Crash-durable publication: any number of stores and batches, one system call
    at a time, against the adversarial device. */
module Publish {
  import opened Names
  import opened Device
  import opened ObjectArea

  datatype Policy = PerDirectory | Deferred | Collapsed

  predicate Defers(p: Policy) { p != PerDirectory }

  datatype OpenPhase = MakeObjects | SyncObjects | MakeTmp | SyncTmpDir | Ready

  /** One open store: its barrier policy and its two positive-proof caches. */
  datatype Store = Store(policy: Policy, phase: OpenPhase, durableDirs: set<Path>, durableOids: set<Oid>)

  /** Where a batch is between two system calls. */
  datatype Pc =
    | Idle
    | NeedDir(data: Bytes, child: Path)
    | SyncParent(data: Bytes, child: Path)
    | Look(data: Bytes)
    | Join(data: Bytes)
    | Force(data: Bytes, ino: nat)
    | Writing(data: Bytes, tmp: Name, ino: nat, written: nat)
    | Linking(data: Bytes, tmp: Name, ino: nat)
    | Syncing(todo: set<Path>)
    | Waiting(covered: bool)
    | RecordingDirs
    | RecordingOids

  /** A publish batch; `joined` is every id one of its puts has returned. */
  datatype Batch = Batch(store: nat, dirs: set<Path>, pathDirs: set<Path>, proofs: set<Path>, oids: set<Oid>,
                         joined: set<Oid>, pc: Pc)

  /** `acked`: ids of batches whose `finish` has returned Ok, until a sweep takes them. */
  datatype World = World(disk: Disk, stores: map<nat, Store>, batches: map<nat, Batch>, ulids: set<Name>,
                         acked: set<Oid>)

  datatype PutStep =
    | Begin(data: Bytes) | DirHit | DirMake | DirSync | Found | CreateTmp(tmp: Name)
    | JoinCached | JoinVerify | JoinSync | WriteSome(n: nat) | SyncTmp | LinkNew | LinkTaken | Fail

  datatype FinishStep = BeginFinish | SyncOne(dir: Path) | AllSynced | RecordDirs | RecordOids

  datatype Action =
    | OpenStore(s: nat, policy: Policy) | OpenStep(s: nat) | CloseStore(s: nat)
    | EvictDir(s: nat, dir: Path) | EvictOid(s: nat, id: Oid)
    | BeginBatch(b: nat, s: nat) | DropBatch(b: nat)
    | Put(b: nat, put: PutStep) | Finish(b: nat, finish: FinishStep)
    | UnlinkTmp(tmp: Name) | WriteDirBack(dir: Path, k: nat) | WriteFileBack(ino: nat, k: nat)
    | SyncEverything(dirs: seq<Path>, inos: seq<nat>)
    | ForeignDir(path: Path) | ForeignObject(id: Oid, data: Bytes)
    | Sweep(id: Oid, cleared: set<nat>)
    | PowerCut

  // ---- put_parts -----------------------------------------------------------

  function AfterDir(id: Oid, data: Bytes, child: Path): Pc {
    if child == ShardA(id) then NeedDir(data, ShardB(id)) else Look(data)
  }

  predicate InPut(pc: Pc) {
    pc.NeedDir? || pc.SyncParent? || pc.Look? || pc.Join? || pc.Force? || pc.Writing? || pc.Linking?
  }

  /** The visible file at an object path holds bytes of that identity. */
  predicate Verifies(h: Bytes -> Oid, d: Disk, id: Oid) {
    && ObjectPath(id) in d.nsC && d.nsC[ObjectPath(id)].FileNode?
    && h(Content(d, d.nsC[ObjectPath(id)].ino)) == id
  }

  predicate PutEnabled(h: Bytes -> Oid, d: Disk, ulids: set<Name>, st: Store, bt: Batch, step: PutStep) {
    match step
    case Begin(_) => bt.pc.Idle?
    case DirHit => bt.pc.NeedDir? && bt.pc.child in st.durableDirs
    case DirMake => bt.pc.NeedDir? && bt.pc.child !in st.durableDirs
                    && (bt.pc.child in d.nsC ==> d.nsC[bt.pc.child] == Dir)
    case DirSync => bt.pc.SyncParent? && bt.pc.child != []
    case Found => bt.pc.Look? && ObjectPath(h(bt.pc.data)) in d.nsC
    case CreateTmp(t) => bt.pc.Look? && ObjectPath(h(bt.pc.data)) !in d.nsC && TmpPath(t) !in d.nsC && t !in ulids
    case JoinCached => bt.pc.Join? && h(bt.pc.data) in st.durableOids && Verifies(h, d, h(bt.pc.data))
    case JoinVerify => bt.pc.Join? && Verifies(h, d, h(bt.pc.data))
    case JoinSync => bt.pc.Force?
    case WriteSome(n) => bt.pc.Writing? && bt.pc.written + n <= |bt.pc.data|
    case SyncTmp => bt.pc.Writing? && bt.pc.written == |bt.pc.data|
    case LinkNew => bt.pc.Linking? && TmpPath(bt.pc.tmp) in d.nsC && ObjectPath(h(bt.pc.data)) !in d.nsC
    case LinkTaken => bt.pc.Linking? && ObjectPath(h(bt.pc.data)) in d.nsC
    case Fail => InPut(bt.pc)
  }

  function PutDisk(h: Bytes -> Oid, d: Disk, ulids: set<Name>, st: Store, bt: Batch, step: PutStep): Disk
    requires PutEnabled(h, d, ulids, st, bt, step)
  {
    match step
    case DirMake => if bt.pc.child in d.nsC then d else NsAdd(d, bt.pc.child, Dir)
    case DirSync => FlushDir(d, Parent(bt.pc.child), None)
    case CreateTmp(t) => Create(d, TmpPath(t))
    case JoinSync => FlushFile(d, bt.pc.ino, None)
    case WriteSome(n) =>
      PendWrite(d, bt.pc.ino, WriteAt(bt.pc.written, bt.pc.data[bt.pc.written..bt.pc.written + n]))
    case SyncTmp => FlushFile(d, bt.pc.ino, None)
    case LinkNew => Link(d, TmpPath(bt.pc.tmp), ObjectPath(h(bt.pc.data)))
    case _ => d
  }

  function PutBatch(h: Bytes -> Oid, d: Disk, ulids: set<Name>, st: Store, bt: Batch, step: PutStep): Batch
    requires PutEnabled(h, d, ulids, st, bt, step)
  {
    match step
    case Begin(data) => bt.(pc := NeedDir(data, ShardA(h(data))))
    case DirHit => bt.(pc := AfterDir(h(bt.pc.data), bt.pc.data, bt.pc.child))
    case DirMake =>
      if Defers(st.policy) && bt.pc.child != [] then
        bt.(pathDirs := bt.pathDirs + {Parent(bt.pc.child)}, proofs := bt.proofs + {bt.pc.child},
            pc := AfterDir(h(bt.pc.data), bt.pc.data, bt.pc.child))
      else bt.(pc := SyncParent(bt.pc.data, bt.pc.child))
    case DirSync => bt.(pc := AfterDir(h(bt.pc.data), bt.pc.data, bt.pc.child))
    case Found => bt.(pc := Join(bt.pc.data))
    case CreateTmp(t) => bt.(pc := Writing(bt.pc.data, t, d.nextIno, 0))
    case JoinCached => bt.(joined := bt.joined + {h(bt.pc.data)}, pc := Idle)
    case JoinVerify => bt.(pc := Force(bt.pc.data, d.nsC[ObjectPath(h(bt.pc.data))].ino))
    case JoinSync => Joins(bt, h(bt.pc.data))
    case WriteSome(n) => bt.(pc := bt.pc.(written := bt.pc.written + n))
    case SyncTmp => bt.(pc := Linking(bt.pc.data, bt.pc.tmp, bt.pc.ino))
    case LinkNew => Joins(bt, h(bt.pc.data))
    case LinkTaken => bt.(pc := Join(bt.pc.data))
    case Fail => bt.(pc := Idle)
  }

  /** The put succeeded and owes the barrier of its last directory. */
  function Joins(bt: Batch, id: Oid): Batch {
    bt.(dirs := bt.dirs + {ShardB(id)}, oids := bt.oids + {id}, joined := bt.joined + {id}, pc := Idle)
  }

  function PutStore(st: Store, bt: Batch, step: PutStep): Store {
    if step.DirSync? && bt.pc.SyncParent? then st.(durableDirs := st.durableDirs + {bt.pc.child}) else st
  }

  // ---- finish --------------------------------------------------------------

  predicate Collapses(st: Store, bt: Batch) { st.policy.Collapsed? && |bt.pathDirs| + |bt.dirs| > 1 }

  predicate FinishEnabled(bt: Batch, step: FinishStep) {
    match step
    case BeginFinish => bt.pc.Idle?
    case SyncOne(dir) => bt.pc.Syncing? && dir in bt.pc.todo
    case AllSynced => bt.pc == Syncing({}) || bt.pc == Waiting(true)
    case RecordDirs => bt.pc.RecordingDirs?
    case RecordOids => bt.pc.RecordingOids?
  }

  function FinishBatch(st: Store, bt: Batch, step: FinishStep): Batch
    requires FinishEnabled(bt, step)
  {
    match step
    case BeginFinish => bt.(pc := if Collapses(st, bt) then Waiting(false) else Syncing(bt.pathDirs + bt.dirs))
    case SyncOne(dir) => bt.(pc := Syncing(bt.pc.todo - {dir}))
    case AllSynced => bt.(pc := RecordingDirs)
    case RecordDirs => bt.(pc := RecordingOids)
    case RecordOids => bt
  }

  function FinishStore(st: Store, bt: Batch, step: FinishStep): Store {
    match step
    case RecordDirs => st.(durableDirs := st.durableDirs + bt.proofs)
    case RecordOids => st.(durableOids := st.durableOids + bt.oids)
    case _ => st
  }

  // ---- the whole machine ---------------------------------------------------

  function OpenNext(d: Disk, st: Store): (Disk, Store) {
    match st.phase
    case MakeObjects => (if Objects in d.nsC then d else NsAdd(d, Objects, Dir), st.(phase := SyncObjects))
    case SyncObjects => (FlushDir(d, Root, None), st.(phase := MakeTmp, durableDirs := st.durableDirs + {Objects}))
    case MakeTmp => (if Tmp in d.nsC then d else NsAdd(d, Tmp, Dir), st.(phase := SyncTmpDir))
    case SyncTmpDir => (FlushDir(d, Root, None), st.(phase := Ready, durableDirs := st.durableDirs + {Tmp}))
    case Ready => (d, st)
  }

  predicate OpenEnabled(d: Disk, st: Store) {
    && !st.phase.Ready?
    && (st.phase.MakeObjects? && Objects in d.nsC ==> d.nsC[Objects] == Dir)
    && (st.phase.MakeTmp? && Tmp in d.nsC ==> d.nsC[Tmp] == Dir)
  }

  predicate Runs(w: World, b: nat) {
    b in w.batches && w.batches[b].store in w.stores
  }

  ghost predicate Enabled(h: Bytes -> Oid, w: World, a: Action) {
    match a
    case OpenStore(s, _) => s !in w.stores
    case OpenStep(s) => s in w.stores && OpenEnabled(w.disk, w.stores[s])
    case CloseStore(s) => s in w.stores
    case EvictDir(s, _) => s in w.stores
    case EvictOid(s, _) => s in w.stores
    case BeginBatch(b, s) => b !in w.batches && s in w.stores && w.stores[s].phase.Ready?
    case DropBatch(b) => b in w.batches
    case Put(b, put) => Runs(w, b) && PutEnabled(h, w.disk, w.ulids, w.stores[w.batches[b].store], w.batches[b], put)
    case Finish(b, finish) => Runs(w, b) && FinishEnabled(w.batches[b], finish)
    case UnlinkTmp(_) => true
    case WriteDirBack(dir, k) => k <= |PendNs(w.disk, dir)|
    case WriteFileBack(ino, k) => ino < w.disk.nextIno && k <= |PendW(w.disk, ino)|
    case SyncEverything(dirs, inos) => CoversPending(w.disk, dirs, inos) && forall i :: i in inos ==> i < w.disk.nextIno
    case ForeignDir(p) => p != [] && Kept(p) && p !in w.disk.nsC
    case ForeignObject(id, _) => ObjectPath(id) !in w.disk.nsC
    case Sweep(id, _) =>
      && ObjectPath(id) in w.disk.nsC && w.disk.nsC[ObjectPath(id)].FileNode?
      && forall b :: b in w.batches ==> !Relies(h, w.batches[b], id)
    case PowerCut => true
  }

  /** A batch that has joined an object, or is about to, keeps sweeps away from it: its
      refresh of the object's age is younger than the floor. */
  predicate Relies(h: Bytes -> Oid, bt: Batch, id: Oid) { id in bt.joined || (bt.pc.Force? && h(bt.pc.data) == id) }

  /** After the step no store still takes a swept object for durable. */
  predicate Clears(w: World, a: Action) {
    a.Sweep? ==> forall s :: s in w.stores && a.id in w.stores[s].durableOids ==> s in a.cleared
  }

  function Forget(stores: map<nat, Store>, id: Oid, cleared: set<nat>): map<nat, Store> {
    map s | s in stores ::
      if s in cleared then stores[s].(durableOids := stores[s].durableOids - {id}) else stores[s]
  }

  function Covered(bs: map<nat, Batch>): map<nat, Batch> {
    map b | b in bs :: if bs[b].pc.Waiting? then bs[b].(pc := Waiting(true)) else bs[b]
  }

  ghost function Next(h: Bytes -> Oid, w: World, a: Action): World
    requires Enabled(h, w, a)
  {
    match a
    case OpenStore(s, policy) => w.(stores := w.stores[s := Store(policy, MakeObjects, {}, {})])
    case OpenStep(s) =>
      var r := OpenNext(w.disk, w.stores[s]);
      w.(disk := r.0, stores := w.stores[s := r.1])
    case CloseStore(s) =>
      w.(stores := w.stores - {s}, batches := map b | b in w.batches && w.batches[b].store != s :: w.batches[b])
    case EvictDir(s, dir) =>
      w.(stores := w.stores[s := w.stores[s].(durableDirs := w.stores[s].durableDirs - {dir})])
    case EvictOid(s, id) =>
      w.(stores := w.stores[s := w.stores[s].(durableOids := w.stores[s].durableOids - {id})])
    case BeginBatch(b, s) => w.(batches := w.batches[b := Batch(s, {}, {}, {}, {}, {}, Idle)])
    case DropBatch(b) => w.(batches := w.batches - {b})
    case Put(b, put) =>
      var bt := w.batches[b];
      var st := w.stores[bt.store];
      w.(disk := PutDisk(h, w.disk, w.ulids, st, bt, put),
         stores := w.stores[bt.store := PutStore(st, bt, put)],
         batches := w.batches[b := PutBatch(h, w.disk, w.ulids, st, bt, put)],
         ulids := if put.CreateTmp? then w.ulids + {put.tmp} else w.ulids)
    case Finish(b, finish) =>
      var bt := w.batches[b];
      var st := w.stores[bt.store];
      w.(disk := if finish.SyncOne? then FlushDir(w.disk, finish.dir, None) else w.disk,
         stores := w.stores[bt.store := FinishStore(st, bt, finish)],
         batches := if finish.RecordOids? then w.batches - {b} else w.batches[b := FinishBatch(st, bt, finish)],
         acked := if finish.RecordOids? then w.acked + bt.joined else w.acked)
    case UnlinkTmp(t) => if TmpPath(t) in w.disk.nsC then w.(disk := NsDel(w.disk, TmpPath(t))) else w
    case WriteDirBack(dir, k) => w.(disk := WritebackDir(w.disk, dir, k))
    case WriteFileBack(ino, k) => w.(disk := WritebackFile(w.disk, ino, k))
    case SyncEverything(dirs, inos) => w.(disk := SyncFs(w.disk, dirs, inos), batches := Covered(w.batches))
    case ForeignDir(p) => w.(disk := NsAdd(w.disk, p, Dir))
    case ForeignObject(id, data) => w.(disk := ForeignFile(w.disk, ObjectPath(id), WriteAt(0, data)))
    case Sweep(id, cleared) =>
      w.(disk := NsDel(w.disk, ObjectPath(id)), stores := Forget(w.stores, id, cleared), acked := w.acked - {id})
    case PowerCut => w.(disk := Cut(w.disk), stores := map[], batches := map[])
  }

  /** `acts` is a run of enabled actions from `w` to `last`. */
  ghost predicate RunsTo(h: Bytes -> Oid, w: World, acts: seq<Action>, last: World)
    decreases |acts|
  {
    if acts == [] then w == last else Enabled(h, w, acts[0]) && RunsTo(h, Next(h, w, acts[0]), acts[1..], last)
  }

  lemma Cons(h: Bytes -> Oid, w: World, a: Action, rest: seq<Action>, last: World)
    requires Enabled(h, w, a) && RunsTo(h, Next(h, w, a), rest, last)
    ensures RunsTo(h, w, [a] + rest, last)
  {
    assert ([a] + rest)[1..] == rest;
  }

  // ---- what every step keeps ----------------------------------------------

  /** The barriers a batch still owes its objects. */
  function Owed(bt: Batch): set<Path> {
    match bt.pc
    case Syncing(todo) => todo
    case Waiting(covered) => if covered then {} else bt.pathDirs + bt.dirs
    case RecordingDirs => {}
    case RecordingOids => {}
    case _ => bt.pathDirs + bt.dirs
  }

  ghost predicate StoreOk(h: Bytes -> Oid, d: Disk, st: Store) {
    && (st.phase.SyncObjects? ==> Objects in d.nsC && d.nsC[Objects] == Dir)
    && (st.phase.SyncTmpDir? ==> Tmp in d.nsC && d.nsC[Tmp] == Dir)
    && (!st.phase.MakeObjects? && !st.phase.SyncObjects? ==> DirsOk(d, {}, Objects))
    && (forall p :: p in st.durableDirs ==> Solid(p) && DirsOk(d, {}, p))
    && (forall id :: id in st.durableOids ==> Durable(h, d, id))
  }

  /** The temporary file is this batch's own, unpublished. */
  ghost predicate TmpOk(d: Disk, ulids: set<Name>, t: Name, ino: nat) {
    && t in ulids && ino < d.nextIno && !Named(d, ino)
    && (TmpPath(t) in d.nsC ==> d.nsC[TmpPath(t)] == FileNode(ino))
  }

  ghost predicate PcOk(h: Bytes -> Oid, d: Disk, ulids: set<Name>, owed: set<Path>, pc: Pc) {
    match pc
    case NeedDir(data, child) =>
      child == ShardA(h(data)) || (child == ShardB(h(data)) && DirsOk(d, owed, ShardA(h(data))))
    case SyncParent(data, child) =>
      && child in d.nsC && d.nsC[child] == Dir
      && (child == ShardA(h(data)) || (child == ShardB(h(data)) && DirsOk(d, owed, ShardA(h(data)))))
    case Look(data) => DirsOk(d, owed, ShardB(h(data)))
    case Join(data) => DirsOk(d, owed, ShardB(h(data)))
    case Force(data, ino) =>
      && DirsOk(d, owed, ShardB(h(data)))
      && ObjectPath(h(data)) in d.nsC && d.nsC[ObjectPath(h(data))] == FileNode(ino)
      && h(Content(d, ino)) == h(data)
    case Writing(data, t, ino, written) =>
      && DirsOk(d, owed, ShardB(h(data))) && TmpOk(d, ulids, t, ino)
      && written <= |data| && Content(d, ino) == data[..written]
    case Linking(data, t, ino) =>
      && DirsOk(d, owed, ShardB(h(data))) && TmpOk(d, ulids, t, ino)
      && PendW(d, ino) == [] && Dur(d, ino) == data
    case _ => true
  }

  /** What a batch has promised so far holds, up to the barriers it owes. */
  ghost predicate PromisesOk(h: Bytes -> Oid, d: Disk, st: Store, bt: Batch, owed: set<Path>) {
    && st.phase.Ready?
    && (forall p :: p in bt.dirs ==> |p| == 3)
    && (!Defers(st.policy) ==> bt.pathDirs == {})
    && bt.oids <= bt.joined
    && (forall p :: p in bt.proofs ==> Solid(p) && DirsOk(d, owed, p))
    && (forall id :: id in bt.joined ==> ObjectOk(h, d, owed, id))
  }

  ghost predicate BatchOk(h: Bytes -> Oid, d: Disk, ulids: set<Name>, st: Store, bt: Batch) {
    && PromisesOk(h, d, st, bt, Owed(bt))
    && PcOk(h, d, ulids, Owed(bt), bt.pc)
    && (bt.pc.SyncParent? ==> !Defers(st.policy))
  }

  function Private(pc: Pc): set<nat> { if pc.Writing? || pc.Linking? then {pc.ino} else {} }

  ghost predicate StoresOk(h: Bytes -> Oid, d: Disk, stores: map<nat, Store>) {
    forall s :: s in stores ==> StoreOk(h, d, stores[s])
  }

  /** A batch runs on an open store and is sound. */
  ghost predicate InPlace(h: Bytes -> Oid, d: Disk, ulids: set<Name>, stores: map<nat, Store>, bt: Batch) {
    bt.store in stores && BatchOk(h, d, ulids, stores[bt.store], bt)
  }

  ghost predicate BatchesOk(h: Bytes -> Oid, d: Disk, ulids: set<Name>, stores: map<nat, Store>, batches: map<nat, Batch>) {
    forall b :: b in batches ==> InPlace(h, d, ulids, stores, batches[b])
  }

  ghost predicate Apart(batches: map<nat, Batch>) {
    forall b, c :: b in batches && c in batches && b != c ==> Private(batches[b].pc) !! Private(batches[c].pc)
  }

  ghost predicate AckedOk(h: Bytes -> Oid, d: Disk, acked: set<Oid>) { forall id :: id in acked ==> Durable(h, d, id) }

  ghost predicate Inv(h: Bytes -> Oid, w: World) {
    && WfDisk(w.disk) && StoresOk(h, w.disk, w.stores)
    && BatchesOk(h, w.disk, w.ulids, w.stores, w.batches) && Apart(w.batches)
    && AckedOk(h, w.disk, w.acked)
  }

  // ---- stability under the rest of the world -------------------------------

  lemma StoreStays(h: Bytes -> Oid, d: Disk, e: Disk, touch: set<nat>, made: set<Path>, st: Store)
    requires Grows(d, e, touch, made) && (forall i :: i in touch ==> !Named(d, i)) && StoreOk(h, d, st)
    ensures StoreOk(h, e, st)
  {
    if DirsOk(d, {}, Objects) { DirsStay(d, e, touch, made, {}, Objects); }
    forall p | p in st.durableDirs ensures DirsOk(e, {}, p) { DirsStay(d, e, touch, made, {}, p); }
    forall id | id in st.durableOids ensures Durable(h, e, id) { ObjectStays(h, d, e, touch, made, {}, id); }
  }

  lemma TmpStays(d: Disk, e: Disk, touch: set<nat>, made: set<Path>, ulids: set<Name>, more: set<Name>, t: Name, ino: nat)
    requires Grows(d, e, touch, made) && ulids <= more && TmpOk(d, ulids, t, ino)
    requires ino !in touch && TmpPath(t) !in made
    ensures TmpOk(e, more, t, ino) && Content(e, ino) == Content(d, ino)
    ensures PendW(d, ino) == [] ==> PendW(e, ino) == []
  {
    assert Same(d, e, ino) && !Kept(TmpPath(t));
  }

  lemma JoinStays(h: Bytes -> Oid, d: Disk, e: Disk, touch: set<nat>, made: set<Path>, id: Oid)
    requires WfDisk(d) && Grows(d, e, touch, made) && (forall i :: i in touch ==> !Named(d, i))
    requires Verifies(h, d, id)
    ensures Verifies(h, e, id) && e.nsC[ObjectPath(id)] == d.nsC[ObjectPath(id)]
  {
    var ino := d.nsC[ObjectPath(id)].ino;
    assert Named(d, ino);
    assert Bounded(d.nsC[ObjectPath(id)], d.nextIno);
    assert Same(d, e, ino);
  }

  lemma PcStays(h: Bytes -> Oid, d: Disk, e: Disk, touch: set<nat>, made: set<Path>,
                ulids: set<Name>, more: set<Name>, owed: set<Path>, pc: Pc)
    requires WfDisk(d) && Grows(d, e, touch, made) && (forall i :: i in touch ==> !Named(d, i)) && ulids <= more
    requires PcOk(h, d, ulids, owed, pc) && Private(pc) !! touch
    requires forall t :: t in ulids ==> TmpPath(t) !in made
    ensures PcOk(h, e, more, owed, pc)
  {
    match pc
    case NeedDir(data, child) =>
      if child != ShardA(h(data)) { DirsStay(d, e, touch, made, owed, ShardA(h(data))); }
    case SyncParent(data, child) =>
      if child != ShardA(h(data)) { DirsStay(d, e, touch, made, owed, ShardA(h(data))); }
    case Look(data) => DirsStay(d, e, touch, made, owed, ShardB(h(data)));
    case Join(data) => DirsStay(d, e, touch, made, owed, ShardB(h(data)));
    case Force(data, ino) =>
      DirsStay(d, e, touch, made, owed, ShardB(h(data)));
      JoinStays(h, d, e, touch, made, h(data));
    case Writing(data, t, ino, _) =>
      DirsStay(d, e, touch, made, owed, ShardB(h(data)));
      TmpStays(d, e, touch, made, ulids, more, t, ino);
    case Linking(data, t, ino) =>
      DirsStay(d, e, touch, made, owed, ShardB(h(data)));
      TmpStays(d, e, touch, made, ulids, more, t, ino);
    case _ =>
  }

  lemma PromisesStay(h: Bytes -> Oid, d: Disk, e: Disk, touch: set<nat>, made: set<Path>, st: Store, bt: Batch, owed: set<Path>)
    requires Grows(d, e, touch, made) && (forall i :: i in touch ==> !Named(d, i))
    requires PromisesOk(h, d, st, bt, owed)
    ensures PromisesOk(h, e, st, bt, owed)
  {
    forall p | p in bt.proofs ensures DirsOk(e, owed, p) { DirsStay(d, e, touch, made, owed, p); }
    forall id | id in bt.joined ensures ObjectOk(h, e, owed, id) { ObjectStays(h, d, e, touch, made, owed, id); }
  }

  lemma BatchStays(h: Bytes -> Oid, d: Disk, e: Disk, touch: set<nat>, made: set<Path>,
                   ulids: set<Name>, more: set<Name>, st: Store, bt: Batch)
    requires WfDisk(d) && Grows(d, e, touch, made) && (forall i :: i in touch ==> !Named(d, i)) && ulids <= more
    requires BatchOk(h, d, ulids, st, bt) && Private(bt.pc) !! touch
    requires forall t :: t in ulids ==> TmpPath(t) !in made
    ensures BatchOk(h, e, more, st, bt)
  {
    PcStays(h, d, e, touch, made, ulids, more, Owed(bt), bt.pc);
    PromisesStay(h, d, e, touch, made, st, bt, Owed(bt));
  }

  lemma StoresStay(h: Bytes -> Oid, d: Disk, e: Disk, touch: set<nat>, made: set<Path>, stores: map<nat, Store>)
    requires Grows(d, e, touch, made) && (forall i :: i in touch ==> !Named(d, i)) && StoresOk(h, d, stores)
    ensures StoresOk(h, e, stores)
  {
    forall s | s in stores ensures StoreOk(h, e, stores[s]) { StoreStays(h, d, e, touch, made, stores[s]); }
  }

  lemma AckedStay(h: Bytes -> Oid, d: Disk, e: Disk, touch: set<nat>, made: set<Path>, acked: set<Oid>)
    requires Grows(d, e, touch, made) && (forall i :: i in touch ==> !Named(d, i)) && AckedOk(h, d, acked)
    ensures AckedOk(h, e, acked)
  {
    forall id | id in acked ensures Durable(h, e, id) { ObjectStays(h, d, e, touch, made, {}, id); }
  }

  /** Batches that touch nothing stay sound when the disk grows. */
  lemma BatchesStay(h: Bytes -> Oid, d: Disk, e: Disk, made: set<Path>, ulids: set<Name>, stores: map<nat, Store>,
                    batches: map<nat, Batch>)
    requires WfDisk(d) && Grows(d, e, {}, made) && BatchesOk(h, d, ulids, stores, batches)
    requires forall t :: t in ulids ==> TmpPath(t) !in made
    ensures BatchesOk(h, e, ulids, stores, batches)
  {
    forall b | b in batches ensures InPlace(h, e, ulids, stores, batches[b]) {
      assert InPlace(h, d, ulids, stores, batches[b]);
      BatchStays(h, d, e, {}, made, ulids, ulids, stores[batches[b].store], batches[b]);
    }
  }
}
