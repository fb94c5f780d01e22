/** The publish batch as an object: its control flow, system call by system call, with
    every other store and batch free to act in between. */
module PublishBatch {
  import opened Names
  import opened Device
  import opened ObjectArea
  import opened Publish
  import opened PublishRun

  // ---- what others may do between two calls --------------------------------

  /** Not this batch's own step, not the end of its store or of the machine. */
  predicate Foreign(b: nat, s: nat, a: Action) {
    match a
    case Put(c, _) => c != b
    case Finish(c, _) => c != b
    case DropBatch(c) => c != b
    case CloseStore(t) => t != s
    case PowerCut => false
    case _ => true
  }

  /** What the others do, sweeps included as long as no cache outlives them. */
  ghost predicate OthersRun(h: Bytes -> Oid, b: nat, s: nat, w: World, acts: seq<Action>, last: World)
    decreases |acts|
  {
    if acts == [] then w == last
    else
      && Enabled(h, w, acts[0]) && Foreign(b, s, acts[0]) && Clears(w, acts[0])
      && OthersRun(h, b, s, Next(h, w, acts[0]), acts[1..], last)
  }

  /** Others can only mark a waiting batch as covered by a filesystem sync. */
  predicate Untouched(bt: Batch, after: Batch) {
    after == bt || (bt.pc.Waiting? && after == bt.(pc := Waiting(true)))
  }

  /** A step of the others leaves this batch and its store open. */
  lemma ForeignLeaves(h: Bytes -> Oid, b: nat, s: nat, w: World, a: Action)
    requires Runs(w, b) && w.batches[b].store == s && Enabled(h, w, a) && Foreign(b, s, a)
    ensures Runs(Next(h, w, a), b) && Untouched(w.batches[b], Next(h, w, a).batches[b])
  {
  }

  lemma OneForeignStep(h: Bytes -> Oid, b: nat, s: nat, w: World, a: Action)
    requires Inv(h, w) && Runs(w, b) && w.batches[b].store == s && Enabled(h, w, a) && Foreign(b, s, a) && Clears(w, a)
    ensures Inv(h, Next(h, w, a)) && Runs(Next(h, w, a), b) && Untouched(w.batches[b], Next(h, w, a).batches[b])
  {
    StepInv(h, w, a);
    ForeignLeaves(h, b, s, w, a);
  }

  /** Whatever the others do, this batch stays open, in place, and sound. */
  lemma {:induction false} OthersKeep(h: Bytes -> Oid, b: nat, s: nat, w: World, acts: seq<Action>, last: World)
    requires Inv(h, w) && Runs(w, b) && w.batches[b].store == s && OthersRun(h, b, s, w, acts, last)
    ensures Inv(h, last) && Runs(last, b) && Untouched(w.batches[b], last.batches[b])
    decreases |acts|
  {
    if acts != [] {
      OneForeignStep(h, b, s, w, acts[0]);
      OthersKeep(h, b, s, Next(h, w, acts[0]), acts[1..], last);
    }
  }

  ghost predicate Steps(h: Bytes -> Oid, w: World, v: World) { exists acts :: RunsTo(h, w, acts, v) }

  lemma StepsNone(h: Bytes -> Oid, w: World)
    ensures Steps(h, w, w)
  {
    assert RunsTo(h, w, [], w);
  }

  lemma StepsOne(h: Bytes -> Oid, w: World, a: Action)
    requires Enabled(h, w, a)
    ensures Steps(h, w, Next(h, w, a))
  {
    assert RunsTo(h, Next(h, w, a), [], Next(h, w, a));
    Cons(h, w, a, [], Next(h, w, a));
  }

  lemma {:induction false} RunsThen(h: Bytes -> Oid, w: World, acts: seq<Action>, v: World, more: seq<Action>, u: World)
    requires RunsTo(h, w, acts, v) && RunsTo(h, v, more, u)
    ensures RunsTo(h, w, acts + more, u)
    decreases |acts|
  {
    if acts == [] {
      assert acts + more == more;
    } else {
      RunsThen(h, Next(h, w, acts[0]), acts[1..], v, more, u);
      assert (acts + more)[1..] == acts[1..] + more;
    }
  }

  lemma StepsThen(h: Bytes -> Oid, w: World, v: World, u: World)
    requires Steps(h, w, v) && Steps(h, v, u)
    ensures Steps(h, w, u)
  {
    var acts :| RunsTo(h, w, acts, v);
    var more :| RunsTo(h, v, more, u);
    RunsThen(h, w, acts, v, more, u);
  }

  /** Not a step by which batch `b` publishes a proof. */
  predicate Mute(b: nat, a: Action) {
    && !(a.Finish? && a.b == b && (a.finish.RecordDirs? || a.finish.RecordOids?))
    && !(a.Put? && a.b == b)
  }

  /** A run in which batch `b` publishes no proof. */
  ghost predicate MuteRun(h: Bytes -> Oid, b: nat, w: World, acts: seq<Action>, v: World) {
    RunsTo(h, w, acts, v) && forall i :: 0 <= i < |acts| ==> Mute(b, acts[i])
  }

  ghost predicate Quiet(h: Bytes -> Oid, b: nat, w: World, v: World) { exists acts :: MuteRun(h, b, w, acts, v) }

  /** The batch's own mute steps leave every cache and the acknowledged set as they were. */
  lemma MuteTeachesNothing(h: Bytes -> Oid, b: nat, w: World, a: Action)
    requires Enabled(h, w, a) && Mute(b, a) && ((a.Finish? && a.b == b) || (a.DropBatch? && a.b == b))
    ensures Next(h, w, a).stores == w.stores && Next(h, w, a).acked == w.acked
  {
    if a.Finish? {
      var s := w.batches[b].store;
      assert w.stores[s := w.stores[s]] == w.stores;
    }
  }

  lemma QuietNone(h: Bytes -> Oid, b: nat, w: World)
    ensures Quiet(h, b, w, w)
  {
    assert MuteRun(h, b, w, [], w);
  }

  lemma QuietOne(h: Bytes -> Oid, b: nat, w: World, a: Action)
    requires Enabled(h, w, a) && Mute(b, a)
    ensures Quiet(h, b, w, Next(h, w, a))
  {
    var v := Next(h, w, a);
    assert RunsTo(h, v, [], v);
    Cons(h, w, a, [], v);
    assert MuteRun(h, b, w, [a] + [], v);
  }

  lemma QuietThen(h: Bytes -> Oid, b: nat, w: World, v: World, u: World)
    requires Quiet(h, b, w, v) && Quiet(h, b, v, u)
    ensures Quiet(h, b, w, u)
  {
    var acts :| MuteRun(h, b, w, acts, v);
    var more :| MuteRun(h, b, v, more, u);
    RunsThen(h, w, acts, v, more, u);
    assert MuteRun(h, b, w, acts + more, u);
  }

  lemma QuietSteps(h: Bytes -> Oid, b: nat, w: World, v: World)
    requires Quiet(h, b, w, v)
    ensures Steps(h, w, v)
  {
    var acts :| MuteRun(h, b, w, acts, v);
  }

  lemma {:induction false} FreshName(used: set<Name>) returns (n: Name)
    ensures n !in used && forall m :: m in used ==> |m| < |n|
  {
    if used == {} {
      n := "u";
    } else {
      var m :| m in used;
      var k := FreshName(used - {m});
      n := if |m| < |k| then k else m + "u";
    }
  }

  lemma PutNeverWaits(h: Bytes -> Oid, d: Disk, ulids: set<Name>, st: Store, bt: Batch, step: PutStep)
    requires PutEnabled(h, d, ulids, st, bt, step)
    ensures !PutBatch(h, d, ulids, st, bt, step).pc.Waiting?
  {
  }

  /** What one put step of batch `b` leaves. */
  function After(h: Bytes -> Oid, w: World, b: nat, step: PutStep): World
    requires Runs(w, b) && PutEnabled(h, w.disk, w.ulids, w.stores[w.batches[b].store], w.batches[b], step)
  {
    var bt := w.batches[b];
    var st := w.stores[bt.store];
    w.(disk := PutDisk(h, w.disk, w.ulids, st, bt, step),
       stores := w.stores[bt.store := PutStore(st, bt, step)],
       batches := w.batches[b := PutBatch(h, w.disk, w.ulids, st, bt, step)],
       ulids := if step.CreateTmp? then w.ulids + {step.tmp} else w.ulids)
  }

  lemma OwnStep(h: Bytes -> Oid, w: World, b: nat, s: nat, step: PutStep)
    requires Inv(h, w) && Runs(w, b) && w.batches[b].store == s
    requires PutEnabled(h, w.disk, w.ulids, w.stores[w.batches[b].store], w.batches[b], step)
    ensures var v := After(h, w, b, step);
      Inv(h, v) && Runs(v, b) && v.batches[b].store == s && Steps(h, w, v)
  {
    PutInv(h, w, b, step);
    StepsOne(h, w, Put(b, step));
    PutPrivate(h, w.disk, w.ulids, w.stores[w.batches[b].store], w.batches[b], step);
  }

  function AfterFinish(w: World, b: nat, step: FinishStep): World
    requires Runs(w, b) && FinishEnabled(w.batches[b], step) && !step.RecordOids?
  {
    var bt := w.batches[b];
    var st := w.stores[bt.store];
    w.(disk := if step.SyncOne? then FlushDir(w.disk, step.dir, None) else w.disk,
       stores := w.stores[bt.store := FinishStore(st, bt, step)],
       batches := w.batches[b := FinishBatch(st, bt, step)])
  }

  lemma OwnFinishStep(h: Bytes -> Oid, w: World, b: nat, s: nat, step: FinishStep)
    requires Inv(h, w) && Runs(w, b) && w.batches[b].store == s && FinishEnabled(w.batches[b], step) && !step.RecordOids?
    ensures var v := AfterFinish(w, b, step);
      && Inv(h, v) && Runs(v, b) && v.batches[b].store == s && Steps(h, w, v)
      && (!step.RecordDirs? ==> Quiet(h, b, w, v))
  {
    FinishInv(h, w, b, step);
    StepsOne(h, w, Finish(b, step));
    if !step.RecordDirs? { QuietOne(h, b, w, Finish(b, step)); }
    assert AfterFinish(w, b, step) == Next(h, w, Finish(b, step));
  }

  method Listing<T(==)>(xs: set<T>) returns (q: seq<T>)
    ensures forall x :: x in xs <==> x in q
  {
    q := [];
    var rest := xs;
    while rest != {}
      invariant rest <= xs && forall x :: x in xs <==> x in rest || x in q
      decreases rest
    {
      var x :| x in rest;
      q := q + [x];
      rest := rest - {x};
    }
  }

  lemma ListedCovers(d: Disk, dirs: seq<Path>, inos: seq<nat>)
    requires WfDisk(d)
    requires (forall x :: x in d.pendNs.Keys <==> x in dirs) && (forall x :: x in d.pendW.Keys <==> x in inos)
    ensures CoversPending(d, dirs, inos) && forall i :: i in inos ==> i < d.nextIno
  {
  }

  lemma OwnSync(h: Bytes -> Oid, w: World, b: nat, s: nat, dirs: seq<Path>, inos: seq<nat>)
    requires Inv(h, w) && Runs(w, b) && w.batches[b].store == s && Enabled(h, w, SyncEverything(dirs, inos))
    ensures var v := w.(disk := SyncFs(w.disk, dirs, inos), batches := Covered(w.batches));
      && Inv(h, v) && Runs(v, b) && v.batches[b].store == s && Quiet(h, b, w, v)
      && v.batches[b] == if w.batches[b].pc.Waiting? then w.batches[b].(pc := Waiting(true)) else w.batches[b]
  {
    var v := Next(h, w, SyncEverything(dirs, inos));
    SyncEverythingInv(h, w, dirs, inos);
    QuietOne(h, b, w, SyncEverything(dirs, inos));
    ForeignLeaves(h, b, s, w, SyncEverything(dirs, inos));
    assert v == w.(disk := SyncFs(w.disk, dirs, inos), batches := Covered(w.batches));
  }

  /** None of the fallible calls from the first number up to the second fails. */
  predicate Faultless(faults: set<nat>, start: nat, end: nat)
    decreases end - start
  {
    start >= end || (start !in faults && Faultless(faults, start + 1, end))
  }

  lemma {:induction false} FaultlessMeans(faults: set<nat>, start: nat, end: nat)
    ensures Faultless(faults, start, end) <==> forall k :: start <= k < end ==> k !in faults
    decreases end - start
  {
    if start < end { FaultlessMeans(faults, start + 1, end); }
  }

  lemma FaultlessOne(faults: set<nat>, i: nat)
    ensures Faultless(faults, i, i) && (Faultless(faults, i, i + 1) <==> i !in faults)
  {
  }

  lemma FaultlessJoin(faults: set<nat>, i: nat, j: nat, k: nat)
    requires i <= j <= k
    ensures Faultless(faults, i, k) <==> Faultless(faults, i, j) && Faultless(faults, j, k)
  {
    FaultlessMeans(faults, i, k);
    FaultlessMeans(faults, i, j);
    FaultlessMeans(faults, j, k);
  }

  /** The disk stands in the way of the batch's next step: a shard path that is no
      directory, an existing object that does not verify, or a temporary file that is
      gone while the object is not there either. */
  predicate Obstructed(h: Bytes -> Oid, w: World, b: nat) {
    Runs(w, b) && match w.batches[b].pc
    case NeedDir(_, child) => child in w.disk.nsC && w.disk.nsC[child] != Dir
    case Join(data) => !Verifies(h, w.disk, h(data))
    case Linking(data, t, _) => ObjectPath(h(data)) !in w.disk.nsC && TmpPath(t) !in w.disk.nsC
    case _ => false
  }

  /** On the way from one world to the other the batch met an obstruction. */
  ghost predicate Hindered(h: Bytes -> Oid, b: nat, w: World, u: World) {
    exists v :: Steps(h, w, v) && Steps(h, v, u) && Obstructed(h, v, b)
  }

  lemma HinderedAfter(h: Bytes -> Oid, b: nat, w: World, v: World, u: World)
    requires Steps(h, w, v) && Steps(h, v, u)
    ensures Hindered(h, b, v, u) ==> Hindered(h, b, w, u)
    ensures Hindered(h, b, w, v) ==> Hindered(h, b, w, u)
  {
    if Hindered(h, b, v, u) {
      var x :| Steps(h, v, x) && Steps(h, x, u) && Obstructed(h, x, b);
      StepsThen(h, w, v, x);
    }
    if Hindered(h, b, w, v) {
      var x :| Steps(h, w, x) && Steps(h, x, v) && Obstructed(h, x, b);
      StepsThen(h, x, v, u);
    }
  }

  lemma Onward(h: Bytes -> Oid, b: nat, w: World, v: World, u: World)
    requires Steps(h, w, v) && Steps(h, v, u)
    ensures Steps(h, w, u)
    ensures Hindered(h, b, v, u) || Hindered(h, b, w, v) ==> Hindered(h, b, w, u)
  {
    StepsThen(h, w, v, u);
    HinderedAfter(h, b, w, v, u);
  }

  lemma HinderedHere(h: Bytes -> Oid, b: nat, w: World, u: World)
    requires Obstructed(h, w, b) && Steps(h, w, u)
    ensures Hindered(h, b, w, u)
  {
    StepsNone(h, w);
  }

  /** Under the collapsed policy, two or more owed directories take one shared sync. */
  predicate SharesSync(st: Store, bt: Batch) { st.policy == Collapsed && 2 <= |bt.pathDirs| + |bt.dirs| }

  /** What the batch has joined, and of that what it will record. */
  predicate SameGains(bt: Batch, after: Batch) { after.joined == bt.joined && after.oids == bt.oids && after.proofs == bt.proofs }

  /** The store takes these objects for durable. */
  predicate Remembers(w: World, s: nat, ids: set<Oid>) { s in w.stores && ids <= w.stores[s].durableOids }

  /** Acknowledged, and surviving any power cut. */
  ghost predicate Settled(h: Bytes -> Oid, w: World, ids: set<Oid>) {
    ids <= w.acked && forall id :: id in ids ==> Durable(h, w.disk, id)
  }

  class PublishBatch {
    const h: Bytes -> Oid
    const b: nat
    const s: nat
    /** Which of the fallible calls fail, counted from the first. */
    const faults: set<nat>
    var calls: nat
    var world: World

    ghost predicate Valid()
      reads this
    {
      Inv(h, world) && Runs(world, b) && world.batches[b].store == s
    }

    function Mine(): Batch
      requires Runs(world, b)
      reads this
    {
      world.batches[b]
    }

    function MyStore(): Store
      requires Runs(world, b)
      reads this
    {
      world.stores[world.batches[b].store]
    }

    /** `begin_batch`. */
    constructor (h: Bytes -> Oid, w: World, b: nat, s: nat, faults: set<nat>)
      requires Inv(h, w) && b !in w.batches && s in w.stores && w.stores[s].phase.Ready?
      ensures Valid() && world == Next(h, w, BeginBatch(b, s))
      ensures this.h == h && this.b == b && this.s == s && this.faults == faults && calls == 0
    {
      this.h, this.b, this.s, this.faults, calls := h, b, s, faults, 0;
      world := w.(batches := w.batches[b := Batch(s, {}, {}, {}, {}, {}, Idle)]);
      new;
      BeginBatchInv(h, w, b, s);
    }

    /** Anything the rest of the system does before the next system call. */
    method Others()
      requires Valid()
      modifies this
      ensures Valid() && Untouched(old(Mine()), Mine())
      ensures exists acts :: OthersRun(h, b, s, old(world), acts, world)
      ensures Steps(h, old(world), world) && Quiet(h, b, old(world), world) && calls == old(calls)
    {
      assert OthersRun(h, b, s, world, [], world);
      StepsNone(h, world);
      QuietNone(h, b, world);
    }

    /** Whether the next fallible call fails. */
    method Faulty() returns (failed: bool)
      requires Valid()
      modifies this`calls
      ensures Valid() && Mine() == old(Mine()) && MyStore() == old(MyStore())
      ensures failed == (old(calls) in faults) && calls == old(calls) + 1
    {
      failed := calls in faults;
      calls := calls + 1;
    }

    /** One step of this batch's own put, and then whatever the others do. */
    method Do(step: PutStep)
      requires Valid() && PutEnabled(h, world.disk, world.ulids, MyStore(), Mine(), step)
      modifies this
      ensures Valid() && Steps(h, old(world), world) && calls == old(calls)
      ensures Mine() == PutBatch(h, old(world.disk), old(world.ulids), old(MyStore()), old(Mine()), step)
    {
      ghost var before := world;
      var bt := Mine();
      var st := MyStore();
      OwnStep(h, world, b, s, step);
      world := After(h, world, b, step);
      ghost var mid := world;
      PutNeverWaits(h, before.disk, before.ulids, st, bt, step);
      Others();
      StepsThen(h, before, mid, world);
    }

    /** `ensure_path_dir`: through the cache, or made and proved, or made and owed. */
    method EnsurePathDir() returns (ok: bool)
      requires Valid() && Mine().pc.NeedDir? && Mine().pc.child != []
      modifies this
      ensures Valid() && Steps(h, old(world), world)
      ensures var bt := old(Mine());
        && Mine().joined == bt.joined && Mine().oids == bt.oids && Mine().dirs == bt.dirs
        && Mine().pc == if ok then AfterDir(h(bt.pc.data), bt.pc.data, bt.pc.child) else Idle
      ensures calls >= old(calls) && (ok ==> Faultless(faults, old(calls), calls))
      ensures !ok ==> !Faultless(faults, old(calls), calls) || Hindered(h, b, old(world), world)
      ensures old(Mine()).pc.child in old(MyStore()).durableDirs ==>
        ok && calls == old(calls) && Mine().pathDirs == old(Mine()).pathDirs && Mine().proofs == old(Mine()).proofs
    {
      ghost var w0 := world;
      ghost var c0 := calls;
      FaultlessOne(faults, c0);
      var child := Mine().pc.child;
      if child in MyStore().durableDirs {
        Do(DirHit);
        return true;
      }
      if child in world.disk.nsC && world.disk.nsC[child] != Dir {
        Do(Fail);
        HinderedHere(h, b, w0, world);
        return false;
      }
      ok := Attempt(DirMake);
      if ok && Mine().pc.SyncParent? {
        ghost var w1, c1 := world, calls;
        ok := Attempt(DirSync);
        Onward(h, b, w0, w1, world);
        FaultlessJoin(faults, c0, c1, calls);
      }
    }

    /** Joining bytes that are already there: through the cache, or forced. */
    method JoinExisting() returns (ok: bool)
      requires Valid() && Mine().pc.Join?
      modifies this
      ensures Valid() && Steps(h, old(world), world) && Mine().pc.Idle?
      ensures ok ==> Mine().joined == old(Mine().joined) + {h(old(Mine().pc.data))}
      ensures !ok ==> Mine().joined == old(Mine().joined)
      ensures calls >= old(calls) && (ok ==> Faultless(faults, old(calls), calls))
      ensures !ok ==> !Faultless(faults, old(calls), calls) || Hindered(h, b, old(world), world)
      ensures var bt, id := old(Mine()), h(old(Mine().pc.data));
        if !Verifies(h, old(world.disk), id) then !ok
        else if id in old(MyStore()).durableOids then ok && calls == old(calls) && Mine() == bt.(joined := bt.joined + {id}, pc := Idle)
        else ok ==> Mine() == Joins(bt, id)
    {
      ghost var w0 := world;
      FaultlessOne(faults, calls);
      var id := h(Mine().pc.data);
      if !Verifies(h, world.disk, id) {
        Do(Fail);
        HinderedHere(h, b, w0, world);
        return false;
      }
      if id in MyStore().durableOids {
        Do(JoinCached);
        return true;
      }
      Do(JoinVerify);
      ghost var w1 := world;
      ok := Attempt(JoinSync);
      Onward(h, b, w0, w1, world);
    }

    /** A step that may fail, and then whatever the others do. */
    method Attempt(step: PutStep) returns (ok: bool)
      requires Valid() && InPut(Mine().pc)
      requires PutEnabled(h, world.disk, world.ulids, MyStore(), Mine(), step)
      modifies this
      ensures Valid() && Steps(h, old(world), world) && calls == old(calls) + 1
      ensures ok <==> Faultless(faults, old(calls), calls)
      ensures ok ==> Mine() == PutBatch(h, old(world.disk), old(world.ulids), old(MyStore()), old(Mine()), step)
      ensures !ok ==> Mine() == old(Mine()).(pc := Idle)
    {
      FaultlessOne(faults, calls);
      var failed := Faulty();
      ok := !failed;
      Do(if ok then step else Fail);
    }

    method WriteOne() returns (ok: bool)
      requires Valid() && Mine().pc.Writing? && Mine().pc.written < |Mine().pc.data|
      modifies this
      ensures Valid() && Steps(h, old(world), world) && Mine().joined == old(Mine().joined)
      ensures ok ==> Mine().pc == old(Mine()).pc.(written := old(Mine()).pc.written + 1)
      ensures !ok ==> Mine().pc.Idle?
      ensures calls == old(calls) + 1 && (ok <==> Faultless(faults, old(calls), calls))
    {
      WriteShape(h, world.disk, world.ulids, MyStore(), Mine(), 1);
      ok := Attempt(WriteSome(1));
    }

    method ForceTmp() returns (ok: bool)
      requires Valid() && Mine().pc.Writing? && Mine().pc.written == |Mine().pc.data|
      modifies this
      ensures Valid() && Steps(h, old(world), world) && Mine().joined == old(Mine().joined)
      ensures if ok then Mine().pc.Linking? && Mine().pc.data == old(Mine()).pc.data else Mine().pc.Idle?
      ensures calls == old(calls) + 1 && (ok <==> Faultless(faults, old(calls), calls))
    {
      ok := Attempt(SyncTmp);
    }

    /** A fresh temporary file. */
    method StartTmp() returns (ok: bool)
      requires Valid() && Mine().pc.Look? && ObjectPath(h(Mine().pc.data)) !in world.disk.nsC
      modifies this
      ensures Valid() && Steps(h, old(world), world) && Mine().joined == old(Mine().joined)
      ensures ok ==> Mine().pc.Writing? && Mine().pc.written == 0 && Mine().pc.data == old(Mine()).pc.data
      ensures !ok ==> Mine().pc.Idle?
      ensures calls == old(calls) + 1 && (ok <==> Faultless(faults, old(calls), calls))
    {
      var tmp := NewTmp();
      ok := Attempt(CreateTmp(tmp));
    }

    /** Write every part to the temporary file. */
    method WriteAll() returns (ok: bool)
      requires Valid() && Mine().pc.Writing?  && Mine().pc.written <= |Mine().pc.data|
      modifies this
      ensures Valid() && Steps(h, old(world), world) && Mine().joined == old(Mine().joined)
      ensures Mine().pc == if ok then old(Mine()).pc.(written := |old(Mine()).pc.data|) else Idle
      ensures calls >= old(calls) && (ok <==> Faultless(faults, old(calls), calls))
    {
      ghost var w0, bt, c0 := world, Mine(), calls;
      var size := |Mine().pc.data|;
      StepsNone(h, world);
      FaultlessOne(faults, c0);
      while Mine().pc.written < size
        invariant Valid() && Steps(h, w0, world) && Mine().joined == bt.joined
        invariant Mine().pc.Writing? && Mine().pc.written <= size && Mine().pc == bt.pc.(written := Mine().pc.written)
        invariant calls >= c0 && Faultless(faults, c0, calls)
        decreases size - Mine().pc.written
      {
        ghost var w1, c1 := world, calls;
        ok := WriteOne();
        StepsThen(h, w0, w1, world);
        FaultlessJoin(faults, c0, c1, calls);
        if !ok {
          return;
        }
      }
      ok := true;
    }

    /** Write, force and link a temporary file. */
    method PublishNew() returns (ok: bool)
      requires Valid() && Mine().pc.Writing? && Mine().pc.written == 0
      modifies this
      ensures Valid() && Steps(h, old(world), world) && Mine().pc.Idle?
      ensures ok ==> Mine().joined == old(Mine().joined) + {h(old(Mine().pc.data))}
      ensures !ok ==> Mine().joined == old(Mine().joined)
      ensures calls >= old(calls) && (ok ==> Faultless(faults, old(calls), calls))
      ensures !ok ==> !Faultless(faults, old(calls), calls) || Hindered(h, b, old(world), world)
    {
      ghost var w0, c0 := world, calls;
      ok := WriteForced();
      if !ok {
        return;
      }
      ghost var w1, c1 := world, calls;
      ok := LinkDown();
      Onward(h, b, w0, w1, world);
      FaultlessJoin(faults, c0, c1, calls);
    }

    /** Write the temporary file and force its bytes. */
    method WriteForced() returns (ok: bool)
      requires Valid() && Mine().pc.Writing? && Mine().pc.written == 0
      modifies this
      ensures Valid() && Steps(h, old(world), world) && Mine().joined == old(Mine().joined)
      ensures if ok then Mine().pc.Linking? && Mine().pc.data == old(Mine()).pc.data else Mine().pc.Idle?
      ensures calls >= old(calls) && (ok <==> Faultless(faults, old(calls), calls))
    {
      ghost var w0, c0 := world, calls;
      ok := WriteAll();
      if !ok {
        return;
      }
      ghost var w1, c1 := world, calls;
      ok := ForceTmp();
      StepsThen(h, w0, w1, world);
      FaultlessJoin(faults, c0, c1, calls);
    }

    method LinkDown() returns (ok: bool)
      requires Valid() && Mine().pc.Linking?
      modifies this
      ensures Valid() && Steps(h, old(world), world) && Mine().pc.Idle?
      ensures ok ==> Mine().joined == old(Mine().joined) + {h(old(Mine().pc.data))}
      ensures !ok ==> Mine().joined == old(Mine().joined)
      ensures calls >= old(calls) && (ok ==> Faultless(faults, old(calls), calls))
      ensures !ok ==> !Faultless(faults, old(calls), calls) || Hindered(h, b, old(world), world)
    {
      ghost var w0 := world;
      if ObjectPath(h(Mine().pc.data)) in world.disk.nsC {
        Do(LinkTaken);
        ghost var w1 := world;
        ok := JoinExisting();
        Onward(h, b, w0, w1, world);
      } else if TmpPath(Mine().pc.tmp) !in world.disk.nsC {
        Do(Fail);
        HinderedHere(h, b, w0, world);
        ok := false;
      } else {
        ok := Attempt(LinkNew);
      }
    }

    /** `put_parts`: on success the identity of the bytes is among what the batch has
        joined; a failure leaves the batch usable and promises nothing new, and comes only
        of a failed call or of an obstruction on the disk. */
    method PutParts(data: Bytes) returns (r: Option<Oid>)
      requires Valid() && Mine().pc.Idle?
      modifies this
      ensures Valid() && Steps(h, old(world), world) && Mine().pc.Idle?
      ensures r.Some? ==> r.value == h(data) && Mine().joined == old(Mine().joined) + {h(data)}
      ensures r.None? ==> Mine().joined == old(Mine().joined)
      ensures calls >= old(calls) && (r.Some? ==> Faultless(faults, old(calls), calls))
      ensures r.None? ==> !Faultless(faults, old(calls), calls) || Hindered(h, b, old(world), world)
    {
      ghost var w0, c0 := world, calls;
      var ok := FindPath(data);
      if !ok {
        return None;
      }
      ghost var w1, c1 := world, calls;
      ok := PutAt();
      Onward(h, b, w0, w1, world);
      FaultlessJoin(faults, c0, c1, calls);
      r := if ok then Some(h(data)) else None;
    }

    /** Prove or owe both shard directories. */
    method FindPath(data: Bytes) returns (ok: bool)
      requires Valid() && Mine().pc.Idle?
      modifies this
      ensures Valid() && Steps(h, old(world), world) && Mine().joined == old(Mine().joined)
      ensures Mine().pc == if ok then Look(data) else Idle
      ensures calls >= old(calls) && (ok ==> Faultless(faults, old(calls), calls))
      ensures !ok ==> !Faultless(faults, old(calls), calls) || Hindered(h, b, old(world), world)
    {
      ghost var w0, c0 := world, calls;
      Do(Begin(data));
      ghost var w1 := world;
      ok := EnsurePathDir();
      Onward(h, b, w0, w1, world);
      if !ok {
        return;
      }
      ghost var w2, c2 := world, calls;
      ok := EnsurePathDir();
      Onward(h, b, w0, w2, world);
      FaultlessJoin(faults, c0, c2, calls);
    }

    /** Join what is there, or publish a new file. */
    method PutAt() returns (ok: bool)
      requires Valid() && Mine().pc.Look?
      modifies this
      ensures Valid() && Steps(h, old(world), world) && Mine().pc.Idle?
      ensures ok ==> Mine().joined == old(Mine().joined) + {h(old(Mine().pc.data))}
      ensures !ok ==> Mine().joined == old(Mine().joined)
      ensures calls >= old(calls) && (ok ==> Faultless(faults, old(calls), calls))
      ensures !ok ==> !Faultless(faults, old(calls), calls) || Hindered(h, b, old(world), world)
    {
      ghost var w0, c0 := world, calls;
      if ObjectPath(h(Mine().pc.data)) in world.disk.nsC {
        Do(Found);
        ghost var w1 := world;
        ok := JoinExisting();
        Onward(h, b, w0, w1, world);
      } else {
        ok := StartTmp();
        if ok {
          ghost var w1, c1 := world, calls;
          ok := PublishNew();
          Onward(h, b, w0, w1, world);
          FaultlessJoin(faults, c0, c1, calls);
        }
      }
    }

    /** A name no temporary file has or had. */
    method NewTmp() returns (tmp: Name)
      ensures tmp !in world.ulids && TmpPath(tmp) !in world.disk.nsC
    {
      ghost var used := world.ulids + set p | p in world.disk.nsC && |p| == 2 :: p[1];
      ghost var n := FreshName(used);
      assert n !in used;
      tmp :| tmp !in world.ulids && TmpPath(tmp) !in world.disk.nsC;
    }

    /** One barrier or record step of `finish`, and then whatever the others do. */
    method DoFinish(step: FinishStep)
      requires Valid() && FinishEnabled(Mine(), step) && !step.RecordOids?
      modifies this
      ensures Valid() && Steps(h, old(world), world)
      ensures !step.RecordDirs? ==> Quiet(h, b, old(world), world)
      ensures Untouched(FinishBatch(old(MyStore()), old(Mine()), step), Mine())
      ensures calls == old(calls)
    {
      ghost var before := world;
      OwnFinishStep(h, world, b, s, step);
      world := AfterFinish(world, b, step);
      ghost var mid := world;
      Others();
      StepsThen(h, before, mid, world);
      if !step.RecordDirs? { QuietThen(h, b, before, mid, world); }
    }

    /** Lead a filesystem-wide sync: everything pending reaches the device. */
    method LeadSync()
      requires Valid()
      modifies this
      ensures Valid() && Quiet(h, b, old(world), world)
      ensures Mine() == if old(Mine()).pc.Waiting? then old(Mine()).(pc := Waiting(true)) else old(Mine())
      ensures calls == old(calls)
    {
      var dirs, inos := Pending();
      SyncAll(dirs, inos);
    }

    /** Everything with something pending. */
    method Pending() returns (dirs: seq<Path>, inos: seq<nat>)
      requires Valid()
      ensures Enabled(h, world, SyncEverything(dirs, inos))
    {
      dirs := Listing(world.disk.pendNs.Keys);
      inos := Listing(world.disk.pendW.Keys);
      ListedCovers(world.disk, dirs, inos);
    }

    method SyncAll(dirs: seq<Path>, inos: seq<nat>)
      requires Valid() && Enabled(h, world, SyncEverything(dirs, inos))
      modifies this`world
      ensures Valid() && Quiet(h, b, old(world), world)
      ensures Mine() == if old(Mine()).pc.Waiting? then old(Mine()).(pc := Waiting(true)) else old(Mine())
    {
      OwnSync(h, world, b, s, dirs, inos);
      world := world.(disk := SyncFs(world.disk, dirs, inos), batches := Covered(world.batches));
    }

    /** A failed or dropped batch teaches nobody anything. */
    method Drop()
      requires Valid()
      modifies this
      ensures Inv(h, world) && Quiet(h, b, old(world), world) && b !in world.batches
      ensures world.acked == old(world.acked) && world.stores == old(world.stores)
      ensures calls == old(calls)
    {
      LeaveInv(h, world, DropBatch(b));
      QuietOne(h, b, world, DropBatch(b));
      world := world.(batches := world.batches - {b});
    }

    method SyncDir(dir: Path) returns (ok: bool)
      requires Valid() && Mine().pc.Syncing? && dir in Mine().pc.todo
      modifies this
      ensures Valid() && Quiet(h, b, old(world), world) && SameGains(old(Mine()), Mine()) && Mine().pc.Syncing?
      ensures ok ==> Mine().pc.todo == old(Mine()).pc.todo - {dir}
      ensures calls >= old(calls) && (ok <==> Faultless(faults, old(calls), calls))
    {
      FaultlessOne(faults, calls);
      var failed := Faulty();
      ok := !failed;
      if ok {
        DoFinish(SyncOne(dir));
      } else {
        QuietNone(h, b, world);
      }
    }

    /** The ordinary barrier phase: each owed directory in turn. */
    method SyncDirs() returns (ok: bool)
      requires Valid() && Mine().pc.Syncing?
      modifies this
      ensures Valid() && Quiet(h, b, old(world), world) && SameGains(old(Mine()), Mine())
      ensures ok ==> Mine().pc == Syncing({})
      ensures calls >= old(calls) && (ok <==> Faultless(faults, old(calls), calls))
    {
      ghost var w0, c0, bt := world, calls, Mine();
      QuietNone(h, b, world);
      FaultlessOne(faults, c0);
      while Mine().pc.todo != {}
        invariant Valid() && Quiet(h, b, w0, world) && SameGains(bt, Mine()) && Mine().pc.Syncing?
        invariant calls >= c0 && Faultless(faults, c0, calls)
        decreases Mine().pc.todo
      {
        var dir :| dir in Mine().pc.todo;
        ghost var w1, c1 := world, calls;
        ok := SyncDir(dir);
        QuietThen(h, b, w0, w1, world);
        FaultlessJoin(faults, c0, c1, calls);
        if !ok {
          return;
        }
      }
      ok := true;
    }

    /** The shared sync: follow one that another batch completed since this one
        registered, or lead it. */
    method ShareSync() returns (ok: bool)
      requires Valid() && Mine().pc.Waiting?
      modifies this
      ensures Valid() && Quiet(h, b, old(world), world) && SameGains(old(Mine()), Mine())
      ensures ok ==> Mine().pc == Waiting(true)
      ensures calls >= old(calls) && (ok <==> Faultless(faults, old(calls), calls))
    {
      ghost var w0 := world;
      FaultlessOne(faults, calls);
      Others();
      if Mine().pc.covered {
        return true;
      }
      var failed := Faulty();
      if failed {
        return false;
      }
      ghost var w1 := world;
      LeadSync();
      QuietThen(h, b, w0, w1, world);
      ok := true;
    }

    /** The whole barrier phase: one shared sync, or the directories one by one. */
    method Barriers() returns (ok: bool)
      requires Valid() && Mine().pc.Idle?
      modifies this
      ensures Valid() && Quiet(h, b, old(world), world) && SameGains(old(Mine()), Mine())
      ensures ok ==> Mine().pc == if SharesSync(old(MyStore()), old(Mine())) then Waiting(true) else Syncing({})
      ensures calls >= old(calls) && (ok <==> Faultless(faults, old(calls), calls))
    {
      ghost var w0 := world;
      StartBarriers();
      ghost var w1 := world;
      if Mine().pc.Waiting? {
        ok := ShareSync();
      } else {
        ok := SyncDirs();
      }
      QuietThen(h, b, w0, w1, world);
    }

    method StartBarriers()
      requires Valid() && Mine().pc.Idle?
      modifies this
      ensures Valid() && Quiet(h, b, old(world), world) && calls == old(calls) && SameGains(old(Mine()), Mine())
      ensures if SharesSync(old(MyStore()), old(Mine())) then Mine().pc.Waiting? else Mine().pc.Syncing?
    {
      DoFinish(BeginFinish);
    }

    /** `finish`: Ok means everything the batch put or joined is durable and
        acknowledged; otherwise the batch is gone and has published no proof. */
    method FinishAll() returns (ok: bool)
      requires Valid() && Mine().pc.Idle?
      modifies this
      ensures Inv(h, world) && Steps(h, old(world), world) && b !in world.batches
      ensures ok ==> Settled(h, world, old(Mine()).joined) && Remembers(world, s, old(Mine()).oids)
      ensures !ok ==> Quiet(h, b, old(world), world)
      ensures calls >= old(calls) && (ok <==> Faultless(faults, old(calls), calls))
    {
      ghost var w0 := world;
      ok := Barriers();
      ghost var w1 := world;
      QuietSteps(h, b, w0, w1);
      if ok {
        Record();
        StepsThen(h, w0, w1, world);
      } else {
        Drop();
        QuietThen(h, b, w0, w1, world);
        QuietSteps(h, b, w0, world);
      }
    }

    /** The sole point where proofs are published. */
    method Record()
      requires Valid() && (Mine().pc == Syncing({}) || Mine().pc == Waiting(true))
      modifies this
      ensures Inv(h, world) && Steps(h, old(world), world) && b !in world.batches
      ensures Settled(h, world, old(Mine()).joined)
      ensures Remembers(world, s, old(Mine()).oids)
      ensures calls == old(calls)
    {
      ghost var w0 := world;
      DoFinish(AllSynced);
      ghost var w1 := world;
      DoFinish(RecordDirs);
      StepsThen(h, w0, w1, world);
      ghost var w2 := world;
      Acknowledge();
      StepsThen(h, w0, w2, world);
    }

    /** Publish the object proofs and return. */
    method Acknowledge()
      requires Valid() && Mine().pc.RecordingOids?
      modifies this
      ensures Inv(h, world) && Steps(h, old(world), world) && b !in world.batches
      ensures Settled(h, world, old(Mine()).joined)
      ensures Remembers(world, s, old(Mine()).oids)
      ensures calls == old(calls)
    {
      var bt := Mine();
      var st := MyStore();
      RecordInv(h, world, b);
      StepsOne(h, world, Finish(b, RecordOids));
      world := world.(stores := world.stores[bt.store := FinishStore(st, bt, RecordOids)],
                      batches := world.batches - {b}, acked := world.acked + bt.joined);
    }
  }
}
