/** What sweeps do to the durability theorem: it holds in every run exactly when a
    sweep clears the swept object from every open store's proof cache. */
module StaleProof {
  import opened Names
  import opened Device
  import opened ObjectArea
  import opened Publish
  import opened PublishRun

  /** A sweep clears the proofs of these stores and of no others. */
  ghost predicate Follows(clears: nat -> bool, w: World, a: Action) {
    a.Sweep? ==> forall s :: s in w.stores ==> (s in a.cleared <==> clears(s))
  }

  /** A history in which sweeps behave so, up to `v`. */
  ghost predicate Leads(h: Bytes -> Oid, clears: nat -> bool, acts: seq<Action>, ws: seq<World>, v: World) {
    && Run(h, acts, ws) && ws[|acts|] == v
    && forall i :: 0 <= i < |acts| ==> Follows(clears, ws[i], acts[i])
  }

  ghost predicate Reached(h: Bytes -> Oid, clears: nat -> bool, v: World) { exists acts, ws :: Leads(h, clears, acts, ws, v) }

  /** Whatever has been acknowledged, and not been swept since, survives a power cut. */
  ghost predicate KeepsAcked(h: Bytes -> Oid, clears: nat -> bool) {
    forall v, id :: Reached(h, clears, v) && id in v.acked ==> SurvivesCut(h, v.disk, id)
  }

  /** Over all runs with sweeps, acknowledged objects survive every cut if and only if
      sweeps clear every store's cache. */
  lemma AckedSurviveIffAllCleared(h: Bytes -> Oid, clears: nat -> bool)
    ensures KeepsAcked(h, clears) <==> forall s :: clears(s)
  {
    if s :| !clears(s) {
      var v := StaleHappens(h, clears, s);
      v := StaleProofAcknowledges(h, clears, v, s, 3, []);
    } else {
      forall v, id | Reached(h, clears, v) && id in v.acked ensures SurvivesCut(h, v.disk, id) {
        var acts, ws :| Leads(h, clears, acts, ws, v);
        forall i | 0 <= i < |acts| ensures Clears(ws[i], acts[i]) { assert Follows(clears, ws[i], acts[i]); }
        AckedSurvives(h, acts, ws, |acts|, id);
      }
    }
  }

  // ---- runs step by step ---------------------------------------------------

  lemma Step(h: Bytes -> Oid, clears: nat -> bool, v: World, a: Action) returns (u: World)
    requires Reached(h, clears, v) && Enabled(h, v, a) && Follows(clears, v, a)
    ensures Reached(h, clears, u) && u == Next(h, v, a)
  {
    var acts, ws :| Leads(h, clears, acts, ws, v);
    u := Next(h, v, a);
    LeadsOn(h, clears, acts, ws, v, a, acts + [a], ws + [u]);
  }

  lemma LeadsOn(h: Bytes -> Oid, clears: nat -> bool, acts: seq<Action>, ws: seq<World>, v: World, a: Action,
                more: seq<Action>, vs: seq<World>)
    requires Leads(h, clears, acts, ws, v) && Enabled(h, v, a) && Follows(clears, v, a)
    requires more == acts + [a] && vs == ws + [Next(h, v, a)]
    ensures Leads(h, clears, more, vs, Next(h, v, a))
  {
    forall i | 0 <= i < |more| ensures StepAt(h, more, vs, i) && Follows(clears, vs[i], more[i]) {
      if i < |acts| { assert StepAt(h, acts, ws, i) && Follows(clears, ws[i], acts[i]); }
    }
  }

  /** Store `s` is open, and batch `b` runs on it. */
  predicate RunsOn(v: World, s: nat, b: nat) {
    s in v.stores && b in v.batches && v.batches[b].store == s
  }

  /** Nothing but batch `b` and the cache of `s` may have changed. */
  ghost predicate Beside(v: World, u: World, b: nat) { forall c :: c != b ==> (c in u.batches <==> c in v.batches) }

  lemma Begins(h: Bytes -> Oid, clears: nat -> bool, v: World, s: nat, b: nat, data: Bytes) returns (u: World)
    requires Reached(h, clears, v) && s in v.stores
    requires b !in v.batches && v.stores[s].phase.Ready?
    ensures Reached(h, clears, u) && RunsOn(u, s, b) && Beside(v, u, b)
    ensures u.batches[b] == Batch(s, {}, {}, {}, {}, {}, NeedDir(data, ShardA(h(data))))
    ensures u.disk == v.disk && u.stores[s] == v.stores[s] && u.ulids == v.ulids && u.acked == v.acked
  {
    u := Step(h, clears, v, BeginBatch(b, s));
    u := Puts(h, clears, u, s, b, Begin(data));
  }

  lemma Puts(h: Bytes -> Oid, clears: nat -> bool, v: World, s: nat, b: nat, put: PutStep) returns (u: World)
    requires Reached(h, clears, v) && RunsOn(v, s, b)
    requires PutEnabled(h, v.disk, v.ulids, v.stores[s], v.batches[b], put)
    ensures Reached(h, clears, u) && RunsOn(u, s, b) && Beside(v, u, b)
    ensures u.disk == PutDisk(h, v.disk, v.ulids, v.stores[s], v.batches[b], put)
    ensures u.stores[s] == PutStore(v.stores[s], v.batches[b], put)
    ensures u.batches[b] == PutBatch(h, v.disk, v.ulids, v.stores[s], v.batches[b], put)
    ensures u.acked == v.acked && (!put.CreateTmp? ==> u.ulids == v.ulids)
  {
    u := Step(h, clears, v, Put(b, put));
    PutPrivate(h, v.disk, v.ulids, v.stores[s], v.batches[b], put);
  }

  lemma Finishes(h: Bytes -> Oid, clears: nat -> bool, v: World, s: nat, b: nat, step: FinishStep) returns (u: World)
    requires Reached(h, clears, v) && RunsOn(v, s, b)
    requires FinishEnabled(v.batches[b], step) && !step.RecordOids?
    ensures Reached(h, clears, u) && RunsOn(u, s, b) && Beside(v, u, b)
    ensures u.disk == if step.SyncOne? then FlushDir(v.disk, step.dir, None) else v.disk
    ensures u.stores[s] == FinishStore(v.stores[s], v.batches[b], step)
    ensures u.batches[b] == FinishBatch(v.stores[s], v.batches[b], step)
    ensures u.acked == v.acked && u.ulids == v.ulids
  {
    u := Step(h, clears, v, Finish(b, step));
  }

  /** The last two steps of `finish`. */
  lemma Records(h: Bytes -> Oid, clears: nat -> bool, v: World, s: nat, b: nat) returns (u: World)
    requires Reached(h, clears, v) && RunsOn(v, s, b) && v.batches[b].pc.RecordingDirs?
    ensures Reached(h, clears, u) && s in u.stores
    ensures b !in u.batches && Beside(v, u, b)
    ensures var st, bt := v.stores[s], v.batches[b];
      && u.stores[s] == st.(durableDirs := st.durableDirs + bt.proofs, durableOids := st.durableOids + bt.oids)
      && u.acked == v.acked + bt.joined
    ensures u.disk == v.disk && u.ulids == v.ulids
  {
    u := Finishes(h, clears, v, s, b, RecordDirs);
    u := Step(h, clears, u, Finish(b, RecordOids));
  }

  // ---- a stale proof acknowledges ------------------------------------------

  /** The object is cached as durable and visible again, but its name has not reached
      the device. */
  ghost predicate Stale(h: Bytes -> Oid, w: World, s: nat, id: Oid) {
    Cached(w, s, id) && Verifies(h, w.disk, id) && ObjectPath(id) !in w.disk.nsD
  }

  /** Then a put of the same bytes joins through the cache, `finish` returns Ok with no
      barrier at all, and a power cut loses the acknowledged object. */
  lemma StaleProofAcknowledges(h: Bytes -> Oid, clears: nat -> bool, v: World, s: nat, b: nat, data: Bytes) returns (u: World)
    requires Reached(h, clears, v) && Stale(h, v, s, h(data)) && b !in v.batches
    ensures Reached(h, clears, u) && u.disk == v.disk && h(data) in u.acked
    ensures !SurvivesCut(h, u.disk, h(data))
  {
    u := JoinsStale(h, clears, v, s, b, data);
    u := Finishes(h, clears, u, s, b, BeginFinish);
    u := Finishes(h, clears, u, s, b, AllSynced);
    u := Records(h, clears, u, s, b);
  }

  lemma JoinsStale(h: Bytes -> Oid, clears: nat -> bool, v: World, s: nat, b: nat, data: Bytes) returns (u: World)
    requires Reached(h, clears, v) && Stale(h, v, s, h(data)) && b !in v.batches
    ensures Reached(h, clears, u) && u.disk == v.disk && RunsOn(u, s, b)
    ensures u.batches[b] == Batch(s, {}, {}, {}, {}, {h(data)}, Idle)
  {
    u := FindsCached(h, clears, v, s, b, data);
    u := JoinsCachedStale(h, clears, u, s, b, data);
    assert {} + {h(data)} == {h(data)};
  }

  lemma JoinsCachedStale(h: Bytes -> Oid, clears: nat -> bool, v: World, s: nat, b: nat, data: Bytes) returns (u: World)
    requires Reached(h, clears, v) && RunsOn(v, s, b) && v.batches[b] == Batch(s, {}, {}, {}, {}, {}, Look(data))
    requires h(data) in v.stores[s].durableOids && Verifies(h, v.disk, h(data))
    ensures Reached(h, clears, u) && u.disk == v.disk && RunsOn(u, s, b)
    ensures u.batches[b] == Batch(s, {}, {}, {}, {}, {} + {h(data)}, Idle)
  {
    u := Puts(h, clears, v, s, b, Found);
    u := Puts(h, clears, u, s, b, JoinCached);
  }

  /** A new batch finds both shard directories proved. */
  lemma FindsCached(h: Bytes -> Oid, clears: nat -> bool, v: World, s: nat, b: nat, data: Bytes) returns (u: World)
    requires Reached(h, clears, v) && s in v.stores && b !in v.batches
    requires v.stores[s].phase.Ready?
    requires ShardA(h(data)) in v.stores[s].durableDirs && ShardB(h(data)) in v.stores[s].durableDirs
    ensures Reached(h, clears, u) && RunsOn(u, s, b) && Beside(v, u, b)
    ensures u.batches[b] == Batch(s, {}, {}, {}, {}, {}, Look(data))
    ensures u.disk == v.disk && u.stores[s] == v.stores[s] && u.ulids == v.ulids
  {
    u := Begins(h, clears, v, s, b, data);
    u := Puts(h, clears, u, s, b, DirHit);
    assert |ShardA(h(data))| != |ShardB(h(data))|;
    u := Puts(h, clears, u, s, b, DirHit);
  }

  // ---- how a proof gets stale ----------------------------------------------

  function Baseline(id: Oid): map<Path, Node> {
    map[Root := Dir, Objects := Dir, Tmp := Dir, ShardA(id) := Dir, ShardB(id) := Dir, ObjectPath(id) := FileNode(0)]
  }

  /** A repository at rest that holds the empty file, everything durable. */
  function Image(id: Oid): Disk { Disk(map[0 := []], map[], Baseline(id), Baseline(id), map[], 1) }

  lemma ImageNames(id: Oid)
    ensures forall p :: p in Baseline(id) <==>
              p == Root || p == Objects || p == Tmp || p == ShardA(id) || p == ShardB(id) || p == ObjectPath(id)
    ensures Baseline(id)[Objects] == Dir && Baseline(id)[Tmp] == Dir && Baseline(id)[ShardA(id)] == Dir
    ensures Baseline(id)[ShardB(id)] == Dir && Baseline(id)[ObjectPath(id)] == FileNode(0)
    ensures TmpPath("t") !in Baseline(id) && Root in Baseline(id) && Baseline(id)[Root] == Dir
  {
    assert |Root| == 0 && |Objects| == 1 && |Tmp| == 1 && |ShardA(id)| == 2 && |ShardB(id)| == 3 && |ObjectPath(id)| == 4;
    assert Objects[0] != Tmp[0] && TmpPath("t")[0] != ShardA(id)[0];
  }

  lemma ImageWf(id: Oid)
    ensures WfDisk(Image(id))
  {
    ImageNames(id);
    forall p | Leaf(p) ensures Coherent(Image(id), p) { assert PendNs(Image(id), Parent(p)) == []; }
  }

  /** Syncing with nothing pending does nothing. */
  lemma NothingToFlush(d: Disk, dir: Path, ino: nat)
    ensures dir !in d.pendNs ==> FlushDir(d, dir, None) == d
    ensures ino !in d.pendW ==> FlushFile(d, ino, None) == d
  {
    assert dir !in d.pendNs ==> d.pendNs - {dir} == d.pendNs;
    assert ino !in d.pendW ==> d.pendW - {ino} == d.pendW;
  }

  function Opened(st: Store): Store {
    match st.phase
    case MakeObjects => st.(phase := SyncObjects)
    case SyncObjects => st.(phase := MakeTmp, durableDirs := st.durableDirs + {Objects})
    case MakeTmp => st.(phase := SyncTmpDir)
    case SyncTmpDir => st.(phase := Ready, durableDirs := st.durableDirs + {Tmp})
    case Ready => st
  }

  /** Opening on the image changes nothing but the store. */
  lemma OpenImage(id: Oid, st: Store)
    ensures !st.phase.Ready? ==> OpenEnabled(Image(id), st)
    ensures OpenNext(Image(id), st) == (Image(id), Opened(st))
  {
    ImageNames(id);
    NothingToFlush(Image(id), Root, 0);
  }

  /** Store `s` is open, no batch is, and the disk is the image. */
  predicate Quiet(v: World, s: nat, st: Store, id: Oid) {
    && v.disk == Image(id) && v.batches == map[] && v.ulids == {}
    && s in v.stores && v.stores[s] == st
  }

  lemma OpensOne(h: Bytes -> Oid, clears: nat -> bool, v: World, s: nat, st: Store, id: Oid) returns (u: World)
    requires Reached(h, clears, v) && Quiet(v, s, st, id) && !st.phase.Ready?
    ensures Reached(h, clears, u) && Quiet(u, s, Opened(st), id)
  {
    OpenImage(id, st);
    u := Step(h, clears, v, OpenStep(s));
  }

  lemma Starts(h: Bytes -> Oid, clears: nat -> bool, id: Oid) returns (v: World)
    ensures Reached(h, clears, v) && v == World(Image(id), map[], map[], {}, {})
  {
    ImageWf(id);
    v := World(Image(id), map[], map[], {}, {});
    assert Leads(h, clears, [], [v], v);
  }

  lemma OpensTwo(h: Bytes -> Oid, clears: nat -> bool, v: World, s: nat, st: Store, id: Oid) returns (u: World)
    requires Reached(h, clears, v) && Quiet(v, s, st, id) && (st.phase.MakeObjects? || st.phase.MakeTmp?)
    ensures Reached(h, clears, u) && Quiet(u, s, Opened(Opened(st)), id)
  {
    u := OpensOne(h, clears, v, s, st, id);
    u := OpensOne(h, clears, u, s, Opened(st), id);
  }

  lemma StartsOpen(h: Bytes -> Oid, clears: nat -> bool, s: nat, id: Oid) returns (v: World)
    ensures Reached(h, clears, v) && Quiet(v, s, Store(PerDirectory, MakeObjects, {}, {}), id)
  {
    v := Starts(h, clears, id);
    v := Step(h, clears, v, OpenStore(s, PerDirectory));
  }

  function OpenedDirs(): set<Path> { {} + {Objects} + {Tmp} }

  /** A store opens on the image. */
  lemma Opens(h: Bytes -> Oid, clears: nat -> bool, s: nat, id: Oid) returns (v: World)
    ensures Reached(h, clears, v) && Quiet(v, s, Store(PerDirectory, Ready, OpenedDirs(), {}), id)
  {
    var st := Store(PerDirectory, MakeObjects, {}, {});
    v := StartsOpen(h, clears, s, id);
    v := OpensTwo(h, clears, v, s, st, id);
    v := OpensTwo(h, clears, v, s, Opened(Opened(st)), id);
  }

  /** One shard directory is there; its parent is synced and the proof cached. */
  lemma ProvesDir(h: Bytes -> Oid, clears: nat -> bool, v: World, s: nat, child: Path) returns (u: World)
    requires Reached(h, clears, v) && v.disk == Image(h([])) && RunsOn(v, s, 1) && v.stores[s].policy.PerDirectory?
    requires v.batches[1].pc == NeedDir([], child) && child !in v.stores[s].durableDirs
    requires child == ShardA(h([])) || child == ShardB(h([]))
    ensures Reached(h, clears, u) && RunsOn(u, s, 1) && Beside(v, u, 1) && u.disk == v.disk && u.ulids == v.ulids
    ensures u.batches[1] == v.batches[1].(pc := AfterDir(h([]), [], child))
    ensures u.stores[s] == v.stores[s].(durableDirs := v.stores[s].durableDirs + {child})
  {
    u := FindsDir(h, clears, v, s, child);
    NothingToFlush(u.disk, Parent(child), 0);
    u := Puts(h, clears, u, s, 1, DirSync);
  }

  lemma FindsDir(h: Bytes -> Oid, clears: nat -> bool, v: World, s: nat, child: Path) returns (u: World)
    requires Reached(h, clears, v) && v.disk == Image(h([])) && RunsOn(v, s, 1) && v.stores[s].policy.PerDirectory?
    requires v.batches[1].pc == NeedDir([], child) && child !in v.stores[s].durableDirs
    requires child == ShardA(h([])) || child == ShardB(h([]))
    ensures Reached(h, clears, u) && RunsOn(u, s, 1) && Beside(v, u, 1) && u.disk == v.disk && u.ulids == v.ulids
    ensures u.batches[1] == v.batches[1].(pc := SyncParent([], child)) && u.stores[s] == v.stores[s]
  {
    ImageNames(h([]));
    u := Puts(h, clears, v, s, 1, DirMake);
  }

  lemma ShardsNew(id: Oid)
    ensures ShardA(id) !in OpenedDirs() && ShardB(id) !in OpenedDirs() + {ShardA(id)}
  {
    assert |ShardA(id)| == 2 && |ShardB(id)| == 3 && |Objects| == 1 && |Tmp| == 1;
  }

  /** A batch walks to the object's directory, proving both shard directories. */
  lemma FindsProving(h: Bytes -> Oid, clears: nat -> bool, v: World, s: nat) returns (u: World)
    requires Reached(h, clears, v) && Quiet(v, s, Store(PerDirectory, Ready, OpenedDirs(), {}), h([]))
    ensures Reached(h, clears, u) && RunsOn(u, s, 1) && (forall b :: b in u.batches ==> b == 1)
    ensures u.disk == v.disk && u.ulids == {}
    ensures u.batches[1] == Batch(s, {}, {}, {}, {}, {}, Look([]))
    ensures u.stores[s] == Store(PerDirectory, Ready, OpenedDirs() + {ShardA(h([]))} + {ShardB(h([]))}, {})
  {
    u := FindsFirst(h, clears, v, s);
    ShardsNew(h([]));
    u := ProvesDir(h, clears, u, s, ShardB(h([])));
  }

  lemma FindsFirst(h: Bytes -> Oid, clears: nat -> bool, v: World, s: nat) returns (u: World)
    requires Reached(h, clears, v) && Quiet(v, s, Store(PerDirectory, Ready, OpenedDirs(), {}), h([]))
    ensures Reached(h, clears, u) && RunsOn(u, s, 1) && (forall b :: b in u.batches ==> b == 1)
    ensures u.disk == v.disk && u.ulids == {}
    ensures u.batches[1] == Batch(s, {}, {}, {}, {}, {}, NeedDir([], ShardB(h([]))))
    ensures u.stores[s] == Store(PerDirectory, Ready, OpenedDirs() + {ShardA(h([]))}, {})
  {
    u := Begins(h, clears, v, s, 1, []);
    ShardsNew(h([]));
    u := ProvesDir(h, clears, u, s, ShardA(h([])));
  }

  /** It joins the object by force. */
  lemma JoinsByForce(h: Bytes -> Oid, clears: nat -> bool, v: World, s: nat) returns (u: World)
    requires Reached(h, clears, v) && v.disk == Image(h([])) && RunsOn(v, s, 1)
    requires v.batches[1] == Batch(s, {}, {}, {}, {}, {}, Look([])) && v.stores[s].durableOids == {}
    ensures Reached(h, clears, u) && RunsOn(u, s, 1) && Beside(v, u, 1) && u.disk == v.disk && u.ulids == v.ulids
    ensures u.stores[s] == v.stores[s]
    ensures u.batches[1] == Joins(Batch(s, {}, {}, {}, {}, {}, Idle), h([]))
  {
    u := Verified(h, clears, v, s);
    NothingToFlush(v.disk, Root, 0);
    u := Puts(h, clears, u, s, 1, JoinSync);
  }

  lemma ImageVerifies(h: Bytes -> Oid)
    ensures Verifies(h, Image(h([])), h([])) && Image(h([])).nsC[ObjectPath(h([]))] == FileNode(0)
  {
    ImageNames(h([]));
    assert Content(Image(h([])), 0) == [];
  }

  lemma Verified(h: Bytes -> Oid, clears: nat -> bool, v: World, s: nat) returns (u: World)
    requires Reached(h, clears, v) && v.disk == Image(h([])) && RunsOn(v, s, 1)
    requires v.batches[1] == Batch(s, {}, {}, {}, {}, {}, Look([])) && v.stores[s].durableOids == {}
    ensures Reached(h, clears, u) && RunsOn(u, s, 1) && Beside(v, u, 1) && u.disk == v.disk && u.ulids == v.ulids
    ensures u.stores[s] == v.stores[s]
    ensures u.batches[1] == Batch(s, {}, {}, {}, {}, {}, Force([], 0))
  {
    ImageVerifies(h);
    u := Puts(h, clears, v, s, 1, Found);
    u := Puts(h, clears, u, s, 1, JoinVerify);
  }

  /** It finishes: the object's proof is cached. */
  lemma FinishesOne(h: Bytes -> Oid, clears: nat -> bool, v: World, s: nat) returns (u: World)
    requires Reached(h, clears, v) && v.disk == Image(h([])) && RunsOn(v, s, 1) && v.stores[s].policy.PerDirectory?
    requires v.batches[1] == Joins(Batch(s, {}, {}, {}, {}, {}, Idle), h([]))
    ensures Reached(h, clears, u) && s in u.stores
    ensures 1 !in u.batches && Beside(v, u, 1) && u.disk == v.disk && u.ulids == v.ulids
    ensures u.stores[s].policy == v.stores[s].policy && u.stores[s].phase == v.stores[s].phase
    ensures v.stores[s].durableDirs <= u.stores[s].durableDirs && h([]) in u.stores[s].durableOids
  {
    NothingToFlush(v.disk, ShardB(h([])), 0);
    assert v.batches[1].pathDirs + v.batches[1].dirs == {ShardB(h([]))};
    u := Finishes(h, clears, v, s, 1, BeginFinish);
    u := Finishes(h, clears, u, s, 1, SyncOne(ShardB(h([]))));
    assert {ShardB(h([]))} - {ShardB(h([]))} == {};
    u := Finishes(h, clears, u, s, 1, AllSynced);
    u := Records(h, clears, u, s, 1);
  }

  /** The object is put and acknowledged, and its proofs are cached. */
  lemma Caches(h: Bytes -> Oid, clears: nat -> bool, s: nat) returns (v: World)
    ensures Reached(h, clears, v) && v.disk == Image(h([])) && v.batches == map[] && v.ulids == {}
    ensures Cached(v, s, h([]))
  {
    v := Opens(h, clears, s, h([]));
    v := FindsProving(h, clears, v, s);
    v := JoinsByForce(h, clears, v, s);
    v := FinishesOne(h, clears, v, s);
  }

  /** Store `s` takes the object and its shard directories for durable. */
  predicate Cached(w: World, s: nat, id: Oid) {
    && s in w.stores && w.stores[s].phase.Ready?
    && ShardA(id) in w.stores[s].durableDirs && ShardB(id) in w.stores[s].durableDirs
    && id in w.stores[s].durableOids
  }

  /** A sweep that leaves the store's cache alone takes the object. */
  lemma SweptUncleared(h: Bytes -> Oid, clears: nat -> bool, v: World, s: nat) returns (u: World)
    requires Reached(h, clears, v) && v.disk == Image(h([])) && v.batches == map[] && v.ulids == {}
    requires Cached(v, s, h([])) && !clears(s)
    ensures Reached(h, clears, u) && u.batches == map[] && u.ulids == {} && Cached(u, s, h([]))
    ensures u.disk == NsDel(Image(h([])), ObjectPath(h([])))
  {
    ImageNames(h([]));
    u := Step(h, clears, v, Sweep(h([]), set t | t in v.stores && clears(t)));
  }

  /** A second batch links the object anew. */
  lemma Relinks(h: Bytes -> Oid, clears: nat -> bool, v: World, s: nat) returns (u: World)
    requires Reached(h, clears, v) && v.batches == map[] && v.ulids == {} && Cached(v, s, h([]))
    requires v.disk == NsDel(Image(h([])), ObjectPath(h([])))
    ensures Reached(h, clears, u) && (forall b :: b in u.batches ==> b == 2) && Cached(u, s, h([]))
    ensures u.disk == NsAdd(Create(v.disk, TmpPath("t")), ObjectPath(h([])), FileNode(1))
  {
    ImageNames(h([]));
    u := FindsCached(h, clears, v, s, 2, []);
    u := Puts(h, clears, u, s, 2, CreateTmp("t"));
    NothingToFlush(u.disk, Root, 1);
    u := Puts(h, clears, u, s, 2, SyncTmp);
    u := Puts(h, clears, u, s, 2, LinkNew);
  }

  /** Unlinked, linked anew, and only the unlink written back. */
  lemma HalfWritten(d: Disk, id: Oid)
    requires d == NsAdd(Create(NsDel(Image(id), ObjectPath(id)), TmpPath("t")), ObjectPath(id), FileNode(1))
    ensures |PendNs(d, ShardB(id))| == 2
    ensures var e := WritebackDir(d, ShardB(id), 1);
      ObjectPath(id) !in e.nsD && ObjectPath(id) in e.nsC && e.nsC[ObjectPath(id)] == FileNode(1) && Content(e, 1) == []
  {
    var p := ObjectPath(id);
    assert Parent(p) == ShardB(id) && Parent(TmpPath("t")) == Tmp && |Tmp| != |ShardB(id)|;
    var ops := PendNs(d, ShardB(id));
    assert ops == [NameOp(p, None), NameOp(p, Some(FileNode(1)))];
    assert ops[..1] == [NameOp(p, None)] && ops[..1][..0] == [];
    assert ApplyNames(d.nsD, ops[..1]) == ApplyName(ApplyNames(d.nsD, []), NameOp(p, None));
  }

  /** The object is put, finished and acknowledged; a sweep that leaves this store's
      cache alone takes it; a second batch links it anew without finishing; and the
      kernel writes back the sweep's unlink, but not the new link. */
  lemma StaleHappens(h: Bytes -> Oid, clears: nat -> bool, s: nat) returns (v: World)
    requires !clears(s)
    ensures Reached(h, clears, v) && Stale(h, v, s, h([])) && 3 !in v.batches
  {
    v := Caches(h, clears, s);
    v := SweptUncleared(h, clears, v, s);
    v := Relinks(h, clears, v, s);
    HalfWritten(v.disk, h([]));
    v := Step(h, clears, v, WriteDirBack(ShardB(h([])), 1));
  }
}
