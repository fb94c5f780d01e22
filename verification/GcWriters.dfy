/** Writers against sweeps, in time: what is reachable from a root stays on disk. */
module GcWriters {
  import opened Names
  import opened Reach

  type Id = string

  /** How far a put has come whose object was not there to refresh: it saw nothing, it
      wrote a temporary file, its link found an object, and that object was gone again
      at the refresh. `mtime` is the last write of the temporary file. */
  datatype Put = Missed | Staged(mtime: int) | Lost(mtime: int) | Vanished(mtime: int)

  /** A join: the age it could count on, and when the writer's own put wrote or
      refreshed the object. */
  datatype Hold = Hold(age: int, put: int)

  /** A writer: its unfinished puts and what it has joined. */
  datatype Writer = Writer(puts: map<Id, Put>, held: map<Id, Hold>)

  /** A sweep inside its catalog transaction and under the exclusive object lock. */
  datatype Sweep = Sweep(minAge: int, now: int, doomed: set<Id>)

  datatype State = State(now: int, disk: map<Id, int>, roots: set<Id>, writers: map<nat, Writer>, sweep: Option<Sweep>)

  datatype Action =
    | Tick(dt: nat)
    | Arrive(w: nat)
    | Miss(w: nat, id: Id)
    | Stage(w: nat, id: Id)
    | LinkNew(w: nat, id: Id)
    | LinkFails(w: nat, id: Id)
    | Refresh(w: nat, id: Id)
    | Vanish(w: nat, id: Id)
    | JoinUnrefreshed(w: nat, id: Id)
    | GiveUp(w: nat, id: Id)
    | Publish(w: nat, joined: set<Id>, named: set<Id>)
    | Retire(root: Id)
    | SweepBegin(minAge: int)
    | SweepDoom(id: Id)
    | SweepUnlink(id: Id)
    | SweepEnd

  /** Reachable from some root. `g` gives each id its children, fixed by content. */
  ghost predicate Rooted(g: Graph, roots: set<Id>, x: Id) { exists r :: r in roots && Reaches(g, r, x) }

  /** What publishing may name: objects the writer joined, or what a root still holds. */
  ghost predicate Supported(g: Graph, s: State, joined: set<Id>, x: Id) { x in joined || Rooted(g, s.roots, x) }

  predicate Putting(s: State, w: nat, id: Id) { w in s.writers && id in s.writers[w].puts }

  /** At a link of the temporary file: the first, or the second after a vanished winner. */
  predicate Linking(s: State, w: nat, id: Id) {
    Putting(s, w, id) && (s.writers[w].puts[id].Staged? || s.writers[w].puts[id].Vanished?)
  }

  ghost predicate Enabled(g: Graph, s: State, a: Action) {
    match a
    case Tick(_) => true
    case Arrive(w) => w !in s.writers
    case Miss(w, id) => w in s.writers && id !in s.writers[w].puts && id !in s.disk
    case Stage(w, id) => Putting(s, w, id) && s.writers[w].puts[id].Missed?
    case LinkNew(w, id) => Linking(s, w, id) && id !in s.disk
    case LinkFails(w, id) => Putting(s, w, id) && s.writers[w].puts[id].Staged? && id in s.disk
    case Refresh(w, id) =>
      && w in s.writers && id in s.disk && s.sweep.None?
      && (id in s.writers[w].puts ==> s.writers[w].puts[id].Lost?)
    case Vanish(w, id) =>
      Putting(s, w, id) && s.writers[w].puts[id].Lost? && id !in s.disk && s.sweep.None?
    case JoinUnrefreshed(w, id) => Putting(s, w, id) && s.writers[w].puts[id].Vanished? && id in s.disk
    case GiveUp(w, id) => Putting(s, w, id)
    case Publish(w, joined, named) =>
      && w in s.writers && s.sweep.None?
      && (forall x :: x in joined ==> x in s.writers[w].held)
      && (forall x, y :: x in joined && Edge(g, x, y) ==> Supported(g, s, joined, y))
      && (forall x :: x in named ==> Supported(g, s, joined, x))
    case Retire(_) => s.sweep.None?
    case SweepBegin(_) => s.sweep.None?
    case SweepDoom(id) =>
      && s.sweep.Some? && id in s.disk && !Rooted(g, s.roots, id)
      && s.sweep.value.now - s.disk[id] >= s.sweep.value.minAge
    case SweepUnlink(id) => s.sweep.Some? && id in s.sweep.value.doomed
    case SweepEnd => s.sweep.Some?
  }

  /** The put of `id` is over and has joined it. */
  function Joined(s: State, w: nat, id: Id, hold: Hold): map<nat, Writer>
    requires w in s.writers
  {
    s.writers[w := Writer(s.writers[w].puts - {id}, s.writers[w].held[id := hold])]
  }

  function Moved(s: State, w: nat, id: Id, put: Put): State {
    if w in s.writers then
      s.(writers := s.writers[w := s.writers[w].(puts := s.writers[w].puts[id := put])])
    else s
  }

  function Next(s: State, a: Action): State {
    match a
    case Tick(dt) => s.(now := s.now + dt)
    case Arrive(w) => s.(writers := s.writers[w := Writer(map[], map[])])
    case Miss(w, id) => Moved(s, w, id, Missed)
    case Stage(w, id) => Moved(s, w, id, Staged(s.now))
    case LinkNew(w, id) =>
      if Linking(s, w, id) then
        var mtime := s.writers[w].puts[id].mtime;
        s.(disk := s.disk[id := mtime], writers := Joined(s, w, id, Hold(mtime, mtime)))
      else s
    case LinkFails(w, id) => if Linking(s, w, id) then Moved(s, w, id, Lost(s.writers[w].puts[id].mtime)) else s
    case Refresh(w, id) =>
      if w in s.writers then
        s.(disk := s.disk[id := s.now], writers := Joined(s, w, id, Hold(s.now, s.now)))
      else s
    case Vanish(w, id) =>
      if Putting(s, w, id) && s.writers[w].puts[id].Lost? then
        Moved(s, w, id, Vanished(s.writers[w].puts[id].mtime))
      else s
    case JoinUnrefreshed(w, id) =>
      if Linking(s, w, id) && id in s.disk then
        var age := if s.disk[id] <= s.now then s.disk[id] else s.now;
        s.(writers := Joined(s, w, id, Hold(age, s.writers[w].puts[id].mtime)))
      else s
    case GiveUp(w, id) =>
      if w in s.writers then
        s.(writers := s.writers[w := s.writers[w].(puts := s.writers[w].puts - {id})])
      else s
    case Publish(_, _, named) => s.(roots := s.roots + named)
    case Retire(root) => s.(roots := s.roots - {root})
    case SweepBegin(minAge) => s.(sweep := Some(Sweep(minAge, s.now, {})))
    case SweepDoom(id) =>
      if s.sweep.Some? then s.(sweep := Some(s.sweep.value.(doomed := s.sweep.value.doomed + {id}))) else s
    case SweepUnlink(id) =>
      if s.sweep.Some? then
        s.(disk := s.disk - {id}, sweep := Some(s.sweep.value.(doomed := s.sweep.value.doomed - {id})))
      else s
    case SweepEnd => s.(sweep := None)
  }

  // ---- the rules that make collection safe ---------------------------------

  /** What writers and sweeps keep to: publications come within `bound` of the joins they
      name, measured from the writer's own put or from the age the join could count on;
      no sweep goes below `floor`; joins without a refresh may happen or not. */
  datatype Rule = Rule(bound: int, floor: int, byPut: bool, unrefreshed: bool)

  /** The age the writer relies on is less than `bound` old. */
  predicate FreshHold(s: State, bound: int, w: nat, x: Id) {
    w in s.writers && x in s.writers[w].held && s.now - s.writers[w].held[x].age < bound
  }

  predicate Prompt(r: Rule, s: State, w: nat, x: Id) {
    && w in s.writers && x in s.writers[w].held
    && s.now - (if r.byPut then s.writers[w].held[x].put else s.writers[w].held[x].age) < r.bound
  }

  ghost predicate Careful(r: Rule, s: State, a: Action) {
    match a
    case Publish(w, joined, _) => forall x :: x in joined ==> Prompt(r, s, w, x)
    case JoinUnrefreshed(_, _) => r.unrefreshed
    case SweepBegin(minAge) => minAge >= r.floor
    case _ => true
  }

  // ---- what every careful step keeps ---------------------------------------

  /** The closure of all roots is on disk. */
  ghost predicate Safe(g: Graph, s: State) { forall x :: Rooted(g, s.roots, x) ==> x in s.disk }

  ghost predicate HoldsOk(s: State, bound: int) {
    forall w, x :: FreshHold(s, bound, w, x) ==> x in s.disk && s.disk[x] >= s.writers[w].held[x].age
  }

  ghost predicate SweepOk(g: Graph, s: State, bound: int) {
    s.sweep.Some? ==>
      && bound <= s.sweep.value.minAge && s.sweep.value.now <= s.now
      && forall x :: x in s.sweep.value.doomed ==> Doomed(g, s, x)
  }

  ghost predicate Doomed(g: Graph, s: State, x: Id)
    requires s.sweep.Some?
  {
    x in s.disk && !Rooted(g, s.roots, x) && s.sweep.value.now - s.disk[x] >= s.sweep.value.minAge
  }

  /** No writer holds an age from the future. */
  ghost predicate TimesOk(s: State) {
    forall w :: w in s.writers ==> WriterTimesOk(s.now, s.writers[w])
  }

  ghost predicate WriterTimesOk(now: int, w: Writer) {
    && (forall x :: x in w.held ==> w.held[x].age <= now && w.held[x].put <= now)
    && (forall x :: x in w.puts && !w.puts[x].Missed? ==> w.puts[x].mtime <= now)
  }

  ghost predicate Kept(g: Graph, s: State, bound: int) { Safe(g, s) && HoldsOk(s, bound) && SweepOk(g, s, bound) }

  ghost predicate Inv(g: Graph, s: State, bound: int) { Kept(g, s, bound) && TimesOk(s) }

  lemma TimesKept(g: Graph, s: State, a: Action)
    requires TimesOk(s) && Enabled(g, s, a)
    ensures TimesOk(Next(s, a))
  {
    var t := Next(s, a);
    forall w | w in t.writers ensures WriterTimesOk(t.now, t.writers[w]) {
      if w in s.writers { assert WriterTimesOk(s.now, s.writers[w]); }
    }
  }

  lemma UnlinkKeeps(g: Graph, s: State, bound: int, id: Id)
    requires Inv(g, s, bound) && Enabled(g, s, SweepUnlink(id))
    ensures Kept(g, Next(s, SweepUnlink(id)), bound)
  {
    var t := Next(s, SweepUnlink(id));
    assert Doomed(g, s, id);
    forall w, x | FreshHold(t, bound, w, x) ensures x in t.disk && t.disk[x] >= t.writers[w].held[x].age {
      assert FreshHold(s, bound, w, x);
    }
    forall x | x in t.sweep.value.doomed ensures Doomed(g, t, x) { assert Doomed(g, s, x); }
  }

  lemma JoinKeeps(g: Graph, s: State, bound: int, a: Action)
    requires Inv(g, s, bound) && Enabled(g, s, a) && (a.LinkNew? || a.Refresh? || a.JoinUnrefreshed?)
    ensures Kept(g, Next(s, a), bound)
  {
    var t := Next(s, a);
    forall w, x | FreshHold(t, bound, w, x) ensures x in t.disk && t.disk[x] >= t.writers[w].held[x].age {
      if !(w == a.w && x == a.id) {
        assert FreshHold(s, bound, w, x);
        HeldBound(s, bound, w, x);
      }
    }
    if t.sweep.Some? {
      forall x | x in t.sweep.value.doomed ensures Doomed(g, t, x) { assert Doomed(g, s, x); }
    }
  }

  lemma HeldBound(s: State, bound: int, w: nat, x: Id)
    requires HoldsOk(s, bound) && FreshHold(s, bound, w, x)
    ensures x in s.disk && s.disk[x] >= s.writers[w].held[x].age
  {
  }

  lemma PublishKeeps(g: Graph, s: State, r: Rule, a: Action)
    requires Inv(g, s, r.bound) && Enabled(g, s, a) && Careful(r, s, a) && !r.byPut && r.bound <= r.floor && a.Publish?
    ensures Kept(g, Next(s, a), r.bound)
  {
    var t := Next(s, a);
    forall x | Rooted(g, t.roots, x) ensures x in t.disk {
      var root :| root in t.roots && Reaches(g, root, x);
      if root in s.roots {
        assert Rooted(g, s.roots, x);
      } else {
        assert Supported(g, s, a.joined, root);
        SupportSpreads(g, s, a.joined, root, x);
        if x in a.joined { assert FreshHold(s, r.bound, a.w, x); }
      }
    }
    forall w, x | FreshHold(t, r.bound, w, x) ensures x in t.disk && t.disk[x] >= t.writers[w].held[x].age {
      assert FreshHold(s, r.bound, w, x);
    }
  }

  /** Everything below a supported object is supported. */
  lemma {:induction false} SupportSpreads(g: Graph, s: State, joined: set<Id>, r: Id, x: Id)
    requires forall a, b :: a in joined && Edge(g, a, b) ==> Supported(g, s, joined, b)
    requires Supported(g, s, joined, r) && Reaches(g, r, x)
    ensures Supported(g, s, joined, x)
  {
    var p :| ChainTo(g, r, x, p);
    SupportAlong(g, s, joined, p);
  }

  lemma {:induction false} SupportAlong(g: Graph, s: State, joined: set<Id>, p: seq<Id>)
    requires forall a, b :: a in joined && Edge(g, a, b) ==> Supported(g, s, joined, b)
    requires Chain(g, p) && Supported(g, s, joined, p[0])
    ensures Supported(g, s, joined, p[|p| - 1])
  {
    if |p| > 1 {
      var q := p[1..];
      assert Edge(g, p[0], p[0 + 1]);
      forall i | 0 <= i < |q| - 1 ensures Edge(g, q[i], q[i + 1]) { assert Edge(g, p[i + 1], p[i + 1 + 1]); }
      if p[0] !in joined {
        var r :| r in s.roots && Reaches(g, r, p[0]);
        OneEdge(g, p[0], p[1]);
        ReachesTransitive(g, r, p[0], p[1]);
      }
      SupportAlong(g, s, joined, q);
    }
  }

  lemma RestKeeps(g: Graph, s: State, r: Rule, a: Action)
    requires Inv(g, s, r.bound) && Enabled(g, s, a) && Careful(r, s, a) && !r.byPut && r.bound <= r.floor
    requires a.Tick? || a.Retire? || a.SweepBegin? || a.SweepDoom? || a.SweepEnd?
    ensures Kept(g, Next(s, a), r.bound)
  {
    var t := Next(s, a);
    forall w, x | FreshHold(t, r.bound, w, x) ensures x in t.disk && t.disk[x] >= t.writers[w].held[x].age {
      assert FreshHold(s, r.bound, w, x);
    }
    forall x | Rooted(g, t.roots, x) ensures x in t.disk {
      assert Rooted(g, s.roots, x);
    }
    if t.sweep.Some? {
      forall x | x in t.sweep.value.doomed ensures Doomed(g, t, x) {
        assert x in s.sweep.value.doomed ==> Doomed(g, s, x);
      }
    }
  }

  /** A put in progress has joined nothing yet. */
  lemma PutKeeps(g: Graph, s: State, bound: int, a: Action)
    requires Inv(g, s, bound) && Enabled(g, s, a)
    requires a.Arrive? || a.Miss? || a.Stage? || a.LinkFails? || a.Vanish? || a.GiveUp?
    ensures Kept(g, Next(s, a), bound)
  {
    var t := Next(s, a);
    forall w, x | FreshHold(t, bound, w, x) ensures x in t.disk && t.disk[x] >= t.writers[w].held[x].age {
      assert FreshHold(s, bound, w, x);
    }
    if t.sweep.Some? {
      forall x | x in t.sweep.value.doomed ensures Doomed(g, t, x) { assert Doomed(g, s, x); }
    }
  }

  lemma StepKeeps(g: Graph, s: State, r: Rule, a: Action)
    requires Inv(g, s, r.bound) && Enabled(g, s, a) && Careful(r, s, a) && !r.byPut && r.bound <= r.floor
    ensures Inv(g, Next(s, a), r.bound)
  {
    TimesKept(g, s, a);
    match a
    case LinkNew(_, _) => JoinKeeps(g, s, r.bound, a);
    case Refresh(_, _) => JoinKeeps(g, s, r.bound, a);
    case JoinUnrefreshed(_, _) => JoinKeeps(g, s, r.bound, a);
    case Publish(_, _, _) => PublishKeeps(g, s, r, a);
    case SweepUnlink(id) => UnlinkKeeps(g, s, r.bound, id);
    case Tick(_) => RestKeeps(g, s, r, a);
    case Retire(_) => RestKeeps(g, s, r, a);
    case SweepBegin(_) => RestKeeps(g, s, r, a);
    case SweepDoom(_) => RestKeeps(g, s, r, a);
    case SweepEnd => RestKeeps(g, s, r, a);
    case _ => PutKeeps(g, s, r.bound, a);
  }

  // ---- whole runs ----------------------------------------------------------

  ghost predicate Run(g: Graph, s: State, acts: seq<Action>)
    decreases |acts|
  {
    acts == [] || (Enabled(g, s, acts[0]) && Run(g, Next(s, acts[0]), acts[1..]))
  }

  function After(s: State, acts: seq<Action>): State
    decreases |acts|
  {
    if acts == [] then s else After(Next(s, acts[0]), acts[1..])
  }

  ghost predicate AllCareful(r: Rule, s: State, acts: seq<Action>)
    decreases |acts|
  {
    acts == [] || (Careful(r, s, acts[0]) && AllCareful(r, Next(s, acts[0]), acts[1..]))
  }

  /** A repository at rest: its roots are intact and nobody is at work. */
  ghost predicate AtRest(g: Graph, s: State) { Safe(g, s) && s.writers == map[] && s.sweep.None? }

  lemma {:induction false} RunKeeps(g: Graph, s: State, r: Rule, acts: seq<Action>)
    requires Inv(g, s, r.bound) && Run(g, s, acts) && AllCareful(r, s, acts) && !r.byPut && r.bound <= r.floor
    ensures Inv(g, After(s, acts), r.bound)
    decreases |acts|
  {
    if acts != [] {
      StepKeeps(g, s, r, acts[0]);
      RunKeeps(g, Next(s, acts[0]), r, acts[1..]);
    }
  }

  /** In every interleaving of writers with sweeps, whatever races their puts lose: if
      each publication comes within the floor of the ages its joins could count on,
      everything reachable from a root is on disk. */
  lemma RootsSurvive(g: Graph, s: State, r: Rule, acts: seq<Action>)
    requires AtRest(g, s) && Run(g, s, acts) && AllCareful(r, s, acts) && !r.byPut && r.bound <= r.floor
    ensures Safe(g, After(s, acts))
  {
    assert Inv(g, s, r.bound);
    RunKeeps(g, s, r, acts);
  }

  /** A run from a repository at rest, within the rule, that loses something reachable. */
  ghost predicate Loses(r: Rule, g: Graph, s: State, acts: seq<Action>) {
    AtRest(g, s) && Run(g, s, acts) && AllCareful(r, s, acts) && !Safe(g, After(s, acts))
  }

  ghost predicate Sound(r: Rule) { !exists g, s, acts :: Loses(r, g, s, acts) }

  /** Measured from the ages joins count on, collection is sound exactly while no
      publication may come later than the age floor. */
  lemma SoundIffBoundWithinFloor(bound: int, floor: nat, unrefreshed: bool)
    ensures Sound(Rule(bound, floor, false, unrefreshed)) <==> bound <= floor
  {
    var r := Rule(bound, floor, false, unrefreshed);
    if bound <= floor {
      forall g, s, acts ensures !Loses(r, g, s, acts) {
        if AtRest(g, s) && Run(g, s, acts) && AllCareful(r, s, acts) { RootsSurvive(g, s, r, acts); }
      }
    } else {
      var s, acts := LatePublishBreaks(r);
      var g: Graph := map[];
      assert Loses(r, g, s, acts);
    }
  }

  // ---- the interval measured from the put ----------------------------------

  /** Without unrefreshed joins, the age counted on is that of the writer's own put. */
  ghost predicate OwnAges(r: Rule, s: State) {
    forall w, x :: w in s.writers && x in s.writers[w].held ==> OwnAge(r, s.now, s.writers[w].held[x])
  }

  predicate OwnAge(r: Rule, now: int, h: Hold) { h.put <= now && (r.unrefreshed || h.put == h.age) }

  lemma OwnAgesStep(r: Rule, g: Graph, s: State, a: Action)
    requires OwnAges(r, s) && TimesOk(s) && Enabled(g, s, a) && Careful(r, s, a)
    ensures OwnAges(r, Next(s, a))
  {
    var t := Next(s, a);
    forall w, x | w in t.writers && x in t.writers[w].held ensures OwnAge(r, t.now, t.writers[w].held[x]) {
      if w in s.writers && x in s.writers[w].held { assert OwnAge(r, s.now, s.writers[w].held[x]); }
      if w in s.writers { assert WriterTimesOk(s.now, s.writers[w]); }
    }
  }

  /** Prompt by put is then prompt by age. */
  lemma {:induction false} ByPutIsByAge(r: Rule, g: Graph, s: State, acts: seq<Action>)
    requires Run(g, s, acts) && AllCareful(r, s, acts) && OwnAges(r, s) && TimesOk(s)
    requires r.unrefreshed ==> r.bound <= 0
    requires r.byPut
    ensures AllCareful(r.(byPut := false), s, acts)
    decreases |acts|
  {
    if acts != [] {
      var a := acts[0];
      if a.Publish? {
        forall x | x in a.joined ensures Prompt(r.(byPut := false), s, a.w, x) {
          assert Prompt(r, s, a.w, x);
          assert OwnAge(r, s.now, s.writers[a.w].held[x]);
        }
      }
      OwnAgesStep(r, g, s, a);
      TimesKept(g, s, a);
      ByPutIsByAge(r, g, Next(s, a), acts[1..]);
    }
  }

  /** Measured from the writer's own put, the floor suffices exactly when no put can
      join without a refresh (or nothing it joined can be published at all). */
  lemma SoundFromPutIff(bound: int, floor: nat, unrefreshed: bool)
    ensures Sound(Rule(bound, floor, true, unrefreshed)) <==> bound <= floor && (unrefreshed ==> bound <= 0)
  {
    var r := Rule(bound, floor, true, unrefreshed);
    if bound > floor {
      var s, acts := LatePublishBreaks(r);
      var g: Graph := map[];
      assert Loses(r, g, s, acts);
    } else if unrefreshed && bound > 0 {
      var s, acts := UnrefreshedJoinBreaks(r);
      var g: Graph := map[];
      assert Loses(r, g, s, acts);
    } else {
      forall g, s, acts ensures !Loses(r, g, s, acts) {
        if AtRest(g, s) && Run(g, s, acts) && AllCareful(r, s, acts) {
          ByPutIsByAge(r, g, s, acts);
          RootsSurvive(g, s, r.(byPut := false), acts);
        }
      }
    }
  }

  // ---- puts get somewhere --------------------------------------------------

  /** What the next step of a put is, by how far it has come and what is on disk. Only
      the refreshes wait for a sweep to end. */
  lemma PutMovesOn(g: Graph, s: State, w: nat, id: Id)
    requires w in s.writers
    ensures var putting := id in s.writers[w].puts; var there := id in s.disk; var quiet := s.sweep.None?;
      && (Enabled(g, s, Miss(w, id)) <==> !putting && !there)
      && (!putting ==> (Enabled(g, s, Refresh(w, id)) <==> there && quiet))
      && (putting ==>
          match s.writers[w].puts[id]
          case Missed => Enabled(g, s, Stage(w, id))
          case Staged(_) => if there then Enabled(g, s, LinkFails(w, id)) else Enabled(g, s, LinkNew(w, id))
          case Lost(_) =>
            && (Enabled(g, s, Refresh(w, id)) <==> there && quiet)
            && (Enabled(g, s, Vanish(w, id)) <==> !there && quiet)
          case Vanished(_) => if there then Enabled(g, s, JoinUnrefreshed(w, id)) else Enabled(g, s, LinkNew(w, id)))
  {
  }

  /** Writers come, and give puts up, at any time; roots go while no sweep runs. */
  lemma AnyoneMayLeave(g: Graph, s: State, w: nat, id: Id)
    ensures Enabled(g, s, Arrive(w)) <==> w !in s.writers
    ensures Enabled(g, s, GiveUp(w, id)) <==> w in s.writers && id in s.writers[w].puts
    ensures Enabled(g, s, GiveUp(w, id)) ==> id !in Next(s, GiveUp(w, id)).writers[w].puts
    ensures Enabled(g, s, Retire(id)) <==> s.sweep.None?
    ensures forall x :: x in Next(s, Retire(id)).roots <==> x in s.roots && x != id
  {
  }

  predicate Holds(s: State, w: nat, id: Id) { w in s.writers && id in s.writers[w].held && id !in s.writers[w].puts }

  /** How many steps a put still needs when nobody interferes. */
  function ToGo(s: State, w: nat, id: Id): nat
    requires w in s.writers
  {
    if id !in s.writers[w].puts then (if id in s.disk then 1 else 3) else
    match s.writers[w].puts[id]
    case Missed => if id in s.disk then 3 else 2
    case Staged(_) => if id in s.disk then 2 else 1
    case Lost(_) => if id in s.disk then 1 else 2
    case Vanished(_) => 1
  }

  /** Between sweeps every put, however far it has come and whatever races it has lost,
      can end by joining the object, which is then on disk. */
  lemma {:induction false} PutCanJoin(r: Rule, g: Graph, s: State, w: nat, id: Id) returns (acts: seq<Action>, t: State)
    requires w in s.writers && s.sweep.None? && r.unrefreshed
    ensures Leads(r, g, s, acts, t) && Holds(t, w, id) && id in t.disk && |acts| <= 3
    ensures |acts| <= ToGo(s, w, id)
    decreases ToGo(s, w, id)
  {
    var there := id in s.disk;
    var a :=
      if id !in s.writers[w].puts then (if there then Refresh(w, id) else Miss(w, id)) else
      match s.writers[w].puts[id]
      case Missed => Stage(w, id)
      case Staged(_) => if there then LinkFails(w, id) else LinkNew(w, id)
      case Lost(_) => if there then Refresh(w, id) else Vanish(w, id)
      case Vanished(_) => if there then JoinUnrefreshed(w, id) else LinkNew(w, id);
    One(r, g, s, a);
    var u := Next(s, a);
    if Holds(u, w, id) {
      acts, t := [a], u;
    } else {
      var more;
      more, t := PutCanJoin(r, g, u, w, id);
      Then(r, g, s, [a], u, more, t);
      acts := [a] + more;
    }
  }

  // ---- runs that lose something --------------------------------------------

  /** `acts` is a run within the rule, and leads to `t`. */
  ghost predicate Leads(r: Rule, g: Graph, s: State, acts: seq<Action>, t: State) {
    Run(g, s, acts) && AllCareful(r, s, acts) && After(s, acts) == t
  }

  lemma One(r: Rule, g: Graph, s: State, a: Action)
    requires Enabled(g, s, a) && Careful(r, s, a)
    ensures Leads(r, g, s, [a], Next(s, a))
  {
    var t := Next(s, a);
    assert [a][1..] == [];
    assert Run(g, t, []) && AllCareful(r, t, []) && After(t, []) == t;
  }

  lemma {:induction false} Then(r: Rule, g: Graph, s: State, xs: seq<Action>, t: State, ys: seq<Action>, u: State)
    requires Leads(r, g, s, xs, t) && Leads(r, g, t, ys, u)
    ensures Leads(r, g, s, xs + ys, u)
    decreases |xs|
  {
    if xs == [] {
      assert xs + ys == ys;
    } else {
      Then(r, g, Next(s, xs[0]), xs[1..], t, ys, u);
      assert (xs + ys)[1..] == xs[1..] + ys;
    }
  }

  lemma Last(r: Rule, g: Graph, s: State, xs: seq<Action>, t: State, a: Action) returns (ys: seq<Action>, u: State)
    requires Leads(r, g, s, xs, t) && Enabled(g, t, a) && Careful(r, t, a)
    ensures Leads(r, g, s, ys, u) && u == Next(t, a) && ys == xs + [a]
  {
    u := Next(t, a);
    ys := xs + [a];
    One(r, g, t, a);
    Then(r, g, s, xs, t, [a], u);
  }

  lemma NoEdges(g: Graph)
    requires g == map[]
    ensures forall x, y :: !Edge(g, x, y)
  {
  }

  /** One whole sweep that takes one old object while there are no roots. */
  lemma SweepTakes(r: Rule, g: Graph, s: State, xs: seq<Action>, t: State, id: Id) returns (ys: seq<Action>, u: State)
    requires Leads(r, g, s, xs, t) && t.roots == {} && t.sweep.None? && id in t.disk && t.now - t.disk[id] >= r.floor
    ensures Leads(r, g, s, ys, u) && u == t.(disk := t.disk - {id})
  {
    ys, u := Last(r, g, s, xs, t, SweepBegin(r.floor));
    ys, u := Last(r, g, s, ys, u, SweepDoom(id));
    ys, u := Last(r, g, s, ys, u, SweepUnlink(id));
    ys, u := Last(r, g, s, ys, u, SweepEnd);
  }

  /** A prompt publication of an object that is gone. */
  lemma PublishesGone(r: Rule, g: Graph, s: State, xs: seq<Action>, t: State, id: Id) returns (ys: seq<Action>, u: State)
    requires Leads(r, g, s, xs, t) && g == map[] && t.sweep.None? && Prompt(r, t, 0, id) && id !in t.disk
    ensures Leads(r, g, s, ys, u) && !Safe(g, u) && u.now == t.now
  {
    var a := Publish(0, {id}, {id});
    NoEdges(g);
    assert forall x :: x in a.named ==> Supported(g, t, a.joined, x);
    ys, u := Last(r, g, s, xs, t, a);
    ReachesSelf(g, id);
    assert Rooted(g, u.roots, id) && id !in u.disk;
  }

  lemma Starts(r: Rule, g: Graph, now: int) returns (s: State)
    ensures s.now == now && s.disk == map[] && s.roots == {} && s.writers == map[] && s.sweep.None?
    ensures AtRest(g, s) && Leads(r, g, s, [], s)
  {
    s := State(now, map[], {}, map[], None);
    assert forall x :: !Rooted(g, s.roots, x);
  }

  /** If publications may come later than the floor, one can name a swept object. */
  lemma LatePublishBreaks(r: Rule) returns (s: State, acts: seq<Action>)
    requires r.bound > r.floor >= 0
    ensures Loses(r, map[], s, acts)
  {
    var g: Graph := map[];
    var u: State;
    s := Starts(r, g, 0);
    acts, u := Last(r, g, s, [], s, Arrive(0));
    acts, u := Last(r, g, s, acts, u, Miss(0, "a"));
    acts, u := Last(r, g, s, acts, u, Stage(0, "a"));
    acts, u := Last(r, g, s, acts, u, LinkNew(0, "a"));
    acts, u := Last(r, g, s, acts, u, Tick(r.floor));
    acts, u := SweepTakes(r, g, s, acts, u, "a");
    acts, u := PublishesGone(r, g, s, acts, u, "a");
  }

  /** A writer joins, and stages the object, which is not there. */
  lemma Stages(r: Rule, g: Graph, s: State, xs: seq<Action>, t: State, w: nat, id: Id) returns (ys: seq<Action>, u: State)
    requires Leads(r, g, s, xs, t) && w !in t.writers && id !in t.disk
    ensures Leads(r, g, s, ys, u) && u == t.(writers := t.writers[w := Writer(map[id := Staged(t.now)], map[])])
  {
    ys, u := Last(r, g, s, xs, t, Arrive(w));
    ys, u := Last(r, g, s, ys, u, Miss(w, id));
    ys, u := Last(r, g, s, ys, u, Stage(w, id));
    assert u.writers[w].puts == map[id := Staged(t.now)];
    assert u.writers == t.writers[w := Writer(map[id := Staged(t.now)], map[])];
  }

  /** Two slow writers stage the object, the floor passes, a third one stages it, and its
      link fails against the old file one of them links. */
  lemma LinkLost(r: Rule, g: Graph) returns (s: State, acts: seq<Action>, u: State)
    requires r.floor >= 0
    ensures AtRest(g, s) && Leads(r, g, s, acts, u)
    ensures u.now == r.floor && u.disk == map["a" := 0] && u.roots == {} && u.sweep.None?
    ensures 0 in u.writers && u.writers[0].puts == map["a" := Lost(r.floor)]
    ensures 1 in u.writers && u.writers[1].puts == map["a" := Staged(0)]
  {
    s := Starts(r, g, 0);
    acts, u := Stages(r, g, s, [], s, 1, "a");
    acts, u := Stages(r, g, s, acts, u, 2, "a");
    acts, u := Last(r, g, s, acts, u, Tick(r.floor));
    acts, u := Stages(r, g, s, acts, u, 0, "a");
    acts, u := Last(r, g, s, acts, u, LinkNew(2, "a"));
    acts, u := Last(r, g, s, acts, u, LinkFails(0, "a"));
  }

  /** The second lost race of a put: after the lost link a sweep takes the object, the
      refresh finds it gone, the other slow writer links its old file, and the second
      link fails too, so the writer joins what is there as it is. The next sweep takes it
      from under a publication that follows the writer's own put with no time in between. */
  lemma UnrefreshedJoinBreaks(r: Rule) returns (s: State, acts: seq<Action>)
    requires r.unrefreshed && r.byPut && r.bound > 0 && r.floor >= 0
    ensures Loses(r, map[], s, acts)
  {
    var g: Graph := map[];
    var u: State;
    s, acts, u := LinkLost(r, g);
    acts, u := SweepTakes(r, g, s, acts, u, "a");
    acts, u := Last(r, g, s, acts, u, Vanish(0, "a"));
    acts, u := Last(r, g, s, acts, u, LinkNew(1, "a"));
    acts, u := Last(r, g, s, acts, u, JoinUnrefreshed(0, "a"));
    acts, u := SweepTakes(r, g, s, acts, u, "a");
    acts, u := PublishesGone(r, g, s, acts, u, "a");
  }
}
