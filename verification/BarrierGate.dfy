/** The shared filesystem barrier: callers wait for a sync that began after they asked. */
module BarrierGate {
  import opened Names

  datatype Phase = NeedTarget | Waiting | Leading(generation: nat) | Done

  datatype Label = ReadTarget | CheckComplete | WaitOnInFlight | BeginLead | FinishSyncOk | FinishSyncFail

  datatype Thread = Thread(phase: Phase, target: Option<nat>, ack: Option<nat>)

  datatype Gate = Gate(completed: nat, inFlight: Option<nat>, entered: set<nat>, finished: set<nat>,
                       threads: seq<Thread>)

  function Initial(waiters: nat): Gate {
    Gate(0, None, {}, {}, seq(waiters, _ => Thread(NeedTarget, None, None)))
  }

  /** The last generation started so far; a new caller waits for the next one. */
  function Newest(g: Gate): nat { if g.inFlight.Some? then g.inFlight.value else g.completed }

  predicate Legal(g: Gate, t: nat, l: Label) {
    && t < |g.threads|
    && var th := g.threads[t];
       match th.phase
       case NeedTarget => l == ReadTarget
       case Waiting =>
         && th.target.Some?
         && l == (if g.completed >= th.target.value then CheckComplete
                  else if g.inFlight.Some? then WaitOnInFlight else BeginLead)
       case Leading(_) => l == FinishSyncOk || l == FinishSyncFail
       case Done => false
  }

  function Next(g: Gate, t: nat, l: Label): Gate
    requires Legal(g, t, l)
  {
    var th := g.threads[t];
    match l
    case ReadTarget => g.(threads := g.threads[t := th.(target := Some(Newest(g) + 1), phase := Waiting)])
    case CheckComplete => g.(threads := g.threads[t := th.(ack := th.target, phase := Done)])
    case WaitOnInFlight => g
    case BeginLead =>
      var n := g.completed + 1;
      g.(inFlight := Some(n), entered := g.entered + {n}, threads := g.threads[t := th.(phase := Leading(n))])
    case FinishSyncOk =>
      var n := th.phase.generation;
      g.(inFlight := None, completed := n, finished := g.finished + {n},
         threads := g.threads[t := th.(phase := Waiting)])
    case FinishSyncFail => g.(inFlight := None, threads := g.threads[t := th.(phase := Waiting)])
  }

  // ---- what every step keeps ----------------------------------------------

  predicate ThreadOk(g: Gate, th: Thread) {
    && (th.phase.NeedTarget? <==> th.target.None?)
    && (th.phase.Done? <==> th.ack.Some?)
    && (th.target.Some? ==> 1 <= th.target.value <= g.completed + 2)
    && (th.ack.Some? ==> th.ack == th.target && th.ack.value <= g.completed)
    && (th.phase.Leading? ==> g.inFlight == Some(th.phase.generation) && th.phase.generation <= th.target.value)
  }

  /** One leader at a time, always for the generation after the last completed. */
  ghost predicate Inv(g: Gate) {
    && (g.inFlight.Some? ==>
        && g.inFlight.value == g.completed + 1
        && exists t :: 0 <= t < |g.threads| && g.threads[t].phase.Leading?)
    && (forall t :: 0 <= t < |g.threads| ==> ThreadOk(g, g.threads[t]))
    && (forall s, t :: 0 <= s < t < |g.threads| ==> !(g.threads[s].phase.Leading? && g.threads[t].phase.Leading?))
    && (forall n :: n in g.finished <==> 1 <= n <= g.completed)
    && (forall n :: n in g.entered ==> 1 <= n <= g.completed + 1)
    && g.finished <= g.entered
    && (g.inFlight.Some? ==> g.inFlight.value in g.entered)
  }

  lemma InitialInv(waiters: nat)
    ensures Inv(Initial(waiters))
  {
  }

  lemma StepKeepsThread(g: Gate, t: nat, l: Label, s: nat)
    requires Inv(g) && Legal(g, t, l) && s < |g.threads|
    ensures ThreadOk(Next(g, t, l), Next(g, t, l).threads[s])
  {
    assert ThreadOk(g, g.threads[s]) && ThreadOk(g, g.threads[t]);
    assert s != t ==> !(g.threads[s].phase.Leading? && g.threads[t].phase.Leading?);
  }

  lemma StepKeepsInv(g: Gate, t: nat, l: Label)
    requires Inv(g) && Legal(g, t, l)
    ensures Inv(Next(g, t, l))
  {
    var h := Next(g, t, l);
    forall s | 0 <= s < |h.threads| ensures ThreadOk(h, h.threads[s]) { StepKeepsThread(g, t, l, s); }
    assert ThreadOk(g, g.threads[t]);
    if l == BeginLead {
      assert h.threads[t].phase.Leading?;
      assert forall s :: 0 <= s < |g.threads| ==> ThreadOk(g, g.threads[s]);
    } else if h.inFlight.Some? {
      var s :| 0 <= s < |g.threads| && g.threads[s].phase.Leading?;
      assert h.threads[s].phase.Leading?;
    }
  }

  /** The explorer's own check holds in every reachable state. */
  predicate ChecksPass(g: Gate) {
    && (g.completed > 0 ==> g.completed in g.finished)
    && forall t :: 0 <= t < |g.threads| && g.threads[t].ack.Some? ==>
         g.threads[t].ack.value in g.finished && g.threads[t].ack.value in g.entered
  }

  lemma InvPassesChecks(g: Gate)
    requires Inv(g)
    ensures ChecksPass(g)
  {
    assert forall t :: 0 <= t < |g.threads| ==> ThreadOk(g, g.threads[t]);
  }

  // ---- runs ----------------------------------------------------------------

  datatype Event = Event(thread: nat, act: Label)

  /** Any number of callers, any schedule, any mix of successful and failed syncs. */
  ghost predicate Run(es: seq<Event>, gs: seq<Gate>) {
    && |gs| == |es| + 1
    && gs[0] == Initial(|gs[0].threads|)
    && forall i :: 0 <= i < |es| ==> StepAt(es, gs, i)
  }

  ghost predicate StepAt(es: seq<Event>, gs: seq<Gate>, i: nat) {
    && i < |es| && i + 1 < |gs|
    && Legal(gs[i], es[i].thread, es[i].act)
    && gs[i + 1] == Next(gs[i], es[i].thread, es[i].act)
  }

  lemma {:induction false} RunInv(es: seq<Event>, gs: seq<Gate>, i: nat)
    requires Run(es, gs) && i < |gs|
    ensures Inv(gs[i]) && |gs[i].threads| == |gs[0].threads|
  {
    if i == 0 {
      InitialInv(|gs[0].threads|);
    } else {
      RunInv(es, gs, i - 1);
      assert StepAt(es, gs, i - 1);
      StepKeepsInv(gs[i - 1], es[i - 1].thread, es[i - 1].act);
    }
  }

  /** `completed` only steps by one, and only when the leader's sync succeeds. */
  lemma CompletedStepsByOne(es: seq<Event>, gs: seq<Gate>, i: nat)
    requires Run(es, gs) && i < |es|
    ensures gs[i + 1].completed == gs[i].completed + (if es[i].act == FinishSyncOk then 1 else 0)
    ensures gs[i].inFlight == None || gs[i].inFlight == Some(gs[i].completed + 1)
  {
    RunInv(es, gs, i);
    assert StepAt(es, gs, i);
    assert ThreadOk(gs[i], gs[i].threads[es[i].thread]);
  }

  lemma {:induction false} CompletedMonotone(es: seq<Event>, gs: seq<Gate>, i: nat, j: nat)
    requires Run(es, gs) && i <= j < |gs|
    ensures gs[i].completed <= gs[j].completed
    decreases j - i
  {
    if i < j {
      CompletedStepsByOne(es, gs, j - 1);
      CompletedMonotone(es, gs, i, j - 1);
    }
  }

  /** Thread `l` is inside its sync call for generation `n` from just after `b` up to `f`. */
  ghost predicate InKernel(gs: seq<Gate>, l: nat, n: nat, b: nat, f: nat) {
    forall j :: b < j <= f < |gs| ==> l < |gs[j].threads| && gs[j].threads[l].phase == Leading(n)
  }

  /** A leading thread began leading, for this generation, at an earlier step. */
  lemma {:induction false} LeadBegan(es: seq<Event>, gs: seq<Gate>, i: nat, l: nat, n: nat) returns (b: nat)
    requires Run(es, gs) && i < |gs| && l < |gs[i].threads| && gs[i].threads[l].phase == Leading(n)
    ensures b < i && es[b] == Event(l, BeginLead) && gs[b].completed + 1 == n
    ensures InKernel(gs, l, n, b, i)
  {
    RunInv(es, gs, i);
    assert i > 0;
    assert StepAt(es, gs, i - 1);
    if gs[i - 1].threads[l].phase == Leading(n) {
      b := LeadBegan(es, gs, i - 1, l, n);
    } else {
      b := i - 1;
    }
  }

  /** Each completed generation is one leader's sync call: begun, uninterrupted, successful. */
  lemma {:induction false} GenerationRan(es: seq<Event>, gs: seq<Gate>, i: nat, n: nat) returns (b: nat, f: nat)
    requires Run(es, gs) && i < |gs| && 1 <= n <= gs[i].completed
    ensures b < f < i && es[b].act == BeginLead && es[f] == Event(es[b].thread, FinishSyncOk)
    ensures gs[b].completed + 1 == n && gs[f + 1].completed == n
    ensures InKernel(gs, es[b].thread, n, b, f)
  {
    CompletedStepsByOne(es, gs, i - 1);
    if n <= gs[i - 1].completed {
      b, f := GenerationRan(es, gs, i - 1, n);
    } else {
      f := i - 1;
      assert StepAt(es, gs, f);
      b := LeadBegan(es, gs, f, es[f].thread, n);
    }
  }

  /** A caller with a target read it at an earlier step, from the gate of that moment. */
  lemma {:induction false} TargetWasRead(es: seq<Event>, gs: seq<Gate>, i: nat, t: nat) returns (r: nat)
    requires Run(es, gs) && i < |gs| && t < |gs[i].threads| && gs[i].threads[t].target.Some?
    ensures r < i && es[r] == Event(t, ReadTarget) && gs[i].threads[t].target == Some(Newest(gs[r]) + 1)
  {
    assert i > 0;
    assert StepAt(es, gs, i - 1);
    if gs[i - 1].threads[t].target == gs[i].threads[t].target {
      r := TargetWasRead(es, gs, i - 1, t);
    } else {
      r := i - 1;
    }
  }

  predicate Acked(g: Gate, t: nat, n: nat) { t < |g.threads| && g.threads[t].ack == Some(n) }

  /** An acknowledged caller is covered: some sync began after it read its target,
      ran without interruption, and succeeded before the acknowledgement. */
  lemma AckIsCovered(es: seq<Event>, gs: seq<Gate>, k: nat) returns (r: nat, b: nat, f: nat)
    requires Run(es, gs) && k < |es| && es[k].act == CheckComplete
    ensures r < b < f < k
    ensures es[r] == Event(es[k].thread, ReadTarget)
    ensures es[b].act == BeginLead && es[f] == Event(es[b].thread, FinishSyncOk)
    ensures exists n :: Acked(gs[k + 1], es[k].thread, n) && InKernel(gs, es[b].thread, n, b, f)
  {
    assert StepAt(es, gs, k);
    var t := es[k].thread;
    RunInv(es, gs, k);
    assert ThreadOk(gs[k], gs[k].threads[t]);
    var n := gs[k].threads[t].target.value;
    r := TargetWasRead(es, gs, k, t);
    b, f := GenerationRan(es, gs, k, n);
    RunInv(es, gs, r);
    SyncStartsAfter(es, gs, r, b, f, n);
  }

  /** The generation a caller waits for cannot have started before it asked. */
  lemma SyncStartsAfter(es: seq<Event>, gs: seq<Gate>, r: nat, b: nat, f: nat, n: nat)
    requires Run(es, gs) && r < |es| && b < f < |es|
    requires es[r].act == ReadTarget && Newest(gs[r]) + 1 == n
    requires es[b].act == BeginLead && gs[b].completed + 1 == n && gs[f + 1].completed == n
    requires InKernel(gs, es[b].thread, n, b, f)
    ensures r < b
  {
    RunInv(es, gs, r);
    if f < r { CompletedMonotone(es, gs, f + 1, r); }
    assert b < r <= f ==> gs[r].threads[es[b].thread].phase == Leading(n);
    assert b < r <= f ==> ThreadOk(gs[r], gs[r].threads[es[b].thread]);
  }

  // ---- everybody gets an answer --------------------------------------------

  /** A caller that asked and whose generation is not complete may lead exactly when
      nothing is in flight; otherwise it waits, and once complete it is answered. */
  lemma WaitingMoves(g: Gate, t: nat)
    requires Inv(g) && t < |g.threads| && g.threads[t].phase.Waiting?
    ensures g.threads[t].target.Some?
    ensures Legal(g, t, BeginLead) <==> g.completed < g.threads[t].target.value && g.inFlight.None?
    ensures Legal(g, t, WaitOnInFlight) <==> g.completed < g.threads[t].target.value && g.inFlight.Some?
    ensures Legal(g, t, CheckComplete) <==> g.threads[t].target.value <= g.completed
  {
    assert ThreadOk(g, g.threads[t]);
  }

  /** A leader's sync may succeed or fail. A success completes its generation; a failure
      completes and acknowledges nothing, and the leader may lead again. */
  lemma LeaderEnds(g: Gate, t: nat)
    requires Inv(g) && t < |g.threads| && g.threads[t].phase.Leading?
    ensures Legal(g, t, FinishSyncOk) && Legal(g, t, FinishSyncFail)
    ensures Next(g, t, FinishSyncOk).completed == g.threads[t].phase.generation == g.completed + 1
    ensures var h := Next(g, t, FinishSyncFail);
      && h.completed == g.completed && h.finished == g.finished && h.inFlight.None? && Legal(h, t, BeginLead)
      && forall i :: 0 <= i < |g.threads| ==> h.threads[i].ack == g.threads[i].ack
  {
    assert ThreadOk(g, g.threads[t]);
  }

  /** A caller that has not asked can only ask; one that was answered does nothing more. */
  lemma FirstAndLast(g: Gate, t: nat, l: Label)
    requires Inv(g) && t < |g.threads|
    ensures g.threads[t].target.None? ==> (Legal(g, t, l) <==> l == ReadTarget)
    ensures g.threads[t].ack.Some? ==> !Legal(g, t, l)
  {
    assert ThreadOk(g, g.threads[t]);
  }

  /** Neither a failed sync nor a look at a sync still in flight. */
  predicate Useful(l: Label) { l != WaitOnInFlight && l != FinishSyncFail }

  predicate Finished(g: Gate) { forall t :: 0 <= t < |g.threads| ==> g.threads[t].phase.Done? }

  /** Steps a caller may still need: to ask, to lead up to two syncs, to be answered. */
  function Left(completed: nat, th: Thread): nat {
    match th.phase
    case NeedTarget => 6
    case Waiting => 1 + 2 * Ahead(completed, th)
    case Leading(_) => 2 * Ahead(completed, th)
    case Done => 0
  }

  function Ahead(completed: nat, th: Thread): nat {
    if th.target.Some? && th.target.value > completed then th.target.value - completed else 0
  }

  function AllLeft(completed: nat, ths: seq<Thread>): nat {
    if ths == [] then 0 else AllLeft(completed, ths[..|ths| - 1]) + Left(completed, ths[|ths| - 1])
  }

  lemma {:induction false} LeftBound(completed: nat, ths: seq<Thread>)
    requires forall i :: 0 <= i < |ths| ==> Left(completed, ths[i]) <= 6
    ensures AllLeft(completed, ths) <= 6 * |ths|
  {
    if ths != [] { LeftBound(completed, ths[..|ths| - 1]); }
  }

  lemma {:induction false} LeftDrops(c: nat, ths: seq<Thread>, d: nat, after: seq<Thread>, t: nat)
    requires |after| == |ths| && (forall i :: 0 <= i < |ths| ==> Left(d, after[i]) <= Left(c, ths[i]))
    requires t < |ths| ==> Left(d, after[t]) < Left(c, ths[t])
    ensures AllLeft(d, after) <= AllLeft(c, ths)
    ensures t < |ths| ==> AllLeft(d, after) < AllLeft(c, ths)
  {
    if ths != [] { LeftDrops(c, ths[..|ths| - 1], d, after[..|after| - 1], t); }
  }

  lemma UsefulStep(g: Gate, t: nat, l: Label)
    requires Inv(g) && Legal(g, t, l) && Useful(l)
    ensures var h := Next(g, t, l); AllLeft(h.completed, h.threads) < AllLeft(g.completed, g.threads)
  {
    var h := Next(g, t, l);
    assert ThreadOk(g, g.threads[t]);
    forall i | 0 <= i < |g.threads| ensures Left(h.completed, h.threads[i]) <= Left(g.completed, g.threads[i]) {
      assert ThreadOk(g, g.threads[i]);
    }
    LeftDrops(g.completed, g.threads, h.completed, h.threads, t);
  }

  /** Until everybody is answered, somebody has a useful step. */
  lemma SomebodyMoves(g: Gate) returns (t: nat, l: Label)
    requires Inv(g) && !Finished(g)
    ensures Legal(g, t, l) && Useful(l)
  {
    t :| 0 <= t < |g.threads| && !g.threads[t].phase.Done?;
    assert ThreadOk(g, g.threads[t]);
    if g.threads[t].phase.NeedTarget? {
      l := ReadTarget;
    } else if g.threads[t].phase.Leading? {
      l := FinishSyncOk;
    } else if g.threads[t].target.value <= g.completed {
      l := CheckComplete;
    } else if g.inFlight.None? {
      l := BeginLead;
    } else {
      t :| 0 <= t < |g.threads| && g.threads[t].phase.Leading?;
      l := FinishSyncOk;
    }
  }

  /** A run from any gate. */
  ghost predicate Leads(g: Gate, es: seq<Event>, h: Gate)
    decreases |es|
  {
    if es == [] then g == h
    else Legal(g, es[0].thread, es[0].act) && Leads(Next(g, es[0].thread, es[0].act), es[1..], h)
  }

  predicate AllUseful(es: seq<Event>) { forall i :: 0 <= i < |es| ==> Useful(es[i].act) }

  /** From every gate, however many syncs have failed, some schedule answers every caller
      with the generation it asked for. */
  lemma {:induction false} CanFinish(g: Gate) returns (es: seq<Event>, h: Gate)
    requires Inv(g)
    ensures Leads(g, es, h) && AllUseful(es) && Inv(h) && Finished(h) && |h.threads| == |g.threads|
    ensures forall t :: 0 <= t < |h.threads| ==> h.threads[t].ack.Some? && h.threads[t].ack == h.threads[t].target
    decreases AllLeft(g.completed, g.threads)
  {
    if Finished(g) {
      es, h := [], g;
      forall t | 0 <= t < |h.threads| ensures h.threads[t].ack.Some? && h.threads[t].ack == h.threads[t].target {
        assert ThreadOk(g, g.threads[t]);
      }
    } else {
      var t, l := SomebodyMoves(g);
      StepKeepsInv(g, t, l);
      UsefulStep(g, t, l);
      var more;
      more, h := CanFinish(Next(g, t, l));
      es := [Event(t, l)] + more;
      assert es[1..] == more;
    }
  }

  /** No schedule can avoid it: with no failed sync, at most six useful steps a caller are
      possible, and a run that has no further useful step has answered everybody. */
  lemma {:induction false} FinishesSoon(g: Gate, es: seq<Event>, h: Gate)
    requires Inv(g) && Leads(g, es, h) && AllUseful(es)
    ensures |es| + AllLeft(h.completed, h.threads) <= AllLeft(g.completed, g.threads) <= 6 * |g.threads|
    ensures Inv(h) && (Finished(h) <==> !exists t, l :: Legal(h, t, l) && Useful(l))
    decreases |es|
  {
    forall i | 0 <= i < |g.threads| ensures Left(g.completed, g.threads[i]) <= 6 { assert ThreadOk(g, g.threads[i]); }
    LeftBound(g.completed, g.threads);
    if es == [] {
      if !Finished(g) { var t, l := SomebodyMoves(g); }
    } else {
      StepKeepsInv(g, es[0].thread, es[0].act);
      UsefulStep(g, es[0].thread, es[0].act);
      FinishesSoon(Next(g, es[0].thread, es[0].act), es[1..], h);
    }
  }

  // ---- the stateful gate ---------------------------------------------------

  class BarrierGateModel {
    var completed: nat
    var inFlight: Option<nat>
    var enteredKernel: set<nat>
    var finishedSync: set<nat>
    var threads: seq<Thread>

    function State(): Gate
      reads this
    {
      Gate(completed, inFlight, enteredKernel, finishedSync, threads)
    }

    ghost predicate Valid()
      reads this
    {
      Inv(State())
    }

    constructor (waiters: nat)
      ensures Valid() && State() == Initial(waiters)
    {
      completed, inFlight, enteredKernel, finishedSync := 0, None, {}, {};
      threads := seq(waiters, _ => Thread(NeedTarget, None, None));
      new;
      InitialInv(waiters);
    }

    method LegalSteps(thread: nat) returns (labels: seq<Label>)
      requires thread < |threads|
      ensures forall l :: l in labels <==> Legal(State(), thread, l)
    {
      var t := threads[thread];
      match t.phase {
        case NeedTarget => labels := [ReadTarget];
        case Waiting =>
          if t.target.None? {
            labels := [];
          } else if completed >= t.target.value {
            labels := [CheckComplete];
          } else if inFlight.Some? {
            labels := [WaitOnInFlight];
          } else {
            labels := [BeginLead];
          }
        case Leading(_) => labels := [FinishSyncOk, FinishSyncFail];
        case Done => labels := [];
      }
    }

    method Step(thread: nat, act: Label)
      requires Valid() && Legal(State(), thread, act)
      modifies this
      ensures Valid() && State() == Next(old(State()), thread, act)
    {
      StepKeepsInv(State(), thread, act);
      var t := threads[thread];
      match act {
        case ReadTarget =>
          var target := (if inFlight.Some? then inFlight.value else completed) + 1;
          threads := threads[thread := t.(target := Some(target), phase := Waiting)];
        case CheckComplete =>
          threads := threads[thread := t.(ack := t.target, phase := Done)];
        case WaitOnInFlight =>
        case BeginLead =>
          var generation := completed + 1;
          inFlight := Some(generation);
          enteredKernel := enteredKernel + {generation};
          threads := threads[thread := t.(phase := Leading(generation))];
        case FinishSyncOk =>
          inFlight := None;
          completed := t.phase.generation;
          finishedSync := finishedSync + {t.phase.generation};
          threads := threads[thread := t.(phase := Waiting)];
        case FinishSyncFail =>
          inFlight := None;
          threads := threads[thread := t.(phase := Waiting)];
      }
    }

    /** `check_invariants`: it never reports anything. */
    method CheckInvariants() returns (ok: bool)
      requires Valid()
      ensures ok
    {
      InvPassesChecks(State());
      if completed > 0 && completed !in finishedSync {
        return false;
      }
      var i := 0;
      while i < |threads|
        invariant 0 <= i <= |threads|
      {
        var t := threads[i];
        if t.ack.Some? && (t.ack.value !in finishedSync || t.ack.value !in enteredKernel) {
          return false;
        }
        i := i + 1;
      }
      ok := true;
    }
  }
}
