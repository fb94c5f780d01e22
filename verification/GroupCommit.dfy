/** Group commit: writers queue jobs, one lock holder runs and answers a whole batch. */
module GroupCommit {
  import opened Names
  import opened FiniteSets

  datatype Reply = ReplyOk | ReplyErr | Disconnected

  datatype Stage = Taken | JobsRun | Replied

  datatype Phase = NeedEnqueue | Spinning | Locked | Draining(stage: Stage) | Done(reply: Reply)

  datatype Label =
    | Enqueue | RecvIdle | LockWrite | RecvAfterLock | DrainTake | BeginTxFail | RunJobs
    | CommitOk | CommitFail | PublishReplies | LeaderAbandon | UnlockEmpty

  /** The job id is one byte. */
  datatype Writer = Writer(phase: Phase, id: nat)

  datatype Group = Group(pending: seq<nat>, holder: Option<nat>, batch: seq<nat>,
                         mailboxes: seq<Option<Reply>>, drainStage: Option<Stage>, writers: seq<Writer>)

  function Initial(n: nat): Group {
    Group([], None, [], seq(n, _ => None), None, seq(n, i => Writer(NeedEnqueue, i % 256)))
  }

  predicate Legal(g: Group, t: nat, l: Label) {
    && t < |g.writers|
    && match g.writers[t].phase
       case NeedEnqueue => l == Enqueue
       case Spinning => l == RecvIdle || (l == LockWrite && g.holder.None?)
       case Locked => l == RecvAfterLock || l == DrainTake || (l == UnlockEmpty && g.batch == [] && g.pending == [])
       case Draining(Taken) => l == BeginTxFail || l == RunJobs
       case Draining(JobsRun) => l == CommitOk || l == CommitFail || l == LeaderAbandon
       case Draining(Replied) => l == PublishReplies || l == UnlockEmpty
       case Done(_) => false
  }

  /** Every index the run touches exists. */
  predicate Sized(g: Group) {
    && |g.mailboxes| == |g.writers|
    && (forall i :: 0 <= i < |g.batch| ==> g.batch[i] < |g.mailboxes|)
  }

  /** The mailboxes after one reply to a batch; `keep` leaves answered ones alone. */
  function Answered(boxes: seq<Option<Reply>>, batch: seq<nat>, reply: Reply, keep: bool): (r: seq<Option<Reply>>)
    ensures |r| == |boxes|
  {
    seq(|boxes|, i requires 0 <= i < |boxes| =>
      if i in batch && !(keep && boxes[i].Some?) then Some(reply) else boxes[i])
  }

  function SetPhase(g: Group, t: nat, p: Phase): Group
    requires t < |g.writers|
  {
    g.(writers := g.writers[t := g.writers[t].(phase := p)])
  }

  function AnswerAll(g: Group, t: nat, reply: Reply): Group
    requires t < |g.writers|
  {
    SetPhase(g.(mailboxes := Answered(g.mailboxes, g.batch, reply, false), drainStage := Some(Replied)),
             t, Draining(Replied))
  }

  function Next(g: Group, t: nat, l: Label): Group
    requires Legal(g, t, l) && Sized(g)
  {
    match l
    case Enqueue => SetPhase(g.(pending := g.pending + [g.writers[t].id]), t, Spinning)
    case RecvIdle => if g.mailboxes[t].Some? then SetPhase(g, t, Done(g.mailboxes[t].value)) else g
    case LockWrite => SetPhase(g.(holder := Some(t)), t, Locked)
    case RecvAfterLock =>
      if g.mailboxes[t].Some? then SetPhase(g.(holder := None), t, Done(g.mailboxes[t].value)) else g
    case DrainTake =>
      if g.pending == [] then g
      else SetPhase(g.(batch := g.pending, pending := [], drainStage := Some(Taken)), t, Draining(Taken))
    case BeginTxFail => AnswerAll(g, t, ReplyErr)
    case RunJobs => SetPhase(g.(drainStage := Some(JobsRun)), t, Draining(JobsRun))
    case CommitOk => AnswerAll(g, t, ReplyOk)
    case CommitFail => AnswerAll(g, t, ReplyErr)
    case LeaderAbandon =>
      SetPhase(g.(mailboxes := Answered(g.mailboxes, g.batch, Disconnected, true),
                  batch := [], drainStage := None, holder := None), t, Spinning)
    case UnlockEmpty => SetPhase(g.(batch := [], drainStage := None, holder := None), t, Spinning)
    case PublishReplies => g.(batch := [], drainStage := None)
  }

  // ---- what every step keeps ----------------------------------------------

  /** The holder's batch is still waiting for its answer. */
  predicate InProgress(g: Group) {
    && g.holder.Some? && g.holder.value < |g.writers|
    && (g.writers[g.holder.value].phase == Draining(Taken) || g.writers[g.holder.value].phase == Draining(JobsRun))
  }

  predicate HoldsLock(w: Writer) { w.phase.Locked? || w.phase.Draining? }

  predicate Distinct(s: seq<nat>) { forall i, j :: 0 <= i < j < |s| ==> s[i] != s[j] }

  /** The jobs of the batch in progress. */
  function Running(g: Group): seq<nat> { if InProgress(g) then g.batch else [] }

  /** Where writer `i`'s job is: nowhere yet, in exactly one place, or answered. */
  predicate JobOk(g: Group, i: nat)
    requires i < |g.writers| && |g.mailboxes| == |g.writers|
  {
    && g.writers[i].id == i
    && (g.writers[i].phase.NeedEnqueue? ==> g.mailboxes[i].None? && i !in g.pending && i !in g.batch)
    && (g.mailboxes[i].Some? ==> i !in g.pending && i !in Running(g))
    && (!g.writers[i].phase.NeedEnqueue? && g.mailboxes[i].None? ==> (i in g.pending) != (i in Running(g)))
    && (g.writers[i].phase.Done? ==> g.mailboxes[i] == Some(g.writers[i].phase.reply))
    && (HoldsLock(g.writers[i]) <==> g.holder == Some(i))
  }

  predicate Inv(g: Group) {
    && Sized(g)
    && (forall i :: 0 <= i < |g.writers| ==> JobOk(g, i))
    && (forall i :: 0 <= i < |g.pending| ==> g.pending[i] < |g.writers|)
    && Distinct(g.pending) && Distinct(g.batch)
    && (g.holder.Some? ==> g.holder.value < |g.writers| && (g.writers[g.holder.value].phase.Locked? ==> g.batch == []))
    && (g.holder.None? ==> g.batch == [])
    && (InProgress(g) ==> g.batch != [])
  }

  lemma InitialInv(n: nat)
    requires n <= 256
    ensures Inv(Initial(n))
  {
  }

  lemma StepKeepsJob(g: Group, t: nat, l: Label, i: nat)
    requires Inv(g) && Legal(g, t, l) && i < |g.writers|
    ensures JobOk(Next(g, t, l), i)
  {
    assert JobOk(g, i) && JobOk(g, t);
  }

  lemma StepKeepsInv(g: Group, t: nat, l: Label)
    requires Inv(g) && Legal(g, t, l)
    ensures Inv(Next(g, t, l))
  {
    var h := Next(g, t, l);
    forall i | 0 <= i < |h.writers| ensures JobOk(h, i) { StepKeepsJob(g, t, l, i); }
    assert JobOk(g, t);
  }

  /** A mailbox is written at most once, and only by the answer to the batch that
      holds its job: `ReplyOk` only by a successful commit. */
  lemma WrittenOnce(g: Group, t: nat, l: Label, i: nat)
    requires Inv(g) && Legal(g, t, l) && i < |g.writers|
    ensures var h := Next(g, t, l);
      && (g.mailboxes[i].Some? ==> h.mailboxes[i] == g.mailboxes[i])
      && (h.mailboxes[i] != g.mailboxes[i] ==>
          && g.holder == Some(t) && i in Running(g)
          && (h.mailboxes[i] == Some(ReplyOk) <==> l == CommitOk)
          && (h.mailboxes[i] == Some(ReplyErr) <==> l == CommitFail || l == BeginTxFail)
          && (h.mailboxes[i] == Some(Disconnected) <==> l == LeaderAbandon))
  {
    assert JobOk(g, i) && JobOk(g, t);
  }

  // ---- runs ----------------------------------------------------------------

  datatype Event = Event(thread: nat, act: Label)

  /** `es` is a schedule of legal steps from `g`. */
  predicate Schedule(g: Group, es: seq<Event>)
    decreases |es|
  {
    es == [] || (Sized(g) && Legal(g, es[0].thread, es[0].act)
                 && Schedule(Next(g, es[0].thread, es[0].act), es[1..]))
  }

  function After(g: Group, es: seq<Event>): Group
    requires Schedule(g, es)
    decreases |es|
  {
    if es == [] then g else After(Next(g, es[0].thread, es[0].act), es[1..])
  }

  lemma {:induction false} RunInv(g: Group, es: seq<Event>)
    requires Inv(g) && Schedule(g, es)
    ensures Inv(After(g, es)) && |After(g, es).writers| == |g.writers|
    decreases |es|
  {
    if es != [] {
      StepKeepsInv(g, es[0].thread, es[0].act);
      RunInv(Next(g, es[0].thread, es[0].act), es[1..]);
    }
  }

  lemma {:induction false} AnswersStay(g: Group, es: seq<Event>, i: nat)
    requires Inv(g) && Schedule(g, es) && i < |g.writers| && g.mailboxes[i].Some?
    ensures |After(g, es).mailboxes| == |g.mailboxes| && After(g, es).mailboxes[i] == g.mailboxes[i]
    decreases |es|
  {
    if es != [] {
      StepKeepsInv(g, es[0].thread, es[0].act);
      WrittenOnce(g, es[0].thread, es[0].act, i);
      AnswersStay(Next(g, es[0].thread, es[0].act), es[1..], i);
    }
  }

  /** A writer told "committed" had its job in a batch that a later, successful
      commit by the lock holder answered. */
  lemma {:induction false} CommittedMeansCommitted(n: nat, es: seq<Event>, i: nat) returns (k: nat)
    requires n <= 256 && Schedule(Initial(n), es) && i < n
    requires |After(Initial(n), es).writers| == n && After(Initial(n), es).writers[i].phase == Done(ReplyOk)
    ensures k < |es| && es[k].act == CommitOk && Schedule(Initial(n), es[..k])
    ensures var g := After(Initial(n), es[..k]); g.holder == Some(es[k].thread) && i in Running(g)
  {
    InitialInv(n);
    RunInv(Initial(n), es);
    assert JobOk(After(Initial(n), es), i);
    k := AnsweredAt(Initial(n), es, i, ReplyOk);
  }

  lemma {:induction false} AnsweredAt(g: Group, es: seq<Event>, i: nat, reply: Reply) returns (k: nat)
    requires Inv(g) && Schedule(g, es) && i < |g.writers| && g.mailboxes[i].None?
    requires i < |After(g, es).mailboxes| && After(g, es).mailboxes[i] == Some(reply)
    ensures k < |es| && Schedule(g, es[..k])
    ensures var h := After(g, es[..k]); h.holder == Some(es[k].thread) && i in Running(h)
    ensures reply == ReplyOk <==> es[k].act == CommitOk
    decreases |es|
  {
    assert es != [];
    var e := es[0];
    var h := Next(g, e.thread, e.act);
    StepKeepsInv(g, e.thread, e.act);
    WrittenOnce(g, e.thread, e.act, i);
    if h.mailboxes[i].Some? {
      AnswersStay(h, es[1..], i);
      k := 0;
      assert es[..0] == [];
    } else {
      var j := AnsweredAt(h, es[1..], i, reply);
      k := j + 1;
      assert es[..k][0] == e && es[..k][1..] == es[1..][..j];
    }
  }

  // ---- every state can be finished ----------------------------------------

  predicate AllDone(g: Group) { forall i :: 0 <= i < |g.writers| ==> g.writers[i].phase.Done? }

  function Idle(g: Group): set<nat> { set i | 0 <= i < |g.writers| && g.writers[i].phase.NeedEnqueue? }

  function Open(g: Group): set<nat>
    requires |g.mailboxes| == |g.writers|
  {
    set i | 0 <= i < |g.writers| && g.mailboxes[i].None?
  }

  function Undone(g: Group): set<nat> { set i | 0 <= i < |g.writers| && !g.writers[i].phase.Done? }

  function Turn(g: Group): nat {
    if g.holder.None? || g.holder.value >= |g.writers| then 4
    else match g.writers[g.holder.value].phase
      case Locked => 3
      case Draining(Taken) => 2
      case Draining(JobsRun) => 1
      case _ => 5
  }

  /** The step that moves a live state towards its end. */
  ghost predicate Helps(g: Group, e: Event) {
    && Inv(g) && Legal(g, e.thread, e.act)
    && var h := Next(g, e.thread, e.act);
    && Inv(h) && Idle(h) <= Idle(g)
    && (|Idle(h)| < |Idle(g)|
        || (Open(h) <= Open(g) && (|Open(h)| < |Open(g)|
        || (Undone(h) <= Undone(g) && (|Undone(h)| < |Undone(g)|
        || Turn(h) < Turn(g))))))
  }

  lemma HolderHelps(g: Group) returns (e: Event)
    requires Inv(g) && g.holder.Some?
    ensures Helps(g, e)
  {
    var t := g.holder.value;
    assert JobOk(g, t);
    var l := match g.writers[t].phase
      case Locked => if g.mailboxes[t].Some? then RecvAfterLock else DrainTake
      case Draining(Taken) => RunJobs
      case Draining(JobsRun) => CommitOk
      case _ => UnlockEmpty;
    e := Event(t, l);
    StepKeepsInv(g, t, l);
    var h := Next(g, t, l);
    assert Idle(h) == Idle(g);
    if l == CommitOk {
      CommitShrinks(g, t);
    } else if l == RecvAfterLock {
      assert Undone(h) <= Undone(g) - {t};
      SubsetCount(Undone(h), Undone(g));
      assert t in Undone(g);
    }
  }

  lemma CommitShrinks(g: Group, t: nat)
    requires Inv(g) && Legal(g, t, CommitOk) && g.holder == Some(t)
    ensures var h := Next(g, t, CommitOk); Open(h) <= Open(g) && |Open(h)| < |Open(g)|
  {
    var h := Next(g, t, CommitOk);
    assert JobOk(g, t);
    var i := g.batch[0];
    assert i in Running(g);
    assert JobOk(g, i);
    assert i in Open(g) && i !in Open(h);
    SubsetCount(Open(h), Open(g));
  }

  lemma FreeHelps(g: Group) returns (e: Event)
    requires Inv(g) && g.holder.None? && !AllDone(g)
    ensures Helps(g, e)
  {
    if t :| 0 <= t < |g.writers| && g.writers[t].phase.NeedEnqueue? {
      e := Event(t, Enqueue);
      StepKeepsInv(g, t, Enqueue);
      assert t in Idle(g) && t !in Idle(Next(g, t, Enqueue));
      SubsetCount(Idle(Next(g, t, Enqueue)), Idle(g));
    } else if t :| 0 <= t < |g.writers| && g.writers[t].phase.Spinning? && g.mailboxes[t].Some? {
      e := Event(t, RecvIdle);
      StepKeepsInv(g, t, RecvIdle);
      assert t in Undone(g) && t !in Undone(Next(g, t, RecvIdle));
      SubsetCount(Undone(Next(g, t, RecvIdle)), Undone(g));
    } else {
      var t :| 0 <= t < |g.writers| && !g.writers[t].phase.Done?;
      assert JobOk(g, t);
      e := Event(t, LockWrite);
      StepKeepsInv(g, t, LockWrite);
    }
  }

  /** From every state the protocol can reach, some legal schedule answers and
      finishes every writer. */
  lemma {:induction false} CanFinish(g: Group) returns (es: seq<Event>)
    requires Inv(g)
    ensures Schedule(g, es) && AllDone(After(g, es))
    decreases |Idle(g)|, |Open(g)|, |Undone(g)|, Turn(g)
  {
    if AllDone(g) {
      es := [];
    } else {
      var e;
      if g.holder.Some? { e := HolderHelps(g); } else { e := FreeHelps(g); }
      var h := Next(g, e.thread, e.act);
      SubsetCount(Idle(h), Idle(g));
      if |Idle(h)| == |Idle(g)| { SubsetCount(Open(h), Open(g)); }
      if |Idle(h)| == |Idle(g)| && |Open(h)| == |Open(g)| { SubsetCount(Undone(h), Undone(g)); }
      var rest := CanFinish(h);
      es := [e] + rest;
      assert es[1..] == rest;
    }
  }

  // ---- every outcome is possible -------------------------------------------

  ghost predicate AnsweredWith(g: Group, es: seq<Event>, jobs: seq<nat>, reply: Reply) {
    && Schedule(g, es)
    && forall i :: i in jobs ==> i < |After(g, es).mailboxes| && After(g, es).mailboxes[i] == Some(reply)
  }

  lemma TwoSteps(g: Group, t: nat, k: Label, l: Label)
    requires Sized(g) && Legal(g, t, k) && Sized(Next(g, t, k)) && Legal(Next(g, t, k), t, l)
    ensures Schedule(g, [Event(t, k), Event(t, l)])
    ensures After(g, [Event(t, k), Event(t, l)]) == Next(Next(g, t, k), t, l)
  {
    var es := [Event(t, k), Event(t, l)];
    assert es[1..] == [Event(t, l)] && es[1..][1..] == [];
    assert Schedule(Next(Next(g, t, k), t, l), []) && Schedule(Next(g, t, k), es[1..]);
    assert After(Next(g, t, k), es[1..]) == After(Next(Next(g, t, k), t, l), []);
  }

  lemma OneStep(g: Group, t: nat, l: Label)
    requires Sized(g) && Legal(g, t, l)
    ensures Schedule(g, [Event(t, l)]) && After(g, [Event(t, l)]) == Next(g, t, l)
  {
    var es := [Event(t, l)];
    assert es[1..] == [] && Schedule(Next(g, t, l), []) && After(Next(g, t, l), []) == Next(g, t, l);
  }

  /** Jobs run: the commit succeeds or fails, or the leader dies before it. */
  lemma RanOutcome(g: Group, t: nat, l: Label, reply: Reply)
    requires Inv(g) && t < |g.writers| && g.writers[t].phase == Draining(Taken)
    requires (l == CommitOk && reply == ReplyOk) || (l == CommitFail && reply == ReplyErr)
             || (l == LeaderAbandon && reply == Disconnected)
    ensures AnsweredWith(g, [Event(t, RunJobs), Event(t, l)], g.batch, reply)
  {
    StepKeepsInv(g, t, RunJobs);
    Unanswered(g, t);
    TwoSteps(g, t, RunJobs, l);
  }

  /** The transaction may not begin, or the jobs run and its commit succeeds, fails, or
      the leader dies before it; each way every job of the batch learns just that. */
  lemma AnyOutcome(g: Group, t: nat)
    requires Inv(g) && t < |g.writers| && g.writers[t].phase == Draining(Taken)
    ensures AnsweredWith(g, [Event(t, BeginTxFail)], g.batch, ReplyErr)
    ensures AnsweredWith(g, [Event(t, RunJobs), Event(t, CommitOk)], g.batch, ReplyOk)
    ensures AnsweredWith(g, [Event(t, RunJobs), Event(t, CommitFail)], g.batch, ReplyErr)
    ensures AnsweredWith(g, [Event(t, RunJobs), Event(t, LeaderAbandon)], g.batch, Disconnected)
  {
    RanOutcome(g, t, CommitOk, ReplyOk);
    RanOutcome(g, t, CommitFail, ReplyErr);
    RanOutcome(g, t, LeaderAbandon, Disconnected);
    OneStep(g, t, BeginTxFail);
    Unanswered(g, t);
  }

  /** No job of a batch in progress has an answer yet. */
  lemma Unanswered(g: Group, t: nat)
    requires Inv(g) && t < |g.writers| && g.writers[t].phase == Draining(Taken)
    ensures forall i :: i in g.batch ==> i < |g.mailboxes| && g.mailboxes[i].None?
  {
    assert JobOk(g, t);
    forall i | i in g.batch ensures i < |g.mailboxes| && g.mailboxes[i].None? {
      assert i < |g.mailboxes|;
      assert JobOk(g, i);
    }
  }

  /** What a writer outside a batch may do: ask once; look for its answer while it waits;
      take a free lock; look again under the lock before it drains the queue or, with
      nothing to do, lets go. */
  lemma WriterMoves(g: Group, t: nat, l: Label)
    requires Inv(g) && t < |g.writers|
    ensures g.writers[t].phase.NeedEnqueue? ==> (Legal(g, t, l) <==> l == Enqueue)
    ensures g.writers[t].phase.Spinning? ==> (Legal(g, t, l) <==> l == RecvIdle || (g.holder.None? && l == LockWrite))
    ensures g.writers[t].phase.Locked? ==>
      (Legal(g, t, l) <==> l == RecvAfterLock || l == DrainTake || (g.pending == [] && l == UnlockEmpty))
    ensures g.writers[t].phase == Draining(Replied) ==> (Legal(g, t, l) <==> l == PublishReplies || l == UnlockEmpty)
    ensures g.writers[t].phase.Done? ==> !Legal(g, t, l)
  {
    assert JobOk(g, t);
  }

  // ---- the one-byte id -----------------------------------------------------

  /** Writers from the 257th on share a byte with an earlier one. */
  predicate Aliased(g: Group) {
    && Sized(g) && |g.writers| > 256
    && (forall i :: 0 <= i < |g.writers| ==> g.writers[i].id < 256)
    && (forall i :: 0 <= i < |g.pending| ==> g.pending[i] < 256)
    && (forall i :: 0 <= i < |g.batch| ==> g.batch[i] < 256)
    && (forall i :: 256 <= i < |g.writers| ==> g.mailboxes[i].None? && !g.writers[i].phase.Done?)
  }

  lemma StepKeepsAliased(g: Group, t: nat, l: Label)
    requires Aliased(g) && Legal(g, t, l)
    ensures Aliased(Next(g, t, l))
  {
  }

  lemma {:induction false} NeverAnswered(g: Group, es: seq<Event>)
    requires Aliased(g) && Schedule(g, es)
    ensures Aliased(After(g, es)) && !AllDone(After(g, es))
    decreases |es|
  {
    if es == [] {
      assert !g.writers[256].phase.Done?;
    } else {
      StepKeepsAliased(g, es[0].thread, es[0].act);
      NeverAnswered(Next(g, es[0].thread, es[0].act), es[1..]);
    }
  }

  ghost predicate Finishable(g: Group) { exists es :: Schedule(g, es) && AllDone(After(g, es)) }

  ghost predicate Reachable(n: nat, g: Group) {
    exists es :: Schedule(Initial(n), es) && g == After(Initial(n), es)
  }

  /** Every reachable state of `n` writers can be run to the end exactly when the
      writers fit in one byte. */
  lemma FinishesIffByteSized(n: nat)
    ensures n <= 256 <==> forall g :: Reachable(n, g) ==> Finishable(g)
  {
    if n <= 256 {
      InitialInv(n);
      forall g | Reachable(n, g) ensures Finishable(g) {
        var es :| Schedule(Initial(n), es) && g == After(Initial(n), es);
        RunInv(Initial(n), es);
        var fs := CanFinish(g);
      }
    } else {
      var g := Initial(n);
      assert Schedule(g, []) && After(g, []) == g;
      forall fs | Schedule(g, fs) ensures !AllDone(After(g, fs)) {
        NeverAnswered(g, fs);
      }
      assert Reachable(n, g) && !Finishable(g);
    }
  }

  // ---- the stateful model --------------------------------------------------

  class GroupCommitModel {
    var pending: seq<nat>
    var writeHolder: Option<nat>
    var batch: seq<nat>
    var mailboxes: seq<Option<Reply>>
    var drainStage: Option<Stage>
    var writers: seq<Writer>

    function State(): Group
      reads this
    {
      Group(pending, writeHolder, batch, mailboxes, drainStage, writers)
    }

    constructor (n: nat)
      ensures State() == Initial(n)
    {
      pending, writeHolder, batch, drainStage := [], None, [], None;
      mailboxes := seq(n, _ => None);
      writers := seq(n, i => Writer(NeedEnqueue, i % 256));
    }

    method LegalSteps(thread: nat) returns (v: seq<Label>)
      requires thread < |writers|
      ensures forall l :: l in v <==> Legal(State(), thread, l)
    {
      match writers[thread].phase {
        case NeedEnqueue => v := [Enqueue];
        case Spinning =>
          v := [RecvIdle];
          if writeHolder.None? { v := v + [LockWrite]; }
        case Locked =>
          v := [RecvAfterLock, DrainTake];
          if batch == [] && pending == [] { v := v + [UnlockEmpty]; }
        case Draining(Taken) => v := [BeginTxFail, RunJobs];
        case Draining(JobsRun) => v := [CommitOk, CommitFail, LeaderAbandon];
        case Draining(Replied) => v := [PublishReplies, UnlockEmpty];
        case Done(_) => v := [];
      }
    }

    method SetPhase(thread: nat, p: Phase)
      requires thread < |writers|
      modifies this`writers
      ensures writers == old(writers)[thread := old(writers)[thread].(phase := p)]
    {
      writers := writers[thread := writers[thread].(phase := p)];
    }

    /** The answer loop: every job of the batch gets the reply. */
    method AnswerBatch(reply: Reply, keep: bool)
      requires Sized(State())
      modifies this`mailboxes
      ensures mailboxes == Answered(old(mailboxes), batch, reply, keep)
    {
      var k := 0;
      while k < |batch|
        invariant 0 <= k <= |batch| && |mailboxes| == |old(mailboxes)|
        invariant forall i :: 0 <= i < |mailboxes| ==>
          mailboxes[i] == (if i in batch[..k] && !(keep && old(mailboxes)[i].Some?) then Some(reply) else old(mailboxes)[i])
      {
        var id := batch[k];
        assert batch[..k + 1] == batch[..k] + [id];
        if !keep || mailboxes[id].None? {
          mailboxes := mailboxes[id := Some(reply)];
        }
        k := k + 1;
      }
      assert batch[..k] == batch;
    }

    method Step(thread: nat, act: Label)
      requires Sized(State()) && Legal(State(), thread, act)
      modifies this
      ensures State() == Next(old(State()), thread, act)
    {
      match act {
        case Enqueue =>
          pending := pending + [writers[thread].id];
          SetPhase(thread, Spinning);
        case RecvIdle =>
          if mailboxes[thread].Some? { SetPhase(thread, Done(mailboxes[thread].value)); }
        case LockWrite =>
          writeHolder := Some(thread);
          SetPhase(thread, Locked);
        case RecvAfterLock =>
          if mailboxes[thread].Some? {
            SetPhase(thread, Done(mailboxes[thread].value));
            writeHolder := None;
          }
        case DrainTake =>
          if pending != [] {
            batch, pending, drainStage := pending, [], Some(Taken);
            SetPhase(thread, Draining(Taken));
          }
        case RunJobs =>
          SetPhase(thread, Draining(JobsRun));
          drainStage := Some(JobsRun);
        case BeginTxFail =>
          AnswerBatch(ReplyErr, false);
          SetPhase(thread, Draining(Replied));
          drainStage := Some(Replied);
        case CommitOk =>
          AnswerBatch(ReplyOk, false);
          SetPhase(thread, Draining(Replied));
          drainStage := Some(Replied);
        case CommitFail =>
          AnswerBatch(ReplyErr, false);
          SetPhase(thread, Draining(Replied));
          drainStage := Some(Replied);
        case LeaderAbandon =>
          AnswerBatch(Disconnected, true);
          batch, drainStage, writeHolder := [], None, None;
          SetPhase(thread, Spinning);
        case UnlockEmpty =>
          batch, drainStage, writeHolder := [], None, None;
          SetPhase(thread, Spinning);
        case PublishReplies =>
          batch, drainStage := [], None;
      }
    }
  }
}
