/**
 Invariants of the hosted-operation system over every interleaving.

 What the system knows of one operation is projected into a `Local` record; every event changes the
 projections by small local steps, so the per-operation invariant is proved without quantifiers.
 */
module OperationLocal {
  import opened Prelude
  import opened Capability
  import opened Operation

  // ---- One operation ----

  datatype Local = Local(
    id: Id,
    submission: Option<Submission>,
    queued: bool,
    task: Option<Task>,
    active: Option<CapabilityId>,
    cancelled: bool,
    stored: Option<Stored>,
    inChannel: bool,
    withRelay: bool,
    r: Record)

  function Get<V>(m: map<Id, V>, id: Id): Option<V>
  {
    if id in m then Some(m[id]) else None
  }

  predicate RelayHas(relay: Relay, id: Id)
  {
    (relay.Handing? || relay.Discarding?) && relay.c.id == id
  }

  function View(s: Sys, id: Id): Local
  {
    Local(id, Get(s.intake.submitting, id), id in QueueIds(s.intake.queue), Get(s.pool.tasks, id),
          Get(s.shared.active, id), id in s.shared.cancelled,
          Get(s.shared.results, id), id in ChannelIds(s.out.channel), RelayHas(s.out.relay, id), Of(s.log.book, id))
  }

  /** Being submitted, accepted or rejected; accepted, it is queued, running or completed. */
  predicate LifecycleInv(l: Local)
  {
    && Count(l.submission.Some?) + l.r.accepted + l.r.rejected == Count(l.r.submitted.Some?)
    && l.r.accepted == Count(l.queued) + Count(l.task.Some?) + l.r.completed
    && (l.submission.Some? ==>
          l.submission.value.job.id == l.id && Some(l.submission.value.job.capability) == l.r.submitted)
    && (l.task.Some? ==> l.task.value.job.id == l.id && Some(l.task.value.job.capability) == l.r.submitted)
  }

  predicate Live(l: Local)
  {
    || (l.submission.Some? && !l.submission.value.Fresh?)
    || l.queued
    || (l.task.Some? && !l.task.value.Announcing? && !l.task.value.Unwanted?)
  }

  /** The active map holds exactly the live operations, under their submit-time capability. */
  predicate ActiveInv(l: Local)
  {
    (l.active.Some? <==> Live(l)) && (l.active.Some? ==> l.active == l.r.submitted)
  }

  predicate HasTerminal(l: Local)
  {
    l.task.Some? && (l.task.value.Settled? || l.task.value.Announcing? || l.task.value.Unwanted?)
  }

  /**
   A success is exactly one of: stored, taken, discarded, removed after a failed send. The terminal
   is written once, by the result section; a stored result keeps its submit-time capability.
   */
  predicate LedgerInv(l: Local)
  {
    && l.r.succeeded == Count(l.stored.Some?) + l.r.taken + l.r.discarded + l.r.removed
    && l.r.succeeded == Count(l.r.terminal == Some(Succeeded))
    && (l.r.terminal.Some? <==> l.r.completed > 0 || HasTerminal(l))
    && (HasTerminal(l) ==> l.r.terminal == Some(l.task.value.terminal))
    && (l.stored.Some? ==> Some(l.stored.value.capability) == l.r.submitted)
  }

  /**
   A completed operation was announced or never sent; an announced completion is in the channel, with the
   relay, delivered, refused or stranded, exactly one of them. A refused or unsent result is gone.
   */
  predicate CompletionInv(l: Local)
  {
    && l.r.completed == l.r.announced + Count(l.r.unsent)
    && l.r.announced ==
       Count(l.inChannel) + Count(l.withRelay) + Count(l.r.delivered) + Count(l.r.refused) + Count(l.r.stranded)
    && (l.r.refused || l.r.unsent ==> l.stored.None?)
  }

  predicate Unstarted(l: Local)
  {
    l.submission.Some? || l.queued || (l.task.Some? && l.task.value.Spawned?)
  }

  predicate EndsInTimeout(l: Local)
  {
    && (l.task.Some? && l.task.value.Decided? ==> l.task.value.outcome == Fault(Timeout))
    && (l.r.terminal.Some? ==> l.r.terminal.value == Failed(Timeout))
  }

  predicate EndsUnrun(l: Local)
  {
    && (l.task.Some? && l.task.value.Decided? ==>
          l.task.value.outcome == Fault(Timeout) || l.task.value.outcome == Fault(Cancelled))
    && (l.r.terminal.Some? ==> l.r.terminal.value == Failed(Timeout) || l.r.terminal.value == Failed(Cancelled))
  }

  /** Work of a job that was late, or cancelled before its first run, is never polled. */
  predicate FirstRunInv(l: Local)
  {
    && (l.r.polled || l.r.late ==> l.r.submitted.Some? && !Unstarted(l))
    && (l.r.early ==> l.cancelled && l.r.submitted.Some?)
    && (l.r.early || l.r.late ==> !l.r.polled && !(l.task.Some? && (l.task.value.InPoll? || l.task.value.Parked?)))
    && (l.r.late ==> EndsInTimeout(l))
    && (l.r.early ==> EndsUnrun(l))
  }

  predicate LocalInv(l: Local)
  {
    LifecycleInv(l) && ActiveInv(l) && LedgerInv(l) && CompletionInv(l) && FirstRunInv(l)
  }

  // ---- The automaton of one operation ----

  /** What one event of the system may do to one operation. */
  datatype Move =
    | Stay
    | Begin(capability: CapabilityId, deadline: nat) | Register | Enqueue | Refuse | Withdraw
    | Spawn(job: Job) | RunLate | RunCancelled | RunPoll | Pause | Resume | Conclude(outcome: Outcome)
    | Store(room: bool) | Deregister | Post | GiveUp | Remove
    | Raise | Collect | Forget
    | Receive | Deliver | Reject | Strand

  predicate Enabled(l: Local, m: Move)
  {
    match m
    case Begin(_, _) => l.r.submitted.None?
    case Register => l.submission.Some? && l.submission.value.Fresh?
    case Enqueue => l.submission.Some? && l.submission.value.Inserted?
    case Refuse => l.submission.Some? && l.submission.value.Inserted?
    case Withdraw => l.submission.Some? && l.submission.value.Refused?
    case Spawn(job) => l.queued && job.id == l.id && Some(job.capability) == l.r.submitted
    case RunLate => l.task.Some? && l.task.value.Spawned?
    case RunCancelled => l.task.Some? && l.task.value.Spawned?
    case RunPoll => l.task.Some? && l.task.value.Spawned? && !l.cancelled
    case Pause => l.task.Some? && l.task.value.InPoll?
    case Resume => l.task.Some? && l.task.value.Parked? && !l.cancelled
    case Conclude(outcome) =>
      || (l.task.Some? && l.task.value.InPoll?)
      || (l.task.Some? && l.task.value.Parked? && l.cancelled && outcome == Fault(Cancelled))
    case Store(_) => l.task.Some? && l.task.value.Decided?
    case Deregister => l.task.Some? && l.task.value.Settled?
    case Post => l.task.Some? && l.task.value.Announcing?
    case GiveUp => l.task.Some? && l.task.value.Announcing?
    case Remove => l.task.Some? && l.task.value.Unwanted?
    case Collect => l.stored.Some?
    case Receive => l.inChannel && !l.withRelay
    case Deliver => l.withRelay
    case Reject => l.withRelay
    case Strand => l.inChannel
    case _ => true
  }

  function StoreTerminal(outcome: Outcome, room: bool): Terminal
  {
    if outcome.Fault? then Failed(outcome.failure) else if room then Succeeded else Failed(Dropped)
  }

  function Apply(l: Local, m: Move): Local
    requires Enabled(l, m)
  {
    var r := l.r;
    match m
    case Stay => l
    case Begin(capability, deadline) =>
      l.(submission := Some(Fresh(Job(l.id, capability, deadline))), r := r.(submitted := Some(capability)))
    case Register =>
      l.(submission := Some(Inserted(l.submission.value.job)), active := Some(l.submission.value.job.capability))
    case Enqueue => l.(submission := None, queued := true, r := r.(accepted := r.accepted + 1))
    case Refuse => l.(submission := Some(Refused(l.submission.value.job)))
    case Withdraw => l.(submission := None, active := None, r := r.(rejected := r.rejected + 1))
    case Spawn(job) => l.(queued := false, task := Some(Spawned(job)))
    case RunLate => l.(task := Some(Decided(l.task.value.job, Fault(Timeout))), r := r.(late := true))
    case RunCancelled => l.(task := Some(Decided(l.task.value.job, Fault(Cancelled))))
    case RunPoll => l.(task := Some(InPoll(l.task.value.job)), r := r.(polled := true))
    case Pause => l.(task := Some(Parked(l.task.value.job)))
    case Resume => l.(task := Some(InPoll(l.task.value.job)))
    case Conclude(outcome) => l.(task := Some(Decided(l.task.value.job, outcome)))
    case Store(room) =>
      var job, outcome := l.task.value.job, l.task.value.outcome;
      var terminal := StoreTerminal(outcome, room);
      l.(task := Some(Settled(job, terminal)),
         stored := if terminal.Succeeded? then Some(Stored(job.capability, outcome.erased)) else l.stored,
         r := r.(terminal := Some(terminal), succeeded := r.succeeded + Count(terminal.Succeeded?)))
    case Deregister => l.(task := Some(Announcing(l.task.value.job, l.task.value.terminal)), active := None)
    case Post => l.(task := None, inChannel := true,
        r := r.(completed := r.completed + 1, announced := r.announced + 1))
    case GiveUp => l.(task := Some(Unwanted(l.task.value.job, l.task.value.terminal)))
    case Remove =>
      l.(task := None, stored := None,
         r := r.(completed := r.completed + 1, unsent := true, removed := r.removed + Count(l.stored.Some?)))
    case Raise => l.(cancelled := true, r := r.(early := r.early || Unstarted(l)))
    case Collect => l.(stored := None, r := r.(taken := r.taken + 1))
    case Forget => l.(stored := None, r := r.(discarded := r.discarded + Count(l.stored.Some?)))
    case Receive => l.(inChannel := false, withRelay := true)
    case Deliver => l.(withRelay := false, r := r.(delivered := true))
    case Reject =>
      l.(withRelay := false, stored := None,
         r := r.(refused := true, discarded := r.discarded + Count(l.stored.Some?)))
    case Strand => l.(inChannel := false, r := r.(stranded := true))
  }

  /** Raising the flag of an operation the system does not know has no effect on it here. */
  predicate Sound(l: Local, m: Move)
  {
    Enabled(l, m) && (m.Raise? ==> l.active.Some?)
  }

  lemma MoveKeepsLifecycle(l: Local, m: Move)
    requires LocalInv(l) && Sound(l, m)
    ensures LifecycleInv(Apply(l, m)) && ActiveInv(Apply(l, m))
  {
  }

  lemma MoveKeepsLedger(l: Local, m: Move)
    requires LocalInv(l) && Sound(l, m)
    ensures LedgerInv(Apply(l, m))
  {
  }

  lemma MoveKeepsCompletion(l: Local, m: Move)
    requires LocalInv(l) && Sound(l, m)
    ensures CompletionInv(Apply(l, m))
  {
  }

  lemma MoveKeepsFirstRun(l: Local, m: Move)
    requires LocalInv(l) && Sound(l, m)
    ensures FirstRunInv(Apply(l, m))
  {
  }

  /** What is recorded of an operation stays: its capability, its terminal, an early cancellation. */
  predicate Keeps(r: Record, q: Record)
  {
    && (r.submitted.Some? ==> q.submitted == r.submitted)
    && (r.terminal.Some? ==> q.terminal == r.terminal)
    && (r.early ==> q.early)
  }

  lemma MoveKeepsRecord(l: Local, m: Move)
    requires LocalInv(l) && Sound(l, m)
    ensures Keeps(l.r, Apply(l, m).r)
    ensures Apply(l, m).r.submitted.Some? ==> l.r.submitted.Some? || m.Begin?
  {
  }
}
