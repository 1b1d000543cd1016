/**
 Hosted operations (crates/floatile-services/src/operation.rs): the shared maps each mutex guards, and
 the concurrent system of submitters, a bounded queue, a dispatcher with permits, running tasks,
 cancellers, result takers and the completion relay
 (crates/floatile-runtime/src/lib.rs:378-410).

 Every mutex section, channel operation and atomic access is one event. A run is any sequence of
 events, so what is proved of runs holds for every interleaving and any number of clients.
 */
module Operation {
  import opened Prelude
  import opened Capability

  type Id = nat

  const MAX_ID: nat := 0xFFFF_FFFF_FFFF_FFFF

  datatype Failure = Timeout | Cancelled | Unavailable | Internal | Dropped

  datatype Terminal = Succeeded | Failed(failure: Failure)

  /** A type-erased value: its concrete type and its contents. */
  datatype Erased = Erased(typeTag: string, value: int)

  datatype Outcome = Value(erased: Erased) | Fault(failure: Failure)

  datatype Stored = Stored(capability: CapabilityId, erased: Erased)

  datatype Job = Job(id: Id, capability: CapabilityId, deadline: nat)

  datatype Completion = Completion(id: Id, capability: CapabilityId, terminal: Terminal)

  datatype Limits = Limits(queueCapacity: nat, completionCapacity: nat, maxInFlight: nat, maxRetained: nat)

  datatype TakeError = NotAvailable | CapabilityMismatch | TypeMismatch

  type Results = map<Id, Stored>

  type Active = map<Id, CapabilityId>

  // ---- The shared maps, one function per mutex section ----

  function TakeOutcome(results: Results, capability: CapabilityId, typeTag: string, id: Id): Result<int, TakeError>
  {
    if id !in results then Err(NotAvailable)
    else if results[id].capability != capability then Err(CapabilityMismatch)
    else if results[id].erased.typeTag != typeTag then Err(TypeMismatch)
    else Ok(results[id].erased.value)
  }

  function AfterTake(results: Results, capability: CapabilityId, typeTag: string, id: Id): Results
  {
    if TakeOutcome(results, capability, typeTag, id).Ok? then results - {id} else results
  }

  /** The terminal of a finished job: a value that does not fit the retention bound is dropped. */
  function SettleTerminal(results: Results, outcome: Outcome, maxRetained: nat): Terminal
  {
    if outcome.Fault? then Failed(outcome.failure)
    else if |results| >= maxRetained then Failed(Dropped)
    else Succeeded
  }

  function AfterSettle(results: Results, job: Job, outcome: Outcome, maxRetained: nat): Results
  {
    if outcome.Value? && SettleTerminal(results, outcome, maxRetained).Succeeded?
    then results[job.id := Stored(job.capability, outcome.erased)] else results
  }

  /** `active` holds the capability of each live operation, `cancelled` the raised cancellation flags. */
  class SharedState {
    var active: Active
    var cancelled: set<Id>
    var results: Results

    constructor ()
      ensures active == map[] && cancelled == {} && results == map[]
    {
      active, cancelled, results := map[], {}, map[];
    }

    /** `cancel`: answers NotActive for another capability's operation as for an unknown one. */
    method Cancel(capability: CapabilityId, id: Id) returns (ok: bool)
      modifies this`cancelled
      ensures ok <==> id in active && active[id] == capability
      ensures cancelled == old(cancelled) + if ok then {id} else {}
    {
      if id !in active || active[id] != capability {
        return false;
      }
      cancelled := cancelled + {id};
      return true;
    }

    /** `cancel_all`: raises the flag of every live operation and reports how many there were. */
    method CancelAll() returns (n: nat)
      modifies this`cancelled
      ensures cancelled == old(cancelled) + active.Keys
      ensures n == |active|
    {
      var remaining := active.Keys;
      while remaining != {}
        invariant remaining <= active.Keys
        invariant cancelled == old(cancelled) + (active.Keys - remaining)
        decreases |remaining|
      {
        var id :| id in remaining;
        cancelled := cancelled + {id};
        remaining := remaining - {id};
      }
      n := |active|;
    }

    /** `take`: the entry is removed first and put back when the caller may not have it. */
    method Take(capability: CapabilityId, typeTag: string, id: Id) returns (r: Result<int, TakeError>)
      modifies this`results
      ensures r == Err(NotAvailable) <==> id !in old(results)
      ensures r == Err(CapabilityMismatch) <==> id in old(results) && old(results)[id].capability != capability
      ensures r == Err(TypeMismatch) <==>
        && id in old(results) && old(results)[id].capability == capability
        && old(results)[id].erased.typeTag != typeTag
      ensures r.Ok? ==> old(results)[id] == Stored(capability, Erased(typeTag, r.value))
      ensures results == if r.Ok? then old(results) - {id} else old(results)
      ensures r == TakeOutcome(old(results), capability, typeTag, id)
      ensures results == AfterTake(old(results), capability, typeTag, id)
    {
      if id !in results {
        return Err(NotAvailable);
      }
      var stored := results[id];
      results := results - {id};
      if stored.capability != capability {
        results := results[id := stored];
        return Err(CapabilityMismatch);
      }
      if stored.erased.typeTag != typeTag {
        results := results[id := Stored(stored.capability, stored.erased)];
        return Err(TypeMismatch);
      }
      return Ok(stored.erased.value);
    }

    /** `discard_result`. */
    method Discard(id: Id) returns (present: bool)
      modifies this`results
      ensures present <==> id in old(results)
      ensures results == old(results) - {id}
    {
      present := id in results;
      results := results - {id};
    }

    /** The result section of `run_operation`. */
    method Settle(job: Job, outcome: Outcome, maxRetained: nat) returns (terminal: Terminal)
      modifies this`results
      ensures outcome.Fault? ==> terminal == Failed(outcome.failure) && results == old(results)
      ensures outcome.Value? && |old(results)| >= maxRetained ==> terminal == Failed(Dropped) && results == old(results)
      ensures outcome.Value? && |old(results)| < maxRetained ==>
        && terminal == Succeeded && job.id in results
        && results[job.id] == Stored(job.capability, outcome.erased) && results - {job.id} == old(results) - {job.id}
      ensures terminal == SettleTerminal(old(results), outcome, maxRetained)
      ensures results == AfterSettle(old(results), job, outcome, maxRetained)
    {
      if outcome.Value? {
        if |results| >= maxRetained {
          terminal := Failed(Dropped);
        } else {
          results := results[job.id := Stored(job.capability, outcome.erased)];
          terminal := Succeeded;
        }
      } else {
        terminal := Failed(outcome.failure);
      }
    }
  }

  // ---- The concurrent system ----

  /** A `submit` call between its atomic steps. */
  datatype Submission = Fresh(job: Job) | Inserted(job: Job) | Refused(job: Job)

  /**
   A spawned task between its atomic steps; it holds a permit throughout. Its work runs in polls. Each poll
   looks at the cancellation first: `InPoll` has looked and found none, `Parked` waits for its next poll.
   */
  datatype Task =
    | Spawned(job: Job)
    | InPoll(job: Job)
    | Parked(job: Job)
    | Decided(job: Job, outcome: Outcome)
    | Settled(job: Job, terminal: Terminal)
    | Announcing(job: Job, terminal: Terminal)
    | Unwanted(job: Job, terminal: Terminal)

  /** `Closing`: the actor is gone and the relay's receiver is about to be dropped. */
  datatype Relay = Listening | Handing(c: Completion) | Discarding(c: Completion, closed: bool) | Closing | Stopped

  /**
   What has happened to one operation so far: how often it was accepted, rejected, completed, announced,
   stored as a success, taken, discarded or removed by its own task after a failed send; how its job met
   its first run (`late`: at or past its deadline, `early`: with its flag already raised, `polled`: by
   polling its work); and what became of its completion (delivered to the actor, refused by it, never
   sent because the relay had stopped, or left in the channel when the relay stopped).
   */
  datatype Record = Record(
    submitted: Option<CapabilityId>,
    terminal: Option<Terminal>,
    accepted: nat, rejected: nat, completed: nat, announced: nat,
    succeeded: nat, taken: nat, discarded: nat, removed: nat,
    polled: bool, late: bool, early: bool,
    delivered: bool, refused: bool, unsent: bool, stranded: bool)

  type Book = map<Id, Record>

  /** System-wide counts of the events of the result ledger. */
  datatype Totals = Totals(succeeded: nat, taken: nat, discarded: nat, removed: nat)

  const BLANK := Record(None, None, 0, 0, 0, 0, 0, 0, 0, 0, false, false, false, false, false, false, false)

  function Of(book: Book, id: Id): Record
  {
    if id in book then book[id] else BLANK
  }

  /** Callers inside `submit`, the bounded queue and the process-wide id counter. */
  datatype Intake = Intake(nextId: nat, submitting: map<Id, Submission>, queue: seq<Job>, registryOpen: bool)

  /** The dispatcher, its permits, the spawned tasks, and the last instant any of them has read. */
  datatype Pool = Pool(dispatching: bool, holding: bool, permits: nat, tasks: map<Id, Task>, clock: nat)

  /** What the mutexes and flags of the registry guard. */
  datatype Shared = Shared(active: Active, cancelled: set<Id>, results: Results)

  /** The completion channel and the relay that drains it. */
  datatype Outlet = Outlet(channel: seq<Completion>, relay: Relay)

  datatype Log = Log(book: Book, totals: Totals)

  datatype Sys = Sys(intake: Intake, pool: Pool, shared: Shared, out: Outlet, log: Log)

  /** One atomic step each: a mutex section, a channel operation or an atomic access. */
  datatype Event =
    // submit
    | TakeId(capability: CapabilityId, deadline: nat)
    | ForeignId
    | Insert(id: Id)
    | SendAccepted(id: Id)
    | SendRefused(id: Id)
    | Retract(id: Id)
    | DropRegistry
    // dispatcher
    | AcquirePermit
    | Dispatch
    | DispatcherExit
    // task
    | FirstRunLate(id: Id, now: nat)
    | FirstRunCancelled(id: Id, now: nat)
    | FirstRunPoll(id: Id, now: nat)
    | Park(id: Id)
    | Repoll(id: Id)
    | WorkDone(id: Id, outcome: Outcome)
    | CancelSeen(id: Id)
    | DeadlineHit(id: Id, now: nat)
    | Settle(id: Id)
    | Deactivate(id: Id)
    | Announce(id: Id)
    | AnnounceFailed(id: Id)
    | RemoveUnwanted(id: Id)
    // clients
    | Cancel(capability: CapabilityId, id: Id)
    | CancelAll
    | Take(capability: CapabilityId, typeTag: string, id: Id)
    | Discard(id: Id)
    // relay
    | RelayReceive
    | RelayDeliver
    | RelayRefused(closed: bool)
    | RelayDiscard
    | RelayStop

  function Start(c: Limits): Sys
  {
    Sys(Intake(1, map[], [], true), Pool(true, false, c.maxInFlight, map[], 0), Shared(map[], {}, map[]),
        Outlet([], Listening), Log(map[], Totals(0, 0, 0, 0)))
  }

  function QueueIds(queue: seq<Job>): set<Id>
  {
    set job | job in queue :: job.id
  }

  function ChannelIds(channel: seq<Completion>): set<Id>
  {
    set c | c in channel :: c.id
  }

  function Noted(log: Log, id: Id, r: Record): Log
  {
    log.(book := log.book[id := r])
  }

  /** The job has not reached its first run. */
  predicate NotStarted(s: Sys, id: Id)
  {
    id in s.intake.submitting || id in QueueIds(s.intake.queue) || (id in s.pool.tasks && s.pool.tasks[id].Spawned?)
  }

  /** When an event can happen; an event that cannot leaves the state alone. */
  predicate Guard(c: Limits, s: Sys, e: Event)
  {
    match e
    // The counter is process-wide: other registries draw from it too.
    case TakeId(_, _) => s.intake.registryOpen && s.intake.nextId < MAX_ID
    case ForeignId => s.intake.nextId < MAX_ID
    case Insert(id) => id in s.intake.submitting && s.intake.submitting[id].Fresh?
    // `try_send` succeeds exactly when the receiver lives and the queue has room.
    case SendAccepted(id) =>
      && id in s.intake.submitting && s.intake.submitting[id].Inserted?
      && s.pool.dispatching && |s.intake.queue| < c.queueCapacity
    case SendRefused(id) =>
      && id in s.intake.submitting && s.intake.submitting[id].Inserted?
      && !(s.pool.dispatching && |s.intake.queue| < c.queueCapacity)
    case Retract(id) => id in s.intake.submitting && s.intake.submitting[id].Refused?
    case DropRegistry => s.intake.submitting == map[]
    // A permit first, then a job.
    case AcquirePermit => s.pool.dispatching && !s.pool.holding && s.pool.permits > 0
    case Dispatch => s.pool.dispatching && s.pool.holding && s.intake.queue != []
    case DispatcherExit => s.pool.dispatching && s.pool.holding && s.intake.queue == [] && !s.intake.registryOpen
    // Deadline, then cancellation, then the work.
    case FirstRunLate(id, now) =>
      && id in s.pool.tasks && s.pool.tasks[id].Spawned?
      && now >= s.pool.clock && now >= s.pool.tasks[id].job.deadline
    case FirstRunCancelled(id, now) =>
      && id in s.pool.tasks && s.pool.tasks[id].Spawned?
      && s.pool.clock <= now < s.pool.tasks[id].job.deadline && id in s.shared.cancelled
    case FirstRunPoll(id, now) =>
      && id in s.pool.tasks && s.pool.tasks[id].Spawned?
      && s.pool.clock <= now < s.pool.tasks[id].job.deadline && id !in s.shared.cancelled
    // The select is biased: every poll sees a raised cancellation before it runs the work, then the timer.
    case Park(id) => id in s.pool.tasks && s.pool.tasks[id].InPoll?
    case Repoll(id) => id in s.pool.tasks && s.pool.tasks[id].Parked? && id !in s.shared.cancelled
    case WorkDone(id, _) => id in s.pool.tasks && s.pool.tasks[id].InPoll?
    case CancelSeen(id) => id in s.pool.tasks && s.pool.tasks[id].Parked? && id in s.shared.cancelled
    case DeadlineHit(id, now) =>
      && id in s.pool.tasks && s.pool.tasks[id].InPoll?
      && now >= s.pool.clock && now >= s.pool.tasks[id].job.deadline
    case Settle(id) => id in s.pool.tasks && s.pool.tasks[id].Decided?
    case Deactivate(id) => id in s.pool.tasks && s.pool.tasks[id].Settled?
    // A full completion channel makes the sender wait; a closed one makes the send fail.
    case Announce(id) =>
      && id in s.pool.tasks && s.pool.tasks[id].Announcing?
      && !s.out.relay.Stopped? && |s.out.channel| < c.completionCapacity
    case AnnounceFailed(id) => id in s.pool.tasks && s.pool.tasks[id].Announcing? && s.out.relay.Stopped?
    case RemoveUnwanted(id) => id in s.pool.tasks && s.pool.tasks[id].Unwanted?
    case Cancel(capability, id) => id in s.shared.active && s.shared.active[id] == capability
    case CancelAll => true
    case Take(capability, typeTag, id) => TakeOutcome(s.shared.results, capability, typeTag, id).Ok?
    case Discard(id) => true
    case RelayReceive => s.out.relay.Listening? && s.out.channel != []
    case RelayDeliver => s.out.relay.Handing?
    case RelayRefused(_) => s.out.relay.Handing?
    case RelayDiscard => s.out.relay.Discarding?
    case RelayStop => s.out.relay.Closing?
  }

  function WithTask(pool: Pool, id: Id, task: Task): Pool
  {
    pool.(tasks := pool.tasks[id := task])
  }

  /** The task read the clock: instants never go back. */
  function WithTaskAt(pool: Pool, id: Id, task: Task, now: nat): Pool
  {
    pool.(tasks := pool.tasks[id := task], clock := now)
  }

  /** The task is gone and its permit is back. */
  function WithoutTask(pool: Pool, id: Id): Pool
  {
    pool.(tasks := pool.tasks - {id}, permits := pool.permits + 1)
  }

  /** `hit` says whether a result was there to be discarded. */
  function NotedDiscard(log: Log, id: Id, hit: bool): Log
  {
    var r := Of(log.book, id);
    Log(log.book[id := r.(discarded := r.discarded + Count(hit))],
        log.totals.(discarded := log.totals.discarded + Count(hit)))
  }

  /** The relay could not hand over the completion of `id`. */
  function NotedRefusal(log: Log, id: Id, hit: bool): Log
  {
    var r := Of(log.book, id);
    Log(log.book[id := r.(discarded := r.discarded + Count(hit), refused := true)],
        log.totals.(discarded := log.totals.discarded + Count(hit)))
  }

  /** Completions still buffered when the relay ends are dropped with the channel. */
  function NotedStranding(log: Log, channel: seq<Completion>): Log
  {
    log.(book := map id | id in log.book ::
                   log.book[id].(stranded := log.book[id].stranded || id in ChannelIds(channel)))
  }

  function NotedCancelAll(s: Sys): Log
  {
    s.log.(book := map id | id in s.log.book ::
                     s.log.book[id].(early := s.log.book[id].early || (id in s.shared.active && NotStarted(s, id))))
  }

  /** `submit`: draw an id, register it as live, try the queue, take the registration back if refused. */
  function EffectSubmit(c: Limits, s: Sys, e: Event): Sys
    requires Guard(c, s, e)
  {
    var q := s.intake;
    match e
    case TakeId(capability, deadline) =>
      s.(intake := q.(nextId := q.nextId + 1,
                      submitting := q.submitting[q.nextId := Fresh(Job(q.nextId, capability, deadline))]),
         log := Noted(s.log, q.nextId, Of(s.log.book, q.nextId).(submitted := Some(capability))))
    case ForeignId => s.(intake := q.(nextId := q.nextId + 1))
    case Insert(id) =>
      s.(intake := q.(submitting := q.submitting[id := Inserted(q.submitting[id].job)]),
         shared := s.shared.(active := s.shared.active[id := q.submitting[id].job.capability]))
    case SendAccepted(id) =>
      var r := Of(s.log.book, id);
      s.(intake := q.(submitting := q.submitting - {id}, queue := q.queue + [q.submitting[id].job]),
         log := Noted(s.log, id, r.(accepted := r.accepted + 1)))
    case SendRefused(id) => s.(intake := q.(submitting := q.submitting[id := Refused(q.submitting[id].job)]))
    case Retract(id) =>
      var r := Of(s.log.book, id);
      s.(intake := q.(submitting := q.submitting - {id}), shared := s.shared.(active := s.shared.active - {id}),
         log := Noted(s.log, id, r.(rejected := r.rejected + 1)))
    case DropRegistry => s.(intake := q.(registryOpen := false))
    case _ => s
  }

  /** `dispatch_operations`: the permit moves into the task. */
  function EffectDispatch(c: Limits, s: Sys, e: Event): Sys
    requires Guard(c, s, e)
  {
    var pool, q := s.pool, s.intake;
    match e
    case AcquirePermit => s.(pool := pool.(permits := pool.permits - 1, holding := true))
    case Dispatch =>
      s.(intake := q.(queue := q.queue[1..]),
         pool := pool.(holding := false, tasks := pool.tasks[q.queue[0].id := Spawned(q.queue[0])]))
    case DispatcherExit => s.(pool := pool.(dispatching := false, holding := false, permits := pool.permits + 1))
    case _ => s
  }

  /** `run_operation` up to the outcome. */
  function EffectDecide(c: Limits, s: Sys, e: Event): Sys
    requires Guard(c, s, e)
  {
    match e
    case FirstRunLate(id, now) =>
      s.(pool := WithTaskAt(s.pool, id, Decided(s.pool.tasks[id].job, Fault(Timeout)), now),
         log := Noted(s.log, id, Of(s.log.book, id).(late := true)))
    case FirstRunCancelled(id, now) =>
      s.(pool := WithTaskAt(s.pool, id, Decided(s.pool.tasks[id].job, Fault(Cancelled)), now))
    case FirstRunPoll(id, now) =>
      s.(pool := WithTaskAt(s.pool, id, InPoll(s.pool.tasks[id].job), now),
         log := Noted(s.log, id, Of(s.log.book, id).(polled := true)))
    case Park(id) => s.(pool := WithTask(s.pool, id, Parked(s.pool.tasks[id].job)))
    case Repoll(id) => s.(pool := WithTask(s.pool, id, InPoll(s.pool.tasks[id].job)))
    case WorkDone(id, outcome) => s.(pool := WithTask(s.pool, id, Decided(s.pool.tasks[id].job, outcome)))
    case CancelSeen(id) => s.(pool := WithTask(s.pool, id, Decided(s.pool.tasks[id].job, Fault(Cancelled))))
    case DeadlineHit(id, now) =>
      s.(pool := WithTaskAt(s.pool, id, Decided(s.pool.tasks[id].job, Fault(Timeout)), now))
    case _ => s
  }

  /** `run_operation` from the outcome on: store it, deregister, announce, clean up. */
  function EffectFinish(c: Limits, s: Sys, e: Event): Sys
    requires Guard(c, s, e)
  {
    match e
    case Settle(id) =>
      var task, r, totals := s.pool.tasks[id], Of(s.log.book, id), s.log.totals;
      var terminal := SettleTerminal(s.shared.results, task.outcome, c.maxRetained);
      s.(pool := WithTask(s.pool, id, Settled(task.job, terminal)),
         shared := s.shared.(results := AfterSettle(s.shared.results, task.job, task.outcome, c.maxRetained)),
         log := Log(s.log.book[id := r.(terminal := Some(terminal),
                                        succeeded := r.succeeded + Count(terminal.Succeeded?))],
                    totals.(succeeded := totals.succeeded + Count(terminal.Succeeded?))))
    case Deactivate(id) =>
      s.(pool := WithTask(s.pool, id, Announcing(s.pool.tasks[id].job, s.pool.tasks[id].terminal)),
         shared := s.shared.(active := s.shared.active - {id}))
    case Announce(id) =>
      var task, r := s.pool.tasks[id], Of(s.log.book, id);
      s.(pool := WithoutTask(s.pool, id),
         out := s.out.(channel := s.out.channel + [Completion(id, task.job.capability, task.terminal)]),
         log := Noted(s.log, id, r.(completed := r.completed + 1, announced := r.announced + 1)))
    case AnnounceFailed(id) =>
      s.(pool := WithTask(s.pool, id, Unwanted(s.pool.tasks[id].job, s.pool.tasks[id].terminal)))
    case RemoveUnwanted(id) =>
      var r, totals, hit := Of(s.log.book, id), s.log.totals, Count(id in s.shared.results);
      s.(pool := WithoutTask(s.pool, id), shared := s.shared.(results := s.shared.results - {id}),
         log := Log(s.log.book[id := r.(completed := r.completed + 1, unsent := true, removed := r.removed + hit)],
                    totals.(removed := totals.removed + hit)))
    case _ => s
  }

  /**
   Cancellers and result takers. A cancel stores the flag and then broadcasts, under the mutex of the active
   map. For a task that has not looked at the flag yet the event stands at the store, for one already
   polled at the broadcast; `cancel_all` is also a run of single cancels. Module Cancellation has the two steps.
   */
  function EffectClient(c: Limits, s: Sys, e: Event): Sys
    requires Guard(c, s, e)
  {
    match e
    case Cancel(_, id) =>
      var r := Of(s.log.book, id);
      s.(shared := s.shared.(cancelled := s.shared.cancelled + {id}),
         log := Noted(s.log, id, r.(early := r.early || NotStarted(s, id))))
    case CancelAll =>
      s.(shared := s.shared.(cancelled := s.shared.cancelled + s.shared.active.Keys), log := NotedCancelAll(s))
    case Take(capability, typeTag, id) =>
      var r, totals := Of(s.log.book, id), s.log.totals;
      s.(shared := s.shared.(results := AfterTake(s.shared.results, capability, typeTag, id)),
         log := Log(s.log.book[id := r.(taken := r.taken + 1)], totals.(taken := totals.taken + 1)))
    case Discard(id) =>
      s.(shared := s.shared.(results := s.shared.results - {id}),
         log := NotedDiscard(s.log, id, id in s.shared.results))
    case _ => s
  }

  /** The completion relay: receive, hand to the actor, discard the result if it could not. */
  function EffectRelay(c: Limits, s: Sys, e: Event): Sys
    requires Guard(c, s, e)
  {
    var out := s.out;
    match e
    case RelayReceive => s.(out := Outlet(out.channel[1..], Handing(out.channel[0])))
    case RelayDeliver =>
      s.(out := out.(relay := Listening),
         log := Noted(s.log, out.relay.c.id, Of(s.log.book, out.relay.c.id).(delivered := true)))
    case RelayRefused(closed) => s.(out := out.(relay := Discarding(out.relay.c, closed)))
    case RelayDiscard =>
      var id := out.relay.c.id;
      s.(out := out.(relay := if out.relay.closed then Closing else Listening),
         shared := s.shared.(results := s.shared.results - {id}),
         log := NotedRefusal(s.log, id, id in s.shared.results))
    case RelayStop => s.(out := Outlet([], Stopped), log := NotedStranding(s.log, out.channel))
    case _ => s
  }

  predicate SubmitEvent(e: Event)
  {
    e.TakeId? || e.ForeignId? || e.Insert? || e.SendAccepted? || e.SendRefused? || e.Retract? || e.DropRegistry?
  }

  predicate DispatchEvent(e: Event)
  {
    e.AcquirePermit? || e.Dispatch? || e.DispatcherExit?
  }

  predicate DecideEvent(e: Event)
  {
    || e.FirstRunLate? || e.FirstRunCancelled? || e.FirstRunPoll? || e.Park? || e.Repoll?
    || e.WorkDone? || e.CancelSeen? || e.DeadlineHit?
  }

  predicate ClientEvent(e: Event)
  {
    e.Cancel? || e.CancelAll? || e.Take? || e.Discard?
  }

  predicate RelayEvent(e: Event)
  {
    e.RelayReceive? || e.RelayDeliver? || e.RelayRefused? || e.RelayDiscard? || e.RelayStop?
  }

  function Effect(c: Limits, s: Sys, e: Event): Sys
    requires Guard(c, s, e)
  {
    if SubmitEvent(e) then EffectSubmit(c, s, e)
    else if DispatchEvent(e) then EffectDispatch(c, s, e)
    else if DecideEvent(e) then EffectDecide(c, s, e)
    else if ClientEvent(e) then EffectClient(c, s, e)
    else if RelayEvent(e) then EffectRelay(c, s, e)
    else EffectFinish(c, s, e)
  }

  function Step(c: Limits, s: Sys, e: Event): Sys
  {
    if Guard(c, s, e) then Effect(c, s, e) else s
  }

  function Play(c: Limits, events: seq<Event>): Sys
  {
    if events == [] then Start(c) else Step(c, Play(c, events[..|events| - 1]), events[|events| - 1])
  }
}
