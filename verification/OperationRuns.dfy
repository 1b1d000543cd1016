/** Properties of every run of the hosted-operation system, for any number of clients and operations. */
module OperationRuns {
  import opened Prelude
  import opened Capability
  import opened Operation
  import opened OperationLocal
  import opened OperationSteps
  import opened OperationSafety

  /**
   A submitted operation is still being submitted, or accepted, or rejected, exactly one of them; an
   accepted one is queued, running or completed, exactly one of them. A rejected submit leaves no live entry.
   */
  lemma {:induction false} Lifecycle(c: Limits, events: seq<Event>, id: Id)
    ensures var s, r := Play(c, events), Of(Play(c, events).log.book, id);
      && Count(id in s.intake.submitting) + r.accepted + r.rejected == Count(r.submitted.Some?)
      && r.accepted == Count(id in QueueIds(s.intake.queue)) + Count(id in s.pool.tasks) + r.completed
      && (r.rejected > 0 || r.completed > 0 ==> id !in s.shared.active)
      && (id in s.shared.active ==> r.submitted == Some(s.shared.active[id]))
  {
    PlayInv(c, events);
    assert LocalInv(View(Play(c, events), id));
  }

  lemma {:induction false} Capacities(c: Limits, events: seq<Event>)
    ensures var s := Play(c, events);
      && |s.intake.queue| <= c.queueCapacity
      && |s.pool.tasks| <= c.maxInFlight
      && |s.out.channel| <= c.completionCapacity
      && |s.shared.results| <= c.maxRetained
  {
    PlayInv(c, events);
  }

  /** An id drawn by `submit` has no history: ids are never reused. */
  lemma IdsAreFresh(c: Limits, events: seq<Event>, e: Event)
    requires e.TakeId? && Guard(c, Play(c, events), e)
    ensures var s := Play(c, events);
      && Of(s.log.book, s.intake.nextId).submitted.None?
      && s.intake.nextId !in s.intake.submitting && s.intake.nextId !in s.shared.active
      && s.intake.nextId !in s.pool.tasks && s.intake.nextId !in s.shared.results
  {
    PlayInv(c, events);
    assert LocalInv(View(Play(c, events), Play(c, events).intake.nextId));
  }

  /**
   A job first run at or past its deadline is never polled and ends in Timeout; one whose flag was raised
   before its first run is never polled either. Every completed operation has a terminal.
   */
  lemma {:induction false} FirstRunDecides(c: Limits, events: seq<Event>, id: Id)
    ensures var r := Of(Play(c, events).log.book, id);
      && (r.late || r.early ==> !r.polled)
      && (r.late && r.terminal.Some? ==> r.terminal.value == Failed(Timeout))
      && (r.early && r.terminal.Some? ==>
            r.terminal.value == Failed(Timeout) || r.terminal.value == Failed(Cancelled))
      && (r.completed > 0 ==> r.terminal.Some?)
  {
    PlayInv(c, events);
    assert LocalInv(View(Play(c, events), id));
  }

  /** The ledger of one operation: a success is stored, taken, discarded or removed, exactly one of them. */
  lemma {:induction false} Ledger(c: Limits, events: seq<Event>, id: Id)
    ensures var s, r := Play(c, events), Of(Play(c, events).log.book, id);
      && Count(r.terminal == Some(Succeeded)) ==
         Count(id in s.shared.results) + r.taken + r.discarded + r.removed
      && r.succeeded == Count(r.terminal == Some(Succeeded))
      && (id in s.shared.results ==> r.submitted == Some(s.shared.results[id].capability))
  {
    PlayInv(c, events);
    assert LocalInv(View(Play(c, events), id));
  }

  lemma {:induction false} LedgerTotals(c: Limits, events: seq<Event>)
    ensures var s, n := Play(c, events), Play(c, events).log.totals;
      n.succeeded == |s.shared.results| + n.taken + n.discarded + n.removed
  {
    PlayInv(c, events);
  }

  /** Only the submit-time capability gets a result, once, and only of an operation that succeeded. */
  lemma TakeNeedsOwner(c: Limits, events: seq<Event>, capability: CapabilityId, typeTag: string, id: Id)
    requires TakeOutcome(Play(c, events).shared.results, capability, typeTag, id).Ok?
    ensures var r := Of(Play(c, events).log.book, id);
      r.submitted == Some(capability) && r.terminal == Some(Succeeded) && r.taken == 0
  {
    Ledger(c, events, id);
  }

  /**
   Where a completion is: in the channel, with the relay, delivered, refused, unsent, or dropped in the
   channel when the relay ended. A result refused or unsent is gone; a stored result always has
   a completion somewhere, or a task about to send it.
   */
  lemma {:induction false} CompletionWhereabouts(c: Limits, events: seq<Event>, id: Id)
    ensures var s, r := Play(c, events), Of(Play(c, events).log.book, id);
      && r.completed ==
         Count(id in ChannelIds(s.out.channel)) + Count(RelayHas(s.out.relay, id)) +
         Count(r.delivered) + Count(r.refused) + Count(r.unsent) + Count(r.stranded)
      && (r.refused || r.unsent ==> id !in s.shared.results)
      && (id in s.shared.results ==>
            || id in s.pool.tasks || id in ChannelIds(s.out.channel) || RelayHas(s.out.relay, id)
            || r.delivered || r.stranded)
  {
    PlayInv(c, events);
    assert LocalInv(View(Play(c, events), id));
  }

  /** A completion handed on says the terminal and the capability of its operation. */
  lemma CompletionsAreTruthful(c: Limits, events: seq<Event>)
    ensures var s := Play(c, events);
      && (forall d | d in s.out.channel :: Truthful(s.log.book, d))
      && (s.out.relay.Handing? ==> Truthful(s.log.book, s.out.relay.c))
  {
    PlayInv(c, events);
  }

  /** Once nothing is being submitted, queued or run, every permit is back and nothing is live. */
  lemma Quiescence(c: Limits, events: seq<Event>)
    requires var s := Play(c, events); s.intake.submitting == map[] && s.intake.queue == [] && s.pool.tasks == map[]
    ensures var s := Play(c, events);
      && s.shared.active == map[]
      && s.pool.permits + Count(s.pool.holding) == c.maxInFlight
      && (forall id: Id :: Of(s.log.book, id).accepted == Of(s.log.book, id).completed)
  {
    var s := Play(c, events);
    PlayInv(c, events);
    forall id: Id
      ensures id !in s.shared.active && Of(s.log.book, id).accepted == Of(s.log.book, id).completed
    {
      assert LocalInv(View(s, id));
    }
  }

  // ---- Progress ----

  /** An event of the dispatcher, a task or the relay. */
  predicate Internal(e: Event)
  {
    !SubmitEvent(e) && !ClientEvent(e) && !e.DispatcherExit?
  }

  /** The first instant from `deadline` on that the clock has not passed. */
  function NoEarlier(s: Sys, deadline: nat): nat
  {
    if deadline < s.pool.clock then s.pool.clock else deadline
  }

  /** The event by which the task of `id`, or the relay it waits for, can move on. */
  function NextOfTask(c: Limits, s: Sys, id: Id): Event
    requires id in s.pool.tasks
  {
    match s.pool.tasks[id]
    case Spawned(job) => FirstRunLate(id, NoEarlier(s, job.deadline))
    case InPoll(job) => DeadlineHit(id, NoEarlier(s, job.deadline))
    case Parked(_) => if id in s.shared.cancelled then CancelSeen(id) else Repoll(id)
    case Decided(_, _) => Settle(id)
    case Settled(_, _) => Deactivate(id)
    case Announcing(_, _) =>
      if s.out.relay.Stopped? then AnnounceFailed(id)
      else if |s.out.channel| < c.completionCapacity then Announce(id)
      else if s.out.relay.Listening? then RelayReceive
      else if s.out.relay.Handing? then RelayDeliver
      else if s.out.relay.Discarding? then RelayDiscard
      else RelayStop
    case Unwanted(_, _) => RemoveUnwanted(id)
  }

  lemma TaskCanMove(c: Limits, s: Sys, id: Id)
    requires c.completionCapacity > 0 && RelayInv(s.log.book, s.out) && id in s.pool.tasks
    ensures Internal(NextOfTask(c, s, id)) && Guard(c, s, NextOfTask(c, s, id))
  {
  }

  lemma QueueCanMove(c: Limits, s: Sys)
    requires c.maxInFlight > 0 && CapacityInv(c, s) && s.intake.queue != [] && s.pool.tasks == map[]
    ensures Guard(c, s, if s.pool.holding then Dispatch else AcquirePermit)
  {
  }

  function Continue(c: Limits, s: Sys, more: seq<Event>): Sys
    decreases |more|
  {
    if more == [] then s else Continue(c, Step(c, s, more[0]), more[1..])
  }

  lemma ContinueFrom(c: Limits, s: Sys, e: Event, more: seq<Event>)
    ensures Continue(c, s, [e] + more) == Continue(c, Step(c, s, e), more)
  {
    assert ([e] + more)[1..] == more;
  }

  lemma {:induction false} ContinueJoin(c: Limits, s: Sys, a: seq<Event>, b: seq<Event>)
    ensures Continue(c, s, a + b) == Continue(c, Continue(c, s, a), b)
    decreases |a|
  {
    if a == [] {
      assert a + b == b;
    } else {
      assert (a + b)[1..] == a[1..] + b;
      ContinueJoin(c, Step(c, s, a[0]), a[1..], b);
    }
  }

  /** How far a task is from its end, counting the relay steps it may have to wait for. */
  function TaskRank(c: Limits, s: Sys, id: Id): nat
    requires id in s.pool.tasks
  {
    match s.pool.tasks[id]
    case Spawned(_) => 14
    case Parked(_) => 13
    case InPoll(_) => 12
    case Decided(_, _) => 11
    case Settled(_, _) => 10
    case Announcing(_, _) =>
      if s.out.relay.Stopped? then 2
      else if |s.out.channel| < c.completionCapacity then 1
      else if s.out.relay.Listening? then 2
      else if s.out.relay.Discarding? then 4 else 3
    case Unwanted(_, _) => 1
  }

  ghost predicate MovesOn(c: Limits, s: Sys, t: Sys, id: Id)
    requires id in s.pool.tasks
  {
    && t.intake == s.intake && t.pool.holding == s.pool.holding && t.pool.dispatching == s.pool.dispatching
    && (if id in t.pool.tasks then t.pool.tasks.Keys == s.pool.tasks.Keys && TaskRank(c, t, id) < TaskRank(c, s, id)
        else t.pool.tasks.Keys == s.pool.tasks.Keys - {id})
  }

  predicate BeforeOutcome(task: Task)
  {
    task.Spawned? || task.InPoll? || task.Parked?
  }

  lemma DecisionMovesOn(c: Limits, s: Sys, id: Id)
    requires id in s.pool.tasks && BeforeOutcome(s.pool.tasks[id])
    ensures MovesOn(c, s, EffectDecide(c, s, NextOfTask(c, s, id)), id)
  {
    var t := EffectDecide(c, s, NextOfTask(c, s, id));
    assert t.pool.tasks.Keys == s.pool.tasks.Keys;
  }

  lemma FinishMovesOn(c: Limits, s: Sys, id: Id)
    requires id in s.pool.tasks && !BeforeOutcome(s.pool.tasks[id])
    requires s.pool.tasks[id].Announcing? ==> s.out.relay.Stopped? || |s.out.channel| < c.completionCapacity
    ensures MovesOn(c, s, EffectFinish(c, s, NextOfTask(c, s, id)), id)
  {
    var t := EffectFinish(c, s, NextOfTask(c, s, id));
    assert t.pool.tasks.Keys == s.pool.tasks.Keys || t.pool.tasks.Keys == s.pool.tasks.Keys - {id};
  }

  lemma RelayMovesOn(c: Limits, s: Sys, id: Id)
    requires c.completionCapacity > 0 && CapacityInv(c, s) && id in s.pool.tasks && s.pool.tasks[id].Announcing?
    requires !s.out.relay.Stopped? && |s.out.channel| == c.completionCapacity
    ensures Guard(c, s, NextOfTask(c, s, id)) && MovesOn(c, s, EffectRelay(c, s, NextOfTask(c, s, id)), id)
  {
  }

  lemma TaskMovesOn(c: Limits, s: Sys, id: Id)
    requires c.completionCapacity > 0 && CapacityInv(c, s) && RelayInv(s.log.book, s.out) && id in s.pool.tasks
    ensures MovesOn(c, s, Step(c, s, NextOfTask(c, s, id)), id)
  {
    TaskCanMove(c, s, id);
    var task := s.pool.tasks[id];
    if BeforeOutcome(task) {
      DecisionMovesOn(c, s, id);
    } else if task.Announcing? && !s.out.relay.Stopped? && |s.out.channel| >= c.completionCapacity {
      RelayMovesOn(c, s, id);
    } else {
      FinishMovesOn(c, s, id);
    }
  }

  lemma {:induction false} FinishTask(c: Limits, s: Sys, id: Id) returns (more: seq<Event>)
    requires c.completionCapacity > 0 && Inv(c, s) && id in s.pool.tasks
    ensures forall e | e in more :: Internal(e)
    ensures var t := Continue(c, s, more);
      && Inv(c, t) && t.intake == s.intake && t.pool.tasks.Keys == s.pool.tasks.Keys - {id}
      && t.pool.holding == s.pool.holding && t.pool.dispatching == s.pool.dispatching
    decreases TaskRank(c, s, id)
  {
    var e := NextOfTask(c, s, id);
    var t := Step(c, s, e);
    TaskCanMove(c, s, id);
    TaskMovesOn(c, s, id);
    StepKeepsInv(c, s, e);
    more := [];
    if id in t.pool.tasks {
      more := FinishTask(c, t, id);
    }
    ContinueFrom(c, s, e, more);
    more := [e] + more;
  }

  /** With a free permit the head of the queue becomes a task. */
  lemma StartJob(c: Limits, s: Sys) returns (more: seq<Event>)
    requires c.maxInFlight > 0 && Inv(c, s) && s.intake.queue != [] && s.pool.tasks == map[]
    ensures forall e | e in more :: Internal(e)
    ensures var t := Continue(c, s, more); Inv(c, t) && t.intake.queue == s.intake.queue[1..]
  {
    var t := s;
    more := [];
    QueueCanMove(c, s);
    if !s.pool.holding {
      t := Step(c, s, AcquirePermit);
      StepKeepsInv(c, s, AcquirePermit);
      more := [AcquirePermit];
      ContinueFrom(c, s, AcquirePermit, []);
    }
    assert Continue(c, s, more) == t && t.intake == s.intake && t.pool.holding && Guard(c, t, Dispatch);
    StepKeepsInv(c, t, Dispatch);
    ContinueFrom(c, t, Dispatch, []);
    ContinueJoin(c, s, more, [Dispatch]);
    more := more + [Dispatch];
  }

  lemma {:induction false} DrainSystem(c: Limits, s: Sys) returns (more: seq<Event>)
    requires c.maxInFlight > 0 && c.completionCapacity > 0 && Inv(c, s)
    ensures forall e | e in more :: Internal(e)
    ensures var t := Continue(c, s, more); Inv(c, t) && t.intake.queue == [] && t.pool.tasks == map[]
    decreases |s.intake.queue|, |s.pool.tasks|
  {
    if s.pool.tasks == map[] && s.intake.queue == [] {
      more := [];
    } else {
      var first;
      if s.pool.tasks != map[] {
        var id :| id in s.pool.tasks;
        first := FinishTask(c, s, id);
        var t := Continue(c, s, first);
        assert t.pool.tasks.Keys == s.pool.tasks.Keys - {id};
        assert |t.pool.tasks.Keys| < |s.pool.tasks.Keys|;
      } else {
        first := StartJob(c, s);
      }
      var rest := DrainSystem(c, Continue(c, s, first));
      ContinueJoin(c, s, first, rest);
      more := first + rest;
    }
  }

  /**
   From every reachable state the dispatcher, the tasks and the relay alone can bring every accepted
   operation to its completion, whatever its work does: deadlines see to it.
   */
  lemma {:induction false} EveryAcceptedCanComplete(c: Limits, events: seq<Event>) returns (more: seq<Event>)
    requires c.maxInFlight > 0 && c.completionCapacity > 0
    ensures forall e | e in more :: Internal(e)
    ensures forall id: Id ::
      var r := Of(Continue(c, Play(c, events), more).log.book, id);
      r.accepted == r.completed && (r.accepted > 0 ==> r.terminal.Some?)
  {
    PlayInv(c, events);
    more := DrainSystem(c, Play(c, events));
    var t := Continue(c, Play(c, events), more);
    forall id: Id
      ensures Of(t.log.book, id).accepted == Of(t.log.book, id).completed
      ensures Of(t.log.book, id).accepted > 0 ==> Of(t.log.book, id).terminal.Some?
    {
      assert LocalInv(View(t, id));
    }
  }

  // ---- What a successful cancel means ----

  ghost predicate MaySucceed(c: Limits, s: Sys, id: Id)
  {
    exists more :: Of(Continue(c, s, more).log.book, id).terminal == Some(Succeeded)
  }

  /** The work is in the middle of a poll, or has given a value, or that value was stored. */
  predicate Undecided(l: Local)
  {
    || (l.task.Some? && l.task.value.InPoll?)
    || (l.task.Some? && l.task.value.Decided? && l.task.value.outcome.Value?)
    || l.r.terminal == Some(Succeeded)
  }

  /** Started, not undecided, and if between two polls then with its flag up. */
  predicate Doomed(l: Local)
  {
    && l.r.submitted.Some? && !Unstarted(l) && !Undecided(l)
    && (l.task.Some? && l.task.value.Parked? ==> l.cancelled)
  }

  lemma DoomedStays(l: Local, m: Move)
    requires LocalInv(l) && Sound(l, m) && Doomed(l)
    ensures Doomed(Apply(l, m))
  {
  }

  lemma UnretainedStays(l: Local, m: Move)
    requires LocalInv(l) && Sound(l, m) && l.r.terminal != Some(Succeeded) && (m.Store? ==> !m.room)
    ensures Apply(l, m).r.terminal != Some(Succeeded)
  {
  }

  predicate Hopeless(c: Limits, l: Local)
  {
    l.r.early || Doomed(l) || (c.maxRetained == 0 && l.r.terminal != Some(Succeeded))
  }

  lemma StepKeepsHopeless(c: Limits, s: Sys, e: Event, id: Id)
    requires Inv(c, s) && Guard(c, s, e) && Hopeless(c, View(s, id))
    ensures Hopeless(c, View(Step(c, s, e), id))
  {
    var l, m := View(s, id), MoveOf(c, s, e, id);
    StepSimulates(c, s, e, id);
    MoveKeepsRecord(l, m);
    if Doomed(l) {
      DoomedStays(l, m);
    } else if !l.r.early {
      UnretainedStays(l, m);
    }
  }

  lemma {:induction false} NeverSucceeds(c: Limits, s: Sys, id: Id, more: seq<Event>)
    requires Inv(c, s) && Hopeless(c, View(s, id))
    ensures Of(Continue(c, s, more).log.book, id).terminal != Some(Succeeded)
    decreases |more|
  {
    assert LocalInv(View(s, id));
    if more != [] {
      if Guard(c, s, more[0]) {
        StepKeepsHopeless(c, s, more[0], id);
      }
      StepKeepsInv(c, s, more[0]);
      NeverSucceeds(c, Step(c, s, more[0]), id, more[1..]);
    }
  }

  lemma MaySucceedBefore(c: Limits, s: Sys, e: Event, id: Id)
    requires MaySucceed(c, Step(c, s, e), id)
    ensures MaySucceed(c, s, id)
  {
    var more :| Of(Continue(c, Step(c, s, e), more).log.book, id).terminal == Some(Succeeded);
    ContinueFrom(c, s, e, more);
  }

  lemma SettleSucceeds(c: Limits, s: Sys, id: Id)
    requires id in s.pool.tasks && s.pool.tasks[id].Decided? && s.pool.tasks[id].outcome.Value?
    requires |s.shared.results| < c.maxRetained
    ensures MaySucceed(c, s, id)
  {
    var t := Step(c, s, Settle(id));
    assert Guard(c, s, Settle(id)) && t == EffectFinish(c, s, Settle(id));
    assert Of(Continue(c, t, []).log.book, id).terminal == Some(Succeeded);
    MaySucceedBefore(c, s, Settle(id), id);
  }

  /** A full result store can always be relieved by discarding an entry. */
  lemma DecidedMaySucceed(c: Limits, s: Sys, id: Id)
    requires Inv(c, s) && c.maxRetained > 0
    requires id in s.pool.tasks && s.pool.tasks[id].Decided? && s.pool.tasks[id].outcome.Value?
    ensures MaySucceed(c, s, id)
  {
    if |s.shared.results| < c.maxRetained {
      SettleSucceeds(c, s, id);
    } else {
      var victim :| victim in s.shared.results;
      var e := Discard(victim);
      var t := Step(c, s, e);
      assert Guard(c, s, e) && t == EffectClient(c, s, e);
      SizeAfterRemoval(s.shared.results, victim);
      SettleSucceeds(c, t, id);
      MaySucceedBefore(c, s, e, id);
    }
  }

  lemma PolledMaySucceed(c: Limits, s: Sys, id: Id)
    requires Inv(c, s) && c.maxRetained > 0 && id in s.pool.tasks && s.pool.tasks[id].InPoll?
    ensures MaySucceed(c, s, id)
  {
    var e := WorkDone(id, Value(Erased("", 0)));
    assert Guard(c, s, e) && Step(c, s, e) == EffectDecide(c, s, e);
    StepKeepsInv(c, s, e);
    DecidedMaySucceed(c, Step(c, s, e), id);
    MaySucceedBefore(c, s, e, id);
  }

  /**
   What an accepted `cancel` promises. It does not promise a Cancelled terminal: after it the operation
   may still succeed exactly when its work was in the middle of a poll, or had given a value, or had
   already succeeded (and, unless it had, the limits let a result be stored at all).
   */
  lemma {:induction false} CancelOutcome(c: Limits, events: seq<Event>, id: Id)
    requires id in Play(c, events).shared.active
    ensures var s := Play(c, events); var l := View(s, id);
      MaySucceed(c, Step(c, s, Cancel(s.shared.active[id], id)), id) <==>
      Undecided(l) && (c.maxRetained > 0 || l.r.terminal == Some(Succeeded))
  {
    var s := Play(c, events);
    var e := Cancel(s.shared.active[id], id);
    var l, t := View(s, id), Step(c, s, e);
    PlayInv(c, events);
    assert LocalInv(l);
    assert Guard(c, s, e) && t == EffectClient(c, s, e);
    StepSimulates(c, s, e, id);
    StepKeepsInv(c, s, e);
    if !Undecided(l) || (c.maxRetained == 0 && l.r.terminal != Some(Succeeded)) {
      assert Hopeless(c, View(t, id));
      forall more
        ensures Of(Continue(c, t, more).log.book, id).terminal != Some(Succeeded)
      {
        NeverSucceeds(c, t, id, more);
      }
    } else if l.r.terminal == Some(Succeeded) {
      assert Of(Continue(c, t, []).log.book, id).terminal == Some(Succeeded);
    } else if l.task.value.InPoll? {
      PolledMaySucceed(c, t, id);
    } else {
      DecidedMaySucceed(c, t, id);
    }
  }

  /** Cancelled, or bound to be at the next poll. */
  predicate Cancelling(l: Local)
  {
    || l.r.terminal == Some(Failed(Cancelled))
    || (&& l.r.terminal.None? && l.task.Some?
        && ((l.task.value.Parked? && l.cancelled) ||
            (l.task.value.Decided? && l.task.value.outcome == Fault(Cancelled))))
  }

  lemma CancellingStays(l: Local, m: Move)
    requires LocalInv(l) && Sound(l, m) && Cancelling(l)
    ensures Cancelling(Apply(l, m))
  {
  }

  lemma {:induction false} CancellingForever(c: Limits, s: Sys, id: Id, more: seq<Event>)
    requires Inv(c, s) && Cancelling(View(s, id))
    ensures Cancelling(View(Continue(c, s, more), id))
    decreases |more|
  {
    if more != [] {
      if Guard(c, s, more[0]) {
        StepSimulates(c, s, more[0], id);
        assert LocalInv(View(s, id));
        CancellingStays(View(s, id), MoveOf(c, s, more[0], id));
      }
      StepKeepsInv(c, s, more[0]);
      CancellingForever(c, Step(c, s, more[0]), id, more[1..]);
    }
  }

  /** A job cancelled between two polls can only end Cancelled. */
  lemma {:induction false} ParkedEndsCancelled(c: Limits, events: seq<Event>, id: Id, more: seq<Event>)
    requires id in Play(c, events).pool.tasks && Play(c, events).pool.tasks[id].Parked?
    ensures var s := Play(c, events); var t := Of(s.log.book, id).submitted;
      && t.Some?
      && var r := Of(Continue(c, Step(c, s, Cancel(t.value, id)), more).log.book, id);
         r.terminal == None || r.terminal == Some(Failed(Cancelled))
  {
    var s := Play(c, events);
    PlayInv(c, events);
    assert LocalInv(View(s, id));
    var e := Cancel(Of(s.log.book, id).submitted.value, id);
    assert Guard(c, s, e);
    StepSimulates(c, s, e, id);
    StepKeepsInv(c, s, e);
    CancellingForever(c, Step(c, s, e), id, more);
  }
}
