/** The hosted-operation system moves every operation by its automaton, event by event. */
module OperationSteps {
  import opened Prelude
  import opened Capability
  import opened Operation
  import opened OperationLocal

  // ---- The whole system ----

  predicate Distinct(queue: seq<Job>)
  {
    forall i, j | 0 <= i < j < |queue| :: queue[i].id != queue[j].id
  }

  predicate DistinctCompletions(channel: seq<Completion>)
  {
    forall i, j | 0 <= i < j < |channel| :: channel[i].id != channel[j].id
  }

  /** A completion says what its operation's record says. */
  predicate Truthful(book: Book, c: Completion)
  {
    Of(book, c.id).terminal == Some(c.terminal) && Of(book, c.id).submitted == Some(c.capability)
  }

  predicate QueueInv(book: Book, queue: seq<Job>)
  {
    Distinct(queue) && (forall job | job in queue :: Of(book, job.id).submitted == Some(job.capability))
  }

  predicate ChannelInv(book: Book, channel: seq<Completion>)
  {
    DistinctCompletions(channel) && (forall c | c in channel :: Truthful(book, c))
  }

  predicate RelayInv(book: Book, out: Outlet)
  {
    && (out.relay.Handing? || out.relay.Discarding? ==> Truthful(book, out.relay.c))
    && (out.relay.Stopped? ==> out.channel == [])
  }

  predicate SequenceInv(s: Sys)
  {
    && s.intake.nextId >= 1
    && (forall id | id in s.log.book && s.log.book[id].submitted.Some? :: 1 <= id < s.intake.nextId)
    && QueueInv(s.log.book, s.intake.queue)
    && ChannelInv(s.log.book, s.out.channel)
    && RelayInv(s.log.book, s.out)
  }

  /** Every permit is free, in the dispatcher's hand or in a task. */
  predicate PermitInv(c: Limits, pool: Pool)
  {
    pool.permits + Count(pool.holding) + |pool.tasks| == c.maxInFlight
  }

  predicate ResultInv(c: Limits, results: Results, totals: Totals)
  {
    && |results| <= c.maxRetained
    && totals.succeeded == |results| + totals.taken + totals.discarded + totals.removed
  }

  predicate CapacityInv(c: Limits, s: Sys)
  {
    && PermitInv(c, s.pool)
    && ResultInv(c, s.shared.results, s.log.totals)
    && |s.intake.queue| <= c.queueCapacity
    && |s.out.channel| <= c.completionCapacity
    && (!s.pool.dispatching ==> s.intake.queue == [] && !s.pool.holding)
  }

  ghost predicate Inv(c: Limits, s: Sys)
  {
    && (forall id: Id :: LocalInv(View(s, id)))
    && SequenceInv(s)
    && CapacityInv(c, s)
  }

  // ---- Sequences and sizes ----

  lemma QueueAppend(queue: seq<Job>, job: Job)
    ensures QueueIds(queue + [job]) == QueueIds(queue) + {job.id}
    ensures Distinct(queue) && job.id !in QueueIds(queue) ==> Distinct(queue + [job])
  {
    assert forall j | j in queue + [job] :: j in queue || j == job;
    assert forall j | j in queue :: j in queue + [job] && j.id in QueueIds(queue);
    assert job in queue + [job];
    assert forall i | 0 <= i < |queue| :: queue[i] in queue;
  }

  lemma QueuePop(queue: seq<Job>)
    requires queue != [] && Distinct(queue)
    ensures QueueIds(queue[1..]) == QueueIds(queue) - {queue[0].id}
    ensures Distinct(queue[1..]) && queue[0].id in QueueIds(queue)
  {
    assert forall j | j in queue :: j == queue[0] || j in queue[1..];
    forall j | j in queue[1..]
      ensures j in queue && j.id != queue[0].id
    {
      var i :| 0 <= i < |queue[1..]| && queue[1..][i] == j;
      assert queue[i + 1] == j;
    }
  }

  lemma ChannelAppend(channel: seq<Completion>, c: Completion)
    ensures ChannelIds(channel + [c]) == ChannelIds(channel) + {c.id}
    ensures DistinctCompletions(channel) && c.id !in ChannelIds(channel) ==> DistinctCompletions(channel + [c])
  {
    assert forall d | d in channel + [c] :: d in channel || d == c;
    assert forall d | d in channel :: d in channel + [c] && d.id in ChannelIds(channel);
    assert c in channel + [c];
    assert forall i | 0 <= i < |channel| :: channel[i] in channel;
  }

  lemma ChannelPop(channel: seq<Completion>)
    requires channel != [] && DistinctCompletions(channel)
    ensures ChannelIds(channel[1..]) == ChannelIds(channel) - {channel[0].id}
    ensures DistinctCompletions(channel[1..]) && channel[0].id in ChannelIds(channel)
  {
    assert forall d | d in channel :: d == channel[0] || d in channel[1..];
    forall d | d in channel[1..]
      ensures d in channel && d.id != channel[0].id
    {
      var i :| 0 <= i < |channel[1..]| && channel[1..][i] == d;
      assert channel[i + 1] == d;
    }
  }

  lemma SizeAfterUpdate<V>(m: map<Id, V>, id: Id, v: V)
    ensures |m[id := v]| == |m| + Count(id !in m)
  {
    assert m[id := v].Keys == m.Keys + {id};
    assert |m[id := v].Keys| == |m.Keys| + Count(id !in m);
  }

  lemma SizeAfterRemoval<V>(m: map<Id, V>, id: Id)
    ensures |m - {id}| == |m| - Count(id in m)
  {
    assert (m - {id}).Keys == m.Keys - {id};
    assert |(m - {id}).Keys| == |m.Keys| - Count(id in m);
  }

  // ---- The system moves each operation by its automaton ----

  /** What an event that happens does to operation `id`. */
  function MoveOf(c: Limits, s: Sys, e: Event, id: Id): Move
    requires Guard(c, s, e)
  {
    match e
    case TakeId(capability, deadline) => if id == s.intake.nextId then Begin(capability, deadline) else Stay
    case Insert(i) => if i == id then Register else Stay
    case SendAccepted(i) => if i == id then Enqueue else Stay
    case SendRefused(i) => if i == id then Refuse else Stay
    case Retract(i) => if i == id then Withdraw else Stay
    case Dispatch => if s.intake.queue[0].id == id then Spawn(s.intake.queue[0]) else Stay
    case FirstRunLate(i, _) => if i == id then RunLate else Stay
    case FirstRunCancelled(i, _) => if i == id then RunCancelled else Stay
    case FirstRunPoll(i, _) => if i == id then RunPoll else Stay
    case Park(i) => if i == id then Pause else Stay
    case Repoll(i) => if i == id then Resume else Stay
    case WorkDone(i, outcome) => if i == id then Conclude(outcome) else Stay
    case CancelSeen(i) => if i == id then Conclude(Fault(Cancelled)) else Stay
    case DeadlineHit(i, _) => if i == id then Conclude(Fault(Timeout)) else Stay
    case Settle(i) => if i == id then Store(|s.shared.results| < c.maxRetained) else Stay
    case Deactivate(i) => if i == id then Deregister else Stay
    case Announce(i) => if i == id then Post else Stay
    case AnnounceFailed(i) => if i == id then GiveUp else Stay
    case RemoveUnwanted(i) => if i == id then Remove else Stay
    case Cancel(_, i) => if i == id then Raise else Stay
    case CancelAll => if id in s.shared.active then Raise else Stay
    case Take(_, _, i) => if i == id then Collect else Stay
    case Discard(i) => if i == id then Forget else Stay
    case RelayReceive => if s.out.channel[0].id == id then Receive else Stay
    case RelayDeliver => if s.out.relay.c.id == id then Deliver else Stay
    case RelayDiscard => if s.out.relay.c.id == id then Reject else Stay
    case RelayStop => if id in ChannelIds(s.out.channel) then Strand else Stay
    case _ => Stay
  }

  /** One event of the system is one move of every operation's automaton. */
  ghost predicate Simulates(c: Limits, s: Sys, e: Event, t: Sys, id: Id)
    requires Guard(c, s, e)
  {
    var m := MoveOf(c, s, e, id);
    Sound(View(s, id), m) && View(t, id) == Apply(View(s, id), m)
  }

  lemma TakeIdSimulates(c: Limits, s: Sys, e: Event, id: Id)
    requires e.TakeId? && Guard(c, s, e)
    requires SequenceInv(s)
    ensures Simulates(c, s, e, EffectSubmit(c, s, e), id)
  {
  }

  lemma ForeignIdSimulates(c: Limits, s: Sys, e: Event, id: Id)
    requires e.ForeignId? && Guard(c, s, e)
    ensures Simulates(c, s, e, EffectSubmit(c, s, e), id)
  {
  }

  lemma InsertSimulates(c: Limits, s: Sys, e: Event, id: Id)
    requires e.Insert? && Guard(c, s, e)
    ensures Simulates(c, s, e, EffectSubmit(c, s, e), id)
  {
  }

  lemma SendAcceptedSimulates(c: Limits, s: Sys, e: Event, id: Id)
    requires e.SendAccepted? && Guard(c, s, e)
    requires LifecycleInv(View(s, e.id))
    ensures Simulates(c, s, e, EffectSubmit(c, s, e), id)
  {
    QueueAppend(s.intake.queue, s.intake.submitting[e.id].job);
    var t := EffectSubmit(c, s, e);
    if id == e.id {
      assert View(t, id) == Apply(View(s, id), Enqueue);
    } else {
      assert View(t, id) == View(s, id);
    }
  }

  lemma SendRefusedSimulates(c: Limits, s: Sys, e: Event, id: Id)
    requires e.SendRefused? && Guard(c, s, e)
    ensures Simulates(c, s, e, EffectSubmit(c, s, e), id)
  {
  }

  lemma RetractSimulates(c: Limits, s: Sys, e: Event, id: Id)
    requires e.Retract? && Guard(c, s, e)
    ensures Simulates(c, s, e, EffectSubmit(c, s, e), id)
  {
  }

  lemma DropRegistrySimulates(c: Limits, s: Sys, e: Event, id: Id)
    requires e.DropRegistry? && Guard(c, s, e)
    ensures Simulates(c, s, e, EffectSubmit(c, s, e), id)
  {
  }

  lemma AcquirePermitSimulates(c: Limits, s: Sys, e: Event, id: Id)
    requires e.AcquirePermit? && Guard(c, s, e)
    ensures Simulates(c, s, e, EffectDispatch(c, s, e), id)
  {
  }

  lemma DispatchSimulates(c: Limits, s: Sys, e: Event, id: Id)
    requires e.Dispatch? && Guard(c, s, e)
    requires SequenceInv(s)
    ensures Simulates(c, s, e, EffectDispatch(c, s, e), id)
  {
    QueuePop(s.intake.queue);
  }

  lemma DispatcherExitSimulates(c: Limits, s: Sys, e: Event, id: Id)
    requires e.DispatcherExit? && Guard(c, s, e)
    ensures Simulates(c, s, e, EffectDispatch(c, s, e), id)
  {
  }

  lemma FirstRunLateSimulates(c: Limits, s: Sys, e: Event, id: Id)
    requires e.FirstRunLate? && Guard(c, s, e)
    ensures Simulates(c, s, e, EffectDecide(c, s, e), id)
  {
  }

  lemma FirstRunCancelledSimulates(c: Limits, s: Sys, e: Event, id: Id)
    requires e.FirstRunCancelled? && Guard(c, s, e)
    ensures Simulates(c, s, e, EffectDecide(c, s, e), id)
  {
  }

  lemma FirstRunPollSimulates(c: Limits, s: Sys, e: Event, id: Id)
    requires e.FirstRunPoll? && Guard(c, s, e)
    ensures Simulates(c, s, e, EffectDecide(c, s, e), id)
  {
  }

  lemma ParkSimulates(c: Limits, s: Sys, e: Event, id: Id)
    requires e.Park? && Guard(c, s, e)
    ensures Simulates(c, s, e, EffectDecide(c, s, e), id)
  {
  }

  lemma RepollSimulates(c: Limits, s: Sys, e: Event, id: Id)
    requires e.Repoll? && Guard(c, s, e)
    ensures Simulates(c, s, e, EffectDecide(c, s, e), id)
  {
  }

  lemma WorkDoneSimulates(c: Limits, s: Sys, e: Event, id: Id)
    requires e.WorkDone? && Guard(c, s, e)
    ensures Simulates(c, s, e, EffectDecide(c, s, e), id)
  {
  }

  lemma CancelSeenSimulates(c: Limits, s: Sys, e: Event, id: Id)
    requires e.CancelSeen? && Guard(c, s, e)
    ensures Simulates(c, s, e, EffectDecide(c, s, e), id)
  {
  }

  lemma DeadlineHitSimulates(c: Limits, s: Sys, e: Event, id: Id)
    requires e.DeadlineHit? && Guard(c, s, e)
    ensures Simulates(c, s, e, EffectDecide(c, s, e), id)
  {
  }

  lemma SettleMovesIt(c: Limits, s: Sys, id: Id)
    requires Guard(c, s, Settle(id)) && LifecycleInv(View(s, id))
    ensures View(EffectFinish(c, s, Settle(id)), id) == Apply(View(s, id), Store(|s.shared.results| < c.maxRetained))
  {
    var task, room := s.pool.tasks[id], |s.shared.results| < c.maxRetained;
    var terminal := StoreTerminal(task.outcome, room);
    assert task.job.id == id && SettleTerminal(s.shared.results, task.outcome, c.maxRetained) == terminal;
    var t := EffectFinish(c, s, Settle(id));
    assert Get(t.pool.tasks, id) == Some(Settled(task.job, terminal));
    assert Get(t.shared.results, id) ==
           if terminal.Succeeded? then Some(Stored(task.job.capability, task.outcome.erased)) else View(s, id).stored;
  }

  lemma SettleFrame(c: Limits, s: Sys, i: Id, id: Id)
    requires Guard(c, s, Settle(i)) && LifecycleInv(View(s, i)) && i != id
    ensures View(EffectFinish(c, s, Settle(i)), id) == View(s, id)
  {
    assert s.pool.tasks[i].job.id == i;
  }

  lemma SettleSimulates(c: Limits, s: Sys, e: Event, id: Id)
    requires e.Settle? && Guard(c, s, e)
    requires LifecycleInv(View(s, e.id))
    ensures Simulates(c, s, e, EffectFinish(c, s, e), id)
  {
    assert e == Settle(e.id);
    if id == e.id {
      SettleMovesIt(c, s, id);
    } else {
      SettleFrame(c, s, e.id, id);
    }
  }

  lemma DeactivateSimulates(c: Limits, s: Sys, e: Event, id: Id)
    requires e.Deactivate? && Guard(c, s, e)
    ensures Simulates(c, s, e, EffectFinish(c, s, e), id)
  {
  }

  lemma AnnounceSimulates(c: Limits, s: Sys, e: Event, id: Id)
    requires e.Announce? && Guard(c, s, e)
    requires LifecycleInv(View(s, e.id))
    ensures Simulates(c, s, e, EffectFinish(c, s, e), id)
  {
    ChannelAppend(s.out.channel, Completion(e.id, s.pool.tasks[e.id].job.capability, s.pool.tasks[e.id].terminal));
    var t := EffectFinish(c, s, e);
    if id == e.id {
      assert View(t, id) == Apply(View(s, id), Post);
    } else {
      assert View(t, id) == View(s, id);
    }
  }

  lemma AnnounceFailedSimulates(c: Limits, s: Sys, e: Event, id: Id)
    requires e.AnnounceFailed? && Guard(c, s, e)
    ensures Simulates(c, s, e, EffectFinish(c, s, e), id)
  {
  }

  lemma RemoveUnwantedSimulates(c: Limits, s: Sys, e: Event, id: Id)
    requires e.RemoveUnwanted? && Guard(c, s, e)
    ensures Simulates(c, s, e, EffectFinish(c, s, e), id)
  {
    if id == e.id {
      assert View(EffectFinish(c, s, e), id) == Apply(View(s, id), MoveOf(c, s, e, id));
    }
  }

  lemma CancelSimulates(c: Limits, s: Sys, e: Event, id: Id)
    requires e.Cancel? && Guard(c, s, e)
    ensures Simulates(c, s, e, EffectClient(c, s, e), id)
  {
  }

  lemma CancelAllSimulates(c: Limits, s: Sys, e: Event, id: Id)
    requires e.CancelAll? && Guard(c, s, e)
    requires ActiveInv(View(s, id))
    ensures Simulates(c, s, e, EffectClient(c, s, e), id)
  {
    var t := EffectClient(c, s, e);
    if id in s.shared.active {
      assert View(t, id) == Apply(View(s, id), Raise);
    } else {
      assert View(t, id) == View(s, id);
    }
  }

  lemma TakeSimulates(c: Limits, s: Sys, e: Event, id: Id)
    requires e.Take? && Guard(c, s, e)
    ensures Simulates(c, s, e, EffectClient(c, s, e), id)
  {
  }

  lemma DiscardSimulates(c: Limits, s: Sys, e: Event, id: Id)
    requires e.Discard? && Guard(c, s, e)
    ensures Simulates(c, s, e, EffectClient(c, s, e), id)
  {
  }

  lemma RelayReceiveSimulates(c: Limits, s: Sys, e: Event, id: Id)
    requires e.RelayReceive? && Guard(c, s, e)
    requires SequenceInv(s) && CompletionInv(View(s, id))
    ensures Simulates(c, s, e, EffectRelay(c, s, e), id)
  {
    ChannelPop(s.out.channel);
  }

  lemma RelayDeliverSimulates(c: Limits, s: Sys, e: Event, id: Id)
    requires e.RelayDeliver? && Guard(c, s, e)
    ensures Simulates(c, s, e, EffectRelay(c, s, e), id)
  {
  }

  lemma RelayRefusedSimulates(c: Limits, s: Sys, e: Event, id: Id)
    requires e.RelayRefused? && Guard(c, s, e)
    ensures Simulates(c, s, e, EffectRelay(c, s, e), id)
  {
  }

  lemma RelayDiscardSimulates(c: Limits, s: Sys, e: Event, id: Id)
    requires e.RelayDiscard? && Guard(c, s, e)
    ensures Simulates(c, s, e, EffectRelay(c, s, e), id)
  {
  }

  lemma RelayStopSimulates(c: Limits, s: Sys, e: Event, id: Id)
    requires e.RelayStop? && Guard(c, s, e)
    requires CompletionInv(View(s, id))
    ensures Simulates(c, s, e, EffectRelay(c, s, e), id)
  {
    var t := EffectRelay(c, s, e);
    if id in ChannelIds(s.out.channel) {
      assert View(t, id) == Apply(View(s, id), Strand);
    } else {
      assert View(t, id) == View(s, id);
    }
  }

  lemma SubmitGroupSimulates(c: Limits, s: Sys, e: Event, id: Id)
    requires SubmitEvent(e) && Guard(c, s, e) && Inv(c, s)
    ensures Simulates(c, s, e, EffectSubmit(c, s, e), id)
  {
    assert LocalInv(View(s, id));
    assert e.TakeId? || e.ForeignId? || e.DropRegistry? || LocalInv(View(s, e.id));
    match e
    case TakeId(_, _) => TakeIdSimulates(c, s, e, id);
    case ForeignId => ForeignIdSimulates(c, s, e, id);
    case Insert(_) => InsertSimulates(c, s, e, id);
    case SendAccepted(_) => SendAcceptedSimulates(c, s, e, id);
    case SendRefused(_) => SendRefusedSimulates(c, s, e, id);
    case Retract(_) => RetractSimulates(c, s, e, id);
    case DropRegistry => DropRegistrySimulates(c, s, e, id);
  }

  lemma DispatchGroupSimulates(c: Limits, s: Sys, e: Event, id: Id)
    requires DispatchEvent(e) && Guard(c, s, e) && Inv(c, s)
    ensures Simulates(c, s, e, EffectDispatch(c, s, e), id)
  {
    assert LocalInv(View(s, id));
    match e
    case AcquirePermit => AcquirePermitSimulates(c, s, e, id);
    case Dispatch => DispatchSimulates(c, s, e, id);
    case DispatcherExit => DispatcherExitSimulates(c, s, e, id);
  }

  lemma DecideGroupSimulates(c: Limits, s: Sys, e: Event, id: Id)
    requires DecideEvent(e) && Guard(c, s, e) && Inv(c, s)
    ensures Simulates(c, s, e, EffectDecide(c, s, e), id)
  {
    assert LocalInv(View(s, id));
    match e
    case FirstRunLate(_, _) => FirstRunLateSimulates(c, s, e, id);
    case FirstRunCancelled(_, _) => FirstRunCancelledSimulates(c, s, e, id);
    case FirstRunPoll(_, _) => FirstRunPollSimulates(c, s, e, id);
    case Park(_) => ParkSimulates(c, s, e, id);
    case Repoll(_) => RepollSimulates(c, s, e, id);
    case WorkDone(_, _) => WorkDoneSimulates(c, s, e, id);
    case CancelSeen(_) => CancelSeenSimulates(c, s, e, id);
    case DeadlineHit(_, _) => DeadlineHitSimulates(c, s, e, id);
  }

  lemma FinishGroupSimulates(c: Limits, s: Sys, e: Event, id: Id)
    requires !SubmitEvent(e) && !DispatchEvent(e) && !DecideEvent(e) && !ClientEvent(e) && !RelayEvent(e)
        && Guard(c, s, e) && Inv(c, s)
    ensures Simulates(c, s, e, EffectFinish(c, s, e), id)
  {
    assert LocalInv(View(s, id));
    assert LocalInv(View(s, e.id));
    match e
    case Settle(_) => SettleSimulates(c, s, e, id);
    case Deactivate(_) => DeactivateSimulates(c, s, e, id);
    case Announce(_) => AnnounceSimulates(c, s, e, id);
    case AnnounceFailed(_) => AnnounceFailedSimulates(c, s, e, id);
    case RemoveUnwanted(_) => RemoveUnwantedSimulates(c, s, e, id);
  }

  lemma ClientGroupSimulates(c: Limits, s: Sys, e: Event, id: Id)
    requires ClientEvent(e) && Guard(c, s, e) && Inv(c, s)
    ensures Simulates(c, s, e, EffectClient(c, s, e), id)
  {
    assert LocalInv(View(s, id));
    match e
    case Cancel(_, _) => CancelSimulates(c, s, e, id);
    case CancelAll => CancelAllSimulates(c, s, e, id);
    case Take(_, _, _) => TakeSimulates(c, s, e, id);
    case Discard(_) => DiscardSimulates(c, s, e, id);
  }

  lemma RelayGroupSimulates(c: Limits, s: Sys, e: Event, id: Id)
    requires RelayEvent(e) && Guard(c, s, e) && Inv(c, s)
    ensures Simulates(c, s, e, EffectRelay(c, s, e), id)
  {
    assert LocalInv(View(s, id));
    match e
    case RelayReceive => RelayReceiveSimulates(c, s, e, id);
    case RelayDeliver => RelayDeliverSimulates(c, s, e, id);
    case RelayRefused(_) => RelayRefusedSimulates(c, s, e, id);
    case RelayDiscard => RelayDiscardSimulates(c, s, e, id);
    case RelayStop => RelayStopSimulates(c, s, e, id);
  }

  lemma StepSimulates(c: Limits, s: Sys, e: Event, id: Id)
    requires Inv(c, s) && Guard(c, s, e)
    ensures Simulates(c, s, e, Step(c, s, e), id)
  {
    if SubmitEvent(e) {
      SubmitGroupSimulates(c, s, e, id);
    } else if DispatchEvent(e) {
      DispatchGroupSimulates(c, s, e, id);
    } else if DecideEvent(e) {
      DecideGroupSimulates(c, s, e, id);
    } else if ClientEvent(e) {
      ClientGroupSimulates(c, s, e, id);
    } else if RelayEvent(e) {
      RelayGroupSimulates(c, s, e, id);
    } else {
      FinishGroupSimulates(c, s, e, id);
    }
  }
}
