/** What holds of the hosted-operation system in every run, whatever the interleaving. */
module OperationSafety {
  import opened Prelude
  import opened Capability
  import opened Operation
  import opened OperationLocal
  import opened OperationSteps

  lemma StepKeepsLocal(c: Limits, s: Sys, e: Event, id: Id)
    requires Inv(c, s) && Guard(c, s, e)
    ensures LocalInv(View(Step(c, s, e), id))
  {
    StepSimulates(c, s, e, id);
    var l, m := View(s, id), MoveOf(c, s, e, id);
    MoveKeepsLifecycle(l, m);
    MoveKeepsLedger(l, m);
    MoveKeepsCompletion(l, m);
    MoveKeepsFirstRun(l, m);
  }

  // ---- Sequences ----

  lemma StepKeepsRecord(c: Limits, s: Sys, e: Event, id: Id)
    requires Inv(c, s) && Guard(c, s, e)
    ensures Keeps(Of(s.log.book, id), Of(Step(c, s, e).log.book, id))
    ensures Of(Step(c, s, e).log.book, id).submitted.Some? ==>
              Of(s.log.book, id).submitted.Some? || (e.TakeId? && id == s.intake.nextId)
  {
    StepSimulates(c, s, e, id);
    MoveKeepsRecord(View(s, id), MoveOf(c, s, e, id));
    assert View(Step(c, s, e), id).r == Of(Step(c, s, e).log.book, id);
  }

  lemma StepKeepsQueue(c: Limits, s: Sys, e: Event)
    requires Inv(c, s) && Guard(c, s, e)
    ensures Distinct(Step(c, s, e).intake.queue)
    ensures forall job | job in Step(c, s, e).intake.queue ::
              job in s.intake.queue || Of(s.log.book, job.id).submitted == Some(job.capability)
  {
    if e.SendAccepted? {
      assert LocalInv(View(s, e.id));
      QueueAppend(s.intake.queue, s.intake.submitting[e.id].job);
    } else if e.Dispatch? {
      QueuePop(s.intake.queue);
    } else {
      assert Step(c, s, e).intake.queue == s.intake.queue;
    }
  }

  /** The completion channel and the relay hold only what the records say. */
  predicate OutletGrows(s: Sys, t: Sys)
  {
    && DistinctCompletions(t.out.channel)
    && (forall d | d in t.out.channel :: d in s.out.channel || Truthful(s.log.book, d))
    && RelayInv(s.log.book, t.out)
  }

  lemma AnnounceKeepsChannel(c: Limits, s: Sys, e: Event)
    requires Inv(c, s) && Guard(c, s, e) && e.Announce?
    ensures OutletGrows(s, EffectFinish(c, s, e))
  {
    var task, l := s.pool.tasks[e.id], View(s, e.id);
    var d := Completion(e.id, task.job.capability, task.terminal);
    assert LifecycleInv(l) && LedgerInv(l) && CompletionInv(l);
    assert Truthful(s.log.book, d);
    ChannelAppend(s.out.channel, d);
    assert EffectFinish(c, s, e).out == s.out.(channel := s.out.channel + [d]);
  }

  lemma RelayKeepsChannel(c: Limits, s: Sys, e: Event)
    requires Inv(c, s) && Guard(c, s, e) && RelayEvent(e)
    ensures OutletGrows(s, EffectRelay(c, s, e))
  {
    if e.RelayReceive? {
      ChannelPop(s.out.channel);
    }
  }

  lemma StepKeepsChannel(c: Limits, s: Sys, e: Event)
    requires Inv(c, s) && Guard(c, s, e)
    ensures OutletGrows(s, Step(c, s, e))
  {
    if e.Announce? {
      AnnounceKeepsChannel(c, s, e);
    } else if RelayEvent(e) {
      RelayKeepsChannel(c, s, e);
    } else {
      assert Step(c, s, e).out == s.out;
    }
  }

  lemma StepKeepsSequences(c: Limits, s: Sys, e: Event)
    requires Inv(c, s) && Guard(c, s, e)
    ensures SequenceInv(Step(c, s, e))
  {
    var t := Step(c, s, e);
    forall id: Id
      ensures Keeps(Of(s.log.book, id), Of(t.log.book, id))
      ensures Of(t.log.book, id).submitted.Some? ==>
                Of(s.log.book, id).submitted.Some? || (e.TakeId? && id == s.intake.nextId)
    {
      StepKeepsRecord(c, s, e, id);
    }
    StepKeepsQueue(c, s, e);
    StepKeepsChannel(c, s, e);
    assert t.intake.nextId == s.intake.nextId + Count(e.TakeId? || e.ForeignId?);
    forall id | id in t.log.book && t.log.book[id].submitted.Some?
      ensures 1 <= id < t.intake.nextId
    {
      assert Of(t.log.book, id).submitted.Some?;
    }
  }

  // ---- Capacities ----

  /** A task that only changes its stage keeps its place in the map. */
  lemma TaskKeepsPermits(c: Limits, pool: Pool, id: Id, task: Task, now: nat)
    requires PermitInv(c, pool) && id in pool.tasks
    ensures PermitInv(c, WithTask(pool, id, task)) && PermitInv(c, WithoutTask(pool, id))
    ensures PermitInv(c, WithTaskAt(pool, id, task, now))
  {
    SizeAfterUpdate(pool.tasks, id, task);
    SizeAfterRemoval(pool.tasks, id);
  }

  lemma DispatchKeepsPermits(c: Limits, s: Sys, e: Event)
    requires Inv(c, s) && Guard(c, s, e) && DispatchEvent(e)
    ensures PermitInv(c, EffectDispatch(c, s, e).pool)
  {
    if e.Dispatch? {
      var job := s.intake.queue[0];
      assert LocalInv(View(s, job.id));
      assert job in s.intake.queue;
      SizeAfterUpdate(s.pool.tasks, job.id, Spawned(job));
    }
  }

  lemma DecideKeepsPermits(c: Limits, s: Sys, e: Event)
    requires PermitInv(c, s.pool) && Guard(c, s, e) && DecideEvent(e)
    ensures PermitInv(c, EffectDecide(c, s, e).pool)
  {
    var t := EffectDecide(c, s, e);
    assert t.pool == WithTaskAt(s.pool, e.id, t.pool.tasks[e.id], t.pool.clock);
    TaskKeepsPermits(c, s.pool, e.id, t.pool.tasks[e.id], t.pool.clock);
  }

  predicate FinishEvent(e: Event)
  {
    e.Settle? || e.Deactivate? || e.Announce? || e.AnnounceFailed? || e.RemoveUnwanted?
  }

  lemma FinishKeepsPermits(c: Limits, s: Sys, e: Event)
    requires PermitInv(c, s.pool) && Guard(c, s, e) && FinishEvent(e)
    ensures PermitInv(c, EffectFinish(c, s, e).pool)
  {
    var t := EffectFinish(c, s, e);
    if e.Announce? || e.RemoveUnwanted? {
      TaskKeepsPermits(c, s.pool, e.id, s.pool.tasks[e.id], 0);
    } else {
      assert t.pool == WithTask(s.pool, e.id, t.pool.tasks[e.id]);
      TaskKeepsPermits(c, s.pool, e.id, t.pool.tasks[e.id], 0);
    }
  }

  lemma OthersKeepPool(c: Limits, s: Sys, e: Event)
    requires Guard(c, s, e) && (SubmitEvent(e) || ClientEvent(e) || RelayEvent(e))
    ensures Step(c, s, e).pool == s.pool
  {
  }

  lemma StepKeepsPermits(c: Limits, s: Sys, e: Event)
    requires Inv(c, s) && Guard(c, s, e)
    ensures PermitInv(c, Step(c, s, e).pool)
  {
    if DispatchEvent(e) {
      DispatchKeepsPermits(c, s, e);
    } else if DecideEvent(e) {
      DecideKeepsPermits(c, s, e);
    } else if SubmitEvent(e) || ClientEvent(e) || RelayEvent(e) {
      OthersKeepPool(c, s, e);
    } else {
      assert FinishEvent(e);
      FinishKeepsPermits(c, s, e);
    }
  }

  lemma SettleKeepsResults(c: Limits, s: Sys, e: Event)
    requires Inv(c, s) && Guard(c, s, e) && e.Settle?
    ensures ResultInv(c, EffectFinish(c, s, e).shared.results, EffectFinish(c, s, e).log.totals)
  {
    var task := s.pool.tasks[e.id];
    assert LocalInv(View(s, e.id));
    if task.outcome.Value? {
      SizeAfterUpdate(s.shared.results, e.id, Stored(task.job.capability, task.outcome.erased));
    }
  }

  lemma TakerKeepsResults(c: Limits, s: Sys, e: Event)
    requires Inv(c, s) && Guard(c, s, e) && (e.Take? || e.Discard?)
    ensures ResultInv(c, EffectClient(c, s, e).shared.results, EffectClient(c, s, e).log.totals)
  {
    SizeAfterRemoval(s.shared.results, e.id);
  }

  lemma RemovalKeepsResults(c: Limits, s: Sys, e: Event)
    requires Inv(c, s) && Guard(c, s, e) && e.RemoveUnwanted?
    ensures ResultInv(c, EffectFinish(c, s, e).shared.results, EffectFinish(c, s, e).log.totals)
  {
    SizeAfterRemoval(s.shared.results, e.id);
  }

  lemma RelayKeepsResults(c: Limits, s: Sys, e: Event)
    requires Inv(c, s) && Guard(c, s, e) && e.RelayDiscard?
    ensures ResultInv(c, EffectRelay(c, s, e).shared.results, EffectRelay(c, s, e).log.totals)
  {
    SizeAfterRemoval(s.shared.results, s.out.relay.c.id);
  }

  lemma StepKeepsResults(c: Limits, s: Sys, e: Event)
    requires Inv(c, s) && Guard(c, s, e)
    ensures ResultInv(c, Step(c, s, e).shared.results, Step(c, s, e).log.totals)
  {
    if e.Settle? {
      SettleKeepsResults(c, s, e);
    } else if e.RemoveUnwanted? {
      RemovalKeepsResults(c, s, e);
    } else if e.Take? || e.Discard? {
      TakerKeepsResults(c, s, e);
    } else if e.RelayDiscard? {
      RelayKeepsResults(c, s, e);
    } else {
      assert Step(c, s, e).shared.results == s.shared.results && Step(c, s, e).log.totals == s.log.totals;
    }
  }

  /** Queue and channel within their capacities; nothing queued once the dispatcher has gone. */
  predicate SpaceInv(c: Limits, s: Sys)
  {
    && |s.intake.queue| <= c.queueCapacity && |s.out.channel| <= c.completionCapacity
    && (!s.pool.dispatching ==> s.intake.queue == [] && !s.pool.holding)
  }

  lemma SubmitKeepsSpace(c: Limits, s: Sys, e: Event)
    requires SpaceInv(c, s) && Guard(c, s, e) && SubmitEvent(e)
    ensures SpaceInv(c, EffectSubmit(c, s, e))
  {
  }

  lemma DispatchKeepsSpace(c: Limits, s: Sys, e: Event)
    requires SpaceInv(c, s) && Guard(c, s, e) && DispatchEvent(e)
    ensures SpaceInv(c, EffectDispatch(c, s, e))
  {
  }

  lemma TaskKeepsSpace(c: Limits, s: Sys, e: Event)
    requires SpaceInv(c, s) && Guard(c, s, e) && (DecideEvent(e) || FinishEvent(e))
    ensures SpaceInv(c, Step(c, s, e))
  {
  }

  lemma OthersKeepSpace(c: Limits, s: Sys, e: Event)
    requires SpaceInv(c, s) && Guard(c, s, e) && (ClientEvent(e) || RelayEvent(e))
    ensures SpaceInv(c, Step(c, s, e))
  {
  }

  lemma StepKeepsSpace(c: Limits, s: Sys, e: Event)
    requires SpaceInv(c, s) && Guard(c, s, e)
    ensures SpaceInv(c, Step(c, s, e))
  {
    if SubmitEvent(e) {
      SubmitKeepsSpace(c, s, e);
    } else if DispatchEvent(e) {
      DispatchKeepsSpace(c, s, e);
    } else if ClientEvent(e) || RelayEvent(e) {
      OthersKeepSpace(c, s, e);
    } else {
      assert DecideEvent(e) || FinishEvent(e);
      TaskKeepsSpace(c, s, e);
    }
  }

  lemma StepKeepsInv(c: Limits, s: Sys, e: Event)
    requires Inv(c, s)
    ensures Inv(c, Step(c, s, e))
  {
    if Guard(c, s, e) {
      forall id: Id
        ensures LocalInv(View(Step(c, s, e), id))
      {
        StepKeepsLocal(c, s, e, id);
      }
      StepKeepsSequences(c, s, e);
      StepKeepsPermits(c, s, e);
      StepKeepsResults(c, s, e);
      StepKeepsSpace(c, s, e);
    }
  }

  lemma {:induction false} PlayInv(c: Limits, events: seq<Event>)
    ensures Inv(c, Play(c, events))
  {
    if events != [] {
      PlayInv(c, events[..|events| - 1]);
      StepKeepsInv(c, Play(c, events[..|events| - 1]), events[|events| - 1]);
    }
  }
}
