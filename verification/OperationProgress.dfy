/**
 An operation does succeed (crates/floatile-services/src/operation.rs:320-511): while the registry is open, from every
 reachable state a new operation can be accepted, run, and have its value taken.
 */
module OperationProgress {
  import opened Prelude
  import opened Capability
  import opened Operation
  import opened OperationLocal
  import opened OperationSteps
  import opened OperationSafety
  import opened OperationRuns

  // ---- The dispatcher lives as long as the registry ----

  lemma {:induction false} OpenDispatches(c: Limits, events: seq<Event>)
    ensures Play(c, events).intake.registryOpen ==> Play(c, events).pool.dispatching
  {
    if events != [] {
      var n := |events| - 1;
      OpenDispatches(c, events[..n]);
      StepKeepsDispatching(c, Play(c, events[..n]), events[n]);
    }
  }

  lemma StepKeepsDispatching(c: Limits, s: Sys, e: Event)
    requires s.intake.registryOpen ==> s.pool.dispatching
    ensures Step(c, s, e).intake.registryOpen ==> Step(c, s, e).pool.dispatching
  {
  }

  /** An event of the dispatcher, a task or the relay neither closes the registry nor draws an id. */
  lemma InternalKeepsIntake(c: Limits, s: Sys, e: Event)
    requires OperationRuns.Internal(e)
    ensures var t := Step(c, s, e);
      && t.intake.registryOpen == s.intake.registryOpen && t.intake.nextId == s.intake.nextId
      && t.pool.dispatching == s.pool.dispatching
  {
  }

  lemma {:induction false} InternalsKeepIntake(c: Limits, s: Sys, more: seq<Event>)
    requires forall e | e in more :: OperationRuns.Internal(e)
    ensures var t := Continue(c, s, more);
      && t.intake.registryOpen == s.intake.registryOpen && t.intake.nextId == s.intake.nextId
      && t.pool.dispatching == s.pool.dispatching
    decreases |more|
  {
    if more != [] {
      InternalKeepsIntake(c, s, more[0]);
      InternalsKeepIntake(c, Step(c, s, more[0]), more[1..]);
    }
  }

  lemma {:induction false} ContinueIsPlay(c: Limits, events: seq<Event>, more: seq<Event>)
    ensures Continue(c, Play(c, events), more) == Play(c, events + more)
    decreases |more|
  {
    if more == [] {
      assert events + more == events;
    } else {
      var next := events + [more[0]];
      assert next[..|events|] == events;
      ContinueIsPlay(c, next, more[1..]);
      assert events + more == next + more[1..];
    }
  }

  /** A flag is raised only for ids that were drawn. */
  predicate FlagsDrawn(s: Sys)
  {
    forall id | id in s.shared.cancelled :: id < s.intake.nextId
  }

  lemma LiveIsDrawn(c: Limits, s: Sys, id: Id)
    requires Inv(c, s) && id in s.shared.active
    ensures id < s.intake.nextId
  {
    assert LocalInv(View(s, id));
  }

  lemma StepKeepsFlags(c: Limits, s: Sys, e: Event)
    requires Inv(c, s) && FlagsDrawn(s)
    ensures FlagsDrawn(Step(c, s, e))
  {
    var t := Step(c, s, e);
    forall id | id in t.shared.cancelled
      ensures id < t.intake.nextId
    {
      CancelledByStep(c, s, e, id);
      if id !in s.shared.cancelled {
        LiveIsDrawn(c, s, id);
      }
    }
  }

  lemma CancelledByStep(c: Limits, s: Sys, e: Event, id: Id)
    requires id in Step(c, s, e).shared.cancelled
    ensures id in s.shared.cancelled || id in s.shared.active
    ensures Step(c, s, e).intake.nextId >= s.intake.nextId
  {
  }

  lemma {:induction false} PlayFlags(c: Limits, events: seq<Event>)
    ensures FlagsDrawn(Play(c, events))
  {
    if events != [] {
      PlayFlags(c, events[..|events| - 1]);
      PlayInv(c, events[..|events| - 1]);
      StepKeepsFlags(c, Play(c, events[..|events| - 1]), events[|events| - 1]);
    }
  }

  // ---- Submitting ----

  /** A registered submission is sent exactly while the dispatcher lives and the queue has room; else it is refused. */
  lemma SendChoice(c: Limits, s: Sys, id: Id)
    requires id in s.intake.submitting && s.intake.submitting[id].Inserted?
    ensures Guard(c, s, SendAccepted(id)) <==> s.pool.dispatching && |s.intake.queue| < c.queueCapacity
    ensures Guard(c, s, SendRefused(id)) <==> !(s.pool.dispatching && |s.intake.queue| < c.queueCapacity)
  {
  }

  /** Nothing runs or waits, and a submit would be accepted. */
  predicate Quiet(s: Sys)
  {
    && s.intake.registryOpen && s.intake.nextId < MAX_ID && s.pool.dispatching
    && s.intake.queue == [] && s.pool.tasks == map[]
  }

  /** In `t` the job waits alone, with no cancel asked for; permits and results are those of `s`. */
  predicate Waits(s: Sys, t: Sys, job: Job)
  {
    && t.intake.queue == [job] && t.pool == s.pool && t.shared.results == s.shared.results
    && job.id !in t.shared.cancelled
  }

  lemma Drawn(c: Limits, s: Sys, capability: CapabilityId, deadline: nat)
    requires Quiet(s) && FlagsDrawn(s)
    ensures var id := s.intake.nextId; var t := Step(c, s, TakeId(capability, deadline));
      && t.intake.submitting == s.intake.submitting[id := Fresh(Job(id, capability, deadline))]
      && t.intake.queue == [] && t.pool == s.pool && t.shared == s.shared && id !in s.shared.cancelled
  {
    assert Guard(c, s, TakeId(capability, deadline));
  }

  lemma Registered(c: Limits, s: Sys, job: Job)
    requires job.id in s.intake.submitting && s.intake.submitting[job.id] == Fresh(job)
    ensures var t := Step(c, s, Insert(job.id));
      && t.intake == s.intake.(submitting := s.intake.submitting[job.id := Inserted(job)]) && t.pool == s.pool
      && t.shared == s.shared.(active := t.shared.active)
  {
    assert Guard(c, s, Insert(job.id));
  }

  lemma Sent(c: Limits, s: Sys, job: Job)
    requires job.id in s.intake.submitting && s.intake.submitting[job.id] == Inserted(job)
    requires s.pool.dispatching && s.intake.queue == [] && c.queueCapacity > 0
    ensures var t := Step(c, s, SendAccepted(job.id));
      t.intake.queue == [job] && t.pool == s.pool && t.shared == s.shared
  {
    SendChoice(c, s, job.id);
  }

  lemma SubmitOne(c: Limits, s: Sys, capability: CapabilityId, deadline: nat)
    requires Quiet(s) && FlagsDrawn(s) && c.queueCapacity > 0
    ensures var id := s.intake.nextId;
      var t := Continue(c, s, [TakeId(capability, deadline), Insert(id), SendAccepted(id)]);
      Waits(s, t, Job(id, capability, deadline))
  {
    var job := Job(s.intake.nextId, capability, deadline);
    Drawn(c, s, capability, deadline);
    var one := Step(c, s, TakeId(capability, deadline));
    Registered(c, one, job);
    var two := Step(c, one, Insert(job.id));
    Sent(c, two, job);
    ContinueThree(c, s, TakeId(capability, deadline), Insert(job.id), SendAccepted(job.id));
  }

  lemma ContinueThree(c: Limits, s: Sys, a: Event, b: Event, d: Event)
    ensures Continue(c, s, [a, b, d]) == Step(c, Step(c, Step(c, s, a), b), d)
  {
    ContinueFrom(c, s, a, [b, d]);
    assert [a] + [b, d] == [a, b, d];
    ContinueTwo(c, Step(c, s, a), b, d);
  }

  lemma ContinueTwo(c: Limits, s: Sys, a: Event, b: Event)
    ensures Continue(c, s, [a, b]) == Step(c, Step(c, s, a), b)
  {
    ContinueFrom(c, s, a, [b]);
    assert [a] + [b] == [a, b];
    ContinueOne(c, Step(c, s, a), b);
  }

  lemma ContinueOne(c: Limits, s: Sys, a: Event)
    ensures Continue(c, s, [a]) == Step(c, s, a)
  {
    assert [a][1..] == [];
  }

  // ---- Running ----

  /** In `t` the job's work has given this outcome; results are those of `s`. */
  predicate Gave(s: Sys, t: Sys, job: Job, outcome: Outcome)
  {
    job.id in t.pool.tasks && t.pool.tasks[job.id] == Decided(job, outcome) && t.shared.results == s.shared.results
  }

  lemma Started(c: Limits, s: Sys, job: Job)
    requires s.intake.queue == [job] && s.pool.dispatching && s.pool.holding
    ensures var t := Step(c, s, Dispatch);
      && job.id in t.pool.tasks && t.pool.tasks[job.id] == Spawned(job)
      && t.shared == s.shared && t.pool.clock == s.pool.clock
  {
    assert Guard(c, s, Dispatch);
  }

  lemma Worked(c: Limits, s: Sys, job: Job, outcome: Outcome)
    requires job.id in s.pool.tasks && s.pool.tasks[job.id] == Spawned(job)
    requires job.id !in s.shared.cancelled && s.pool.clock < job.deadline
    ensures Gave(s, Continue(c, s, [FirstRunPoll(job.id, s.pool.clock), WorkDone(job.id, outcome)]), job, outcome)
  {
    var poll, done := FirstRunPoll(job.id, s.pool.clock), WorkDone(job.id, outcome);
    assert Guard(c, s, poll);
    var one := Step(c, s, poll);
    assert one == EffectDecide(c, s, poll) && Guard(c, one, done);
    ContinueTwo(c, s, poll, done);
  }

  lemma Permitted(c: Limits, s: Sys) returns (more: seq<Event>)
    requires c.maxInFlight > 0 && CapacityInv(c, s) && s.pool.dispatching && s.pool.tasks == map[]
    ensures var t := Continue(c, s, more);
      && t.intake == s.intake && t.pool.holding && t.pool.dispatching && t.pool.clock == s.pool.clock
          && t.shared == s.shared
  {
    if s.pool.holding {
      more := [];
    } else {
      more := [AcquirePermit];
      assert Guard(c, s, AcquirePermit);
      ContinueOne(c, s, AcquirePermit);
    }
  }

  lemma RunOne(c: Limits, s: Sys, job: Job, outcome: Outcome) returns (more: seq<Event>)
    requires c.maxInFlight > 0 && CapacityInv(c, s) && s.pool.dispatching && s.pool.tasks == map[]
    requires s.intake.queue == [job] && job.id !in s.shared.cancelled && s.pool.clock < job.deadline
    ensures Gave(s, Continue(c, s, more), job, outcome)
  {
    var first := Permitted(c, s);
    var permitted := Continue(c, s, first);
    Started(c, permitted, job);
    var started := Step(c, permitted, Dispatch);
    var work := [FirstRunPoll(job.id, started.pool.clock), WorkDone(job.id, outcome)];
    Worked(c, started, job, outcome);
    ContinueOne(c, permitted, Dispatch);
    ContinueJoin(c, permitted, [Dispatch], work);
    ContinueJoin(c, s, first, [Dispatch] + work);
    more := first + ([Dispatch] + work);
  }

  // ---- Storing ----

  /** Room is made by discarding another result, if need be, and the value is stored. */
  lemma StoreOne(c: Limits, s: Sys, job: Job, erased: Erased) returns (more: seq<Event>)
    requires c.maxRetained > 0 && CapacityInv(c, s)
    requires job.id in s.pool.tasks && s.pool.tasks[job.id] == Decided(job, Value(erased))
    ensures var t := Continue(c, s, more);
      && job.id in t.shared.results && t.shared.results[job.id] == Stored(job.capability, erased)
      && Of(t.log.book, job.id).terminal == Some(Terminal.Succeeded)
  {
    if |s.shared.results| < c.maxRetained {
      SettleStores(c, s, job, erased);
      ContinueOne(c, s, Settle(job.id));
      more := [Settle(job.id)];
    } else {
      var victim :| victim in s.shared.results;
      var room := Step(c, s, Discard(victim));
      assert Guard(c, s, Discard(victim)) && room == EffectClient(c, s, Discard(victim));
      SizeAfterRemoval(s.shared.results, victim);
      SettleStores(c, room, job, erased);
      ContinueTwo(c, s, Discard(victim), Settle(job.id));
      more := [Discard(victim), Settle(job.id)];
    }
  }

  lemma SettleStores(c: Limits, s: Sys, job: Job, erased: Erased)
    requires job.id in s.pool.tasks && s.pool.tasks[job.id] == Decided(job, Value(erased))
    requires |s.shared.results| < c.maxRetained
    ensures var t := Step(c, s, Settle(job.id));
      && job.id in t.shared.results && t.shared.results[job.id] == Stored(job.capability, erased)
      && Of(t.log.book, job.id).terminal == Some(Terminal.Succeeded)
  {
    assert Guard(c, s, Settle(job.id)) && Step(c, s, Settle(job.id)) == EffectFinish(c, s, Settle(job.id));
  }

  // ---- Result ----

  lemma {:induction false} ContinueKeeps(c: Limits, s: Sys, more: seq<Event>)
    requires Inv(c, s) && FlagsDrawn(s)
    ensures Inv(c, Continue(c, s, more)) && FlagsDrawn(Continue(c, s, more))
    decreases |more|
  {
    if more != [] {
      StepKeepsInv(c, s, more[0]);
      StepKeepsFlags(c, s, more[0]);
      ContinueKeeps(c, Step(c, s, more[0]), more[1..]);
    }
  }

  /** The dispatcher, the tasks and the relay alone empty the queue and end every task. */
  lemma DrainQuiet(c: Limits, s: Sys) returns (more: seq<Event>)
    requires c.maxInFlight > 0 && c.completionCapacity > 0 && Inv(c, s)
    requires s.intake.registryOpen && s.pool.dispatching && s.intake.nextId < MAX_ID
    ensures Quiet(Continue(c, s, more))
  {
    more := DrainSystem(c, s);
    InternalsKeepIntake(c, s, more);
  }

  lemma SubmitQuiet(c: Limits, s: Sys, capability: CapabilityId) returns (more: seq<Event>, job: Job)
    requires c.queueCapacity > 0 && Quiet(s) && FlagsDrawn(s)
    ensures job.capability == capability && job.deadline > s.pool.clock && Waits(s, Continue(c, s, more), job)
  {
    job := Job(s.intake.nextId, capability, s.pool.clock + 1);
    SubmitOne(c, s, capability, job.deadline);
    more := [TakeId(capability, job.deadline), Insert(job.id), SendAccepted(job.id)];
  }

  lemma RunQuiet(c: Limits, s: Sys, capability: CapabilityId, erased: Erased) returns (more: seq<Event>, job: Job)
    requires c.maxInFlight > 0 && c.queueCapacity > 0 && Quiet(s) && FlagsDrawn(s) && Inv(c, s)
    ensures job.capability == capability
    ensures var t := Continue(c, s, more);
      job.id in t.pool.tasks && t.pool.tasks[job.id] == Decided(job, Value(erased))
  {
    var submit, submitted := SubmitQuiet(c, s, capability);
    job := submitted;
    ContinueKeeps(c, s, submit);
    var run := RunOne(c, Continue(c, s, submit), job, Value(erased));
    ContinueJoin(c, s, submit, run);
    more := submit + run;
  }

  lemma SucceedFrom(c: Limits, s: Sys, capability: CapabilityId, erased: Erased) returns (more: seq<Event>, id: Id)
    requires c.queueCapacity > 0 && c.maxInFlight > 0 && c.completionCapacity > 0 && c.maxRetained > 0
    requires Inv(c, s) && FlagsDrawn(s)
    requires s.intake.registryOpen && s.pool.dispatching && s.intake.nextId < MAX_ID
    ensures Succeeded(Continue(c, s, more), id, capability, erased)
  {
    var drain := DrainQuiet(c, s);
    ContinueKeeps(c, s, drain);
    var quiet := Continue(c, s, drain);
    var run, job := RunQuiet(c, quiet, capability, erased);
    ContinueKeeps(c, quiet, run);
    var store := StoreOne(c, Continue(c, quiet, run), job, erased);
    ContinueJoin(c, quiet, run, store);
    ContinueJoin(c, s, drain, run + store);
    more, id := drain + (run + store), job.id;
  }

  /** The operation ended as a success and its value is there for its capability. */
  predicate Succeeded(s: Sys, id: Id, capability: CapabilityId, erased: Erased)
  {
    && id in s.shared.results && s.shared.results[id] == Stored(capability, erased)
    && Of(s.log.book, id).terminal == Some(Terminal.Succeeded)
  }

  /**
   While the registry is open, from every reachable state some run submits a new operation, lets its work give any value
   for any capability, and ends with that value stored as a success, ready to be taken.
   */
  lemma OperationCanSucceed(c: Limits, events: seq<Event>, capability: CapabilityId, erased: Erased)
    returns (more: seq<Event>, id: Id)
    requires c.queueCapacity > 0 && c.maxInFlight > 0 && c.completionCapacity > 0 && c.maxRetained > 0
    requires Play(c, events).intake.registryOpen && Play(c, events).intake.nextId < MAX_ID
    ensures Succeeded(Play(c, events + more), id, capability, erased)
  {
    PlayInv(c, events);
    PlayFlags(c, events);
    OpenDispatches(c, events);
    more, id := SucceedFrom(c, Play(c, events), capability, erased);
    ContinueIsPlay(c, events, more);
  }
}
