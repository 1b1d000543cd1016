/**
 What a running job may do next, in terms of the events before it (crates/floatile-services/src/operation.rs:453-473):
 the deadline it was submitted with and the cancellations asked for, nothing else.
 */
module OperationChoices {
  import opened Prelude
  import opened Capability
  import opened Operation
  import opened OperationLocal
  import opened OperationSteps
  import opened OperationSafety
  import opened OperationHistory

  // ---- Jobs keep what they were submitted with ----

  /** The job is being submitted, queued or run. */
  predicate Holds(s: Sys, job: Job)
  {
    || (job.id in s.intake.submitting && s.intake.submitting[job.id].job == job)
    || job in s.intake.queue
    || (job.id in s.pool.tasks && s.pool.tasks[job.id].job == job)
  }

  predicate Draws(s: Sys, e: Event, job: Job)
  {
    e == TakeId(job.capability, job.deadline) && s.intake.nextId == job.id
  }

  lemma SubmitHolds(c: Limits, s: Sys, e: Event, job: Job)
    requires Guard(c, s, e) && SubmitEvent(e) && Holds(EffectSubmit(c, s, e), job)
    requires e.SendAccepted? ==> LifecycleInv(View(s, e.id))
    ensures Holds(s, job) || Draws(s, e, job)
  {
  }

  lemma DispatchHolds(c: Limits, s: Sys, e: Event, job: Job)
    requires Guard(c, s, e) && DispatchEvent(e) && Holds(EffectDispatch(c, s, e), job)
    ensures Holds(s, job)
  {
  }

  lemma DecideHolds(c: Limits, s: Sys, e: Event, job: Job)
    requires Guard(c, s, e) && DecideEvent(e) && Holds(EffectDecide(c, s, e), job)
    ensures Holds(s, job)
  {
  }

  lemma FinishHolds(c: Limits, s: Sys, e: Event, job: Job)
    requires Guard(c, s, e) && Holds(EffectFinish(c, s, e), job)
    ensures Holds(s, job)
  {
  }

  lemma OthersHold(c: Limits, s: Sys, e: Event, job: Job)
    requires Guard(c, s, e) && (ClientEvent(e) || RelayEvent(e))
    requires Holds(if ClientEvent(e) then EffectClient(c, s, e) else EffectRelay(c, s, e), job)
    ensures Holds(s, job)
  {
  }

  lemma StepHolds(c: Limits, s: Sys, e: Event, job: Job)
    requires Inv(c, s) && Guard(c, s, e) && Holds(Step(c, s, e), job)
    ensures Holds(s, job) || Draws(s, e, job)
  {
    if SubmitEvent(e) {
      if e.SendAccepted? {
        assert LocalInv(View(s, e.id));
      }
      SubmitHolds(c, s, e, job);
    } else if DispatchEvent(e) {
      DispatchHolds(c, s, e, job);
    } else if DecideEvent(e) {
      DecideHolds(c, s, e, job);
    } else if ClientEvent(e) || RelayEvent(e) {
      OthersHold(c, s, e, job);
    } else {
      FinishHolds(c, s, e, job);
    }
  }

  ghost predicate SubmittedAs(c: Limits, events: seq<Event>, job: Job)
  {
    exists k: nat :: SubmitsAt(c, events, k, job.id, job.capability, job.deadline)
  }

  lemma {:induction false} HeldIsSubmitted(c: Limits, events: seq<Event>, job: Job)
    requires Holds(Play(c, events), job)
    ensures SubmittedAs(c, events, job)
  {
    assert events != [];
    var n := |events| - 1;
    var s := Play(c, events[..n]);
    PlayInv(c, events[..n]);
    if Did(c, events, n) {
      StepHolds(c, s, events[n], job);
    }
    if Holds(s, job) {
      HeldIsSubmitted(c, events[..n], job);
      var k: nat :| SubmitsAt(c, events[..n], k, job.id, job.capability, job.deadline);
      Earlier(c, events, k);
      assert SubmitsAt(c, events, k, job.id, job.capability, job.deadline);
    } else {
      assert SubmitsAt(c, events, n, job.id, job.capability, job.deadline);
    }
  }

  /** An id is drawn once, so its deadline is determined. */
  lemma {:induction false} DrawnStays(c: Limits, events: seq<Event>, k: nat, id: Id, capability: CapabilityId,
      deadline: nat)
    requires SubmitsAt(c, events, k, id, capability, deadline)
    ensures Play(c, events).intake.nextId > id
  {
    var n := |events| - 1;
    if k < n {
      Earlier(c, events, k);
      DrawnStays(c, events[..n], k, id, capability, deadline);
    }
    NextGrows(c, Play(c, events[..n]), events[n]);
  }

  lemma NextGrows(c: Limits, s: Sys, e: Event)
    ensures Step(c, s, e).intake.nextId == s.intake.nextId + Count(Guard(c, s, e) && (e.TakeId? || e.ForeignId?))
  {
  }

  lemma DrawnOnce(c: Limits, events: seq<Event>, j: nat, k: nat, x: Job, y: Job)
    requires x.id == y.id && SubmitsAt(c, events, j, x.id, x.capability, x.deadline)
    requires SubmitsAt(c, events, k, y.id, y.capability, y.deadline)
    ensures j >= k
  {
    if j < k {
      assert events[..k][..j] == events[..j];
      DrawnStays(c, events[..k], j, x.id, x.capability, x.deadline);
      assert false;
    }
  }

  lemma SubmittedAsOne(c: Limits, events: seq<Event>, x: Job, y: Job)
    requires SubmittedAs(c, events, x) && SubmittedAs(c, events, y) && x.id == y.id
    ensures x == y
  {
    var j: nat :| SubmitsAt(c, events, j, x.id, x.capability, x.deadline);
    var k: nat :| SubmitsAt(c, events, k, y.id, y.capability, y.deadline);
    DrawnOnce(c, events, j, k, x, y);
    DrawnOnce(c, events, k, j, y, x);
  }

  // ---- Cancellations asked for ----

  /** Event `k` is a `cancel` of `id` that was accepted, or a `cancel_all` while it was live. */
  predicate CancelsAt(c: Limits, events: seq<Event>, k: nat, id: Id)
  {
    && Did(c, events, k)
    && ((events[k].Cancel? && events[k].id == id) ||
        (events[k].CancelAll? && id in Play(c, events[..k]).shared.active))
  }

  ghost predicate CancelAsked(c: Limits, events: seq<Event>, id: Id)
  {
    exists k: nat :: CancelsAt(c, events, k, id)
  }

  lemma RaisedByMove(l: Local, m: Move)
    requires Enabled(l, m)
    ensures Apply(l, m).cancelled == (l.cancelled || m.Raise?)
  {
  }

  lemma CancelIsMove(c: Limits, s: Sys, e: Event, id: Id)
    requires Guard(c, s, e)
    ensures MoveOf(c, s, e, id).Raise? <==> (e.Cancel? && e.id == id) || (e.CancelAll? && id in s.shared.active)
  {
  }

  lemma {:induction false} RaisedIffAsked(c: Limits, events: seq<Event>, id: Id)
    ensures id in Play(c, events).shared.cancelled <==> CancelAsked(c, events, id)
  {
    if events != [] {
      var n := |events| - 1;
      var s := Play(c, events[..n]);
      RaisedIffAsked(c, events[..n], id);
      LastMove(c, events, id);
      if Did(c, events, n) {
        CancelIsMove(c, s, events[n], id);
        RaisedByMove(View(s, id), MoveOf(c, s, events[n], id));
      }
      AskedSplit(c, events, id);
    }
  }

  lemma AskedSplit(c: Limits, events: seq<Event>, id: Id)
    requires events != []
    ensures CancelAsked(c, events, id) <==>
            CancelAsked(c, events[..|events| - 1], id) || CancelsAt(c, events, |events| - 1, id)
  {
    var n := |events| - 1;
    if k: nat :| CancelsAt(c, events[..n], k, id) {
      Earlier(c, events, k);
      assert CancelsAt(c, events, k, id);
    }
    if k: nat :| CancelsAt(c, events, k, id) {
      if k < n {
        Earlier(c, events, k);
        assert CancelsAt(c, events[..n], k, id);
      }
    }
  }

  // ---- Results ----

  /**
   A spawned job may, at an instant from the clock on: time out exactly from its submit-time deadline on; before that,
   end cancelled exactly when a cancel was asked for, and start its work exactly when none was.
   */
  lemma FirstRunChoice(c: Limits, events: seq<Event>, job: Job, now: nat)
    requires SubmittedAs(c, events, job)
    requires var s := Play(c, events); job.id in s.pool.tasks && s.pool.tasks[job.id].Spawned? && now >= s.pool.clock
    ensures var s := Play(c, events);
      && (Guard(c, s, FirstRunLate(job.id, now)) <==> now >= job.deadline)
      && (Guard(c, s, FirstRunCancelled(job.id, now)) <==> now < job.deadline && CancelAsked(c, events, job.id))
      && (Guard(c, s, FirstRunPoll(job.id, now)) <==> now < job.deadline && !CancelAsked(c, events, job.id))
  {
    TaskJob(c, events, job);
    RaisedIffAsked(c, events, job.id);
  }

  lemma TaskJob(c: Limits, events: seq<Event>, job: Job)
    requires SubmittedAs(c, events, job) && job.id in Play(c, events).pool.tasks
    ensures Play(c, events).pool.tasks[job.id].job == job
  {
    var held := Play(c, events).pool.tasks[job.id].job;
    PlayInv(c, events);
    assert LocalInv(View(Play(c, events), job.id));
    HeldIsSubmitted(c, events, held);
    SubmittedAsOne(c, events, job, held);
  }

  /** Between two polls a job ends cancelled exactly when a cancel was asked for, and is polled exactly otherwise. */
  lemma NextPollChoice(c: Limits, events: seq<Event>, id: Id)
    requires id in Play(c, events).pool.tasks && Play(c, events).pool.tasks[id].Parked?
    ensures var s := Play(c, events);
      && (Guard(c, s, CancelSeen(id)) <==> CancelAsked(c, events, id))
      && (Guard(c, s, Repoll(id)) <==> !CancelAsked(c, events, id))
  {
    RaisedIffAsked(c, events, id);
    ParkedChoice(c, Play(c, events), id);
  }

  lemma ParkedChoice(c: Limits, s: Sys, id: Id)
    requires id in s.pool.tasks && s.pool.tasks[id].Parked?
    ensures Guard(c, s, CancelSeen(id)) <==> id in s.shared.cancelled
    ensures Guard(c, s, Repoll(id)) <==> id !in s.shared.cancelled
  {
  }

  /** In a poll a job may give its outcome or wait at any time, and time out exactly from its deadline on. */
  lemma InPollChoice(c: Limits, events: seq<Event>, job: Job, now: nat, outcome: Outcome)
    requires SubmittedAs(c, events, job)
    requires var s := Play(c, events); job.id in s.pool.tasks && s.pool.tasks[job.id].InPoll? && now >= s.pool.clock
    ensures var s := Play(c, events);
      && Guard(c, s, WorkDone(job.id, outcome)) && Guard(c, s, Park(job.id))
      && (Guard(c, s, DeadlineHit(job.id, now)) <==> now >= job.deadline)
  {
    TaskJob(c, events, job);
  }
}
