/**
 What the events before it say of an operation (crates/floatile-services/src/operation.rs:320-417, 453-501): how its
 job was decided, how it ended, whether its result is there, and what a `take` answers.
 */
module OperationHistory {
  import opened Prelude
  import opened Capability
  import opened Operation
  import opened OperationLocal
  import opened OperationSteps
  import opened OperationSafety

  // ---- Events that took place ----

  /** Event `k` was possible where it stands. */
  predicate Did(c: Limits, events: seq<Event>, k: nat)
  {
    k < |events| && Guard(c, Play(c, events[..k]), events[k])
  }

  /** Event `k` draws `id` for a job of that capability and deadline. */
  predicate SubmitsAt(c: Limits, events: seq<Event>, k: nat, id: Id, capability: CapabilityId, deadline: nat)
  {
    Did(c, events, k) && events[k] == TakeId(capability, deadline) && Play(c, events[..k]).intake.nextId == id
  }

  /** The outcome that an event gives the job of `id`. */
  function DecisionOf(e: Event, id: Id): Option<Outcome>
  {
    match e
    case FirstRunLate(i, _) => if i == id then Some(Fault(Timeout)) else None
    case FirstRunCancelled(i, _) => if i == id then Some(Fault(Cancelled)) else None
    case WorkDone(i, outcome) => if i == id then Some(outcome) else None
    case CancelSeen(i) => if i == id then Some(Fault(Cancelled)) else None
    case DeadlineHit(i, _) => if i == id then Some(Fault(Timeout)) else None
    case _ => None
  }

  predicate DecidesAt(c: Limits, events: seq<Event>, k: nat, id: Id, outcome: Outcome)
  {
    Did(c, events, k) && DecisionOf(events[k], id) == Some(outcome)
  }

  predicate SettlesAt(c: Limits, events: seq<Event>, k: nat, id: Id)
  {
    Did(c, events, k) && events[k] == Settle(id)
  }

  /** The result store had room at event `k`. */
  predicate RoomAt(c: Limits, events: seq<Event>, k: nat)
    requires k <= |events|
  {
    |Play(c, events[..k]).shared.results| < c.maxRetained
  }

  /** The event hands out, discards or removes the result of `id`. */
  predicate Removes(s: Sys, e: Event, id: Id)
  {
    match e
    case Take(_, _, i) => i == id
    case Discard(i) => i == id
    case RemoveUnwanted(i) => i == id
    case RelayDiscard => s.out.relay.Discarding? && s.out.relay.c.id == id
    case _ => false
  }

  predicate RemovesAt(c: Limits, events: seq<Event>, k: nat, id: Id)
  {
    Did(c, events, k) && Removes(Play(c, events[..k]), events[k], id)
  }

  lemma Earlier(c: Limits, events: seq<Event>, k: nat)
    requires k < |events| - 1
    ensures events[..|events| - 1][..k] == events[..k]
    ensures Did(c, events[..|events| - 1], k) <==> Did(c, events, k)
  {
    assert events[..|events| - 1][..k] == events[..k];
  }

  /** The last event moves the operation by its automaton, or not at all. */
  lemma LastMove(c: Limits, events: seq<Event>, id: Id)
    requires events != []
    ensures var n := |events| - 1; var s := Play(c, events[..n]);
      && LocalInv(View(s, id))
      && (if Did(c, events, n)
          then var m := MoveOf(c, s, events[n], id);
               Sound(View(s, id), m) && View(Play(c, events), id) == Apply(View(s, id), m)
          else View(Play(c, events), id) == View(s, id))
  {
    var n := |events| - 1;
    PlayInv(c, events[..n]);
    if Did(c, events, n) {
      StepSimulates(c, Play(c, events[..n]), events[n], id);
    }
  }

  // ---- Decided once, settled once ----

  /** The job has been decided. */
  predicate PastDecision(l: Local)
  {
    l.r.submitted.Some? && !Unstarted(l) && !(l.task.Some? && (l.task.value.InPoll? || l.task.value.Parked?))
  }

  /** Decided with this outcome and not settled, or settled. */
  predicate Concluded(l: Local, outcome: Outcome)
  {
    PastDecision(l) &&
    ((l.task.Some? && l.task.value.Decided? && l.task.value.outcome == outcome) || l.r.terminal.Some?)
  }

  lemma ConcludedStays(l: Local, m: Move, outcome: Outcome)
    requires LocalInv(l) && Sound(l, m) && Concluded(l, outcome)
    ensures Concluded(Apply(l, m), outcome)
  {
  }

  predicate Concludes(m: Move, outcome: Outcome)
  {
    match m
    case RunLate => outcome == Fault(Timeout)
    case RunCancelled => outcome == Fault(Cancelled)
    case Conclude(o) => outcome == o
    case _ => false
  }

  lemma DecisionConcludes(l: Local, m: Move, outcome: Outcome)
    requires LocalInv(l) && Sound(l, m) && Concludes(m, outcome)
    ensures Concluded(Apply(l, m), outcome) && !PastDecision(l)
  {
  }

  lemma DecisionIsMove(c: Limits, s: Sys, e: Event, id: Id, outcome: Outcome)
    requires Guard(c, s, e)
    ensures DecisionOf(e, id) == Some(outcome) <==> Concludes(MoveOf(c, s, e, id), outcome)
  {
  }

  lemma {:induction false} DecidedStays(c: Limits, events: seq<Event>, d: nat, id: Id, outcome: Outcome)
    requires DecidesAt(c, events, d, id, outcome)
    ensures Concluded(View(Play(c, events), id), outcome)
  {
    var n := |events| - 1;
    LastMove(c, events, id);
    var s := Play(c, events[..n]);
    if d == n {
      DecisionIsMove(c, s, events[n], id, outcome);
      DecisionConcludes(View(s, id), MoveOf(c, s, events[n], id), outcome);
    } else {
      Earlier(c, events, d);
      DecidedStays(c, events[..n], d, id, outcome);
      if Did(c, events, n) {
        ConcludedStays(View(s, id), MoveOf(c, s, events[n], id), outcome);
      }
    }
  }

  /** A job is decided once. */
  lemma DecidedOnce(c: Limits, events: seq<Event>, d: nat, e: nat, id: Id, outcome: Outcome, other: Outcome)
    requires DecidesAt(c, events, d, id, outcome) && DecidesAt(c, events, e, id, other)
    ensures d == e && outcome == other
  {
    if d < e {
      DecidedBefore(c, events, d, e, id, outcome, other);
    } else if e < d {
      DecidedBefore(c, events, e, d, id, other, outcome);
    }
  }

  lemma DecidedBefore(c: Limits, events: seq<Event>, d: nat, e: nat, id: Id, outcome: Outcome, other: Outcome)
    requires DecidesAt(c, events, d, id, outcome) && DecidesAt(c, events, e, id, other)
    ensures d >= e
  {
    if d < e {
      var s := Play(c, events[..e]);
      assert events[..e][..d] == events[..d];
      DecidedStays(c, events[..e], d, id, outcome);
      PlayInv(c, events[..e]);
      StepSimulates(c, s, events[e], id);
      DecisionIsMove(c, s, events[e], id, other);
      DecisionConcludes(View(s, id), MoveOf(c, s, events[e], id), other);
      assert false;
    }
  }

  // ---- How an operation ends ----

  /** Event `d` decided the job of `id` and event `k` settled it. */
  predicate EndsAt(c: Limits, events: seq<Event>, d: nat, k: nat, id: Id, outcome: Outcome)
  {
    d < k && DecidesAt(c, events, d, id, outcome) && SettlesAt(c, events, k, id)
  }

  /** A fault is reported as it is; a value succeeds when there was room for it and is dropped otherwise. */
  predicate Reports(terminal: Terminal, outcome: Outcome, room: bool)
  {
    match outcome
    case Fault(failure) => terminal == Failed(failure)
    case Value(_) => if room then terminal == Succeeded else terminal == Failed(Dropped)
  }

  ghost predicate Ended(c: Limits, events: seq<Event>, id: Id, terminal: Terminal)
  {
    exists d: nat, k: nat, outcome ::
      EndsAt(c, events, d, k, id, outcome) && Reports(terminal, outcome, RoomAt(c, events, k))
  }

  ghost predicate WasDecided(c: Limits, events: seq<Event>, id: Id, outcome: Outcome)
  {
    exists d: nat :: DecidesAt(c, events, d, id, outcome)
  }

  lemma WasDecidedLater(c: Limits, events: seq<Event>, id: Id, outcome: Outcome)
    requires events != [] && WasDecided(c, events[..|events| - 1], id, outcome)
    ensures WasDecided(c, events, id, outcome)
  {
    var d: nat :| DecidesAt(c, events[..|events| - 1], d, id, outcome);
    Earlier(c, events, d);
    assert DecidesAt(c, events, d, id, outcome);
  }

  lemma EndedLater(c: Limits, events: seq<Event>, id: Id, terminal: Terminal)
    requires events != [] && Ended(c, events[..|events| - 1], id, terminal)
    ensures Ended(c, events, id, terminal)
  {
    var before := events[..|events| - 1];
    var d: nat, k: nat, outcome :| EndsAt(c, before, d, k, id, outcome)
        && Reports(terminal, outcome, RoomAt(c, before, k));
    Earlier(c, events, d);
    Earlier(c, events, k);
    assert EndsAt(c, events, d, k, id, outcome);
  }

  predicate DecidedWith(l: Local, outcome: Outcome)
  {
    l.task.Some? && l.task.value.Decided? && l.task.value.outcome == outcome
  }

  lemma DecidedByMove(l: Local, m: Move, outcome: Outcome)
    requires Enabled(l, m) && DecidedWith(Apply(l, m), outcome)
    ensures DecidedWith(l, outcome) || Concludes(m, outcome)
  {
  }

  lemma TerminalByMove(l: Local, m: Move)
    requires Enabled(l, m) && Apply(l, m).r.terminal != l.r.terminal
    ensures m.Store? && l.task.Some? && l.task.value.Decided? && Apply(l, m).r.terminal.Some?
    ensures Reports(Apply(l, m).r.terminal.value, l.task.value.outcome, m.room)
  {
  }

  lemma {:induction false} DecidedHistory(c: Limits, events: seq<Event>, id: Id, outcome: Outcome)
    requires DecidedWith(View(Play(c, events), id), outcome)
    ensures WasDecided(c, events, id, outcome)
  {
    assert events != [];
    var n := |events| - 1;
    var s := Play(c, events[..n]);
    LastMove(c, events, id);
    if DecidedWith(View(s, id), outcome) {
      DecidedHistory(c, events[..n], id, outcome);
      WasDecidedLater(c, events, id, outcome);
    } else {
      DecidedByMove(View(s, id), MoveOf(c, s, events[n], id), outcome);
      DecisionIsMove(c, s, events[n], id, outcome);
      assert DecidesAt(c, events, n, id, outcome);
    }
  }

  /** Every terminal is that of the decision and the room found when it was settled. */
  lemma {:induction false} TerminalHistory(c: Limits, events: seq<Event>, id: Id)
    ensures var r := Of(Play(c, events).log.book, id);
      r.terminal.Some? ==> Ended(c, events, id, r.terminal.value)
  {
    if events != [] {
      var n := |events| - 1;
      var s := Play(c, events[..n]);
      var l, t := View(s, id), View(Play(c, events), id);
      TerminalHistory(c, events[..n], id);
      LastMove(c, events, id);
      if t.r.terminal == l.r.terminal {
        if t.r.terminal.Some? {
          EndedLater(c, events, id, t.r.terminal.value);
        }
      } else {
        var m := MoveOf(c, s, events[n], id);
        TerminalByMove(l, m);
        var outcome := l.task.value.outcome;
        DecidedHistory(c, events[..n], id, outcome);
        var d: nat :| DecidesAt(c, events[..n], d, id, outcome);
        Earlier(c, events, d);
        assert EndsAt(c, events, d, n, id, outcome);
      }
    }
  }

  /** Once settled, an operation has its terminal for good. */
  lemma {:induction false} SettledStays(c: Limits, events: seq<Event>, k: nat, id: Id)
    requires SettlesAt(c, events, k, id)
    ensures Of(Play(c, events).log.book, id).terminal.Some?
  {
    var n := |events| - 1;
    var s := Play(c, events[..n]);
    LastMove(c, events, id);
    if k < n {
      Earlier(c, events, k);
      SettledStays(c, events[..n], k, id);
      if Did(c, events, n) {
        MoveKeepsRecord(View(s, id), MoveOf(c, s, events[n], id));
      }
    }
  }

  lemma SettleFindsNone(c: Limits, s: Sys, id: Id)
    requires Inv(c, s) && Guard(c, s, Settle(id))
    ensures Of(s.log.book, id).terminal.None?
  {
    assert LocalInv(View(s, id));
  }

  lemma SettledOnce(c: Limits, events: seq<Event>, j: nat, k: nat, id: Id)
    requires SettlesAt(c, events, j, id) && SettlesAt(c, events, k, id)
    ensures j >= k
  {
    if j < k {
      assert events[..k][..j] == events[..j];
      PlayInv(c, events[..k]);
      SettleFindsNone(c, Play(c, events[..k]), id);
      SettledStays(c, events[..k], j, id);
      assert false;
    }
  }

  lemma EndOnce(c: Limits, events: seq<Event>, id: Id, d: nat, k: nat, o: Outcome, d': nat, k': nat, o': Outcome)
    requires EndsAt(c, events, d, k, id, o) && EndsAt(c, events, d', k', id, o')
    ensures k == k' && o == o'
  {
    DecidedOnce(c, events, d, d', id, o, o');
    SettledOnce(c, events, k, k', id);
    SettledOnce(c, events, k', k, id);
  }

  lemma ReportsOne(terminal: Terminal, other: Terminal, outcome: Outcome, room: bool)
    requires Reports(terminal, outcome, room) && Reports(other, outcome, room)
    ensures terminal == other
  {
  }

  /** The settling and the decision of an operation are unique, so its report is. */
  lemma EndedOnce(c: Limits, events: seq<Event>, id: Id, terminal: Terminal, other: Terminal)
    requires Ended(c, events, id, terminal) && Ended(c, events, id, other)
    ensures terminal == other
  {
    var d: nat, k: nat, o :|
      EndsAt(c, events, d, k, id, o) && Reports(terminal, o, RoomAt(c, events, k));
    var d': nat, k': nat, o' :|
      EndsAt(c, events, d', k', id, o') && Reports(other, o', RoomAt(c, events, k'));
    EndOnce(c, events, id, d, k, o, d', k', o');
    ReportsOne(terminal, other, o, RoomAt(c, events, k));
  }

  /** An operation has a terminal exactly when its decision was settled, and it is the one they report. */
  lemma TerminalIffEnded(c: Limits, events: seq<Event>, id: Id, terminal: Terminal)
    ensures Of(Play(c, events).log.book, id).terminal == Some(terminal) <==> Ended(c, events, id, terminal)
  {
    TerminalHistory(c, events, id);
    if Ended(c, events, id, terminal) {
      var d: nat, k: nat, outcome :| EndsAt(c, events, d, k, id, outcome);
      SettledStays(c, events, k, id);
      EndedOnce(c, events, id, terminal, Of(Play(c, events).log.book, id).terminal.value);
    }
  }

  // ---- Results ----

  ghost predicate SubmittedFor(c: Limits, events: seq<Event>, id: Id, capability: CapabilityId)
  {
    exists k: nat, deadline :: SubmitsAt(c, events, k, id, capability, deadline)
  }

  predicate SubmitsLast(c: Limits, events: seq<Event>, id: Id, capability: CapabilityId)
    requires events != []
  {
    var n := |events| - 1;
    Did(c, events, n) && events[n].TakeId? && events[n].capability == capability
        && Play(c, events[..n]).intake.nextId == id
  }

  lemma SubmittedSplit(c: Limits, events: seq<Event>, id: Id, capability: CapabilityId)
    requires events != []
    ensures SubmittedFor(c, events, id, capability) <==>
            SubmittedFor(c, events[..|events| - 1], id, capability) || SubmitsLast(c, events, id, capability)
  {
    var n := |events| - 1;
    if k: nat, deadline :| SubmitsAt(c, events[..n], k, id, capability, deadline) {
      Earlier(c, events, k);
      assert SubmitsAt(c, events, k, id, capability, deadline);
    }
    if k: nat, deadline :| SubmitsAt(c, events, k, id, capability, deadline) {
      if k < n {
        Earlier(c, events, k);
        assert SubmitsAt(c, events[..n], k, id, capability, deadline);
      }
    }
    if SubmitsLast(c, events, id, capability) {
      assert SubmitsAt(c, events, n, id, capability, events[n].deadline);
    }
  }

  /** The record of an operation has the capability it was submitted for. */
  lemma {:induction false} SubmittedHistory(c: Limits, events: seq<Event>, id: Id, capability: CapabilityId)
    ensures Of(Play(c, events).log.book, id).submitted == Some(capability) <==> SubmittedFor(c, events, id, capability)
  {
    if events != [] {
      var n := |events| - 1;
      SubmittedHistory(c, events[..n], id, capability);
      SubmittedSplit(c, events, id, capability);
      LastMove(c, events, id);
      if Did(c, events, n) {
        SubmittedByMove(View(Play(c, events[..n]), id), MoveOf(c, Play(c, events[..n]), events[n], id));
      }
    }
  }

  lemma SubmittedByMove(l: Local, m: Move)
    requires LocalInv(l) && Sound(l, m)
    ensures Apply(l, m).r.submitted == if m.Begin? then Some(m.capability) else l.r.submitted
    ensures m.Begin? ==> l.r.submitted.None?
  {
  }

  /** The value was stored by event `k`, which settled the decision of event `d`. */
  predicate StoresAt(c: Limits, events: seq<Event>, d: nat, k: nat, id: Id, erased: Erased)
  {
    EndsAt(c, events, d, k, id, Value(erased)) && RoomAt(c, events, k)
  }

  predicate KeptSince(c: Limits, events: seq<Event>, k: nat, id: Id)
  {
    forall j | k < j < |events| :: !RemovesAt(c, events, j, id)
  }

  /**
   A job submitted for that capability did its work with this value, found room for it when it was settled, and nothing
   has taken, discarded or removed it since.
   */
  ghost predicate Available(c: Limits, events: seq<Event>, id: Id, capability: CapabilityId, erased: Erased)
  {
    && SubmittedFor(c, events, id, capability)
    && exists d: nat, k: nat :: StoresAt(c, events, d, k, id, erased) && KeptSince(c, events, k, id)
  }

  predicate Drops(m: Move)
  {
    m.Collect? || m.Forget? || m.Remove? || m.Reject?
  }

  lemma RemovalIsMove(c: Limits, s: Sys, e: Event, id: Id)
    requires Guard(c, s, e)
    ensures Removes(s, e, id) <==> Drops(MoveOf(c, s, e, id))
  {
  }

  /** How a stored result comes and goes. */
  lemma StoredByMove(l: Local, m: Move)
    requires LocalInv(l) && Sound(l, m)
    ensures l.stored.Some? ==> Apply(l, m).stored == if Drops(m) then None else l.stored
    ensures l.stored.None? && Apply(l, m).stored.Some? ==> m.Store?
    ensures m.Store? ==>
              && l.task.Some? && l.task.value.Decided? && l.stored.None?
              && Apply(l, m).stored ==
                 if l.task.value.outcome.Value? && m.room
                 then Some(Stored(l.task.value.job.capability, l.task.value.outcome.erased)) else None
  {
  }

  lemma KeptEarlier(c: Limits, events: seq<Event>, k: nat, id: Id)
    requires k < |events| - 1
    ensures KeptSince(c, events, k, id) <==>
            KeptSince(c, events[..|events| - 1], k, id) && !RemovesAt(c, events, |events| - 1, id)
  {
    var before := events[..|events| - 1];
    forall j: nat | k < j < |before|
      ensures RemovesAt(c, before, j, id) <==> RemovesAt(c, events, j, id)
    {
      Earlier(c, events, j);
    }
  }

  lemma StoresEarlier(c: Limits, events: seq<Event>, d: nat, k: nat, id: Id, erased: Erased)
    requires k < |events| - 1
    ensures StoresAt(c, events[..|events| - 1], d, k, id, erased) <==> StoresAt(c, events, d, k, id, erased)
  {
    Earlier(c, events, k);
    if d < k {
      Earlier(c, events, d);
    }
  }

  /** The last event stores the result of `id`, or drops it, or leaves it alone. */
  lemma LastStore(c: Limits, events: seq<Event>, id: Id)
    requires events != []
    ensures var n := |events| - 1; var s := Play(c, events[..n]);
      var l, t := View(s, id), View(Play(c, events), id);
      && (l.stored.Some? ==> t.stored == if RemovesAt(c, events, n, id) then None else l.stored)
      && (l.stored.None? && t.stored.Some? ==>
            SettlesAt(c, events, n, id) && RoomAt(c, events, n) && DecidedWith(l, Value(t.stored.value.erased)))
      && (SettlesAt(c, events, n, id) && RoomAt(c, events, n) ==>
            && l.task.Some? && l.task.value.Decided?
            && (l.task.value.outcome.Value? ==>
                  t.stored.Some? && t.stored.value.erased == l.task.value.outcome.erased))
  {
    var n := |events| - 1;
    var s := Play(c, events[..n]);
    LastMove(c, events, id);
    if Did(c, events, n) {
      RemovalIsMove(c, s, events[n], id);
      StoredByMove(View(s, id), MoveOf(c, s, events[n], id));
    }
  }

  /** A stored result was stored by its operation's decision and kept. */
  lemma {:induction false} StoredHistory(c: Limits, events: seq<Event>, id: Id)
    requires id in Play(c, events).shared.results
    ensures exists d: nat, k: nat ::
              && StoresAt(c, events, d, k, id, Play(c, events).shared.results[id].erased)
              && KeptSince(c, events, k, id)
  {
    var n := |events| - 1;
    var before := events[..n];
    var erased := Play(c, events).shared.results[id].erased;
    LastStore(c, events, id);
    if id in Play(c, before).shared.results {
      StoredHistory(c, before, id);
      var d: nat, k: nat :| StoresAt(c, before, d, k, id, erased) && KeptSince(c, before, k, id);
      StoresEarlier(c, events, d, k, id, erased);
      KeptEarlier(c, events, k, id);
    } else {
      DecidedHistory(c, before, id, Value(erased));
      var d: nat :| DecidesAt(c, before, d, id, Value(erased));
      Earlier(c, events, d);
      assert StoresAt(c, events, d, n, id, erased) && KeptSince(c, events, n, id);
    }
  }

  /** What is settled is what was decided. */
  lemma SettlesDecided(c: Limits, events: seq<Event>, d: nat, id: Id, outcome: Outcome)
    requires events != [] && DecidesAt(c, events, d, id, outcome) && d < |events| - 1
    requires var l := View(Play(c, events[..|events| - 1]), id); l.task.Some? && l.task.value.Decided?
    ensures DecidedWith(View(Play(c, events[..|events| - 1]), id), outcome)
  {
    var before := events[..|events| - 1];
    var other := View(Play(c, before), id).task.value.outcome;
    DecidedHistory(c, before, id, other);
    var e: nat :| DecidesAt(c, before, e, id, other);
    Earlier(c, events, e);
    DecidedOnce(c, events, d, e, id, outcome, other);
  }

  /** What was stored and kept is there. */
  lemma {:induction false} KeptIsStored(c: Limits, events: seq<Event>, d: nat, k: nat, id: Id, erased: Erased)
    requires StoresAt(c, events, d, k, id, erased) && KeptSince(c, events, k, id)
    ensures id in Play(c, events).shared.results && Play(c, events).shared.results[id].erased == erased
  {
    var n := |events| - 1;
    LastStore(c, events, id);
    if k < n {
      StoresEarlier(c, events, d, k, id, erased);
      KeptEarlier(c, events, k, id);
      KeptIsStored(c, events[..n], d, k, id, erased);
    } else {
      SettlesDecided(c, events, d, id, Value(erased));
    }
  }

  /** A result is there exactly when it is available by the events so far. */
  lemma StoredIffAvailable(c: Limits, events: seq<Event>, id: Id, capability: CapabilityId, erased: Erased)
    ensures Available(c, events, id, capability, erased) <==>
            id in Play(c, events).shared.results && Play(c, events).shared.results[id] == Stored(capability, erased)
  {
    var results := Play(c, events).shared.results;
    PlayInv(c, events);
    assert LocalInv(View(Play(c, events), id));
    SubmittedHistory(c, events, id, capability);
    if id in results {
      StoredHistory(c, events, id);
    }
    if Available(c, events, id, capability, erased) {
      var d: nat, k: nat :| StoresAt(c, events, d, k, id, erased) && KeptSince(c, events, k, id);
      KeptIsStored(c, events, d, k, id, erased);
    }
  }

  /**
   What a `take` answers at any moment of any run: the value its operation's work gave, for the capability it was
   submitted for and the type it has, once and if nothing removed it; and otherwise which of the three errors.
   */
  lemma TakeAnswers(c: Limits, events: seq<Event>, capability: CapabilityId, typeTag: string, id: Id)
    ensures var r := TakeOutcome(Play(c, events).shared.results, capability, typeTag, id);
      && (forall v :: r == Ok(v) <==> Available(c, events, id, capability, Erased(typeTag, v)))
      && (r == Err(NotAvailable) <==> forall held, erased :: !Available(c, events, id, held, erased))
      && (r == Err(CapabilityMismatch) <==>
            exists held, erased :: Available(c, events, id, held, erased) && held != capability)
      && (r == Err(TypeMismatch) <==>
            exists erased :: Available(c, events, id, capability, erased) && erased.typeTag != typeTag)
  {
    var entry := Get(Play(c, events).shared.results, id);
    forall held, erased
      ensures Available(c, events, id, held, erased) <==> entry == Some(Stored(held, erased))
    {
      StoredIffAvailable(c, events, id, held, erased);
    }
    TakeOfEntry(Play(c, events).shared.results, capability, typeTag, id);
    if entry.Some? {
      assert Available(c, events, id, entry.value.capability, entry.value.erased);
    }
  }

  lemma TakeOfEntry(results: Results, capability: CapabilityId, typeTag: string, id: Id)
    ensures var r, entry := TakeOutcome(results, capability, typeTag, id), Get(results, id);
      && (forall v :: r == Ok(v) <==> entry == Some(Stored(capability, Erased(typeTag, v))))
      && (r == Err(NotAvailable) <==> entry.None?)
      && (r == Err(CapabilityMismatch) <==> entry.Some? && entry.value.capability != capability)
      && (r == Err(TypeMismatch) <==>
            entry.Some? && entry.value.capability == capability && entry.value.erased.typeTag != typeTag)
  {
  }
}
