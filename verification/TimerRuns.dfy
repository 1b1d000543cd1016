/**
 Delivery of one-shot timers (crates/floatile-services/src/timer.rs:83-107,
 crates/floatile-runtime/src/lib.rs:337-352): a sleeping task wakes, looks at its flag, and offers the event to
 the actor's bounded queue; a slot is freed when the event was handled or the timer cancelled.

 Ids stand below the wrap-around of their counter, where they are not reused.
 */
module TimerRuns {
  import opened Prelude
  import opened Capability
  import Actor

  /** `asleep`: tasks that have not woken. `dropped`: events the full queue refused. `raised`: cancelled flags. */
  datatype Timers = Timers(
    nextId: nat, active: set<nat>, asleep: set<nat>, raised: set<nat>, queue: seq<nat>, dropped: set<nat>)

  datatype Event =
    | Schedule(rateOk: bool)
    | Wake(id: nat, room: bool)
    | Handled
    | Cancel(id: nat)

  function Scheduled(t: Timers, rateOk: bool, maxActive: nat): Timers
  {
    if rateOk && |t.active| < maxActive
    then t.(nextId := t.nextId + 1, active := t.active + {t.nextId}, asleep := t.asleep + {t.nextId})
    else t
  }

  function Step(t: Timers, e: Event, maxActive: nat): Timers
  {
    match e
    case Schedule(rateOk) => Scheduled(t, rateOk, maxActive)
    case Wake(id, room) =>
      if id !in t.asleep then t
      else if id in t.raised then t.(asleep := t.asleep - {id})
      else if room then t.(asleep := t.asleep - {id}, queue := t.queue + [id])
      else t.(asleep := t.asleep - {id}, dropped := t.dropped + {id})
    case Handled =>
      if t.queue == [] then t else t.(queue := t.queue[1..], active := t.active - {t.queue[0]})
    case Cancel(id) =>
      if id in t.active then t.(active := t.active - {id}, raised := t.raised + {id}) else t
  }

  function Play(events: seq<Event>, maxActive: nat): Timers
  {
    if events == [] then Timers(1, {}, {}, {}, [], {})
    else Step(Play(events[..|events| - 1], maxActive), events[|events| - 1], maxActive)
  }

  predicate Distinct(queue: seq<nat>)
  {
    forall i, j | 0 <= i < j < |queue| :: queue[i] != queue[j]
  }

  /** A slot is taken exactly by a timer that is not cancelled and sleeps, waits in the queue, or was dropped. */
  ghost predicate SlotInv(t: Timers)
  {
    forall id: nat :: id in t.active <==> id !in t.raised && (id in t.asleep || id in t.queue || id in t.dropped)
  }

  ghost predicate Inv(t: Timers, maxActive: nat)
  {
    && SlotInv(t)
    && |t.active| <= maxActive
    && Distinct(t.queue)
    && (forall id | id in t.queue :: id !in t.asleep && id !in t.dropped)
    && t.asleep !! t.dropped
    && (forall id | id in t.asleep || id in t.queue || id in t.dropped || id in t.raised :: id < t.nextId)
  }

  lemma HandledKeepsInv(t: Timers, maxActive: nat)
    requires Inv(t, maxActive) && t.queue != []
    ensures Inv(Step(t, Handled, maxActive), maxActive)
  {
    var next, head := Step(t, Handled, maxActive), t.queue[0];
    forall id: nat
      ensures id in t.queue <==> id == head || id in next.queue
      ensures id in next.queue ==> id != head
    {
      if id in next.queue {
        var i :| 0 <= i < |next.queue| && next.queue[i] == id;
        assert t.queue[i + 1] == id;
      }
    }
  }

  lemma WakeKeepsInv(t: Timers, id: nat, room: bool, maxActive: nat)
    requires Inv(t, maxActive) && id in t.asleep
    ensures Inv(Step(t, Wake(id, room), maxActive), maxActive)
  {
    var next := Step(t, Wake(id, room), maxActive);
    assert forall other :: other in next.queue <==> other in t.queue || (other == id && next.queue != t.queue);
  }

  lemma StepKeepsInv(t: Timers, e: Event, maxActive: nat)
    requires Inv(t, maxActive)
    ensures Inv(Step(t, e, maxActive), maxActive)
  {
    match e
    case Schedule(_) =>
    case Wake(id, room) =>
      if id in t.asleep {
        WakeKeepsInv(t, id, room, maxActive);
      }
    case Handled =>
      if t.queue != [] {
        HandledKeepsInv(t, maxActive);
      }
    case Cancel(_) =>
  }

  lemma {:induction false} PlayInv(events: seq<Event>, maxActive: nat)
    ensures Inv(Play(events, maxActive), maxActive)
  {
    if events != [] {
      PlayInv(events[..|events| - 1], maxActive);
      StepKeepsInv(Play(events[..|events| - 1], maxActive), events[|events| - 1], maxActive);
    }
  }

  function Continue(t: Timers, more: seq<Event>, maxActive: nat): Timers
  {
    if more == [] then t else Step(Continue(t, more[..|more| - 1], maxActive), more[|more| - 1], maxActive)
  }

  predicate Spares(more: seq<Event>, ids: set<nat>)
  {
    forall e | e in more && e.Cancel? :: e.id !in ids
  }

  lemma StepKeepsDropped(t: Timers, e: Event, id: nat, maxActive: nat)
    requires Inv(t, maxActive) && id in t.dropped && id in t.active && e != Cancel(id)
    ensures id in Step(t, e, maxActive).dropped && id in Step(t, e, maxActive).active
  {
    if e.Handled? && t.queue != [] {
      assert t.queue[0] in t.queue;
    }
  }

  /** A timer whose event was dropped keeps its slot, however long the instance runs, until it is cancelled. */
  lemma {:induction false} DroppedKeepsSlot(t: Timers, more: seq<Event>, id: nat, maxActive: nat)
    requires Inv(t, maxActive) && id in t.dropped && id in t.active && Cancel(id) !in more
    ensures var end := Continue(t, more, maxActive); Inv(end, maxActive) && id in end.dropped && id in end.active
  {
    if more != [] {
      var before, e := more[..|more| - 1], more[|more| - 1];
      DroppedKeepsSlot(t, before, id, maxActive);
      assert e in more;
      StepKeepsInv(Continue(t, before, maxActive), e, maxActive);
      StepKeepsDropped(Continue(t, before, maxActive), e, id, maxActive);
    }
  }

  /**
   Once as many events were dropped as there are slots, scheduling is over: until one of those timers is
   cancelled no schedule succeeds, whatever fires or is handled.
   */
  lemma {:induction false} DroppedExhaustSlots(events: seq<Event>, more: seq<Event>, maxActive: nat)
    requires var t := Play(events, maxActive); |t.dropped - t.raised| >= maxActive && Spares(more, t.dropped)
    ensures var t := Play(events, maxActive); var end := Continue(t, more, maxActive);
      end.nextId == t.nextId && forall rateOk :: Scheduled(end, rateOk, maxActive) == end
  {
    var t := Play(events, maxActive);
    PlayInv(events, maxActive);
    var stuck := t.dropped - t.raised;
    if more != [] {
      var before, e := more[..|more| - 1], more[|more| - 1];
      DroppedExhaustSlots(events, before, maxActive);
      assert e in more;
    }
    var end := Continue(t, more, maxActive);
    forall id | id in stuck
      ensures id in end.active
    {
      DroppedKeepsSlot(t, more, id, maxActive);
    }
    SubsetSize(stuck, end.active);
  }

  /** `n` timers, each woken while the queue is full. */
  function DropEach(n: nat): seq<Event>
  {
    if n == 0 then [] else DropEach(n - 1) + [Schedule(true)] + [Wake(n, false)]
  }

  lemma DropOne(t: Timers, maxActive: nat)
    requires Inv(t, maxActive) && |t.active| < maxActive && t.active == t.dropped
    requires t.raised == {} && t.asleep == {} && t.queue == []
    ensures var next := Step(Step(t, Schedule(true), maxActive), Wake(t.nextId, false), maxActive);
      && next.nextId == t.nextId + 1 && next.active == next.dropped && |next.dropped| == |t.dropped| + 1
      && next.raised == {} && next.asleep == {} && next.queue == []
  {
    assert t.nextId !in t.dropped;
  }

  /** Such a state is reached by waking every timer into a full queue. */
  lemma {:induction false} ExhaustionIsReachable(n: nat, maxActive: nat)
    requires n <= maxActive
    ensures var t := Play(DropEach(n), maxActive);
      t.nextId == n + 1 && t.active == t.dropped && |t.dropped| == n && t.raised == {} && t.asleep == {}
          && t.queue == []
  {
    if n > 0 {
      ExhaustionIsReachable(n - 1, maxActive);
      PlayInv(DropEach(n - 1), maxActive);
      DropOne(Play(DropEach(n - 1), maxActive), maxActive);
      var one := DropEach(n - 1) + [Schedule(true)];
      assert one[..|one| - 1] == DropEach(n - 1) && DropEach(n)[..|DropEach(n)| - 1] == one;
    }
  }

  lemma {:induction false} SubsetSize(a: set<nat>, b: set<nat>)
    requires a <= b
    ensures |a| <= |b|
  {
    if a != {} {
      var x :| x in a;
      SubsetSize(a - {x}, b - {x});
    }
  }

  // ---- The actor frees exactly the slots of the events it handled ----

  /** `timer_complete` for each timer in turn. */
  function AllCompleted(active: set<nat>, done: seq<nat>): set<nat>
  {
    if done == [] then active else AllCompleted(active, done[..|done| - 1]) - {done[|done| - 1]}
  }

  lemma {:induction false} AllCompletedRemoves(active: set<nat>, done: seq<nat>, id: nat)
    ensures id in AllCompleted(active, done) <==> id in active && id !in done
  {
    if done != [] {
      var n := |done| - 1;
      AllCompletedRemoves(active, done[..n], id);
      assert id in done <==> id in done[..n] || id == done[n];
    }
  }

  /** After an actor run a slot is still taken exactly if it was and no timer event of it succeeded. */
  lemma ActorFreesHandledSlots(
    active: set<nat>, cmds: seq<Actor.Command>, attempts: seq<Actor.Attempt>, n: nat, id: nat)
    requires n <= |cmds| == |attempts|
    ensures id in AllCompleted(active, Actor.TimersDone(cmds, attempts, n)) <==>
            id in active && !exists i :: 0 <= i < n && cmds[i] == Actor.TimerFired(id) && attempts[i] == Actor.Fine
  {
    AllCompletedRemoves(active, Actor.TimersDone(cmds, attempts, n), id);
    Actor.TimersDoneAreFine(cmds, attempts, n, id);
  }
}
