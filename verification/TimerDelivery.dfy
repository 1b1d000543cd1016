/**
 The timer service together with the tasks it spawns (crates/floatile-services/src/timer.rs:55-107): a sleeping task
 shares its flag with the slot, so a cancellation reaches it through the flag alone. Each operation is one
 event of `TimerRuns`, until the id counter wraps.
 */
module TimerDelivery {
  import opened Prelude
  import Limiter
  import opened Timer
  import opened TimerRuns

  class Delivery {
    const service: TimerService
    var asleep: map<U32, Flag>
    var queue: seq<U32>
    ghost var raised: set<nat>
    ghost var dropped: set<nat>

    ghost function View(): Timers
      reads this, service
    {
      Timers(service.nextId, service.active.Keys, asleep.Keys, raised, queue, dropped)
    }

    /** A task's flag is up exactly when its timer was cancelled, and is the flag of its own slot only. */
    ghost predicate FlagsValid()
      reads this, service, asleep.Values
    {
      && (forall id | id in asleep ::
            asleep[id] in asleep.Values && asleep[id].id == id && (asleep[id].up <==> id in raised))
      && (forall id | id in asleep && id in service.active :: asleep[id] == service.active[id])
    }

    /** No timer to come has a task or was cancelled. */
    ghost predicate IdsValid()
      reads this, service
    {
      forall id: U32 | id in asleep || id in raised :: id < service.nextId
    }

    ghost predicate Valid()
      reads this, service, asleep.Values, service.active.Values
    {
      service.Valid() && !service.wrapped && IdsValid() && FlagsValid()
    }

    constructor (now: nat, maxPerMinute: U32, maxActive: U32)
      ensures Valid() && fresh(service) && service.maxActive == maxActive
      ensures View() == Play([], maxActive)
    {
      service := new TimerService(now, maxPerMinute, maxActive);
      asleep, queue, raised, dropped := map[], [], {}, {};
    }

    /** The task of a slot just taken. */
    method Spawn(id: U32)
      requires Valid() && id in service.active && id !in asleep && id !in raised
      modifies this`asleep
      ensures Valid() && asleep.Keys == old(asleep).Keys + {id}
    {
      var flag := service.active[id];
      ghost var before := asleep;
      asleep := asleep[id := flag];
      forall other | other in asleep
        ensures asleep[other] in asleep.Values
        ensures other != id ==> other in before && asleep[other] == before[other] && before[other] in before.Values
      {
      }
    }

    predicate RateOk(now: nat)
      reads this, service
    {
      Limiter.Admits(service.RateView(), Limiter.Attempt(now, now, true), MINUTE, service.maxPerMinute)
    }

    /** The slot of a new timer, still without its task. */
    method Obtain(delayMs: nat, now: nat) returns (r: Result<U32, TimerError>)
      requires Valid() && service.nextId < 0xFFFF_FFFF
      modifies service
      ensures Valid()
      ensures delayMs == 0 ==> r == Err(InvalidDelay)
      ensures r.Ok? <==> delayMs > 0 && old(RateOk(now)) && |old(service.active)| < service.maxActive
      ensures r.Ok? ==>
        && r.value == old(service.nextId) && service.nextId == r.value + 1
        && service.active.Keys == old(service.active).Keys + {r.value}
      ensures r.Err? ==> service.active == old(service.active) && service.nextId == old(service.nextId)
    {
      r := service.Schedule(delayMs, now);
    }

    /** `schedule`: the new slot's flag goes to the spawned task. */
    method Schedule(delayMs: nat, now: nat) returns (r: Result<U32, TimerError>)
      requires Valid() && service.nextId < 0xFFFF_FFFF
      modifies this, service
      ensures Valid()
      ensures delayMs == 0 ==> r == Err(InvalidDelay) && View() == old(View())
      ensures delayMs > 0 ==>
        View() == Step(old(View()), TimerRuns.Schedule(old(RateOk(now))), service.maxActive)
      ensures r.Ok? <==> delayMs > 0 && old(RateOk(now)) && |old(View()).active| < service.maxActive
      ensures r.Ok? ==> r.value == old(service.nextId)
    {
      ghost var t, rateOk := View(), RateOk(now);
      assert |service.active| == |t.active|;
      r := Obtain(delayMs, now);
      if r.Ok? {
        Spawn(r.value);
      }
      if delayMs > 0 {
        ScheduleIs(t, View(), rateOk, service.maxActive);
      }
    }

    /** A task wakes: it delivers only while its flag is down, and a full queue refuses the event for good. */
    method Wake(id: U32, room: bool)
      requires Valid()
      modifies this
      ensures Valid()
      ensures View() == Step(old(View()), TimerRuns.Wake(id, room), service.maxActive)
    {
      if id in asleep {
        var flag := asleep[id];
        asleep := asleep - {id};
        if !flag.up {
          if room {
            queue := queue + [id];
          } else {
            dropped := dropped + {id};
          }
        }
      }
    }

    /** The actor handled the first event in its queue. */
    method Handled()
      requires Valid()
      modifies this, service
      ensures Valid()
      ensures View() == Step(old(View()), TimerRuns.Handled, service.maxActive)
    {
      if queue != [] {
        var id := queue[0];
        queue := queue[1..];
        service.Complete(id);
      }
    }

    /** Raising the flag of a slot stops its task, if it still sleeps, and no other. */
    method Stop(id: U32)
      requires Valid() && id in service.active
      modifies this`raised, service, service.active[id]
      ensures Valid()
      ensures service.active.Keys == old(service.active.Keys) - {id} && service.nextId == old(service.nextId)
      ensures raised == old(raised) + {id}
    {
      ghost var flag := service.active[id];
      assert flag.id == id;
      var _ := service.Cancel(id);
      raised := raised + {id};
      assert forall other | other in asleep && other != id :: asleep[other] != flag;
    }

    method Cancel(id: U32) returns (r: Result<(), TimerError>)
      requires Valid()
      modifies this, service, if id in service.active then {service.active[id]} else {}
      ensures Valid()
      ensures View() == Step(old(View()), TimerRuns.Cancel(id), service.maxActive)
      ensures r == if id in old(View()).active then Ok(()) else Err(InvalidTimerId)
    {
      ghost var t := View();
      if id in service.active {
        Stop(id);
        r := Ok(());
      } else {
        r := Err(InvalidTimerId);
      }
      CancelIs(t, View(), id, service.maxActive);
    }
  }

  lemma ScheduleIs(t: Timers, next: Timers, rateOk: bool, maxActive: nat)
    requires next.raised == t.raised && next.queue == t.queue && next.dropped == t.dropped
    requires
      if rateOk && |t.active| < maxActive
      then next.nextId == t.nextId + 1 && next.active == t.active + {t.nextId} && next.asleep == t.asleep + {t.nextId}
      else next.nextId == t.nextId && next.active == t.active && next.asleep == t.asleep
    ensures next == Step(t, TimerRuns.Schedule(rateOk), maxActive)
  {
  }

  lemma CancelIs(t: Timers, next: Timers, id: nat, maxActive: nat)
    requires next.active == t.active - {id}
    requires next.raised == if id in t.active then t.raised + {id} else t.raised
    requires next.nextId == t.nextId && next.asleep == t.asleep && next.queue == t.queue && next.dropped == t.dropped
    ensures next == Step(t, TimerRuns.Cancel(id), maxActive)
  {
  }
}
