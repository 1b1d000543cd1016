/** One-shot timers and their slots (crates/floatile-services/src/timer.rs:24-108). */
module Timer {
  import opened Prelude
  import opened Limiter

  const MINUTE: nat := 60_000_000_000

  datatype TimerError = BudgetExceeded | InvalidDelay | InvalidTimerId

  /** `next_id.wrapping_add(1).max(1)`: zero is skipped when the counter wraps. */
  function NextId(id: U32): (r: U32)
    ensures r == if (id + 1) % 0x1_0000_0000 == 0 then 1 else (id + 1) % 0x1_0000_0000
  {
    if id == 0xFFFF_FFFF then 1 else id + 1
  }

  /** The flag a sleeping timer task shares with its slot; it delivers only while the flag is down. */
  class Flag {
    var up: bool
    ghost const id: U32

    constructor (id: U32)
      ensures !up && this.id == id
    {
      up := false;
      this.id := id;
    }
  }

  /** The service of one instance. The ghost counters record how each taken slot was given back. */
  class TimerService {
    var nextId: U32
    var active: map<U32, Flag>
    var start: nat
    var used: nat
    const maxPerMinute: U32
    const maxActive: U32
    ghost var scheduled: nat
    ghost var cancelled: nat
    ghost var completed: nat
    ghost var wrapped: bool

    constructor (now: nat, maxPerMinute: U32, maxActive: U32)
      ensures Valid() && active == map[] && scheduled == cancelled == completed == 0 && !wrapped
      ensures this.maxPerMinute == maxPerMinute && this.maxActive == maxActive
      ensures RateView() == Window(now, 0)
    {
      nextId, active := 1, map[];
      start, used := now, 0;
      this.maxPerMinute, this.maxActive := maxPerMinute, maxActive;
      scheduled, cancelled, completed, wrapped := 0, 0, 0, false;
    }

    function RateView(): Window
      reads this
    {
      Window(start, used)
    }

    /** Every timer handed out so far is active, cancelled or completed. */
    ghost predicate Conserved()
      reads this
    {
      scheduled == |active| + cancelled + completed
    }

    /** Active timers stay within their bound, each has a flag of its own, and none is cancelled. */
    ghost predicate SlotsValid()
      reads this, active.Values
    {
      && |active| <= maxActive
      && (forall id | id in active :: active[id] in active.Values && !active[id].up && active[id].id == id)
    }

    /** Until the id counter wraps, ids are handed out in order and slots are conserved. */
    ghost predicate Valid()
      reads this, active.Values
    {
      && nextId >= 1
      && SlotsValid()
      && (!wrapped ==> Conserved() && scheduled == nextId - 1 && forall id | id in active :: 1 <= id < nextId)
    }

    /** Stores a timer with a new flag in the active map. */
    method Occupy(id: U32)
      requires SlotsValid() && |active| < maxActive
      modifies this`active
      ensures SlotsValid()
      ensures id in active && fresh(active[id]) && active == old(active)[id := active[id]]
      ensures |active| == |old(active)| + Count(id !in old(active))
    {
      var flag := new Flag(id);
      ghost var before := active;
      active := active[id := flag];
      SizeOfUpdate(before, id, flag);
      assert forall other | other in before && other != id ::
          active[other] == before[other] && active[other] in before.Values;
      forall other | other in active
        ensures active[other] in active.Values && !active[other].up && active[other].id == other
      {
        assert other != id ==> other in before;
      }
    }

    /** Takes a timer out of the active map. */
    method Release(id: U32)
      requires SlotsValid()
      modifies this`active
      ensures SlotsValid()
      ensures active == old(active) - {id}
      ensures |active| == |old(active)| - Count(id in old(active))
      ensures id in old(active) ==> forall other | other in active :: active[other] != old(active)[id]
    {
      ghost var before := active;
      active := active - {id};
      SizeOfRemoval(before, id);
      assert forall other | other in active :: active[other] == before[other] && active[other] in before.Values;
    }

    /** The rate window decides first, then the slot bound, which refuses without spending rate. */
    method Admit(now: nat) returns (admitted: bool)
      modifies this`start, this`used
      ensures var attempt := Attempt(now, now, |active| < maxActive);
              && admitted == Admits(old(RateView()), attempt, MINUTE, maxPerMinute)
              && RateView() == After(old(RateView()), attempt, MINUTE, maxPerMinute)
    {
      if now - start >= MINUTE {
        start, used := now, 0;
      }
      if used >= maxPerMinute || |active| >= maxActive {
        return false;
      }
      used := used + 1;
      return true;
    }

    /**
     Hands out the next id. The slot is a fresh one, except that after the counter wrapped the id may
     still be active: conservation survives exactly when it is not.
     */
    method Issue() returns (id: U32)
      requires Valid() && |active| < maxActive
      modifies this`nextId, this`active, this`scheduled, this`wrapped
      ensures Valid()
      ensures id == old(nextId) && nextId == NextId(id)
      ensures id in active && fresh(active[id]) && active == old(active)[id := active[id]]
      ensures scheduled == old(scheduled) + 1
      ensures wrapped <==> old(wrapped) || id == 0xFFFF_FFFF
      ensures old(!wrapped) ==> id !in old(active) && Conserved()
      ensures old(Conserved()) ==> (Conserved() <==> id !in old(active))
    {
      id := nextId;
      nextId := NextId(nextId);
      Occupy(id);
      scheduled := scheduled + 1;
      wrapped := wrapped || id == 0xFFFF_FFFF;
    }

    /** `schedule`: a zero delay is refused before anything is counted. */
    method Schedule(delayMs: nat, now: nat) returns (r: Result<U32, TimerError>)
      requires Valid()
      modifies this
      ensures Valid()
      ensures delayMs == 0 <==> r == Err(InvalidDelay)
      ensures delayMs > 0 ==>
        var attempt := Attempt(now, now, old(|active|) < maxActive);
        && RateView() == After(old(RateView()), attempt, MINUTE, maxPerMinute)
        && r == if Admits(old(RateView()), attempt, MINUTE, maxPerMinute) then Ok(old(nextId)) else Err(BudgetExceeded)
      ensures r.Ok? ==>
        && nextId == NextId(r.value)
        && r.value in active && active == old(active)[r.value := active[r.value]]
        && scheduled == old(scheduled) + 1
        && (wrapped <==> old(wrapped) || r.value == 0xFFFF_FFFF)
        && (old(!wrapped) ==> r.value !in old(active) && Conserved())
      ensures r.Err? ==>
        active == old(active) && nextId == old(nextId) && scheduled == old(scheduled) && wrapped == old(wrapped)
      ensures cancelled == old(cancelled) && completed == old(completed)
    {
      if delayMs == 0 {
        return Err(InvalidDelay);
      }
      var admitted := Admit(now);
      if !admitted {
        return Err(BudgetExceeded);
      }
      var id := Issue();
      return Ok(id);
    }

    /** Takes an active timer out of the map and raises its flag. */
    method Strike(id: U32)
      requires SlotsValid() && id in active
      modifies this`active, active[id]
      ensures SlotsValid()
      ensures active == old(active) - {id} && |active| == |old(active)| - 1
      ensures old(active)[id].up
    {
      var flag := active[id];
      Release(id);
      flag.up := true;
    }

    /** Frees the slot and raises the flag of that timer only. */
    method Cancel(id: U32) returns (r: Result<(), TimerError>)
      requires Valid()
      modifies this, if id in active then {active[id]} else {}
      ensures Valid()
      ensures r == if id in old(active) then Ok(()) else Err(InvalidTimerId)
      ensures active == old(active) - {id}
      ensures r.Ok? ==> old(active)[id].up && cancelled == old(cancelled) + 1
      ensures r.Err? ==> cancelled == old(cancelled)
      ensures scheduled == old(scheduled) && completed == old(completed) && wrapped == old(wrapped)
      ensures RateView() == old(RateView()) && nextId == old(nextId)
    {
      if id !in active {
        assert active - {id} == active;
        return Err(InvalidTimerId);
      }
      cancelled := cancelled + 1;
      Strike(id);
      return Ok(());
    }

    /** The timer event was handled: frees the slot, if it still is one. */
    method Complete(id: U32)
      requires Valid()
      modifies this
      ensures Valid()
      ensures active == old(active) - {id}
      ensures completed == old(completed) + Count(id in old(active))
      ensures scheduled == old(scheduled) && cancelled == old(cancelled) && wrapped == old(wrapped)
      ensures RateView() == old(RateView()) && nextId == old(nextId)
    {
      if id in active {
        completed := completed + 1;
      }
      Release(id);
    }
  }

  lemma SizeOfUpdate(m: map<U32, Flag>, id: U32, flag: Flag)
    ensures |m[id := flag]| == |m| + Count(id !in m)
  {
    assert m[id := flag].Keys == m.Keys + {id};
    assert |m[id := flag].Keys| == |m.Keys| + Count(id !in m);
  }

  lemma SizeOfRemoval(m: map<U32, Flag>, id: U32)
    ensures |m - {id}| == |m| - Count(id in m)
  {
    assert (m - {id}).Keys == m.Keys - {id};
    assert |(m - {id}).Keys| == |m.Keys| - Count(id in m);
  }
}
