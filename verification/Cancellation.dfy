/**
 The cancellation flag of a hosted operation (crates/floatile-services/src/operation.rs:149-176): an
 atomic flag and a broadcast that wakes the futures created before it. Any number of cancellers
 and waiters interleave, one atomic access at a time.
 */
module Cancellation {
  /** `cancel`: store the flag, then notify the waiters. */
  datatype Canceller = Idle | Stored | Notified

  /** `cancelled`: check, create the future, check again, await it. A future remembers the broadcasts so far. */
  datatype Waiter = Entering | Creating | Rechecking(seen: nat) | Awaiting(seen: nat) | Returned

  datatype State = State(flag: bool, broadcasts: nat, cancellers: map<nat, Canceller>, waiters: map<nat, Waiter>)

  datatype Event = Store(c: nat) | Notify(c: nat) | Advance(w: nat)

  function CancellerOf(s: State, c: nat): Canceller
  {
    if c in s.cancellers then s.cancellers[c] else Idle
  }

  function WaiterOf(s: State, w: nat): Waiter
  {
    if w in s.waiters then s.waiters[w] else Entering
  }

  /** One step of a waiter. `recheck` is true in the code; false describes a waiter without its second check. */
  function Advanced(s: State, waiter: Waiter, recheck: bool): Waiter
  {
    match waiter
    case Entering => if s.flag then Returned else Creating
    case Creating => if recheck then Rechecking(s.broadcasts) else Awaiting(s.broadcasts)
    case Rechecking(seen) => if s.flag then Returned else Awaiting(seen)
    case Awaiting(seen) => if s.broadcasts > seen then Returned else waiter
    case Returned => Returned
  }

  function Step(s: State, e: Event, recheck: bool): State
  {
    match e
    case Store(c) =>
      if CancellerOf(s, c).Idle? then s.(flag := true, cancellers := s.cancellers[c := Stored]) else s
    case Notify(c) =>
      if CancellerOf(s, c).Stored?
      then s.(broadcasts := s.broadcasts + 1, cancellers := s.cancellers[c := Notified]) else s
    case Advance(w) => s.(waiters := s.waiters[w := Advanced(s, WaiterOf(s, w), recheck)])
  }

  function Play(events: seq<Event>, recheck: bool): State
  {
    if events == [] then State(false, 0, map[], map[])
    else Step(Play(events[..|events| - 1], recheck), events[|events| - 1], recheck)
  }

  /** Some canceller has raised the flag and not broadcast yet. */
  ghost predicate BroadcastDue(s: State)
  {
    exists c :: CancellerOf(s, c).Stored?
  }

  ghost predicate Inv(s: State)
  {
    && (s.flag <==> exists c :: !CancellerOf(s, c).Idle?)
    && (s.broadcasts > 0 ==> s.flag)
    && (forall w :: WaiterOf(s, w).Returned? ==> s.flag)
    && (forall w :: WaiterOf(s, w).Rechecking? || WaiterOf(s, w).Awaiting? ==> WaiterOf(s, w).seen <= s.broadcasts)
    && (forall w :: WaiterOf(s, w).Awaiting? && s.flag ==> s.broadcasts > WaiterOf(s, w).seen || BroadcastDue(s))
  }

  lemma StepKeepsInv(s: State, e: Event)
    requires Inv(s)
    ensures Inv(Step(s, e, true))
  {
    var t := Step(s, e, true);
    forall c
      ensures CancellerOf(t, c) ==
              if e.Store? && c == e.c && CancellerOf(s, c).Idle? then Stored
              else if e.Notify? && c == e.c && CancellerOf(s, c).Stored? then Notified
              else CancellerOf(s, c)
    {
    }
    forall w
      ensures WaiterOf(t, w) == if e.Advance? && w == e.w then Advanced(s, WaiterOf(s, w), true) else WaiterOf(s, w)
    {
    }
    if e.Advance? && BroadcastDue(s) {
      var c :| CancellerOf(s, c).Stored?;
      assert CancellerOf(t, c).Stored?;
    }
    if e.Store? {
      assert !CancellerOf(t, e.c).Idle?;
      if BroadcastDue(s) {
        var c :| CancellerOf(s, c).Stored?;
        assert CancellerOf(t, c).Stored?;
      }
    }
    if s.flag {
      var c :| !CancellerOf(s, c).Idle?;
      assert !CancellerOf(t, c).Idle?;
    }
  }

  lemma {:induction false} PlayInv(events: seq<Event>)
    ensures Inv(Play(events, true))
  {
    if events != [] {
      PlayInv(events[..|events| - 1]);
      StepKeepsInv(Play(events[..|events| - 1], true), events[|events| - 1]);
    }
  }

  /**
   No wake-up is lost: once the flag is up, a waiter that awaits its future can return at its next step
   unless a canceller's broadcast, which will wake it, is still to come.
   */
  lemma NoLostWakeup(events: seq<Event>, w: nat)
    requires Play(events, true).flag && WaiterOf(Play(events, true), w).Awaiting?
    ensures var s := Play(events, true);
      BroadcastDue(s) || WaiterOf(Step(s, Advance(w), true), w).Returned?
  {
    PlayInv(events);
  }

  /** `cancelled` returns only after some `cancel` has stored the flag. */
  lemma ReturnMeansCancelled(events: seq<Event>, w: nat)
    requires WaiterOf(Play(events, true), w).Returned?
    ensures exists c :: !CancellerOf(Play(events, true), c).Idle?
  {
    PlayInv(events);
  }

  function Steps(w: nat, n: nat): seq<Event>
  {
    if n == 0 then [] else Steps(w, n - 1) + [Advance(w)]
  }

  /** How many steps a waiter still needs once the flag is up and every broadcast is out. */
  function Distance(waiter: Waiter): nat
  {
    match waiter
    case Entering => 1
    case Creating => 2
    case Rechecking(_) => 1
    case Awaiting(_) => 1
    case Returned => 0
  }

  lemma PlaySteps(events: seq<Event>, w: nat)
    ensures Play(events + Steps(w, 0), true) == Play(events, true)
    ensures Play(events + Steps(w, 1), true) == Step(Play(events, true), Advance(w), true)
    ensures Play(events + Steps(w, 2), true) == Step(Step(Play(events, true), Advance(w), true), Advance(w), true)
  {
    var one := events + [Advance(w)];
    var two := one + [Advance(w)];
    assert one[..|one| - 1] == events && two[..|two| - 1] == one;
    assert Steps(w, 1) == [Advance(w)] && Steps(w, 2) == Steps(w, 1) + [Advance(w)];
    assert events + Steps(w, 1) == one && events + Steps(w, 2) == two && events + Steps(w, 0) == events;
  }

  /** Once a cancel has completed, every waiter returns within two of its own steps, wherever it was. */
  lemma WaiterReturns(events: seq<Event>, w: nat)
    requires Play(events, true).flag && !BroadcastDue(Play(events, true))
    ensures exists n :: n <= 2 && WaiterOf(Play(events + Steps(w, n), true), w).Returned?
  {
    var s := Play(events, true);
    var n := Distance(WaiterOf(s, w));
    PlayInv(events);
    PlaySteps(events, w);
    assert n <= 2 && WaiterOf(Play(events + Steps(w, n), true), w).Returned?;
  }

  /** The second check is what prevents the loss: without it a waiter can sleep through the only broadcast. */
  lemma LostWithoutRecheck()
    ensures exists events, w ::
      var s := Play(events, false);
      s.flag && !BroadcastDue(s) && WaiterOf(s, w).Awaiting? && Step(s, Advance(w), false) == s
  {
    var a := [Advance(0)];
    var b := a + [Store(0)];
    var c := b + [Notify(0)];
    var d := c + [Advance(0)];
    assert a[..0] == [] && b[..1] == a && c[..2] == b && d[..3] == c;
    assert Play(a, false) == Step(Play([], false), Advance(0), false);
    assert Play(b, false) == Step(Play(a, false), Store(0), false);
    assert Play(c, false) == Step(Play(b, false), Notify(0), false);
    var s := Play(d, false);
    assert s == Step(Play(c, false), Advance(0), false);
    assert s.flag && s.broadcasts == 1 && s.cancellers == map[0 := Notified] && s.waiters == map[0 := Awaiting(1)];
    assert forall i | i in s.cancellers :: i == 0;
    assert !BroadcastDue(s) && Step(s, Advance(0), false) == s;
  }
}
