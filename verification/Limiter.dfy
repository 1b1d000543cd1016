/**
 The fixed-window rate limiter, which the repository repeats in four places: the HTTPS budget
 (crates/floatile-services/src/broker.rs:374-387), timers (crates/floatile-services/src/timer.rs:59-70),
 the plugin log (crates/floatile-services/src/log.rs:42-50) and State updates
 (crates/floatile-runtime/src/state.rs:111-120).

 Times are nanoseconds of a monotone clock.
 */
module Limiter {
  import opened Prelude

  datatype Window = Window(start: nat, used: nat)

  /** Opens a new window, stamped `stamp`, when the current one is at least `length` old. */
  function Roll(w: Window, now: nat, stamp: nat, length: nat): Window
  {
    if now - w.start >= length then Window(stamp, 0) else w
  }

  /**
   One attempt. `stamp` is the second clock reading the HTTPS budget takes when it opens a window
   (the other copies reuse the first); `willing` is false when a later check refuses the attempt
   before it is counted, as the active-timer bound does.
   */
  datatype Attempt = Attempt(now: nat, stamp: nat, willing: bool)

  predicate Admits(w: Window, a: Attempt, length: nat, max: nat)
  {
    Roll(w, a.now, a.stamp, length).used < max && a.willing
  }

  function After(w: Window, a: Attempt, length: nat, max: nat): Window
  {
    var rolled := Roll(w, a.now, a.stamp, length);
    if Admits(w, a, length, max) then rolled.(used := rolled.used + 1) else rolled
  }

  class RateWindow {
    var start: nat
    var used: nat

    constructor (now: nat)
      ensures View() == Window(now, 0)
    {
      start, used := now, 0;
    }

    function View(): Window
      reads this
    {
      Window(start, used)
    }

    /** `reserve_https_rate` and its copies. */
    method Reserve(a: Attempt, length: nat, max: nat) returns (admitted: bool)
      modifies this
      ensures admitted == Admits(old(View()), a, length, max)
      ensures View() == After(old(View()), a, length, max)
    {
      if a.now - start >= length {
        start := a.stamp;
        used := 0;
      }
      if used >= max || !a.willing {
        return false;
      }
      used := used + 1;
      return true;
    }
  }

  // ---- Runs ----

  /** An admitted attempt: when, in which window (numbered from 0), as which one of that window. */
  datatype Admission = Admission(time: nat, epoch: nat, ordinal: nat)

  /** `openedAt` is when window number `epoch` was opened; `starts` are the stamps of all windows. */
  datatype Run = Run(window: Window, openedAt: nat, epoch: nat, starts: seq<nat>, admitted: seq<Admission>)

  function Begin(now: nat): Run
  {
    Run(Window(now, 0), now, 0, [now], [])
  }

  function Rolled(r: Run, a: Attempt, length: nat): Run
  {
    if a.now - r.window.start >= length
    then Run(Window(a.stamp, 0), a.now, r.epoch + 1, r.starts + [a.stamp], r.admitted)
    else r
  }

  function Admit(r: Run, now: nat): Run
  {
    r.(window := r.window.(used := r.window.used + 1),
       admitted := r.admitted + [Admission(now, r.epoch, r.window.used)])
  }

  function Extend(r: Run, a: Attempt, length: nat, max: nat): (next: Run)
    ensures next.window == After(r.window, a, length, max)
  {
    var rolled := Rolled(r, a, length);
    if Admits(r.window, a, length, max) then Admit(rolled, a.now) else rolled
  }

  function Play(start: nat, attempts: seq<Attempt>, length: nat, max: nat): Run
  {
    if attempts == [] then Begin(start)
    else Extend(Play(start, attempts[..|attempts| - 1], length, max), attempts[|attempts| - 1], length, max)
  }

  function LastReading(start: nat, attempts: seq<Attempt>): nat
  {
    if attempts == [] then start else attempts[|attempts| - 1].stamp
  }

  /** The clock readings of a run never go backwards. */
  predicate Monotone(start: nat, attempts: seq<Attempt>)
  {
    attempts == [] ||
    (var before, last := attempts[..|attempts| - 1], attempts[|attempts| - 1];
     Monotone(start, before) && LastReading(start, before) <= last.now <= last.stamp)
  }

  function Serial(a: Admission, max: nat): nat
  {
    a.epoch * max + a.ordinal
  }

  /** Admission `a` is more than `gap` whole windows, less one, before time `t`. */
  predicate WellBefore(a: Admission, t: nat, gap: int, length: nat)
  {
    a.time + (gap - 1) * length < t
  }

  /** Where an admission lies relative to the current window. */
  ghost predicate Placed(r: Run, a: Admission, length: nat, max: nat)
  {
    && a.epoch <= r.epoch
    && a.ordinal < max
    && (a.epoch == r.epoch ==> r.openedAt <= a.time < r.window.start + length && a.ordinal < r.window.used)
    && (a.epoch < r.epoch ==> WellBefore(a, r.openedAt, r.epoch - a.epoch, length))
  }

  /** Two admissions of a run: distinct serials, far apart in time when far apart in windows. */
  ghost predicate Spaced(a: Admission, b: Admission, distance: nat, length: nat, max: nat)
  {
    && a.epoch <= b.epoch
    && Serial(a, max) + distance <= Serial(b, max)
    && (a.epoch < b.epoch ==> WellBefore(a, b.time, b.epoch - a.epoch, length))
  }

  ghost predicate Inv(r: Run, length: nat, max: nat)
  {
    && |r.starts| == r.epoch + 1
    && r.window.start == r.starts[r.epoch]
    && r.openedAt <= r.window.start
    && r.window.used <= max
    && (forall i | 0 < i < |r.starts| :: r.starts[i - 1] + length <= r.starts[i])
    && (forall p | 0 <= p < |r.admitted| :: Placed(r, r.admitted[p], length, max))
    && (forall p, q | 0 <= p < q < |r.admitted| :: Spaced(r.admitted[p], r.admitted[q], q - p, length, max))
  }

  lemma RollKeepsPlaced(r: Run, a: Admission, now: nat, stamp: nat, length: nat, max: nat)
    requires length > 0 && Placed(r, a, length, max) && r.openedAt <= r.window.start
    requires now - r.window.start >= length
    ensures Placed(Run(Window(stamp, 0), now, r.epoch + 1, r.starts + [stamp], r.admitted), a, length, max)
  {
    var gap := r.epoch - a.epoch;
    assert (gap + 1 - 1) * length == (gap - 1) * length + length;
  }

  lemma RollKeepsInv(r: Run, a: Attempt, length: nat, max: nat)
    requires length > 0 && Inv(r, length, max)
    requires r.window.start <= a.now <= a.stamp
    ensures Inv(Rolled(r, a, length), length, max)
    ensures Rolled(r, a, length).openedAt <= a.now < Rolled(r, a, length).window.start + length
  {
    var rolled := Rolled(r, a, length);
    if rolled != r {
      forall p | 0 <= p < |r.admitted|
        ensures Placed(rolled, r.admitted[p], length, max)
      {
        RollKeepsPlaced(r, r.admitted[p], a.now, a.stamp, length, max);
      }
    }
  }

  lemma SerialGrows(a: Admission, b: Admission, max: nat)
    requires a.ordinal < max
    requires a.epoch < b.epoch || (a.epoch == b.epoch && a.ordinal < b.ordinal)
    ensures Serial(a, max) < Serial(b, max)
  {
    if a.epoch < b.epoch {
      assert (a.epoch + 1) * max <= b.epoch * max;
      assert (a.epoch + 1) * max == a.epoch * max + max;
    }
  }

  lemma AdmitKeepsInv(r: Run, now: nat, length: nat, max: nat)
    requires length > 0 && Inv(r, length, max)
    requires r.openedAt <= now < r.window.start + length
    requires r.window.used < max
    ensures Inv(Admit(r, now), length, max)
  {
    var next, n := Admit(r, now), |r.admitted|;
    var latest := next.admitted[n];
    forall p | 0 <= p < |next.admitted|
      ensures Placed(next, next.admitted[p], length, max)
      ensures p < n ==> Spaced(next.admitted[p], latest, n - p, length, max)
    {
      if p < n {
        assert Placed(r, r.admitted[p], length, max);
        var last := r.admitted[n - 1];
        assert Placed(r, last, length, max);
        SerialGrows(last, latest, max);
        assert p < n - 1 ==> Spaced(r.admitted[p], last, n - 1 - p, length, max);
      }
    }
  }

  lemma {:induction false} PlayInv(start: nat, attempts: seq<Attempt>, length: nat, max: nat)
    requires length > 0 && Monotone(start, attempts)
    ensures Inv(Play(start, attempts, length, max), length, max)
    ensures Play(start, attempts, length, max).window.start <= LastReading(start, attempts)
  {
    if attempts != [] {
      var before := attempts[..|attempts| - 1];
      PlayInv(start, before, length, max);
      var r, a := Play(start, before, length, max), attempts[|attempts| - 1];
      RollKeepsInv(r, a, length, max);
      if Admits(r.window, a, length, max) {
        AdmitKeepsInv(Rolled(r, a, length), a.now, length, max);
      }
    }
  }

  /** Number of windows of this length that a closed interval of length `span` can meet. */
  function WindowsMet(span: nat, length: nat): nat
    requires length > 0
  {
    (span + length - 1) / length + 1
  }

  lemma GapBound(gap: nat, span: nat, length: nat)
    requires length > 0 && (gap - 1) * length < span
    ensures gap + 1 <= WindowsMet(span, length)
  {
    assert gap * length <= span + length - 1 by {
      assert (gap - 1) * length == gap * length - length;
    }
    if (span + length - 1) / length < gap {
      assert ((span + length - 1) / length + 1) * length <= gap * length;
    }
  }

  lemma SerialDistance(a: Admission, b: Admission, distance: nat, length: nat, max: nat)
    requires Spaced(a, b, distance, length, max) && b.ordinal < max
    ensures distance + 1 <= (b.epoch - a.epoch + 1) * max
  {
    var gap := b.epoch - a.epoch;
    assert b.epoch * max == a.epoch * max + gap * max;
    assert (gap + 1) * max == gap * max + max;
  }

  lemma ScaleMonotone(a: nat, b: nat, scale: nat)
    requires a <= b
    ensures a * scale <= b * scale
  {
  }

  lemma WindowsWithinSpan(gap: nat, span: nat, length: nat, max: nat)
    requires length > 0 && (gap > 0 ==> (gap - 1) * length < span)
    ensures (gap + 1) * max <= WindowsMet(span, length) * max
    ensures span <= length ==> (gap + 1) * max <= 2 * max
  {
    if gap > 0 {
      GapBound(gap, span, length);
    }
    ScaleMonotone(gap + 1, WindowsMet(span, length), max);
    if span <= length {
      if gap >= 2 {
        ScaleMonotone(1, gap - 1, length);
        assert false;
      }
      ScaleMonotone(gap + 1, 2, max);
    }
  }

  /**
   The sliding-window bound of every run: two admissions at most `span` apart have at most `max`
   admissions per window met from one to the other, so at most 2 * max within one window length.
   */
  lemma {:induction false} SlidingBound(start: nat, attempts: seq<Attempt>, length: nat, max: nat, p: nat, q: nat,
      span: nat)
    requires length > 0 && Monotone(start, attempts)
    requires p <= q < |Play(start, attempts, length, max).admitted|
    requires var admitted := Play(start, attempts, length, max).admitted;
             admitted[q].time <= admitted[p].time + span
    ensures q - p + 1 <= WindowsMet(span, length) * max
    ensures span <= length ==> q - p + 1 <= 2 * max
  {
    PlayInv(start, attempts, length, max);
    var r := Play(start, attempts, length, max);
    var first, last := r.admitted[p], r.admitted[q];
    assert Placed(r, last, length, max);
    if p < q {
      assert Spaced(first, last, q - p, length, max);
    }
    SerialDistance(first, last, q - p, length, max);
    WindowsWithinSpan(last.epoch - first.epoch, span, length, max);
  }

  /** Window starts are at least one length apart. */
  lemma WindowsApart(start: nat, attempts: seq<Attempt>, length: nat, max: nat, i: nat)
    requires length > 0 && Monotone(start, attempts)
    requires 0 < i < |Play(start, attempts, length, max).starts|
    ensures var starts := Play(start, attempts, length, max).starts; starts[i - 1] + length <= starts[i]
  {
    PlayInv(start, attempts, length, max);
  }

  // ---- The bound is reached: a burst across a window boundary ----

  function Burst(n: nat, t: nat): seq<Attempt>
  {
    seq(n, i => Attempt(t, t, true))
  }

  lemma {:induction false} BurstAdmitted(start: nat, prefix: seq<Attempt>, n: nat, t: nat, length: nat, max: nat)
    requires length > 0 && n <= max
    requires var r := Play(start, prefix, length, max);
             (t - r.window.start >= length || (0 <= t - r.window.start && r.window.used == 0))
    ensures var before, r := Play(start, prefix, length, max), Play(start, prefix + Burst(n, t), length, max);
            && |r.admitted| == |before.admitted| + n
            && (forall i | |before.admitted| <= i < |r.admitted| :: r.admitted[i].time == t)
            && (forall i | 0 <= i < |before.admitted| :: r.admitted[i] == before.admitted[i])
            && (n > 0 ==> r.window.used == n && 0 <= t - r.window.start < length)
            && (n > 0 && t - before.window.start >= length ==> r.window.start == t)
            && (n > 0 && t - before.window.start < length ==> r.window.start == before.window.start)
  {
    if n == 0 {
      assert prefix + Burst(0, t) == prefix;
    } else {
      BurstAdmitted(start, prefix, n - 1, t, length, max);
      var all := prefix + Burst(n, t);
      assert all[..|all| - 1] == prefix + Burst(n - 1, t);
      assert n == 1 ==> prefix + Burst(0, t) == prefix;
    }
  }

  lemma {:induction false} BurstMonotone(start: nat, prefix: seq<Attempt>, n: nat, t: nat)
    requires Monotone(start, prefix) && LastReading(start, prefix) <= t
    ensures Monotone(start, prefix + Burst(n, t)) && LastReading(start, prefix + Burst(n, t)) <= t
  {
    var all := prefix + Burst(n, t);
    if n == 0 {
      assert all == prefix;
    } else {
      BurstMonotone(start, prefix, n - 1, t);
      assert all[..|all| - 1] == prefix + Burst(n - 1, t);
    }
  }

  lemma FirstBurst(length: nat, max: nat)
    requires length > 0
    ensures var attempts := Burst(max, length - 1);
            var r := Play(0, attempts, length, max);
            && Monotone(0, attempts) && LastReading(0, attempts) <= length - 1
            && |r.admitted| == max
            && (forall i | 0 <= i < max :: r.admitted[i].time == length - 1)
            && length - r.window.start >= length
  {
    assert [] + Burst(max, length - 1) == Burst(max, length - 1);
    BurstMonotone(0, [], max, length - 1);
    BurstAdmitted(0, [], max, length - 1, length, max);
  }

  /** 2 * max admissions can fall one nanosecond apart, so the quota is not one per sliding window. */
  lemma BurstReachesBound(length: nat, max: nat)
    requires length > 0
    ensures var attempts := Burst(max, length - 1) + Burst(max, length);
            var r := Play(0, attempts, length, max);
            && Monotone(0, attempts)
            && |r.admitted| == 2 * max
            && (forall i | 0 <= i < |r.admitted| :: length - 1 <= r.admitted[i].time <= length)
  {
    FirstBurst(length, max);
    BurstMonotone(0, Burst(max, length - 1), max, length);
    BurstAdmitted(0, Burst(max, length - 1), max, length, length, max);
  }
}
