/**
 HTTPS operations (crates/floatile-services/src/http.rs:278-343): look in the shared cache, call the
 transport with bounded retries and exponential delay, and fall back on a stale entry after an error.

 Any number of runs share the cache; every cache access, transport answer and timer is one event.
 */
module Https {
  import opened Prelude

  /** Template, connection, credential generation and full URL. */
  datatype Key = Key(templateId: string, connection: nat, credentialGeneration: U64, url: string)

  datatype Error = Unavailable | DestinationNotPublic | ResponseRejected | InvalidInput

  type Response = int

  datatype Cached = Cached(storedAt: nat, response: Response)

  /** The limits of a template, in milliseconds; `ValidTemplate` is what the manifest check admits. */
  datatype Template = Template(ttl: nat, stale: nat, maxRetries: nat, baseDelay: nat)

  predicate ValidTemplate(t: Template)
  {
    t.maxRetries <= 2 && 10 <= t.baseDelay <= 2000
  }

  const MAX_DURATION_MS: nat := 0xFFFF_FFFF_FFFF_FFFF * 1000 + 999

  function Pow2(n: nat): nat
  {
    if n == 0 then 1 else 2 * Pow2(n - 1)
  }

  /** `retry_base_delay.saturating_mul(1 << attempt)`. */
  function Delay(baseDelay: nat, attempt: nat): nat
  {
    if baseDelay * Pow2(attempt) <= MAX_DURATION_MS then baseDelay * Pow2(attempt) else MAX_DURATION_MS
  }

  /** Where a returned response came from: this run's transport call, or an entry seen at some instant. */
  datatype Origin = Own | FromCache(storedAt: nat, seenAt: nat) | FromStale(storedAt: nat, seenAt: nat)

  datatype Health = Healthy | Degraded

  datatype Stage =
    | Looking
    | Calling
    | Received(response: Response)
    | Sleeping(until: nat)
    | Recovering(error: Error)
    | Served(response: Response, origin: Origin)
    | Broken(error: Error)

  /** `attempt` is the loop's counter; `errors` what the transport answered so far; `slept` the delays asked for. */
  datatype Run = Run(key: Key, template: Template, stage: Stage, attempt: nat, calls: nat, errors: seq<Error>,
                     slept: nat, health: Option<Health>)

  /** A response the transport gave, and when. */
  datatype Given = Given(key: Key, response: Response, at: nat)

  datatype Net = Net(now: nat, cache: map<Key, Cached>, given: seq<Given>, runs: map<nat, Run>)

  datatype Event =
    | Tick(ms: nat)
    | Begin(run: nat, key: Key, template: Template)
    | Lookup(run: nat)
    | Respond(run: nat, response: Response)
    | Fail(run: nat, error: Error)
    | Wake(run: nat)
    | Keep(run: nat)
    | Recover(run: nat)

  // ---- One run ----

  function AfterLookup(r: Run, hit: Option<Cached>, now: nat): Run
  {
    if r.template.ttl > 0 && hit.Some? && now - hit.value.storedAt <= r.template.ttl
    then r.(stage := Served(hit.value.response, FromCache(hit.value.storedAt, now)))
    else r.(stage := Calling)
  }

  function AfterFail(r: Run, error: Error, now: nat): Run
  {
    var called := r.(calls := r.calls + 1, errors := r.errors + [error]);
    if r.attempt < r.template.maxRetries && error.Unavailable?
    then called.(stage := Sleeping(now + Delay(r.template.baseDelay, r.attempt)),
                 slept := r.slept + Delay(r.template.baseDelay, r.attempt))
    else called.(stage := Recovering(error))
  }

  function AfterRecover(r: Run, hit: Option<Cached>, now: nat): Run
    requires r.stage.Recovering?
  {
    if r.template.stale > 0 && hit.Some? && now - hit.value.storedAt <= r.template.ttl + r.template.stale
    then r.(stage := Served(hit.value.response, FromStale(hit.value.storedAt, now)))
    else r.(stage := Broken(r.stage.error), health := Some(Degraded))
  }

  predicate Takes(r: Run, e: Event, now: nat)
  {
    match e
    case Lookup(_) => r.stage.Looking?
    case Respond(_, _) => r.stage.Calling?
    case Fail(_, _) => r.stage.Calling?
    case Wake(_) => r.stage.Sleeping? && now >= r.stage.until
    case Keep(_) => r.stage.Received?
    case Recover(_) => r.stage.Recovering?
    case _ => false
  }

  function RunStep(r: Run, e: Event, hit: Option<Cached>, now: nat): Run
    requires Takes(r, e, now)
  {
    match e
    case Lookup(_) => AfterLookup(r, hit, now)
    case Respond(_, response) => r.(stage := Received(response), calls := r.calls + 1, health := Some(Healthy))
    case Fail(_, error) => AfterFail(r, error, now)
    case Wake(_) => r.(stage := Calling, attempt := r.attempt + 1)
    case Keep(_) => r.(stage := Served(r.stage.response, Own))
    case Recover(_) => AfterRecover(r, hit, now)
  }

  // ---- All runs and the cache ----

  function Entry(cache: map<Key, Cached>, key: Key): Option<Cached>
  {
    if key in cache then Some(cache[key]) else None
  }

  predicate Happens(n: Net, e: Event)
  {
    match e
    case Tick(_) => true
    case Begin(i, _, t) => i !in n.runs && ValidTemplate(t)
    case _ => e.run in n.runs && Takes(n.runs[e.run], e, n.now)
  }

  function CacheAfter(n: Net, e: Event): map<Key, Cached>
    requires Happens(n, e)
  {
    if e.Keep? && (n.runs[e.run].template.ttl > 0 || n.runs[e.run].template.stale > 0)
    then n.cache[n.runs[e.run].key := Cached(n.now, n.runs[e.run].stage.response)] else n.cache
  }

  function Step(n: Net, e: Event): Net
  {
    if !Happens(n, e) then n
    else match e
      case Tick(ms) => n.(now := n.now + ms)
      case Begin(i, key, t) => n.(runs := n.runs[i := Run(key, t, Looking, 0, 0, [], 0, None)])
      case _ =>
        var r := n.runs[e.run];
        Net(n.now, CacheAfter(n, e),
            if e.Respond? then n.given + [Given(r.key, e.response, n.now)] else n.given,
            n.runs[e.run := RunStep(r, e, Entry(n.cache, r.key), n.now)])
  }

  function Play(events: seq<Event>): Net
  {
    if events == [] then Net(0, map[], [], map[])
    else Step(Play(events[..|events| - 1]), events[|events| - 1])
  }

  // ---- Invariants ----

  /** The transport gave `response` for `key` no later than `at`. */
  predicate GivenBy(given: seq<Given>, key: Key, response: Response, at: nat)
  {
    exists i :: 0 <= i < |given| && given[i].key == key && given[i].response == response && given[i].at <= at
  }

  predicate ServedInv(r: Run, now: nat, given: seq<Given>)
  {
    r.stage.Served? ==>
      (match r.stage.origin
       case Own => GivenBy(given, r.key, r.stage.response, now) && r.health == Some(Healthy)
       case FromCache(storedAt, seenAt) =>
         && storedAt <= seenAt <= now && seenAt - storedAt <= r.template.ttl && r.template.ttl > 0
         && GivenBy(given, r.key, r.stage.response, storedAt) && r.calls == 0
       case FromStale(storedAt, seenAt) =>
         && storedAt <= seenAt <= now && seenAt - storedAt <= r.template.ttl + r.template.stale
         && r.template.stale > 0 && r.errors != []
         && GivenBy(given, r.key, r.stage.response, storedAt))
  }

  /** Failed calls of a run; all of them but a last one it gave up on were retried. */
  predicate CountInv(r: Run)
  {
    && ValidTemplate(r.template)
    && r.attempt + Count(r.stage.Sleeping?) <= r.template.maxRetries
    && |r.errors| == r.attempt + Count(GaveUp(r) || r.stage.Sleeping?)
    && r.calls == |r.errors| + Count(Answered(r))
    && (forall i | 0 <= i < |r.errors| - Count(GaveUp(r)) :: r.errors[i].Unavailable?)
    && r.slept == r.template.baseDelay * (Pow2(r.attempt + Count(r.stage.Sleeping?)) - 1)
    && (r.stage.Looking? ==> r.calls == 0)
  }

  /** The last call failed and is not retried. */
  predicate GaveUp(r: Run)
  {
    r.stage.Recovering? || r.stage.Broken? || (r.stage.Served? && r.stage.origin.FromStale?)
  }

  predicate Answered(r: Run)
  {
    r.stage.Received? || (r.stage.Served? && r.stage.origin.Own?)
  }

  /** A run ends in its last error, and only when no retry was left or the error allows none. */
  predicate EndInv(r: Run)
  {
    && (GaveUp(r) ==> r.errors != [] && (r.attempt == r.template.maxRetries || !Last(r.errors).Unavailable?))
    && (r.stage.Recovering? || r.stage.Broken? ==> Last(r.errors) == r.stage.error)
    && (r.health == Some(Degraded) <==> r.stage.Broken?)
    && (r.health == Some(Healthy) <==> Answered(r))
  }

  function Last(errors: seq<Error>): Error
    requires errors != []
  {
    errors[|errors| - 1]
  }

  predicate RunInv(r: Run, now: nat, given: seq<Given>)
  {
    && CountInv(r)
    && EndInv(r)
    && ServedInv(r, now, given)
    && (r.stage.Received? ==> GivenBy(given, r.key, r.stage.response, now))
  }

  predicate CacheInv(n: Net)
  {
    forall key | key in n.cache ::
      n.cache[key].storedAt <= n.now && GivenBy(n.given, key, n.cache[key].response, n.cache[key].storedAt)
  }

  predicate Inv(n: Net)
  {
    CacheInv(n) && forall i | i in n.runs :: RunInv(n.runs[i], n.now, n.given)
  }

  lemma GivenGrows(given: seq<Given>, g: Given, key: Key, response: Response, at: nat, later: nat)
    requires GivenBy(given, key, response, at) && at <= later
    ensures GivenBy(given + [g], key, response, later) && GivenBy(given, key, response, later)
  {
    var i :| 0 <= i < |given| && given[i].key == key && given[i].response == response && given[i].at <= at;
    assert (given + [g])[i] == given[i];
  }

  lemma DelaysAdd(baseDelay: nat, attempt: nat)
    requires baseDelay <= 2000 && attempt < 2
    ensures baseDelay * (Pow2(attempt) - 1) + Delay(baseDelay, attempt) == baseDelay * (Pow2(attempt + 1) - 1)
  {
    assert Pow2(attempt) <= 2 && Pow2(attempt + 1) == 2 * Pow2(attempt);
    assert baseDelay * Pow2(attempt) <= 4000;
  }

  lemma RunStepCounts(r: Run, e: Event, hit: Option<Cached>, now: nat)
    requires CountInv(r) && Takes(r, e, now)
    ensures CountInv(RunStep(r, e, hit, now))
  {
    if e.Fail? && r.attempt < r.template.maxRetries {
      DelaysAdd(r.template.baseDelay, r.attempt);
    }
  }

  lemma RunStepEnds(r: Run, e: Event, hit: Option<Cached>, now: nat)
    requires CountInv(r) && EndInv(r) && Takes(r, e, now)
    ensures EndInv(RunStep(r, e, hit, now))
  {
  }

  lemma RunInvLater(r: Run, now: nat, given: seq<Given>, later: nat, g: Given)
    requires RunInv(r, now, given) && now <= later
    ensures RunInv(r, later, given) && RunInv(r, later, given + [g])
  {
    if r.stage.Received? {
      GivenGrows(given, g, r.key, r.stage.response, now, later);
    }
    if r.stage.Served? {
      match r.stage.origin
      case Own => GivenGrows(given, g, r.key, r.stage.response, now, later);
      case FromCache(storedAt, _) => GivenGrows(given, g, r.key, r.stage.response, storedAt, storedAt);
      case FromStale(storedAt, _) => GivenGrows(given, g, r.key, r.stage.response, storedAt, storedAt);
    }
  }

  lemma RunStepServes(n: Net, r: Run, e: Event)
    requires CacheInv(n) && RunInv(r, n.now, n.given) && Takes(r, e, n.now) && !e.Respond?
    ensures ServedInv(RunStep(r, e, Entry(n.cache, r.key), n.now), n.now, n.given)
    ensures !RunStep(r, e, Entry(n.cache, r.key), n.now).stage.Received?
  {
  }

  lemma OwnStepKeepsRun(n: Net, e: Event)
    requires Inv(n) && Happens(n, e) && !e.Tick? && !e.Begin?
    ensures RunInv(Step(n, e).runs[e.run], n.now, Step(n, e).given)
  {
    var r := n.runs[e.run];
    var hit := Entry(n.cache, r.key);
    RunStepCounts(r, e, hit, n.now);
    RunStepEnds(r, e, hit, n.now);
    if e.Respond? {
      var given := Step(n, e).given;
      assert given[|given| - 1] == Given(r.key, e.response, n.now);
    } else {
      RunStepServes(n, r, e);
    }
  }

  lemma StepKeepsCache(n: Net, e: Event)
    requires Inv(n)
    ensures CacheInv(Step(n, e))
  {
    var t := Step(n, e);
    forall key | key in t.cache
      ensures t.cache[key].storedAt <= t.now && GivenBy(t.given, key, t.cache[key].response, t.cache[key].storedAt)
    {
      var entry := t.cache[key];
      if e.Keep? && Happens(n, e) && key == n.runs[e.run].key && t.cache != n.cache {
        assert RunInv(n.runs[e.run], n.now, n.given);
      } else if e.Respond? && Happens(n, e) {
        GivenGrows(n.given, Given(n.runs[e.run].key, e.response, n.now), key, entry.response, entry.storedAt,
            entry.storedAt);
      }
    }
  }

  lemma StepKeepsInv(n: Net, e: Event)
    requires Inv(n)
    ensures Inv(Step(n, e))
  {
    var t := Step(n, e);
    StepKeepsCache(n, e);
    forall i | i in t.runs
      ensures RunInv(t.runs[i], t.now, t.given)
    {
      if Happens(n, e) && !e.Tick? && i == e.run {
        if !e.Begin? {
          OwnStepKeepsRun(n, e);
        }
      } else {
        assert t.runs[i] == n.runs[i];
        RunInvLater(n.runs[i], n.now, n.given, t.now,
                    if e.Respond? && Happens(n, e) then t.given[|n.given|] else Given(n.runs[i].key, 0, 0));
      }
    }
  }

  lemma {:induction false} PlayInv(events: seq<Event>)
    ensures Inv(Play(events))
  {
    if events != [] {
      PlayInv(events[..|events| - 1]);
      StepKeepsInv(Play(events[..|events| - 1]), events[|events| - 1]);
    }
  }

  // ---- Results ----

  /**
   At most `maxRetries + 1` transport calls; only Unavailable is retried; the delays of `k` retries add up to
   `baseDelay * (2^k - 1)`, never saturated.
   */
  lemma CallsAreBounded(events: seq<Event>, i: nat)
    requires i in Play(events).runs
    ensures var r := Play(events).runs[i];
      var retries := |r.errors| - Count(GaveUp(r));
      && r.calls <= r.template.maxRetries + 1
      && 0 <= retries <= r.template.maxRetries
      && (forall k | 0 <= k < retries :: r.errors[k].Unavailable?)
      && r.slept == r.template.baseDelay * (Pow2(retries) - 1)
  {
    PlayInv(events);
    assert RunInv(Play(events).runs[i], Play(events).now, Play(events).given);
  }

  /**
   Whatever the other runs did to the cache, a served response is this run's own, or one the transport
   gave for the same key that was stored within `ttl` (before any call) or `ttl + stale` (after an error).
   */
  lemma ServedResponsesAreGenuine(events: seq<Event>, i: nat)
    requires i in Play(events).runs && Play(events).runs[i].stage.Served?
    ensures var n := Play(events); var r := n.runs[i];
      match r.stage.origin
      case Own => r.calls == |r.errors| + 1 && GivenBy(n.given, r.key, r.stage.response, n.now)
      case FromCache(storedAt, seenAt) =>
        && r.calls == 0 && seenAt <= storedAt + r.template.ttl
        && GivenBy(n.given, r.key, r.stage.response, storedAt)
      case FromStale(storedAt, seenAt) =>
        && r.calls == |r.errors| > 0 && seenAt <= storedAt + r.template.ttl + r.template.stale
        && GivenBy(n.given, r.key, r.stage.response, storedAt)
  {
    PlayInv(events);
    assert RunInv(Play(events).runs[i], Play(events).now, Play(events).given);
  }

  /** A run fails with the transport's last error, after every retry the error allowed; only then it degrades. */
  lemma BrokenMeansExhausted(events: seq<Event>, i: nat)
    requires i in Play(events).runs
    ensures var r := Play(events).runs[i];
      && (r.stage.Broken? ==>
            && r.errors != [] && Last(r.errors) == r.stage.error
            && (r.calls == r.template.maxRetries + 1 || !r.stage.error.Unavailable?))
      && (r.health == Some(Degraded) <==> r.stage.Broken?)
  {
    PlayInv(events);
    assert RunInv(Play(events).runs[i], Play(events).now, Play(events).given);
  }

  // ---- Termination ----

  /** The most own events a run can still take. */
  function Rank(r: Run): int
  {
    match r.stage
    case Looking => 2 * r.template.maxRetries + 3
    case Calling => 2 * (r.template.maxRetries - r.attempt) + 2
    case Sleeping(_) => 2 * (r.template.maxRetries - r.attempt) + 1
    case Received(_) => 1
    case Recovering(_) => 1
    case Served(_, _) => 0
    case Broken(_) => 0
  }

  /** How often run `i` moved in the run of the system. */
  function Moves(events: seq<Event>, i: nat): nat
  {
    if events == [] then 0
    else
      var before, e := events[..|events| - 1], events[|events| - 1];
      Moves(before, i) + Count(Happens(Play(before), e) && !e.Tick? && !e.Begin? && e.run == i)
  }

  lemma RankFalls(r: Run, e: Event, hit: Option<Cached>, now: nat)
    requires CountInv(r) && Takes(r, e, now)
    ensures 0 <= Rank(RunStep(r, e, hit, now)) < Rank(r)
  {
  }

  /** Every run ends: it moves at most `2 * maxRetries + 3` times. */
  lemma {:induction false} RunsEnd(events: seq<Event>, i: nat)
    requires i in Play(events).runs
    ensures var r := Play(events).runs[i];
      Moves(events, i) + Rank(r) <= 2 * r.template.maxRetries + 3 && Rank(r) >= 0
  {
    var before, e := events[..|events| - 1], events[|events| - 1];
    var n := Play(before);
    if i in n.runs {
      RunsEnd(before, i);
      PlayInv(before);
      if Happens(n, e) && !e.Tick? && !e.Begin? && e.run == i {
        RankFalls(n.runs[i], e, Entry(n.cache, n.runs[i].key), n.now);
      } else {
        assert Step(n, e).runs[i] == n.runs[i];
      }
    } else {
      NeverBegun(before, i);
    }
  }

  lemma {:induction false} NeverBegun(events: seq<Event>, i: nat)
    requires i !in Play(events).runs
    ensures Moves(events, i) == 0
  {
    if events != [] {
      NeverBegun(events[..|events| - 1], i);
    }
  }

  /** A run that has not ended can always move, once its delay has passed. */
  lemma RunCanMove(r: Run, now: nat, i: nat)
    requires !r.stage.Served? && !r.stage.Broken?
    ensures exists e: Event, later: nat :: later >= now && !e.Tick? && !e.Begin? && e.run == i && Takes(r, e, later)
  {
    var e, later := (match r.stage
                     case Looking => Lookup(i)
                     case Calling => Fail(i, Unavailable)
                     case Sleeping(_) => Wake(i)
                     case Received(_) => Keep(i)
                     case _ => Recover(i)),
                    if r.stage.Sleeping? && r.stage.until > now then r.stage.until else now;
    assert Takes(r, e, later);
  }
}
