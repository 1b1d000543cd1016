/**
 What a run of HTTPS work comes to, in terms of the events before it
 (crates/floatile-services/src/http.rs:291-336): when the cache serves, what it serves, and how long retries wait.
 */
module HttpsRuns {
  import opened Prelude
  import opened Https

  // ---- Events that took place ----

  predicate Did(events: seq<Event>, k: nat)
  {
    k < |events| && Happens(Play(events[..k]), events[k])
  }

  /** Event `k` is the answer of the transport to run `i`. */
  predicate Answers(events: seq<Event>, k: nat, i: nat, response: Response)
  {
    Did(events, k) && events[k] == Respond(i, response)
  }

  /** Event `k` starts run `i` for that key with that template. */
  predicate Begins(events: seq<Event>, k: nat, i: nat, key: Key, template: Template)
  {
    Did(events, k) && events[k] == Begin(i, key, template)
  }

  predicate Caches(template: Template)
  {
    template.ttl > 0 || template.stale > 0
  }

  /** Event `k` is the keeping of a response for `key` by a run whose template caches. */
  predicate Keeps(events: seq<Event>, k: nat, key: Key)
  {
    && Did(events, k) && events[k].Keep?
    && var r := Play(events[..k]).runs[events[k].run];
    r.key == key && Caches(r.template)
  }

  predicate LastKeep(events: seq<Event>, k: nat, key: Key)
  {
    Keeps(events, k, key) && forall j | k < j < |events| :: !Keeps(events, j, key)
  }

  lemma Earlier(events: seq<Event>, k: nat)
    requires k < |events| - 1
    ensures events[..|events| - 1][..k] == events[..k]
    ensures Did(events[..|events| - 1], k) <==> Did(events, k)
  {
    assert events[..|events| - 1][..k] == events[..k];
  }

  function Elapsed(events: seq<Event>): nat
  {
    if events == [] then 0
    else
      var last := events[|events| - 1];
      Elapsed(events[..|events| - 1]) + if last.Tick? then last.ms else 0
  }

  /** The clock is the sum of the ticks, and a run keeps the key and template it began with. */
  lemma {:induction false} RunsKeepTheirTemplate(events: seq<Event>, i: nat)
    ensures Play(events).now == Elapsed(events)
    ensures i in Play(events).runs ==>
              exists k :: Begins(events, k, i, Play(events).runs[i].key, Play(events).runs[i].template)
  {
    if events != [] {
      var n := |events| - 1;
      var before := events[..n];
      RunsKeepTheirTemplate(before, i);
      if i in Play(before).runs {
        var r := Play(before).runs[i];
        var k :| Begins(before, k, i, r.key, r.template);
        Earlier(events, k);
        assert Begins(events, k, i, r.key, r.template);
        assert Play(events).runs[i].key == r.key && Play(events).runs[i].template == r.template;
      } else if i in Play(events).runs {
        assert Begins(events, n, i, Play(events).runs[i].key, Play(events).runs[i].template);
      }
    }
  }

  /** The response a run holds, or has returned as its own, is the answer it got. */
  predicate Holds(r: Run, response: Response)
  {
    r.stage == Received(response) || r.stage == Served(response, Own)
  }

  lemma {:induction false} HeldIsAnswer(events: seq<Event>, i: nat, response: Response)
    requires i in Play(events).runs && Holds(Play(events).runs[i], response)
    ensures exists k :: Answers(events, k, i, response)
  {
    var n := |events| - 1;
    var before := events[..n];
    if i in Play(before).runs && Holds(Play(before).runs[i], response) {
      HeldIsAnswer(before, i, response);
      var k :| Answers(before, k, i, response);
      Earlier(events, k);
      assert Answers(events, k, i, response);
    } else {
      assert Answers(events, n, i, response);
    }
  }

  // ---- What the cache holds ----

  /** The instant and the response of the keeping at `k`. */
  ghost predicate KeptAs(events: seq<Event>, k: nat, key: Key, entry: Cached)
  {
    && Keeps(events, k, key)
    && entry.storedAt == Elapsed(events[..k])
    && exists j :: Answers(events[..k], j, events[k].run, entry.response)
  }

  lemma KeepsEarlier(events: seq<Event>, k: nat, key: Key)
    requires k < |events| - 1
    ensures Keeps(events[..|events| - 1], k, key) <==> Keeps(events, k, key)
  {
    Earlier(events, k);
  }

  lemma KeptEarlier(events: seq<Event>, k: nat, key: Key, entry: Cached)
    requires k < |events| - 1 && KeptAs(events[..|events| - 1], k, key, entry)
    ensures KeptAs(events, k, key, entry)
  {
    Earlier(events, k);
  }

  lemma KeepsNow(events: seq<Event>, key: Key)
    requires events != [] && Keeps(events, |events| - 1, key)
    ensures key in Play(events).cache && LastKeep(events, |events| - 1, key)
    ensures KeptAs(events, |events| - 1, key, Play(events).cache[key])
  {
    var n := |events| - 1;
    var before := events[..n];
    var i := events[n].run;
    HeldIsAnswer(before, i, Play(before).runs[i].stage.response);
    RunsKeepTheirTemplate(before, i);
  }

  lemma LastKeepEarlier(events: seq<Event>, k: nat, key: Key)
    requires events != [] && !Keeps(events, |events| - 1, key)
    ensures LastKeep(events, k, key) <==> LastKeep(events[..|events| - 1], k, key)
  {
    var n := |events| - 1;
    forall j: nat | j < n
      ensures Keeps(events[..n], j, key) <==> Keeps(events, j, key)
    {
      KeepsEarlier(events, j, key);
    }
  }

  lemma NotKeptNow(events: seq<Event>, key: Key)
    requires events != [] && !Keeps(events, |events| - 1, key)
    ensures Entry(Play(events).cache, key) == Entry(Play(events[..|events| - 1]).cache, key)
  {
  }

  /** An entry of the cache is what the last keeping for its key put there. */
  lemma {:induction false} CacheIsLastKeep(events: seq<Event>, key: Key)
    ensures key in Play(events).cache <==> exists k :: LastKeep(events, k, key)
    ensures key in Play(events).cache ==>
              exists k :: LastKeep(events, k, key) && KeptAs(events, k, key, Play(events).cache[key])
  {
    if events != [] {
      var n := |events| - 1;
      if Keeps(events, n, key) {
        KeepsNow(events, key);
      } else {
        CacheIsLastKeep(events[..n], key);
        NotKeptNow(events, key);
        assert Entry(Play(events).cache, key).Some? <==> Entry(Play(events[..n]).cache, key).Some?;
        if key in Play(events).cache {
          assert Play(events).cache[key] == Play(events[..n]).cache[key];
          var k :| LastKeep(events[..n], k, key) && KeptAs(events[..n], k, key, Play(events).cache[key]);
          KeptEarlier(events, k, key, Play(events).cache[key]);
          LastKeepEarlier(events, k, key);
        }
        if k :| LastKeep(events, k, key) {
          LastKeepEarlier(events, k, key);
        }
      }
    }
  }

  lemma LastKeepIsUnique(events: seq<Event>, key: Key, j: nat, k: nat)
    requires LastKeep(events, j, key) && LastKeep(events, k, key)
    ensures j == k
  {
  }

  // ---- Results ----

  /** The last keeping for the key is at most `age` old. */
  predicate KeptWithin(events: seq<Event>, key: Key, age: nat)
  {
    exists k: nat | k < |events| :: LastKeep(events, k, key) && Elapsed(events) - Elapsed(events[..k]) <= age
  }

  /** The run ends with the response of the last keeping for the key. */
  ghost predicate ServesLast(events: seq<Event>, key: Key, stage: Stage)
  {
    stage.Served? && exists k: nat, entry | k < |events| ::
      LastKeep(events, k, key) && KeptAs(events, k, key, entry) && entry.response == stage.response
  }

  /**
   A look-up serves exactly when the template has a ttl and the last keeping for its key, by any run, is no older than
   that; it serves the response kept there, and otherwise the transport is called.
   */
  lemma LookupServes(events: seq<Event>, i: nat)
    requires i in Play(events).runs && Play(events).runs[i].stage.Looking?
    ensures var r, next := Play(events).runs[i], Play(events + [Lookup(i)]).runs[i];
      if r.template.ttl > 0 && KeptWithin(events, r.key, r.template.ttl)
      then ServesLast(events, r.key, next.stage) && next.calls == 0
      else next.stage.Calling?
  {
    PlayInv(events);
    var r := Play(events).runs[i];
    assert RunInv(r, Play(events).now, Play(events).given);
    PlayMore(events, Lookup(i));
    EntryAge(events, r.key);
    RunsKeepTheirTemplate(events, i);
  }

  /**
   After its last failed call a run serves exactly when stale entries are allowed and the last keeping is at most ttl
   and the stale time old; it serves the response kept there, and otherwise ends with the transport's error.
   */
  lemma RecoverServes(events: seq<Event>, i: nat)
    requires i in Play(events).runs && Play(events).runs[i].stage.Recovering?
    ensures var r, next := Play(events).runs[i], Play(events + [Recover(i)]).runs[i];
      if r.template.stale > 0 && KeptWithin(events, r.key, r.template.ttl + r.template.stale)
      then ServesLast(events, r.key, next.stage)
      else r.errors != [] && next.stage == Broken(Last(r.errors)) && next.health == Some(Degraded)
  {
    PlayInv(events);
    var r := Play(events).runs[i];
    assert RunInv(r, Play(events).now, Play(events).given);
    PlayMore(events, Recover(i));
    EntryAge(events, r.key);
    RunsKeepTheirTemplate(events, i);
  }

  lemma PlayMore(events: seq<Event>, e: Event)
    ensures Play(events + [e]) == Step(Play(events), e)
  {
    assert (events + [e])[..|events|] == events;
  }

  lemma EntryAge(events: seq<Event>, key: Key)
    ensures key in Play(events).cache ==>
              && (forall age: nat :: KeptWithin(events, key, age) <==>
                    Elapsed(events) - Play(events).cache[key].storedAt <= age)
              && exists k: nat :: k < |events| && LastKeep(events, k, key)
                  && KeptAs(events, k, key, Play(events).cache[key])
    ensures key !in Play(events).cache ==> forall age: nat :: !KeptWithin(events, key, age)
  {
    CacheIsLastKeep(events, key);
    if key in Play(events).cache {
      var k :| LastKeep(events, k, key) && KeptAs(events, k, key, Play(events).cache[key]);
      forall j: nat | LastKeep(events, j, key)
        ensures j == k
      {
        LastKeepIsUnique(events, key, j, k);
      }
    }
  }

  /** A run that has ended stays as it is: a response served from the cache costs no call, then or later. */
  lemma {:induction false} EndedForever(events: seq<Event>, more: seq<Event>, i: nat)
    requires i in Play(events).runs && (Play(events).runs[i].stage.Served? || Play(events).runs[i].stage.Broken?)
    ensures i in Play(events + more).runs && Play(events + more).runs[i] == Play(events).runs[i]
  {
    if more == [] {
      assert events + more == events;
    } else {
      var init, e := more[..|more| - 1], more[|more| - 1];
      EndedForever(events, init, i);
      assert events + more == (events + init) + [e];
      PlayMore(events + init, e);
    }
  }

  // ---- Retries take their time ----

  predicate Lasted(r: Run, began: nat, now: nat)
  {
    if r.stage.Sleeping? then r.stage.until >= began + r.slept else now >= began + r.slept
  }

  /** When run `i` began, if it did. */
  function BeganAt(events: seq<Event>, i: nat): nat
  {
    if events == [] then 0
    else
      var before := events[..|events| - 1];
      if i !in Play(before).runs then Elapsed(before) else BeganAt(before, i)
  }

  lemma {:induction false} RunsLast(events: seq<Event>, i: nat)
    requires i in Play(events).runs
    ensures Lasted(Play(events).runs[i], BeganAt(events, i), Play(events).now)
  {
    var before, e := events[..|events| - 1], events[|events| - 1];
    RunsKeepTheirTemplate(before, i);
    if i in Play(before).runs {
      RunsLast(before, i);
    }
  }

  /** A call after `k` retries comes at least `baseDelay * (2^k - 1)` after the run began. */
  lemma RetriesWait(events: seq<Event>, i: nat)
    requires i in Play(events).runs && Play(events).runs[i].stage.Calling?
    ensures var r := Play(events).runs[i];
      && |r.errors| == r.calls
      && Elapsed(events) >= BeganAt(events, i) + r.template.baseDelay * (Pow2(r.calls) - 1)
  {
    PlayRun(events, i);
    RunsLast(events, i);
    RunsKeepTheirTemplate(events, i);
    CallingWaited(Play(events).runs[i], BeganAt(events, i), Play(events).now, Play(events).given);
  }

  lemma CallingWaited(r: Run, began: nat, now: nat, given: seq<Given>)
    requires RunInv(r, now, given) && r.stage.Calling? && Lasted(r, began, now)
    ensures |r.errors| == r.calls && now >= began + r.template.baseDelay * (Pow2(r.calls) - 1)
  {
  }

  lemma PlayRun(events: seq<Event>, i: nat)
    requires i in Play(events).runs
    ensures RunInv(Play(events).runs[i], Play(events).now, Play(events).given)
  {
    PlayInv(events);
  }

  /** A failed call is retried exactly when it was Unavailable and a retry is left, and no later than its delay ends. */
  lemma FailRetries(events: seq<Event>, i: nat, error: Error)
    requires i in Play(events).runs && Play(events).runs[i].stage.Calling?
    ensures var r, next := Play(events).runs[i], Play(events + [Fail(i, error)]).runs[i];
      && next.errors == r.errors + [error] && next.calls == r.calls + 1
      && next.stage == if error.Unavailable? && |r.errors| < r.template.maxRetries
                       then Sleeping(Elapsed(events) + r.template.baseDelay * Pow2(|r.errors|))
                       else Recovering(error)
  {
    PlayInv(events);
    PlayMore(events, Fail(i, error));
    RunsKeepTheirTemplate(events, i);
    var r := Play(events).runs[i];
    assert RunInv(r, Play(events).now, Play(events).given);
    if r.attempt < r.template.maxRetries {
      DelaysAdd(r.template.baseDelay, r.attempt);
    }
  }

  /** A response a run serves as its own, or keeps for others, is the transport's answer to that run. */
  lemma OwnIsAnswer(events: seq<Event>, i: nat)
    requires i in Play(events).runs && Play(events).runs[i].stage.Served? && Play(events).runs[i].stage.origin.Own?
    ensures exists k :: Answers(events, k, i, Play(events).runs[i].stage.response)
  {
    HeldIsAnswer(events, i, Play(events).runs[i].stage.response);
  }

  // ---- Runs take place ----

  /** Work of a valid template begins by looking at the cache. */
  lemma WorkBegins(events: seq<Event>, i: nat, key: Key, template: Template)
    requires i !in Play(events).runs && ValidTemplate(template)
    ensures var n := Play(events + [Begin(i, key, template)]);
      && i in n.runs && n.runs[i].stage.Looking? && n.runs[i].calls == 0
      && n.runs[i].key == key && n.runs[i].template == template
  {
    PlayMore(events, Begin(i, key, template));
  }

  /** The transport's answer is what the run returns, and what later runs find when the template caches. */
  lemma AnswerIsServed(events: seq<Event>, i: nat, response: Response)
    requires i in Play(events).runs && Play(events).runs[i].stage.Calling?
    ensures var r, n := Play(events).runs[i], Play(events + [Respond(i, response), Keep(i)]);
      && i in n.runs && n.runs[i].stage == Served(response, Own) && n.runs[i].calls == r.calls + 1
      && (Caches(r.template) ==> n.cache == Play(events).cache[r.key := Cached(Elapsed(events), response)])
      && (!Caches(r.template) ==> n.cache == Play(events).cache)
  {
    RunsKeepTheirTemplate(events, i);
    PlayMore(events, Respond(i, response));
    PlayMore(events + [Respond(i, response)], Keep(i));
    assert events + [Respond(i, response)] + [Keep(i)] == events + [Respond(i, response), Keep(i)];
  }

  /** A slept run calls again, once its delay has passed and no earlier. */
  lemma WakeCallsAgain(events: seq<Event>, i: nat)
    requires i in Play(events).runs && Play(events).runs[i].stage.Sleeping?
    ensures var r, n := Play(events).runs[i], Play(events + [Wake(i)]);
      i in n.runs &&
      var next := n.runs[i];
      if Elapsed(events) >= r.stage.until then next.stage.Calling? && next.calls == r.calls else next == r
  {
    RunsKeepTheirTemplate(events, i);
    PlayMore(events, Wake(i));
  }
}
