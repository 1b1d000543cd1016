/**
 The instance State machine behind `update_state` (crates/floatile-runtime/src/state.rs:56-151).

 Schema validation and serialized size are parameters. The broker's decision, the clock and the parsed
 patch arrive with each call; the UI side takes updates out of a bounded queue or closes it.
 */
module UiState {
  import opened Prelude
  import opened Patch
  import opened Limiter

  const MAX_STATE_BYTES: nat := 64 * 1024
  const MAX_PATCH_BYTES: nat := 16 * 1024
  const MAX_UPDATE_RATE_PER_SEC: nat := 30
  const SECOND: nat := 1_000_000_000
  const QUEUE_CAPACITY: nat := 64

  datatype Schema = Schema(accepts: Json -> bool, encodedSize: Json -> nat)

  datatype UiError =
    | NotAllowed
    | UpdateRateExceeded
    | PatchTooLarge
    | InvalidJson
    | SchemaMismatch
    | StateTooLarge
    | QueueFull

  /** `parsed` is None when the text is not JSON. */
  datatype Call = Call(authorized: bool, now: nat, patchBytes: nat, parsed: Option<Json>)

  datatype Update = Update(seqNo: nat, state: Json)

  datatype Ui = Ui(state: Json, seqNo: nat, window: Window, queue: seq<Update>, isOpen: bool)

  function RateAttempt(call: Call): Attempt
  {
    Attempt(call.now, call.now, true)
  }

  /** The patch of the call passes every check up to the commit. */
  predicate Commits(schema: Schema, ui: Ui, call: Call)
  {
    && call.authorized
    && Admits(ui.window, RateAttempt(call), SECOND, MAX_UPDATE_RATE_PER_SEC)
    && call.patchBytes <= MAX_PATCH_BYTES
    && call.parsed.Some?
    && call.parsed.value.Object?
    && schema.accepts(MergePatch(ui.state, call.parsed.value))
    && schema.encodedSize(MergePatch(ui.state, call.parsed.value)) <= MAX_STATE_BYTES
  }

  /** The checks of a call, in the order of precedence of their errors. */
  function Checks(schema: Schema, ui: Ui, call: Call): seq<Check<UiError>>
  {
    var merged := if call.parsed.Some? then MergePatch(ui.state, call.parsed.value) else Null;
    [ Check(call.authorized, NotAllowed),
      Check(Admits(ui.window, RateAttempt(call), SECOND, MAX_UPDATE_RATE_PER_SEC), UpdateRateExceeded),
      Check(call.patchBytes <= MAX_PATCH_BYTES, PatchTooLarge),
      Check(call.parsed.Some? && call.parsed.value.Object?, InvalidJson),
      Check(schema.accepts(merged), SchemaMismatch),
      Check(schema.encodedSize(merged) <= MAX_STATE_BYTES, StateTooLarge) ]
  }

  predicate HasRoom(ui: Ui)
  {
    ui.isOpen && |ui.queue| < QUEUE_CAPACITY
  }

  /** The state after a call. An update that cannot be queued is lost, but the commit stands. */
  function AfterCall(schema: Schema, ui: Ui, call: Call): Ui
  {
    var window := if call.authorized then After(ui.window, RateAttempt(call), SECOND, MAX_UPDATE_RATE_PER_SEC)
                  else ui.window;
    if Commits(schema, ui, call) then
      var next := MergePatch(ui.state, call.parsed.value);
      var queue := if HasRoom(ui) then ui.queue + [Update(ui.seqNo + 1, next)] else ui.queue;
      Ui(next, ui.seqNo + 1, window, queue, ui.isOpen)
    else ui.(window := window)
  }

  class UiHost {
    var state: Json
    var seqNo: nat
    var window: RateWindow
    var queue: seq<Update>
    var isOpen: bool
    const schema: Schema

    constructor (schema: Schema, initial: Json, now: nat)
      ensures View() == Ui(initial, 0, Window(now, 0), [], true) && this.schema == schema && fresh(window)
    {
      state, seqNo, queue, isOpen := initial, 0, [], true;
      this.schema := schema;
      window := new RateWindow(now);
    }

    function View(): Ui
      reads this, window
    {
      Ui(state, seqNo, window.View(), queue, isOpen)
    }

    /**
     `update_state`. The first check that fails gives the error, and leaves State and sequence number as they were;
     QueueFull is reported after the commit.
     */
    method UpdateState(call: Call) returns (r: Result<(), UiError>)
      modifies this, window
      ensures View() == AfterCall(schema, old(View()), call)
      ensures window == old(window)
      ensures r.Ok? <==> Commits(schema, old(View()), call) && HasRoom(old(View()))
      ensures Commits(schema, old(View()), call) <==> AllHold(Checks(schema, old(View()), call))
      ensures !Commits(schema, old(View()), call) ==>
        r.Err? && FirstFailure(Checks(schema, old(View()), call), r.error)
      ensures r == Err(QueueFull) <==> Commits(schema, old(View()), call) && !HasRoom(old(View()))
      ensures r.Err? && r.error != QueueFull ==> state == old(state) && seqNo == old(seqNo) && queue == old(queue)
    {
      ghost var checks := Checks(schema, View(), call);
      if !call.authorized {
        assert FailsFirst(checks, 0);
        return Err(NotAllowed);
      }
      var admitted := window.Reserve(RateAttempt(call), SECOND, MAX_UPDATE_RATE_PER_SEC);
      if !admitted {
        assert FailsFirst(checks, 1);
        return Err(UpdateRateExceeded);
      }
      if call.patchBytes > MAX_PATCH_BYTES {
        assert FailsFirst(checks, 2);
        return Err(PatchTooLarge);
      }
      if call.parsed.None? || !call.parsed.value.Object? {
        assert FailsFirst(checks, 3);
        return Err(InvalidJson);
      }
      var next := Merge(state, call.parsed.value);
      if !schema.accepts(next) {
        assert FailsFirst(checks, 4);
        return Err(SchemaMismatch);
      }
      if schema.encodedSize(next) > MAX_STATE_BYTES {
        assert FailsFirst(checks, 5);
        return Err(StateTooLarge);
      }
      seqNo := seqNo + 1;
      state := next;
      if !isOpen || |queue| >= QUEUE_CAPACITY {
        return Err(QueueFull);
      }
      queue := queue + [Update(seqNo, next)];
      return Ok(());
    }
  }

  // ---- Runs: calls interleaved with the UI side taking updates or going away ----

  datatype Event = Called(call: Call) | Taken | Closed

  /** A run remembers the committed patches and every update that entered the queue. */
  datatype History = History(ui: Ui, commits: seq<Json>, sent: seq<Update>)

  function Step(schema: Schema, r: History, e: Event): History
  {
    match e
    case Called(call) =>
      var ui := AfterCall(schema, r.ui, call);
      if Commits(schema, r.ui, call)
      then History(ui, r.commits + [call.parsed.value], if HasRoom(r.ui) then r.sent + [Update(ui.seqNo, ui.state)]
          else r.sent)
      else r.(ui := ui)
    case Taken => if r.ui.queue == [] then r else r.(ui := r.ui.(queue := r.ui.queue[1..]))
    case Closed => r.(ui := r.ui.(isOpen := false))
  }

  function Play(schema: Schema, initial: Json, start: nat, events: seq<Event>): History
  {
    if events == [] then History(Ui(initial, 0, Window(start, 0), [], true), [], [])
    else Step(schema, Play(schema, initial, start, events[..|events| - 1]), events[|events| - 1])
  }

  /** The initial State with the patches merged into it, left to right. */
  function Fold(initial: Json, patches: seq<Json>): Json
  {
    if patches == [] then initial else MergePatch(Fold(initial, patches[..|patches| - 1]), patches[|patches| - 1])
  }

  /** Update `u` carries the State as of its sequence number. */
  ghost predicate Snapshot(initial: Json, commits: seq<Json>, u: Update)
  {
    1 <= u.seqNo <= |commits| && u.state == Fold(initial, commits[..u.seqNo])
  }

  ghost predicate Increasing(updates: seq<Update>)
  {
    forall i, j | 0 <= i < j < |updates| :: updates[i].seqNo < updates[j].seqNo
  }

  /** Every State along the commits is schema-valid, and within its size once committed. */
  ghost predicate Sound(schema: Schema, initial: Json, commits: seq<Json>)
  {
    forall k | 0 <= k <= |commits| ::
      && schema.accepts(Fold(initial, commits[..k]))
      && (k > 0 ==> schema.encodedSize(Fold(initial, commits[..k])) <= MAX_STATE_BYTES)
  }

  ghost predicate Snapshots(initial: Json, commits: seq<Json>, sent: seq<Update>)
  {
    Increasing(sent) && forall u | u in sent :: Snapshot(initial, commits, u)
  }

  ghost predicate QueueIsTail(queue: seq<Update>, sent: seq<Update>)
  {
    |queue| <= QUEUE_CAPACITY && |queue| <= |sent| && queue == sent[|sent| - |queue|..]
  }

  ghost predicate Inv(schema: Schema, initial: Json, r: History)
  {
    && r.ui.seqNo == |r.commits|
    && r.ui.state == Fold(initial, r.commits)
    && Sound(schema, initial, r.commits)
    && Snapshots(initial, r.commits, r.sent)
    && QueueIsTail(r.ui.queue, r.sent)
  }

  lemma FoldAppend(initial: Json, commits: seq<Json>, patch: Json)
    ensures Fold(initial, commits + [patch]) == MergePatch(Fold(initial, commits), patch)
  {
    assert (commits + [patch])[..|commits|] == commits;
  }

  lemma SoundAppend(schema: Schema, initial: Json, commits: seq<Json>, patch: Json)
    requires Sound(schema, initial, commits)
    requires var next := Fold(initial, commits + [patch]);
             schema.accepts(next) && schema.encodedSize(next) <= MAX_STATE_BYTES
    ensures Sound(schema, initial, commits + [patch])
  {
    var all := commits + [patch];
    forall k | 0 <= k <= |all|
      ensures schema.accepts(Fold(initial, all[..k]))
      ensures k > 0 ==> schema.encodedSize(Fold(initial, all[..k])) <= MAX_STATE_BYTES
    {
      if k <= |commits| {
        assert all[..k] == commits[..k];
      } else {
        assert all[..k] == all;
      }
    }
  }

  lemma SnapshotsAppend(initial: Json, commits: seq<Json>, patch: Json, sent: seq<Update>)
    requires Snapshots(initial, commits, sent)
    ensures Snapshots(initial, commits + [patch], sent)
    ensures Snapshots(initial, commits + [patch], sent + [Update(|commits| + 1, Fold(initial, commits + [patch]))])
  {
    var all := commits + [patch];
    assert all[..|commits| + 1] == all;
    forall u | u in sent
      ensures Snapshot(initial, all, u) && u.seqNo <= |commits|
    {
      assert Snapshot(initial, commits, u);
      assert all[..u.seqNo] == commits[..u.seqNo];
    }
    assert forall i | 0 <= i < |sent| :: sent[i] in sent;
  }

  /** What a commit does to the run. */
  lemma CommitStep(schema: Schema, r: History, call: Call)
    requires Commits(schema, r.ui, call)
    ensures var t, patch := Step(schema, r, Called(call)), call.parsed.value;
      var update := Update(r.ui.seqNo + 1, MergePatch(r.ui.state, patch));
      && t.ui.seqNo == r.ui.seqNo + 1 && t.ui.state == MergePatch(r.ui.state, patch)
      && t.commits == r.commits + [patch]
      && t.sent == (if HasRoom(r.ui) then r.sent + [update] else r.sent)
      && t.ui.queue == (if HasRoom(r.ui) then r.ui.queue + [update] else r.ui.queue)
  {
  }

  lemma TailGrows(queue: seq<Update>, sent: seq<Update>, update: Update)
    requires QueueIsTail(queue, sent) && |queue| < QUEUE_CAPACITY
    ensures QueueIsTail(queue + [update], sent + [update])
  {
    var all := sent + [update];
    assert all[|all| - |queue| - 1..] == sent[|sent| - |queue|..] + [update];
  }

  lemma CommitKeepsInv(schema: Schema, initial: Json, r: History, call: Call)
    requires Inv(schema, initial, r) && Commits(schema, r.ui, call)
    ensures Inv(schema, initial, Step(schema, r, Called(call)))
  {
    var patch := call.parsed.value;
    FoldAppend(initial, r.commits, patch);
    SoundAppend(schema, initial, r.commits, patch);
    SnapshotsAppend(initial, r.commits, patch, r.sent);
    CommitStep(schema, r, call);
    if HasRoom(r.ui) {
      TailGrows(r.ui.queue, r.sent, Update(r.ui.seqNo + 1, MergePatch(r.ui.state, patch)));
    }
  }

  lemma {:induction false} PlayInv(schema: Schema, initial: Json, start: nat, events: seq<Event>)
    requires schema.accepts(initial)
    ensures Inv(schema, initial, Play(schema, initial, start, events))
  {
    if events == [] {
    } else {
      var before := events[..|events| - 1];
      PlayInv(schema, initial, start, before);
      var r := Play(schema, initial, start, before);
      var e := events[|events| - 1];
      if e.Called? && Commits(schema, r.ui, e.call) {
        CommitKeepsInv(schema, initial, r, e.call);
      }
    }
  }

  /**
   Over every sequence of calls from a schema-valid initial State: the State is the initial one with
   the committed patches merged in order, it is schema-valid after each commit and within its size
   bound, and the sequence number counts commits.
   */
  lemma {:induction false} StateIsFoldOfCommits(schema: Schema, initial: Json, start: nat, events: seq<Event>)
    requires schema.accepts(initial)
    ensures var r := Play(schema, initial, start, events);
            && r.ui.seqNo == |r.commits|
            && r.ui.state == Fold(initial, r.commits)
            && schema.accepts(r.ui.state)
            && (r.commits != [] ==> schema.encodedSize(r.ui.state) <= MAX_STATE_BYTES)
  {
    PlayInv(schema, initial, start, events);
    var r := Play(schema, initial, start, events);
    assert r.commits[..|r.commits|] == r.commits;
  }

  /**
   Updates that reached the queue form a subsequence of the commits: sequence numbers strictly
   increase and each update carries the State as of its number. The UI takes them in that order.
   */
  lemma DeliveredUpdates(schema: Schema, initial: Json, start: nat, events: seq<Event>)
    requires schema.accepts(initial)
    ensures var r := Play(schema, initial, start, events);
            && Increasing(r.sent)
            && (forall u | u in r.sent :: Snapshot(initial, r.commits, u))
            && |r.ui.queue| <= |r.sent|
            && r.ui.queue == r.sent[|r.sent| - |r.ui.queue|..]
  {
    PlayInv(schema, initial, start, events);
  }

  // ---- What the UI has seen ----

  /** The last commit of the run found room in the queue. */
  predicate LastCommitHadRoom(schema: Schema, initial: Json, start: nat, events: seq<Event>)
  {
    if events == [] then false
    else
      var before, e := events[..|events| - 1], events[|events| - 1];
      var ui := Play(schema, initial, start, before).ui;
      if e.Called? && Commits(schema, ui, e.call) then HasRoom(ui)
      else LastCommitHadRoom(schema, initial, start, before)
  }

  /** The last update that reached the queue is the current State under its number. */
  predicate ShowsCurrent(r: History)
  {
    r.sent != [] && r.sent[|r.sent| - 1] == Update(r.ui.seqNo, r.ui.state)
  }

  predicate Older(sent: seq<Update>, seqNo: nat)
  {
    forall u | u in sent :: u.seqNo < seqNo
  }

  lemma CommitShows(schema: Schema, initial: Json, s: History, call: Call)
    requires Inv(schema, initial, s) && Commits(schema, s.ui, call)
    ensures var t := Step(schema, s, Called(call));
      (ShowsCurrent(t) <==> HasRoom(s.ui)) && (!HasRoom(s.ui) ==> Older(t.sent, t.ui.seqNo))
  {
    forall u | u in s.sent
      ensures u.seqNo <= s.ui.seqNo
    {
      assert Snapshot(initial, s.commits, u);
    }
    if !HasRoom(s.ui) && s.sent != [] {
      assert s.sent[|s.sent| - 1] in s.sent;
    }
  }

  lemma OtherKeepsShown(schema: Schema, s: History, e: Event)
    requires e.Called? ==> !Commits(schema, s.ui, e.call)
    ensures var t := Step(schema, s, e);
      t.sent == s.sent && t.ui.seqNo == s.ui.seqNo && t.ui.state == s.ui.state && t.commits == s.commits
  {
  }

  /**
   Whatever was called, taken or closed in between: what the UI has been sent last is the current State
   exactly when the last commit had room. Otherwise every update sent is older than the State.
   */
  lemma {:induction false} ShownIffLastCommitHadRoom(schema: Schema, initial: Json, start: nat, events: seq<Event>)
    requires schema.accepts(initial)
    ensures var r := Play(schema, initial, start, events);
      && (ShowsCurrent(r) <==> LastCommitHadRoom(schema, initial, start, events))
      && (r.commits != [] && !ShowsCurrent(r) ==> Older(r.sent, r.ui.seqNo))
  {
    if events != [] {
      var before, e := events[..|events| - 1], events[|events| - 1];
      ShownIffLastCommitHadRoom(schema, initial, start, before);
      PlayInv(schema, initial, start, before);
      var s := Play(schema, initial, start, before);
      if e.Called? && Commits(schema, s.ui, e.call) {
        CommitShows(schema, initial, s, e.call);
      } else {
        OtherKeepsShown(schema, s, e);
      }
    }
  }

  /**
   A call answered QueueFull has committed its patch: the run goes on from the merged State, the sequence
   number counts it, and no update sent so far shows it.
   */
  lemma {:induction false} QueueFullStillCommits(schema: Schema, initial: Json, start: nat, events: seq<Event>,
      call: Call)
    requires schema.accepts(initial)
    requires var ui := Play(schema, initial, start, events).ui; Commits(schema, ui, call) && !HasRoom(ui)
    ensures var s, t := Play(schema, initial, start, events), Play(schema, initial, start, events + [Called(call)]);
      && t.commits == s.commits + [call.parsed.value] && t.ui.state == Fold(initial, t.commits)
      && t.ui.seqNo == |t.commits| && t.sent == s.sent
      && !ShowsCurrent(t) && Older(t.sent, t.ui.seqNo)
  {
    var all := events + [Called(call)];
    assert all[..|all| - 1] == events;
    PlayInv(schema, initial, start, all);
    ShownIffLastCommitHadRoom(schema, initial, start, all);
  }

  /** Once the UI side is gone nothing more is ever sent, though calls go on committing. */
  lemma {:induction false} ClosedSendsNothing(schema: Schema, initial: Json, start: nat, events: seq<Event>,
      more: seq<Event>)
    requires !Play(schema, initial, start, events).ui.isOpen
    ensures var s, t := Play(schema, initial, start, events), Play(schema, initial, start, events + more);
      !t.ui.isOpen && t.sent == s.sent && |s.commits| <= |t.commits|
  {
    if more == [] {
      assert events + more == events;
    } else {
      var prefix := more[..|more| - 1];
      assert (events + more)[..|events + more| - 1] == events + prefix;
      ClosedSendsNothing(schema, initial, start, events, prefix);
    }
  }

  /** Resubmitting a patch whose update was lost commits the same State again. */
  lemma RetryAfterQueueFull(schema: Schema, ui: Ui, call: Call, retry: Call)
    requires Commits(schema, ui, call)
    requires retry.parsed == call.parsed && Commits(schema, AfterCall(schema, ui, call), retry)
    ensures AfterCall(schema, AfterCall(schema, ui, call), retry).state == AfterCall(schema, ui, call).state
  {
    MergeIdempotent(ui.state, call.parsed.value);
  }

  // ---- The rate of a run ----

  /** The attempts that a run makes on its rate: one for each authorized call, at its instant. */
  function Attempts(events: seq<Event>): seq<Attempt>
  {
    if events == [] then []
    else
      var before, e := Attempts(events[..|events| - 1]), events[|events| - 1];
      if e.Called? && e.call.authorized then before + [Attempt(e.call.now, e.call.now, true)] else before
  }

  lemma StepWindow(schema: Schema, r: History, e: Event)
    ensures Step(schema, r, e).ui.window ==
            if e.Called? && e.call.authorized
            then After(r.ui.window, Attempt(e.call.now, e.call.now, true), SECOND, MAX_UPDATE_RATE_PER_SEC)
            else r.ui.window
    ensures |Step(schema, r, e).commits| <= |r.commits| + Count(e.Called? && e.call.authorized &&
              Admits(r.ui.window, Attempt(e.call.now, e.call.now, true), SECOND, MAX_UPDATE_RATE_PER_SEC))
  {
  }

  lemma LimiterStep(start: nat, attempts: seq<Attempt>, a: Attempt)
    ensures var before := Limiter.Play(start, attempts, SECOND, MAX_UPDATE_RATE_PER_SEC);
      var after := Limiter.Play(start, attempts + [a], SECOND, MAX_UPDATE_RATE_PER_SEC);
      && after.window == After(before.window, a, SECOND, MAX_UPDATE_RATE_PER_SEC)
      && |after.admitted| == |before.admitted| + Count(Admits(before.window, a, SECOND, MAX_UPDATE_RATE_PER_SEC))
  {
    assert (attempts + [a])[..|attempts|] == attempts;
  }

  /** The rate window of a run is that of the limiter on its authorized calls. */
  lemma {:induction false} WindowIsLimiter(schema: Schema, initial: Json, start: nat, events: seq<Event>)
    ensures Play(schema, initial, start, events).ui.window ==
            Limiter.Play(start, Attempts(events), SECOND, MAX_UPDATE_RATE_PER_SEC).window
  {
    if events != [] {
      var before, e := events[..|events| - 1], events[|events| - 1];
      WindowIsLimiter(schema, initial, start, before);
      StepWindow(schema, Play(schema, initial, start, before), e);
      if e.Called? && e.call.authorized {
        LimiterStep(start, Attempts(before), Attempt(e.call.now, e.call.now, true));
      }
    }
  }

  /** A run commits no more often than the limiter admits its authorized calls. */
  lemma {:induction false} CommitsAreAdmitted(schema: Schema, initial: Json, start: nat, events: seq<Event>)
    ensures |Play(schema, initial, start, events).commits| <=
            |Limiter.Play(start, Attempts(events), SECOND, MAX_UPDATE_RATE_PER_SEC).admitted|
  {
    if events != [] {
      var before, e := events[..|events| - 1], events[|events| - 1];
      CommitsAreAdmitted(schema, initial, start, before);
      WindowIsLimiter(schema, initial, start, before);
      StepWindow(schema, Play(schema, initial, start, before), e);
      if e.Called? && e.call.authorized {
        LimiterStep(start, Attempts(before), Attempt(e.call.now, e.call.now, true));
      }
    }
  }

  // ---- What the UI receives ----

  /** How many updates the UI side has taken. */
  function Received(schema: Schema, initial: Json, start: nat, events: seq<Event>): nat
  {
    if events == [] then 0
    else
      var before := events[..|events| - 1];
      Received(schema, initial, start, before) +
      Count(events[|events| - 1].Taken? && Play(schema, initial, start, before).ui.queue != [])
  }

  /** The UI takes the updates sent, in order and each once: those it has not taken yet are the queue. */
  lemma {:induction false} UiReceivesInOrder(schema: Schema, initial: Json, start: nat, events: seq<Event>)
    ensures var r, n := Play(schema, initial, start, events), Received(schema, initial, start, events);
      n <= |r.sent| && r.ui.queue == r.sent[n..]
  {
    if events != [] {
      var before, e := events[..|events| - 1], events[|events| - 1];
      UiReceivesInOrder(schema, initial, start, before);
      var r := Play(schema, initial, start, before);
      if e.Called? {
        if Commits(schema, r.ui, e.call) {
          CommitStep(schema, r, e.call);
        } else {
          OtherKeepsShown(schema, r, e);
        }
      }
    }
  }
}
