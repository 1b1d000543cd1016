/**
 The serial actor of one widget instance (crates/floatile-runtime/src/lib.rs:458-594, 654-665):
 one command at a time, one guest call at a time, and an end at the first failure or at Shutdown.

 The guest and the budget reset are an oracle: `attempts[i]` says what handling command `i` would meet.
 */
module Actor {
  import opened Prelude
  import opened Capability

  type Tx = nat

  datatype Command =
    | Start(tx: Tx)
    | Deliver(event: int, tx: Tx)
    | TimerFired(timer: nat)
    | Completed(id: nat, capability: CapabilityId)
    | Shutdown

  /** No budget could be set, or the guest was called and answered, refused or trapped. */
  datatype Attempt = NoBudget | Fine | Refused | Trapped

  datatype Call =
    | Construct
    | CallStart
    | HandleEvent(event: int)
    | HandleTimer(timer: nat)
    | HandleCompletion(id: nat)
    | Stop

  datatype Answer = Accepted | Rejected | Failed

  datatype Reply = Reply(tx: Tx, answer: Answer)

  datatype Run = Run(calls: seq<Call>, replies: seq<Reply>, timersDone: seq<nat>, discarded: seq<nat>,
                     handled: nat, drained: nat, ok: bool)

  // ---- What handling one command does ----

  /** Completions of other capabilities are not shown to the guest; their results are dropped. */
  predicate Foreign(cmd: Command)
  {
    cmd.Completed? && cmd.capability != StorageRead && cmd.capability != NetworkHttps
  }

  predicate CallsGuest(cmd: Command)
  {
    !cmd.Shutdown? && !Foreign(cmd)
  }

  predicate Fails(cmd: Command, a: Attempt)
  {
    CallsGuest(cmd) && a != Fine
  }

  predicate Ends(cmd: Command, a: Attempt)
  {
    cmd.Shutdown? || Fails(cmd, a)
  }

  function CallOf(cmd: Command, a: Attempt): seq<Call>
  {
    if !CallsGuest(cmd) || a == NoBudget then []
    else match cmd
      case Start(_) => [CallStart]
      case Deliver(event, _) => [HandleEvent(event)]
      case TimerFired(timer) => [HandleTimer(timer)]
      case Completed(id, _) => [HandleCompletion(id)]
      case Shutdown => []
  }

  function AnswerOf(a: Attempt): Answer
  {
    if a == Fine then Accepted else if a == Refused then Rejected else Failed
  }

  predicate WantsReply(cmd: Command)
  {
    cmd.Start? || cmd.Deliver?
  }

  // ---- What handling the first `n` commands does ----

  function Calls(cmds: seq<Command>, attempts: seq<Attempt>, n: nat): seq<Call>
    requires n <= |cmds| == |attempts|
  {
    if n == 0 then [] else Calls(cmds, attempts, n - 1) + CallOf(cmds[n - 1], attempts[n - 1])
  }

  function ReplyTo(cmd: Command, answer: Answer): seq<Reply>
  {
    if WantsReply(cmd) then [Reply(cmd.tx, answer)] else []
  }

  function Replies(cmds: seq<Command>, attempts: seq<Attempt>, n: nat): seq<Reply>
    requires n <= |cmds| == |attempts|
  {
    if n == 0 then [] else Replies(cmds, attempts, n - 1) + ReplyTo(cmds[n - 1], AnswerOf(attempts[n - 1]))
  }

  /** What `drain_pending` answers to commands `from` to `to`: every waiting caller is told the instance has ended. */
  function Terminations(cmds: seq<Command>, from: nat, to: nat): seq<Reply>
    requires from <= to <= |cmds|
  {
    if to == from then [] else Terminations(cmds, from, to - 1) + ReplyTo(cmds[to - 1], Failed)
  }

  function TimersDone(cmds: seq<Command>, attempts: seq<Attempt>, n: nat): seq<nat>
    requires n <= |cmds| == |attempts|
  {
    if n == 0 then []
    else
      TimersDone(cmds, attempts, n - 1) +
      if cmds[n - 1].TimerFired? && attempts[n - 1] == Fine then [cmds[n - 1].timer] else []
  }

  function Discards(cmds: seq<Command>, n: nat): seq<nat>
    requires n <= |cmds|
  {
    if n == 0 then [] else Discards(cmds, n - 1) + if Foreign(cmds[n - 1]) then [cmds[n - 1].id] else []
  }

  /** The main loop took exactly the first `n` commands: the last one ended it, or the channel closed. */
  predicate LoopTook(cmds: seq<Command>, attempts: seq<Attempt>, n: nat)
    requires |cmds| == |attempts|
  {
    && n <= |cmds|
    && (forall i | 0 <= i < n - 1 :: !Ends(cmds[i], attempts[i]))
    && (n < |cmds| ==> n > 0 && Ends(cmds[n - 1], attempts[n - 1]))
  }

  method Drain(cmds: seq<Command>, from: nat, to: nat, replies: seq<Reply>) returns (all: seq<Reply>)
    requires from <= to <= |cmds|
    ensures all == replies + Terminations(cmds, from, to)
  {
    all := replies;
    for i := from to to
      invariant all == replies + Terminations(cmds, from, i)
    {
      if cmds[i].Start? || cmds[i].Deliver? {
        all := all + [Reply(cmds[i].tx, Failed)];
      }
    }
  }

  /** The arms of the command loop. */
  method Handle(cmd: Command, a: Attempt)
    returns (calls: seq<Call>, replies: seq<Reply>, timersDone: seq<nat>, discarded: seq<nat>,
             stopped: bool, failed: bool)
    ensures calls == CallOf(cmd, a)
    ensures replies == ReplyTo(cmd, AnswerOf(a))
    ensures timersDone == if cmd.TimerFired? && a == Fine then [cmd.timer] else []
    ensures discarded == if Foreign(cmd) then [cmd.id] else []
    ensures stopped <==> cmd.Shutdown?
    ensures failed <==> Fails(cmd, a)
  {
    calls, replies, timersDone, discarded, stopped, failed := [], [], [], [], false, false;
    match cmd {
      case Start(tx) =>
        if a != NoBudget {
          calls := [CallStart];
        }
        failed := a != Fine;
        replies := [Reply(tx, AnswerOf(a))];
      case Deliver(event, tx) =>
        if a != NoBudget {
          calls := [HandleEvent(event)];
        }
        failed := a != Fine;
        replies := [Reply(tx, AnswerOf(a))];
      case TimerFired(timer) =>
        if a != NoBudget {
          calls := [HandleTimer(timer)];
        }
        if a != Fine {
          failed := true;
        } else {
          timersDone := [timer];
        }
      case Completed(id, capability) =>
        if capability != StorageRead && capability != NetworkHttps {
          discarded := [id];
        } else {
          if a != NoBudget {
            calls := [HandleCompletion(id)];
          }
          failed := a != Fine;
        }
      case Shutdown =>
        stopped := true;
    }
  }

  /**
   `run_actor` from the constructed guest on. `cmds` are the commands sent before every sender is gone;
   `waiting` of those not yet taken are in the channel when a failure drains it.
   */
  method RunActor(cmds: seq<Command>, attempts: seq<Attempt>, waiting: nat) returns (run: Run)
    requires |cmds| == |attempts|
    ensures LoopTook(cmds, attempts, run.handled)
    ensures run.handled + run.drained <= |cmds|
    ensures var rest, h := |cmds| - run.handled, run.handled;
      run.drained ==
        if h == 0 || !Fails(cmds[h - 1], attempts[h - 1]) then 0 else if waiting <= rest then waiting else rest
    ensures run.calls == [Construct] + Calls(cmds, attempts, run.handled) + [Stop]
    ensures run.replies == Replies(cmds, attempts, run.handled) +
                           Terminations(cmds, run.handled, run.handled + run.drained)
    ensures run.timersDone == TimersDone(cmds, attempts, run.handled)
    ensures run.discarded == Discards(cmds, run.handled)
    ensures run.ok <==> run.handled > 0 && cmds[run.handled - 1].Shutdown?
  {
    var stopped, failed := false, false;
    var calls, replies: seq<Reply>, timersDone: seq<nat>, discarded: seq<nat> := [Construct], [], [], [];
    var i := 0;
    while i < |cmds| && !stopped && !failed
      invariant 0 <= i <= |cmds|
      invariant forall j | 0 <= j < i - 1 :: !Ends(cmds[j], attempts[j])
      invariant stopped <==> i > 0 && cmds[i - 1].Shutdown?
      invariant failed <==> i > 0 && Fails(cmds[i - 1], attempts[i - 1])
      invariant calls == [Construct] + Calls(cmds, attempts, i)
      invariant replies == Replies(cmds, attempts, i)
      invariant timersDone == TimersDone(cmds, attempts, i)
      invariant discarded == Discards(cmds, i)
    {
      var newCalls, newReplies, done, dropped;
      newCalls, newReplies, done, dropped, stopped, failed := Handle(cmds[i], attempts[i]);
      calls, replies := calls + newCalls, replies + newReplies;
      timersDone, discarded := timersDone + done, discarded + dropped;
      i := i + 1;
    }
    var drained := 0;
    if failed {
      drained := if waiting <= |cmds| - i then waiting else |cmds| - i;
      replies := Drain(cmds, i, i + drained, replies);
    }
    run := Run(calls + [Stop], replies, timersDone, discarded, i, drained, stopped && !failed);
  }

  // ---- What a run means ----

  /** Commands are handled up to the first failure or Shutdown, whichever comes first. */
  lemma LoopTookIsUnique(cmds: seq<Command>, attempts: seq<Attempt>, m: nat, n: nat)
    requires |cmds| == |attempts| && LoopTook(cmds, attempts, m) && LoopTook(cmds, attempts, n)
    ensures m == n
  {
  }

  ghost predicate ShutdownFirst(cmds: seq<Command>, attempts: seq<Attempt>, k: nat)
    requires |cmds| == |attempts|
  {
    k < |cmds| && cmds[k].Shutdown? && forall i | 0 <= i < k :: !Fails(cmds[i], attempts[i])
  }

  /** The run is Ok exactly when a Shutdown comes before any failure. */
  lemma OkIffShutdownFirst(cmds: seq<Command>, attempts: seq<Attempt>, n: nat)
    requires |cmds| == |attempts| && LoopTook(cmds, attempts, n)
    ensures (n > 0 && cmds[n - 1].Shutdown?) <==> exists k: nat :: ShutdownFirst(cmds, attempts, k)
  {
    if k: nat :| ShutdownFirst(cmds, attempts, k) {
      if k < n - 1 {
        assert Ends(cmds[k], attempts[k]);
      } else if k > n - 1 {
        assert Ends(cmds[n - 1], attempts[n - 1]);
        assert !Fails(cmds[n - 1], attempts[n - 1]);
      }
    }
    if n > 0 && cmds[n - 1].Shutdown? {
      assert ShutdownFirst(cmds, attempts, n - 1);
    }
  }

  /** The commands the guest is asked about: all but Shutdown and completions of other capabilities. */
  predicate Asks(cmd: Command)
  {
    match cmd
    case Start(_) => true
    case Deliver(_, _) => true
    case TimerFired(_) => true
    case Completed(_, capability) => capability in {StorageRead, NetworkHttps}
    case Shutdown => false
  }

  /** The loop goes on exactly over commands that are no Shutdown and whose call, if they ask for one, is fine. */
  lemma LoopGoesOnWhileFine(cmds: seq<Command>, attempts: seq<Attempt>, n: nat)
    requires |cmds| == |attempts|
    ensures LoopTook(cmds, attempts, n) <==>
      && n <= |cmds|
      && (forall i | 0 <= i < n - 1 :: !cmds[i].Shutdown? && (Asks(cmds[i]) ==> attempts[i] == Fine))
      && (n < |cmds| ==> n > 0 && (cmds[n - 1].Shutdown? || (Asks(cmds[n - 1]) && attempts[n - 1] != Fine)))
  {
    assert forall i | 0 <= i < |cmds| ::
        Ends(cmds[i], attempts[i]) <==> cmds[i].Shutdown? || (Asks(cmds[i]) && attempts[i] != Fine);
  }

  /** The commands among the first `n` that reach the guest: they ask for it and a budget could be set. */
  function Reaching(cmds: seq<Command>, attempts: seq<Attempt>, n: nat): (r: seq<nat>)
    requires n <= |cmds| == |attempts|
    ensures forall k | 0 <= k < |r| :: r[k] < n && Asks(cmds[r[k]]) && attempts[r[k]] != NoBudget
    ensures forall j, k | 0 <= j < k < |r| :: r[j] < r[k]
    ensures forall i | 0 <= i < n && Asks(cmds[i]) && attempts[i] != NoBudget :: i in r
  {
    if n == 0 then []
    else
      Reaching(cmds, attempts, n - 1) + if Asks(cmds[n - 1]) && attempts[n - 1] != NoBudget then [n - 1] else []
  }

  /** The call is the one the command asks for. */
  predicate Serves(call: Call, cmd: Command)
  {
    || (cmd.Start? && call == CallStart)
    || (cmd.Deliver? && call == HandleEvent(cmd.event))
    || (cmd.TimerFired? && call == HandleTimer(cmd.timer))
    || (cmd.Completed? && call == HandleCompletion(cmd.id))
  }

  lemma OneCall(cmd: Command, a: Attempt)
    ensures if Asks(cmd) && a != NoBudget then |CallOf(cmd, a)| == 1 && Serves(CallOf(cmd, a)[0], cmd)
        else CallOf(cmd, a) == []
  {
  }

  /** The guest gets one call for each command that reaches it, the one asked for, in the order of the commands. */
  lemma {:induction false} EveryCallServes(cmds: seq<Command>, attempts: seq<Attempt>, n: nat)
    requires n <= |cmds| == |attempts|
    ensures var calls, reaching := Calls(cmds, attempts, n), Reaching(cmds, attempts, n);
      |calls| == |reaching| && forall k | 0 <= k < |calls| :: Serves(calls[k], cmds[reaching[k]])
  {
    if n > 0 {
      EveryCallServes(cmds, attempts, n - 1);
      OneCall(cmds[n - 1], attempts[n - 1]);
      var before, last := Calls(cmds, attempts, n - 1), CallOf(cmds[n - 1], attempts[n - 1]);
      assert Calls(cmds, attempts, n) == before + last;
    }
  }

  /** The first `n` commands whose sender waits for an answer. */
  function Waiting(cmds: seq<Command>, n: nat): (r: seq<nat>)
    requires n <= |cmds|
    ensures forall k | 0 <= k < |r| :: r[k] < n && (cmds[r[k]].Start? || cmds[r[k]].Deliver?)
    ensures forall i | 0 <= i < n && (cmds[i].Start? || cmds[i].Deliver?) :: i in r
  {
    if n == 0 then []
    else Waiting(cmds, n - 1) + if cmds[n - 1].Start? || cmds[n - 1].Deliver? then [n - 1] else []
  }

  /** The answer says how the call went: accepted, rejected by the guest, or failed. */
  predicate Tells(answer: Answer, a: Attempt)
  {
    && (answer == Accepted <==> a == Fine)
    && (answer == Rejected <==> a == Refused)
    && (answer == Failed <==> a == NoBudget || a == Trapped)
  }

  /** Each waiting sender is told how its own command went. */
  lemma {:induction false} RepliesTell(cmds: seq<Command>, attempts: seq<Attempt>, n: nat)
    requires n <= |cmds| == |attempts|
    ensures var replies, waiting := Replies(cmds, attempts, n), Waiting(cmds, n);
      |replies| == |waiting| && forall k | 0 <= k < |replies| ::
        replies[k].tx == cmds[waiting[k]].tx && Tells(replies[k].answer, attempts[waiting[k]])
  {
    if n > 0 {
      RepliesTell(cmds, attempts, n - 1);
    }
  }

  /** A result is discarded exactly for a completion of another capability. */
  lemma {:induction false} DiscardsAreForeign(cmds: seq<Command>, n: nat, id: nat)
    requires n <= |cmds|
    ensures id in Discards(cmds, n) <==>
            exists i :: 0 <= i < n && cmds[i].Completed? && cmds[i].id == id && !Asks(cmds[i])
  {
    if n > 0 {
      DiscardsAreForeign(cmds, n - 1, id);
    }
  }

  /** The guest is constructed once, first, and stopped once, last: no handled command does either. */
  lemma {:induction false} NoSetupCalls(cmds: seq<Command>, attempts: seq<Attempt>, n: nat)
    requires n <= |cmds| == |attempts|
    ensures Construct !in Calls(cmds, attempts, n) && Stop !in Calls(cmds, attempts, n)
  {
    if n > 0 {
      NoSetupCalls(cmds, attempts, n - 1);
    }
  }

  function Txs(replies: seq<Reply>): seq<Tx>
  {
    seq(|replies|, i requires 0 <= i < |replies| => replies[i].tx)
  }

  /** The callers waiting for an answer to commands `from` to `to`, in the order of their commands. */
  function Callers(cmds: seq<Command>, from: nat, to: nat): seq<Tx>
    requires from <= to <= |cmds|
  {
    if to == from then [] else Callers(cmds, from, to - 1) + if WantsReply(cmds[to - 1]) then [cmds[to - 1].tx] else []
  }

  lemma {:induction false} CallersJoin(cmds: seq<Command>, from: nat, mid: nat, to: nat)
    requires from <= mid <= to <= |cmds|
    ensures Callers(cmds, from, to) == Callers(cmds, from, mid) + Callers(cmds, mid, to)
  {
    if mid < to {
      CallersJoin(cmds, from, mid, to - 1);
    }
  }

  lemma {:induction false} RepliesAnswer(cmds: seq<Command>, attempts: seq<Attempt>, n: nat)
    requires n <= |cmds| == |attempts|
    ensures Txs(Replies(cmds, attempts, n)) == Callers(cmds, 0, n)
  {
    if n > 0 {
      RepliesAnswer(cmds, attempts, n - 1);
    }
  }

  lemma {:induction false} TerminationsAnswer(cmds: seq<Command>, from: nat, to: nat)
    requires from <= to <= |cmds|
    ensures Txs(Terminations(cmds, from, to)) == Callers(cmds, from, to)
    ensures forall r | r in Terminations(cmds, from, to) :: r.answer == Failed
  {
    if from < to {
      TerminationsAnswer(cmds, from, to - 1);
    }
  }

  /** Every Start and Event taken, by the loop or by the drain, is answered exactly once, in order. */
  lemma OneReplyEach(cmds: seq<Command>, attempts: seq<Attempt>, n: nat, drained: nat)
    requires n + drained <= |cmds| == |attempts|
    ensures Txs(Replies(cmds, attempts, n) + Terminations(cmds, n, n + drained)) == Callers(cmds, 0, n + drained)
  {
    RepliesAnswer(cmds, attempts, n);
    TerminationsAnswer(cmds, n, n + drained);
    CallersJoin(cmds, 0, n, n + drained);
    var a, b := Replies(cmds, attempts, n), Terminations(cmds, n, n + drained);
    assert Txs(a + b) == Txs(a) + Txs(b);
  }

  /** A timer is completed exactly for the timer commands whose call was fine. */
  lemma {:induction false} TimersDoneAreFine(cmds: seq<Command>, attempts: seq<Attempt>, n: nat, timer: nat)
    requires n <= |cmds| == |attempts|
    ensures timer in TimersDone(cmds, attempts, n) <==>
            exists i :: 0 <= i < n && cmds[i] == TimerFired(timer) && attempts[i] == Fine
  {
    if n > 0 {
      TimersDoneAreFine(cmds, attempts, n - 1, timer);
    }
  }
}
