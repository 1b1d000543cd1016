/**
 Routing of operation completions to an instance actor: the bounded bridge
 (crates/floatile-runtime/src/operation.rs:27-80) and the binding of a registry to a broker
 (crates/floatile-services/src/broker.rs:144-157, 517-547). An identity is plugin, instance and generation.
 */
module Bridge {
  import opened Prelude

  datatype Owner = Owner(plugin: string, instance: nat, generation: U64)

  datatype Completion = Completion(id: nat, owner: Owner, capability: nat, succeeded: bool)

  datatype Disposition = Delivered | StaleGeneration | QueueFull | ActorClosed

  /** The registry a broker may have: whose it is and the results it holds. */
  datatype Registry = Registry(owner: Owner, results: set<nat>)

  datatype BindError = OwnerMismatch

  datatype Record = Record(completion: Completion, disposition: Disposition)

  // ---- The broker ----

  class Broker {
    const identity: Owner
    var operations: Option<Registry>
    var audit: seq<Record>

    ghost predicate Valid()
      reads this
    {
      operations.Some? ==> operations.value.owner == identity
    }

    constructor (identity: Owner)
      ensures Valid() && operations == None && audit == [] && this.identity == identity
    {
      this.identity, operations, audit := identity, None, [];
    }

    /** `with_operations`: a registry with any other identity is never attached. */
    method WithOperations(registry: Registry) returns (r: Result<(), BindError>)
      requires Valid()
      modifies this`operations
      ensures Valid()
      ensures r.Ok? <==> registry.owner == identity
      ensures operations == if r.Ok? then Some(registry) else old(operations)
    {
      if registry.owner.plugin != identity.plugin
         || registry.owner.instance != identity.instance
         || registry.owner.generation != identity.generation {
        return Err(OwnerMismatch);
      }
      operations := Some(registry);
      return Ok(());
    }

    /** `audit_operation_completion`: only completions of this broker's own registry are recorded. */
    method AuditCompletion(c: Completion, d: Disposition) returns (recorded: bool)
      requires Valid()
      modifies this`audit
      ensures recorded <==> operations.Some? && c.owner == identity
      ensures audit == if recorded then old(audit) + [Record(c, d)] else old(audit)
    {
      if operations.None? {
        return false;
      }
      if c.owner != operations.value.owner {
        return false;
      }
      audit := audit + [Record(c, d)];
      return true;
    }

    /** `discard_operation_result`. */
    method DiscardResult(id: nat) returns (present: bool)
      requires Valid()
      modifies this`operations
      ensures Valid()
      ensures present <==> old(operations).Some? && id in old(operations).value.results
      ensures operations == WithoutResult(old(operations), id)
    {
      if operations.None? {
        return false;
      }
      present := id in operations.value.results;
      operations := Some(operations.value.(results := operations.value.results - {id}));
    }
  }

  function WithoutResult(operations: Option<Registry>, id: nat): Option<Registry>
  {
    if operations.None? then None else Some(operations.value.(results := operations.value.results - {id}))
  }

  // ---- The bridge ----

  /** What a route depends on and changes: the channel to the actor and the source broker's registry. */
  datatype Link = Link(owner: Owner, capacity: nat, alive: bool, queue: seq<Completion>, operations: Option<Registry>)

  function DispositionOf(l: Link, c: Completion): Disposition
  {
    if c.owner != l.owner then StaleGeneration
    else if !l.alive then ActorClosed
    else if |l.queue| >= l.capacity then QueueFull
    else Delivered
  }

  function Routed(l: Link, c: Completion): Link
  {
    if DispositionOf(l, c).Delivered? then l.(queue := l.queue + [c])
    else l.(operations := WithoutResult(l.operations, c.id))
  }

  class CompletionBridge {
    const owner: Owner
    const capacity: nat
    var queue: seq<Completion>
    var alive: bool

    constructor (owner: Owner, capacity: nat)
      ensures this.owner == owner && this.capacity == capacity && queue == [] && alive
    {
      this.owner, this.capacity, queue, alive := owner, capacity, [], true;
    }

    function LinkTo(source: Broker): Link
      reads this, source
    {
      Link(owner, capacity, alive, queue, source.operations)
    }

    method TryRoute(source: Broker, c: Completion) returns (d: Disposition)
      requires source.Valid()
      modifies this`queue, source`operations, source`audit
      ensures source.Valid()
      ensures d == Delivered <==> c.owner == owner && alive && |old(queue)| < capacity
      ensures d == StaleGeneration <==> c.owner != owner
      ensures d == ActorClosed <==> c.owner == owner && !alive
      ensures d == Delivered ==> queue == old(queue) + [c] && source.operations == old(source.operations)
      ensures d != Delivered ==>
        && queue == old(queue)
        && (source.operations.Some? <==> old(source.operations).Some?)
        && (source.operations.Some? ==>
              source.operations.value.results == old(source.operations).value.results - {c.id})
      ensures d == DispositionOf(old(LinkTo(source)), c)
      ensures LinkTo(source) == Routed(old(LinkTo(source)), c)
      ensures source.audit ==
              if old(source.operations).Some? && c.owner == source.identity then old(source.audit) + [Record(c, d)]
              else old(source.audit)
    {
      if c.owner != owner {
        d := StaleGeneration;
      } else if !alive {
        d := ActorClosed;
      } else if |queue| >= capacity {
        d := QueueFull;
      } else {
        queue := queue + [c];
        d := Delivered;
      }
      var _ := source.AuditCompletion(c, d);
      if d != Delivered {
        var _ := source.DiscardResult(c.id);
      }
    }
  }

  /** `new`: a bridge without room for any completion is refused. */
  method NewBridge(owner: Owner, capacity: nat) returns (bridge: Option<CompletionBridge>)
    ensures bridge.Some? <==> capacity > 0
    ensures bridge.Some? ==> fresh(bridge.value) && bridge.value.owner == owner && bridge.value.capacity == capacity
    ensures bridge.Some? ==> bridge.value.queue == [] && bridge.value.alive
  {
    if capacity == 0 {
      return None;
    }
    var b := new CompletionBridge(owner, capacity);
    return Some(b);
  }

  // ---- Runs of the bridge ----

  /**
   Operations settle, which stores a result in this registry or not, and only then is their completion
   routed, once; ids are never reused. The actor takes completions or ends; results are taken elsewhere.
   */
  datatype Event =
    | Settle(id: nat, stored: bool)
    | Route(c: Completion)
    | Receive
    | Close
    | TakeResult(id: nat)

  datatype Hub = Hub(link: Link, settled: set<nat>, routed: set<nat>)

  predicate Happens(h: Hub, e: Event)
  {
    match e
    case Settle(id, _) => id !in h.settled
    case Route(c) => c.id in h.settled && c.id !in h.routed
    case Receive => h.link.alive && h.link.queue != []
    case Close => true
    case TakeResult(_) => true
  }

  function WithResult(operations: Option<Registry>, id: nat): Option<Registry>
  {
    if operations.None? then None else Some(operations.value.(results := operations.value.results + {id}))
  }

  function Step(h: Hub, e: Event): Hub
  {
    if !Happens(h, e) then h
    else match e
      case Settle(id, stored) =>
        h.(settled := h.settled + {id},
           link := if stored then h.link.(operations := WithResult(h.link.operations, id)) else h.link)
      case Route(c) => h.(link := Routed(h.link, c), routed := h.routed + {c.id})
      case Receive => h.(link := h.link.(queue := h.link.queue[1..]))
      case Close => h.(link := h.link.(alive := false, queue := []))
      case TakeResult(id) => h.(link := h.link.(operations := WithoutResult(h.link.operations, id)))
  }

  /** From a bridge as made: nothing queued, nothing settled, nothing stored. */
  function Play(owner: Owner, capacity: nat, registry: Owner, events: seq<Event>): Hub
  {
    if events == [] then Hub(Link(owner, capacity, true, [], Some(Registry(registry, {}))), {}, {})
    else Step(Play(owner, capacity, registry, events[..|events| - 1]), events[|events| - 1])
  }

  predicate HasResult(l: Link, id: nat)
  {
    l.operations.Some? && id in l.operations.value.results
  }

  /** Generations are isolated: the actor's queue never holds another identity's completion, nor too many. */
  lemma {:induction false} OnlyCurrentCompletions(owner: Owner, capacity: nat, registry: Owner, events: seq<Event>)
    ensures var l := Play(owner, capacity, registry, events).link;
      && l.owner == owner && l.capacity == capacity
      && |l.queue| <= capacity
      && forall c | c in l.queue :: c.owner == owner
  {
    if events != [] {
      var before, e := events[..|events| - 1], events[|events| - 1];
      OnlyCurrentCompletions(owner, capacity, registry, before);
      var s, t := Play(owner, capacity, registry, before).link, Play(owner, capacity, registry, events).link;
      forall c | c in t.queue
        ensures c.owner == owner
      {
        assert c in s.queue || e == Route(c);
      }
    }
  }

  /** A result is stored only for a settled operation, and a completion is routed only after it settled. */
  lemma {:induction false} SettledFirst(owner: Owner, capacity: nat, registry: Owner, events: seq<Event>, id: nat)
    ensures var h := Play(owner, capacity, registry, events);
      (HasResult(h.link, id) || id in h.routed ==> id in h.settled)
  {
    if events != [] {
      SettledFirst(owner, capacity, registry, events[..|events| - 1], id);
    }
  }

  /** Event `i` routed the completion of `id` and it was not delivered. */
  predicate LostAt(owner: Owner, capacity: nat, registry: Owner, events: seq<Event>, i: nat, id: nat)
    requires i < |events|
  {
    var h := Play(owner, capacity, registry, events[..i]);
    && Happens(h, events[i]) && events[i].Route? && events[i].c.id == id
    && !DispositionOf(h.link, events[i].c).Delivered?
  }

  /** A completion the actor never gets leaves no result behind, then or later, whatever is stored meanwhile. */
  lemma {:induction false} LostResultsAreGone(
    owner: Owner, capacity: nat, registry: Owner, events: seq<Event>, i: nat, id: nat)
    requires i < |events| && LostAt(owner, capacity, registry, events, i, id)
    ensures var h := Play(owner, capacity, registry, events); id in h.settled && !HasResult(h.link, id)
  {
    var before := events[..|events| - 1];
    if i < |events| - 1 {
      assert before[..i] == events[..i];
      LostResultsAreGone(owner, capacity, registry, before, i, id);
    }
  }

  /** Event `i` routed the completion of `id` and the actor's queue took it. */
  predicate DeliveredAt(owner: Owner, capacity: nat, registry: Owner, events: seq<Event>, i: nat, id: nat)
    requires i < |events|
  {
    var h := Play(owner, capacity, registry, events[..i]);
    && Happens(h, events[i]) && events[i].Route? && events[i].c.id == id
    && DispositionOf(h.link, events[i].c).Delivered?
  }

  predicate TakenAfter(events: seq<Event>, i: nat, id: nat)
  {
    exists j :: i < j < |events| && events[j] == TakeResult(id)
  }

  lemma TakenByLast(events: seq<Event>, i: nat, id: nat)
    requires i < |events| - 1
    ensures TakenAfter(events, i, id) <==>
            TakenAfter(events[..|events| - 1], i, id) || events[|events| - 1] == TakeResult(id)
  {
    var before := events[..|events| - 1];
    if j :| i < j < |events| && events[j] == TakeResult(id) {
      assert j < |before| ==> before[j] == events[j];
    }
    if j :| i < j < |before| && before[j] == TakeResult(id) {
      assert events[j] == before[j];
    }
  }

  /** Once routed, an operation's result is neither stored again nor lost by a later completion. */
  lemma RoutedStep(owner: Owner, capacity: nat, registry: Owner, events: seq<Event>, id: nat)
    requires events != [] && id in Play(owner, capacity, registry, events[..|events| - 1]).routed
    ensures var before := Play(owner, capacity, registry, events[..|events| - 1]);
      HasResult(Play(owner, capacity, registry, events).link, id) <==>
      HasResult(before.link, id) && events[|events| - 1] != TakeResult(id)
  {
    SettledFirst(owner, capacity, registry, events[..|events| - 1], id);
  }

  /**
   A delivered completion's result is there, at any later moment of any run, exactly when it was stored before and no
   one has taken it since: nothing else removes it, and nothing stores it again.
   */
  lemma {:induction false} DeliveredKeepsResult(
    owner: Owner, capacity: nat, registry: Owner, events: seq<Event>, i: nat, id: nat)
    requires i < |events| && DeliveredAt(owner, capacity, registry, events, i, id)
    ensures id in Play(owner, capacity, registry, events).routed
    ensures HasResult(Play(owner, capacity, registry, events).link, id) <==>
            HasResult(Play(owner, capacity, registry, events[..i]).link, id) && !TakenAfter(events, i, id)
  {
    var before := events[..|events| - 1];
    if i < |events| - 1 {
      assert before[..i] == events[..i];
      DeliveredKeepsResult(owner, capacity, registry, before, i, id);
      RoutedStep(owner, capacity, registry, events, id);
      TakenByLast(events, i, id);
    }
  }

  // ---- What the actor receives ----

  /** The completions routed to a live actor of their own identity whose queue had room, in order. */
  function Accepted(owner: Owner, capacity: nat, registry: Owner, events: seq<Event>): seq<Completion>
  {
    if events == [] then []
    else
      var init, e := events[..|events| - 1], events[|events| - 1];
      var h, before := Play(owner, capacity, registry, init), Accepted(owner, capacity, registry, init);
      if e.Route? && Happens(h, e) && e.c.owner == owner && h.link.alive && |h.link.queue| < capacity
      then before + [e.c] else before
  }

  /** How many completions the actor has taken from its queue. */
  function Received(owner: Owner, capacity: nat, registry: Owner, events: seq<Event>): nat
  {
    if events == [] then 0
    else
      var init, e := events[..|events| - 1], events[|events| - 1];
      Received(owner, capacity, registry, init) + Count(e.Receive? && Happens(Play(owner, capacity, registry, init), e))
  }

  /** A live actor takes the accepted completions in order, each once: those not taken yet are its queue. */
  lemma {:induction false} ActorReceivesAccepted(owner: Owner, capacity: nat, registry: Owner, events: seq<Event>)
    ensures var accepted, n := Accepted(owner, capacity, registry, events), Received(owner, capacity, registry, events);
      var l := Play(owner, capacity, registry, events).link;
      n <= |accepted| && (l.alive ==> l.queue == accepted[n..])
  {
    if events != [] {
      var init := events[..|events| - 1];
      ActorReceivesAccepted(owner, capacity, registry, init);
      OnlyCurrentCompletions(owner, capacity, registry, init);
    }
  }
}
