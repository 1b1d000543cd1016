/**
 Capability grants and the decision that gives them meaning
 (crates/floatile-core/src/capability.rs).

 A grant means the set of requests `Decide` allows under it. Everything else in this file is about
 comparing grants, and every comparison is tied to that meaning.
 */
module Capability {
  import opened Prelude

  datatype CapabilityId =
    | UiUpdateState
    | LogWrite
    | ClockRead
    | StorageRead
    | StorageWrite
    | TimerSchedule
    | ThemeSubscribe
    | SystemCpu
    | SystemMemory
    | NetworkHttps

  datatype CapabilityParams =
    | Storage(keys: seq<string>, maxBytes: U64)
    | Timer(maxPerMinute: U32, maxActive: U32)
    | Metrics(sampleRateHz: U32)
    | Network(origins: seq<string>, maxRequestsPerMinute: U32, maxResponseBytes: U64, maxTimeoutMs: U64)

  type Params = Option<CapabilityParams>

  datatype DenyReason = NotGranted | ScopeViolation | QuotaExceeded | EnvironmentUnavailable | InvalidInput

  datatype Decision = Allowed | Denied(reason: DenyReason)

  datatype Grant = Grant(capability: CapabilityId, params: Params)

  predicate AllIn(xs: seq<string>, ys: seq<string>)
  {
    forall x | x in xs :: x in ys
  }

  function Decide(grant: Option<Grant>, request: Params): Decision
  {
    if grant.None? then Denied(NotGranted)
    else DecideParams(grant.value.params, request)
  }

  function DecideParams(granted: Params, request: Params): Decision
  {
    match (granted, request)
    case (None, None) => Allowed
    case (Some(_), None) => Denied(ScopeViolation)
    case (None, Some(_)) => Denied(ScopeViolation)
    case (Some(Storage(keys, bytes)), Some(Storage(rk, rb))) =>
      if !(keys == [] || AllIn(rk, keys)) then Denied(ScopeViolation)
      else if rb > bytes then Denied(QuotaExceeded)
      else Allowed
    case (Some(Timer(rate, active)), Some(Timer(rr, ra))) =>
      if rr > rate || ra > active then Denied(QuotaExceeded) else Allowed
    case (Some(Metrics(rate)), Some(Metrics(rr))) =>
      if rr > rate then Denied(QuotaExceeded) else Allowed
    case (Some(Network(origins, rate, bytes, timeout)), Some(Network(ro, rr, rb, rt))) =>
      if !AllIn(ro, origins) then Denied(ScopeViolation)
      else if rr > rate || rb > bytes || rt > timeout then Denied(QuotaExceeded)
      else Allowed
    case _ => Denied(InvalidInput)
  }

  predicate Allows(granted: Params, request: Params)
  {
    DecideParams(granted, request).Allowed?
  }

  /** Grant `a` allows nothing that grant `b` refuses. */
  ghost predicate Included(a: Params, b: Params)
  {
    forall request: Params :: Allows(a, request) ==> Allows(b, request)
  }

  // ---- `distribution::params_within`: the comparison used by the planners ----

  predicate KeyScopeWithin(candidate: seq<string>, current: seq<string>)
  {
    current == [] || (candidate != [] && AllIn(candidate, current))
  }

  predicate ParamsWithin(candidate: Params, current: Params)
  {
    match (candidate, current)
    case (None, None) => true
    case (Some(Storage(ck, cb)), Some(Storage(pk, pb))) => KeyScopeWithin(ck, pk) && cb <= pb
    case (Some(Timer(cr, ca)), Some(Timer(pr, pa))) => cr <= pr && ca <= pa
    case (Some(Metrics(cr)), Some(Metrics(pr))) => cr <= pr
    case (Some(Network(co, cr, cb, ct)), Some(Network(po, pr, pb, pt))) =>
      AllIn(co, po) && cr <= pr && cb <= pb && ct <= pt
    case _ => false
  }

  /** Every grant allows the request equal to itself. */
  lemma DecideReflexive(p: Params)
    ensures Allows(p, p)
  {
  }

  function JoinedWith(xs: seq<string>, suffix: string): (r: string)
    ensures forall x | x in xs :: |r| > |x|
  {
    if xs == [] then suffix + "k"
    else
      var rest := JoinedWith(xs[1..], suffix);
      assert forall x | x in xs :: x == xs[0] || x in xs[1..];
      rest + xs[0] + "k"
  }

  /** A finite key list always misses some key: storage keys are unbounded. */
  lemma FreshKey(xs: seq<string>) returns (key: string)
    ensures key !in xs
  {
    key := JoinedWith(xs, "");
  }

  /** A comparison that fails is witnessed by a request only the candidate allows. */
  lemma WideningRequest(candidate: Params, current: Params) returns (request: Params)
    requires !ParamsWithin(candidate, current)
    ensures Allows(candidate, request) && !Allows(current, request)
  {
    DecideReflexive(candidate);
    request := candidate;
    if Allows(current, candidate) {
      // Only an all-keys candidate under a keyed grant passes its own request and still widens.
      var key := FreshKey(current.value.keys);
      request := Some(Storage([key], candidate.value.maxBytes));
      assert key in request.value.keys;
    }
  }

  /**
   `params_within` decides exactly the inclusion of the two request sets: it accepts no widening
   and refuses no narrowing.
   */
  lemma ParamsWithinIsInclusion(candidate: Params, current: Params)
    ensures ParamsWithin(candidate, current) <==> Included(candidate, current)
  {
    if !ParamsWithin(candidate, current) {
      var request := WideningRequest(candidate, current);
    }
  }

  lemma ParamsWithinPreorder(a: Params, b: Params, c: Params)
    ensures ParamsWithin(a, a)
    ensures ParamsWithin(a, b) && ParamsWithin(b, c) ==> ParamsWithin(a, c)
  {
    ParamsWithinIsInclusion(a, a);
    ParamsWithinIsInclusion(a, b);
    ParamsWithinIsInclusion(b, c);
    ParamsWithinIsInclusion(a, c);
  }

  // ---- `capability::params_within`: the comparison used by `narrow_instance` ----

  predicate NarrowsTo(plugin: Params, instance: Params)
  {
    match (plugin, instance)
    case (None, None) => true
    case (None, Some(_)) => false
    case (Some(_), None) => true
    case (Some(Storage(pk, pb)), Some(Storage(ik, ib))) => (pk == [] || AllIn(ik, pk)) && ib <= pb
    case (Some(Timer(pr, pa)), Some(Timer(ir, ia))) => ir <= pr && ia <= pa
    case (Some(Metrics(pr)), Some(Metrics(ir))) => ir <= pr
    case (Some(Network(po, pr, pb, pt)), Some(Network(io, ir, ib, it))) =>
      AllIn(io, po) && ir <= pr && ib <= pb && it <= pt
    case _ => false
  }

  /**
   The two shapes `NarrowsTo` accepts although they widen: dropping the parameters altogether, and
   an empty (all-keys) list under a keyed plugin grant.
   */
  predicate WidensSilently(plugin: Params, instance: Params)
  {
    || (plugin.Some? && instance.None?)
    || (&& plugin.Some? && instance.Some?
        && plugin.value.Storage? && instance.value.Storage?
        && plugin.value.keys != [] && instance.value.keys == [])
  }

  /** Exactly when an accepted narrowing really narrows. */
  lemma NarrowingIsInclusion(plugin: Params, instance: Params)
    ensures Included(instance, plugin) <==> NarrowsTo(plugin, instance) && !WidensSilently(plugin, instance)
  {
    ParamsWithinIsInclusion(instance, plugin);
  }

  /** Both exceptions occur: each pair is accepted as a narrowing and allows a new request. */
  lemma NarrowingWidens()
    ensures var plugin := Some(Storage(["a"], 8));
            && NarrowsTo(plugin, Some(Storage([], 8)))
            && Allows(Some(Storage([], 8)), Some(Storage(["b"], 8)))
            && !Allows(plugin, Some(Storage(["b"], 8)))
    ensures var plugin := Some(Metrics(1));
            NarrowsTo(plugin, None) && Allows(None, None) && !Allows(plugin, None)
  {
    assert "b" in ["b"] && "b" !in ["a"];
  }

  // ---- Grant lists: `Grants::find`, `narrow_instance` and the broker's merge ----

  /** The first grant of a capability, as `Grants::find` and the broker look it up. */
  function Find(caps: seq<Grant>, capability: CapabilityId): (r: Option<Grant>)
    ensures r.Some? ==> r.value in caps && r.value.capability == capability
    ensures r.None? <==> forall g | g in caps :: g.capability != capability
  {
    if caps == [] then None
    else if caps[0].capability == capability then Some(caps[0])
    else Find(caps[1..], capability)
  }

  /** The requests a grant list authorizes. */
  predicate Authorizes(caps: seq<Grant>, capability: CapabilityId, request: Params)
  {
    Decide(Find(caps, capability), request).Allowed?
  }

  datatype NarrowError = NotInPlugin(index: nat) | ExceedsPluginGrant(index: nat)

  predicate Acceptable(plugin: seq<Grant>, cap: Grant)
  {
    var granted := Find(plugin, cap.capability);
    granted.Some? && NarrowsTo(granted.value.params, cap.params)
  }

  /** `narrow_instance`: accepts the whole list, or reports the first offending grant. */
  method NarrowInstance(plugin: seq<Grant>, caps: seq<Grant>) returns (r: Result<seq<Grant>, NarrowError>)
    ensures r.Ok? <==> forall g | g in caps :: Acceptable(plugin, g)
    ensures r.Ok? ==> r.value == caps
    ensures r.Err? ==>
      && r.error.index < |caps|
      && (forall j | 0 <= j < r.error.index :: Acceptable(plugin, caps[j]))
      && !Acceptable(plugin, caps[r.error.index])
      && (r.error.NotInPlugin? <==> Find(plugin, caps[r.error.index].capability).None?)
  {
    for i := 0 to |caps|
      invariant forall j | 0 <= j < i :: Acceptable(plugin, caps[j])
    {
      var granted := Find(plugin, caps[i].capability);
      assert caps[i] in caps;
      if granted.None? {
        return Err(NotInPlugin(i));
      }
      if !NarrowsTo(granted.value.params, caps[i].params) {
        return Err(ExceedsPluginGrant(i));
      }
    }
    return Ok(caps);
  }

  /** The grant of `caps` that takes effect for a capability widens the plugin's grant of it. */
  predicate EffectiveWidening(plugin: seq<Grant>, caps: seq<Grant>, capability: CapabilityId)
  {
    var held, given := Find(plugin, capability), Find(caps, capability);
    held.Some? && given.Some? && WidensSilently(held.value.params, given.value.params)
  }

  /** Whatever the instance list authorizes for a capability, the plugin list does too. */
  ghost predicate Attenuates(plugin: seq<Grant>, caps: seq<Grant>, capability: CapabilityId)
  {
    forall request: Params :: Authorizes(caps, capability, request) ==> Authorizes(plugin, capability, request)
  }

  /**
   An instance list that `narrow_instance` accepted attenuates the plugin's authority over a
   capability exactly when its effective grant has neither of the two widening shapes.
   */
  lemma NarrowedInstanceAttenuates(plugin: seq<Grant>, caps: seq<Grant>, capability: CapabilityId)
    requires forall g | g in caps :: Acceptable(plugin, g)
    ensures Attenuates(plugin, caps, capability) <==> !EffectiveWidening(plugin, caps, capability)
  {
    var given := Find(caps, capability);
    if given.Some? {
      assert Acceptable(plugin, given.value);
      var held := Find(plugin, capability);
      NarrowingIsInclusion(held.value.params, given.value.params);
      assert forall request: Params ::
          (Authorizes(caps, capability, request) <==> Allows(given.value.params, request)) &&
          (Authorizes(plugin, capability, request) <==> Allows(held.value.params, request));
    }
  }

  predicate Inherent(capability: CapabilityId)
  {
    capability.UiUpdateState? || capability.LogWrite? || capability.ClockRead?
  }

  lemma FindAppend(caps: seq<Grant>, extra: Grant, capability: CapabilityId)
    ensures Find(caps + [extra], capability) ==
            if Find(caps, capability).Some? then Find(caps, capability)
            else if extra.capability == capability then Some(extra) else None
  {
    if caps == [] {
      assert caps + [extra] == [extra];
      assert Find([extra][1..], capability).None?;
    } else {
      assert (caps + [extra])[1..] == caps[1..] + [extra];
      FindAppend(caps[1..], extra, capability);
    }
  }

  /** `Broker::new`: adds each inherent capability the instance did not list, without parameters. */
  method MergeInherent(instance: seq<Grant>) returns (caps: seq<Grant>)
    ensures forall c: CapabilityId, request: Params ::
        Authorizes(caps, c, request) <==>
        Authorizes(instance, c, request) || (Inherent(c) && Find(instance, c).None? && request.None?)
    ensures forall c: CapabilityId | Inherent(c) :: Find(caps, c).Some?
    ensures instance <= caps && forall g | g in caps[|instance|..] :: g.params.None?
  {
    caps := instance;
    var registry := [UiUpdateState, LogWrite, ClockRead];
    for i := 0 to |registry|
      invariant forall c: CapabilityId ::
          Find(caps, c) == if Find(instance, c).Some? then Find(instance, c)
                           else if c in registry[..i] then Some(Grant(c, None)) else None
      invariant instance <= caps && forall g | g in caps[|instance|..] :: g.params.None?
    {
      var id := registry[i];
      if Find(caps, id).None? {
        forall c: CapabilityId
          ensures Find(caps + [Grant(id, None)], c) ==
                  if Find(caps, c).Some? then Find(caps, c)
                  else if id == c then Some(Grant(id, None)) else None
        {
          FindAppend(caps, Grant(id, None), c);
        }
        caps := caps + [Grant(id, None)];
      }
      assert registry[..i + 1] == registry[..i] + [id];
    }
    assert registry[..3] == registry;
  }

  /**
   `authorize_existing_grant` asks for exactly what was granted, so it succeeds exactly when the
   capability is granted, and otherwise reports `NotGranted`.
   */
  lemma ExistingGrantAuthorizes(caps: seq<Grant>, capability: CapabilityId)
    ensures var held := Find(caps, capability);
            var request := if held.Some? then held.value.params else None;
            Decide(held, request) == if held.Some? then Allowed else Denied(NotGranted)
  {
    var held := Find(caps, capability);
    if held.Some? {
      DecideReflexive(held.value.params);
    }
  }

  // ---- Why a request is denied ----

  /** The request for the same keys or origins and the least of everything else. */
  function Least(p: CapabilityParams): CapabilityParams
  {
    match p
    case Storage(keys, _) => Storage(keys, 0)
    case Timer(_, _) => Timer(0, 0)
    case Metrics(_) => Metrics(0)
    case Network(origins, _, _, _) => Network(origins, 0, 0, 0)
  }

  predicate SameKind(p: CapabilityParams, q: CapabilityParams)
  {
    (p.Storage? && q.Storage?) || (p.Timer? && q.Timer?) || (p.Metrics? && q.Metrics?) || (p.Network? && q.Network?)
  }

  /**
   Why `decide` denies: there is no grant; or the parameters are of different kinds; or the request would be allowed if
   it asked for less; or its scope is outside the grant's, with parameters on one side only counting as that.
   */
  lemma DenyReasons(grant: Option<Grant>, request: Params)
    ensures var d := Decide(grant, request);
      && (d == Denied(NotGranted) <==> grant.None?)
      && (d == Denied(InvalidInput) <==>
            grant.Some? && grant.value.params.Some? && request.Some?
                && !SameKind(grant.value.params.value, request.value))
      && (d == Denied(QuotaExceeded) <==>
            grant.Some? && request.Some? && d != Allowed && Decide(grant, Some(Least(request.value))) == Allowed)
      && (d == Denied(ScopeViolation) <==>
            && grant.Some? && d != Allowed && (request.Some? ==> Decide(grant, Some(Least(request.value))) != Allowed)
            && (grant.value.params.None? || request.None? || SameKind(grant.value.params.value, request.value)))
      && d != Denied(EnvironmentUnavailable)
  {
  }
}
