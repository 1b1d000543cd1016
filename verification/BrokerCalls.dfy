/**
 What an instance can make the broker do (crates/floatile-services/src/broker.rs:83-108, 186-429): each call asks
 `authorize` for fixed parameters, which looks at the first grant of a capability, and then meets a service
 whose quota the constructor took from the last grant that has one.
 */
module BrokerCalls {
  import opened Prelude
  import opened Capability
  import opened Distribution

  const SECOND: nat := 1_000_000_000

  /** `second` is used by timers only: the bound on active ones. */
  datatype Limit = Limit(first: nat, second: nat)

  // ---- Quotas ----

  /** The quota a grant carries for the service behind its capability. */
  function LimitOf(g: Grant): Option<Limit>
  {
    match (g.capability, g.params)
    case (StorageWrite, Some(Storage(_, maxBytes))) => Some(Limit(maxBytes, 0))
    case (TimerSchedule, Some(Timer(maxPerMinute, maxActive))) => Some(Limit(maxPerMinute, maxActive))
    case (SystemCpu, Some(Metrics(rate))) => Some(Limit(rate, 0))
    case (NetworkHttps, Some(Network(_, maxRequests, _, _))) => Some(Limit(maxRequests, 0))
    case _ => None
  }

  /** The quota in force without any grant that carries one. */
  function Default(c: CapabilityId): Limit
  {
    match c
    case StorageWrite => Limit(64 * 1024, 0)
    case TimerSchedule => Limit(60, 8)
    case SystemCpu => Limit(1, 0)
    case _ => Limit(0, 0)
  }

  predicate Carries(g: Grant, c: CapabilityId)
  {
    g.capability == c && LimitOf(g).Some?
  }

  /** The last grant that carries a quota for the capability decides it. */
  function Quota(caps: seq<Grant>, c: CapabilityId): Limit
  {
    if caps == [] then Default(c)
    else if Carries(caps[|caps| - 1], c) then LimitOf(caps[|caps| - 1]).value
    else Quota(caps[..|caps| - 1], c)
  }

  /** `Broker::new`: the quotas its loop over the grants leaves. */
  method BrokerQuotas(caps: seq<Grant>) returns (storage: nat, timer: Option<Limit>, metrics: nat, https: nat)
    ensures storage == Quota(caps, StorageWrite).first && metrics == Quota(caps, SystemCpu).first
    ensures https == Quota(caps, NetworkHttps).first
    ensures (if timer.Some? then timer.value else Default(TimerSchedule)) == Quota(caps, TimerSchedule)
  {
    storage, timer, metrics, https := 64 * 1024, None, 1, 0;
    for i := 0 to |caps|
      invariant storage == Quota(caps[..i], StorageWrite).first && metrics == Quota(caps[..i], SystemCpu).first
      invariant https == Quota(caps[..i], NetworkHttps).first
      invariant (if timer.Some? then timer.value else Default(TimerSchedule)) == Quota(caps[..i], TimerSchedule)
    {
      assert caps[..i + 1][..i] == caps[..i];
      match (caps[i].capability, caps[i].params) {
        case (StorageWrite, Some(Storage(_, maxBytes))) => storage := maxBytes;
        case (TimerSchedule, Some(Timer(maxPerMinute, maxActive))) => timer := Some(Limit(maxPerMinute, maxActive));
        case (SystemCpu, Some(Metrics(rate))) => metrics := rate;
        case (NetworkHttps, Some(Network(_, maxRequests, _, _))) => https := maxRequests;
        case _ =>
      }
    }
    assert caps[..|caps|] == caps;
  }

  /** Grants without parameters at the end change no quota. */
  lemma {:induction false} BareGrantsKeepQuota(caps: seq<Grant>, n: nat, c: CapabilityId)
    requires n <= |caps| && forall g | g in caps[n..] :: g.params.None?
    ensures Quota(caps, c) == Quota(caps[..n], c)
  {
    if n == |caps| {
      assert caps[..n] == caps;
    } else {
      var init := caps[..|caps| - 1];
      assert caps[n..][|caps| - 1 - n] == caps[|caps| - 1];
      assert forall g | g in init[n..] :: g in caps[n..];
      assert init[..n] == caps[..n];
      BareGrantsKeepQuota(init, n, c);
    }
  }

  /** The quota is that of the last grant carrying one, wherever it stands, and the default if there is none. */
  lemma {:induction false} QuotaIsLast(caps: seq<Grant>, c: CapabilityId, i: nat)
    requires i <= |caps| && forall j | i <= j < |caps| :: !Carries(caps[j], c)
    ensures i == 0 ==> Quota(caps, c) == Default(c)
    ensures i > 0 && Carries(caps[i - 1], c) ==> Quota(caps, c) == LimitOf(caps[i - 1]).value
  {
    if i < |caps| {
      QuotaIsLast(caps[..|caps| - 1], c, i);
    }
  }

  // ---- Calls ----

  /**
   What an instance asks for and the load it meets: `used` calls already in the current minute, `active` timers,
   `others` bytes stored under other keys, and the time since the last sample, if there was one.
   */
  datatype Call =
    | UpdateState
    | Log
    | ReadClock
    | ScheduleTimer(used: nat, active: nat)
    | CancelTimer
    | GetKey(key: string)
    | SetKey(key: string, len: U64, others: nat)
    | DeleteKey(key: string)
    | Fetch(origin: string, bytes: U64, timeout: U64, used: nat)
    | ReadCpu(elapsed: Option<nat>)
    | ReadMemory
    | Theme

  function Needs(call: Call): CapabilityId
  {
    match call
    case UpdateState => UiUpdateState
    case Log => LogWrite
    case ReadClock => ClockRead
    case ScheduleTimer(_, _) => TimerSchedule
    case CancelTimer => TimerSchedule
    case GetKey(_) => StorageRead
    case SetKey(_, _, _) => StorageWrite
    case DeleteKey(_) => StorageWrite
    case Fetch(_, _, _, _) => NetworkHttps
    case ReadCpu(_) => SystemCpu
    case ReadMemory => SystemMemory
    case Theme => ThemeSubscribe
  }

  /** The parameters the broker asks `authorize` for. */
  function Request(call: Call): Params
  {
    match call
    case ScheduleTimer(_, _) => Some(Timer(1, 1))
    case CancelTimer => Some(Timer(1, 1))
    case GetKey(key) => Some(Storage([key], 0))
    case SetKey(key, len, _) => Some(Storage([key], len))
    case DeleteKey(key) => Some(Storage([key], 0))
    case Fetch(origin, bytes, timeout, _) => Some(Network([origin], 1, bytes, timeout))
    case ReadCpu(_) => Some(Metrics(1))
    case _ => None
  }

  /** The least time between two samples; a rate of zero sets no limit. */
  function Interval(rate: nat): (r: nat)
    ensures rate == 0 ==> r == 0
    ensures rate > 0 ==> r * rate <= SECOND < (r + 1) * rate
  {
    if rate == 0 then 0 else SECOND / rate
  }

  predicate Fits(caps: seq<Grant>, call: Call)
  {
    var quota := Quota(caps, Needs(call));
    match call
    case ScheduleTimer(used, active) => used < quota.first && active < quota.second
    case SetKey(_, len, others) => others + len <= quota.first
    case Fetch(_, _, _, used) => used < quota.first
    case ReadCpu(elapsed) => elapsed.Some? ==> elapsed.value >= Interval(quota.first)
    case _ => true
  }

  /** `authorize` on the grants with the inherent ones added. */
  predicate Decides(caps: seq<Grant>, c: CapabilityId, request: Params)
  {
    Authorizes(caps, c, request) || (Inherent(c) && Find(caps, c).None? && request.None?)
  }

  /** The broker carries the call out. */
  predicate Permits(caps: seq<Grant>, call: Call)
  {
    Decides(caps, Needs(call), Request(call)) && Fits(caps, call)
  }

  ghost predicate CallsWithin(after: seq<Grant>, before: seq<Grant>)
  {
    forall call: Call :: Permits(after, call) ==> Permits(before, call)
  }

  // ---- Comparing first grants and last quotas ----

  /** The keys and bytes of the first storage grant. */
  predicate Stores(caps: seq<Grant>, c: CapabilityId)
  {
    Find(caps, c).Some? && Find(caps, c).value.params.Some? && Find(caps, c).value.params.value.Storage?
  }

  predicate KeysWithin(after: seq<Grant>, before: seq<Grant>, c: CapabilityId)
  {
    Stores(after, c) ==>
      Stores(before, c) &&
      KeyScopeWithin(Find(after, c).value.params.value.keys, Find(before, c).value.params.value.keys)
  }

  /** The longest value fits the first grant and the quota; the most in all fits the quota. */
  predicate BytesWithin(after: seq<Grant>, before: seq<Grant>)
  {
    Stores(after, StorageWrite) && Stores(before, StorageWrite) ==>
      var quota, had := Quota(after, StorageWrite).first, Quota(before, StorageWrite).first;
      var bytes := Find(after, StorageWrite).value.params.value.maxBytes;
      && quota <= had
      && (if bytes <= quota then bytes else quota) <= Find(before, StorageWrite).value.params.value.maxBytes
  }

  predicate TimersWithin(after: seq<Grant>, before: seq<Grant>)
  {
    Decides(after, TimerSchedule, Some(Timer(1, 1))) ==>
      var quota, had := Quota(after, TimerSchedule), Quota(before, TimerSchedule);
      && Decides(before, TimerSchedule, Some(Timer(1, 1)))
      && (quota.first > 0 && quota.second > 0 ==> quota.first <= had.first && quota.second <= had.second)
  }

  predicate SamplesWithin(after: seq<Grant>, before: seq<Grant>)
  {
    Decides(after, SystemCpu, Some(Metrics(1))) ==>
      && Decides(before, SystemCpu, Some(Metrics(1)))
      && Interval(Quota(before, SystemCpu).first) <= Interval(Quota(after, SystemCpu).first)
  }

  /** Some request passes: an origin, a rate that is not zero, and a quota that is not. */
  predicate Fetches(caps: seq<Grant>)
  {
    && Find(caps, NetworkHttps).Some? && Find(caps, NetworkHttps).value.params.Some?
    && var p := Find(caps, NetworkHttps).value.params.value;
    p.Network? && p.origins != [] && p.maxRequestsPerMinute > 0 && Quota(caps, NetworkHttps).first > 0
  }

  predicate FetchesWithin(after: seq<Grant>, before: seq<Grant>)
  {
    Fetches(after) ==>
      && Fetches(before)
      && Quota(after, NetworkHttps).first <= Quota(before, NetworkHttps).first
      && var p, q := Find(after, NetworkHttps).value.params.value, Find(before, NetworkHttps).value.params.value;
      && AllIn(p.origins, q.origins)
      && p.maxResponseBytes <= q.maxResponseBytes && p.maxTimeoutMs <= q.maxTimeoutMs
  }

  predicate PlainWithin(after: seq<Grant>, before: seq<Grant>)
  {
    forall c | c in {UiUpdateState, LogWrite, ClockRead, SystemMemory, ThemeSubscribe} ::
      Decides(after, c, None) ==> Decides(before, c, None)
  }

  /** First grants compared where the decision counts, last quotas where the service counts. */
  predicate FirstsAndLastsWithin(after: seq<Grant>, before: seq<Grant>)
  {
    && PlainWithin(after, before)
    && KeysWithin(after, before, StorageRead)
    && KeysWithin(after, before, StorageWrite) && BytesWithin(after, before)
    && TimersWithin(after, before)
    && SamplesWithin(after, before)
    && FetchesWithin(after, before)
  }

  // ---- One class of calls at a time ----

  lemma PlainCalls(after: seq<Grant>, before: seq<Grant>)
    ensures PlainWithin(after, before) <==>
            forall call | call in {UpdateState, Log, ReadClock, ReadMemory, Theme} ::
              Permits(after, call) ==> Permits(before, call)
  {
    assert forall call: Call | call in {UpdateState, Log, ReadClock, ReadMemory, Theme} ::
        Permits(after, call) <==> Decides(after, Needs(call), None);
    assert forall call: Call | call in {UpdateState, Log, ReadClock, ReadMemory, Theme} ::
        Permits(before, call) <==> Decides(before, Needs(call), None);
    assert Needs(UpdateState) == UiUpdateState && Needs(Log) == LogWrite && Needs(ReadClock) == ClockRead;
    assert Needs(ReadMemory) == SystemMemory && Needs(Theme) == ThemeSubscribe;
  }

  predicate InScope(caps: seq<Grant>, c: CapabilityId, key: string)
  {
    Stores(caps, c) && var keys := Find(caps, c).value.params.value.keys; keys == [] || key in keys
  }

  lemma StorageDecision(caps: seq<Grant>, c: CapabilityId, key: string, len: U64)
    requires c == StorageRead || c == StorageWrite
    ensures Decides(caps, c, Some(Storage([key], len))) <==>
            InScope(caps, c, key) && len <= Find(caps, c).value.params.value.maxBytes
  {
    assert key in [key];
  }

  lemma KeyCalls(after: seq<Grant>, before: seq<Grant>, c: CapabilityId)
    ensures KeysWithin(after, before, c) <==> forall key :: InScope(after, c, key) ==> InScope(before, c, key)
  {
    if Stores(after, c) && !KeysWithin(after, before, c) {
      var keys := Find(after, c).value.params.value.keys;
      var key: string;
      if keys != [] && !Stores(before, c) {
        key := keys[0];
      } else if !Stores(before, c) {
        key := "";
      } else {
        var had := Find(before, c).value.params.value.keys;
        if keys == [] {
          key := FreshKey(had);
        } else {
          key :| key in keys && key !in had;
        }
      }
      assert InScope(after, c, key) && !InScope(before, c, key);
    }
  }

  lemma GetCalls(after: seq<Grant>, before: seq<Grant>)
    ensures KeysWithin(after, before, StorageRead) <==>
            forall key :: Permits(after, GetKey(key)) ==> Permits(before, GetKey(key))
  {
    KeyCalls(after, before, StorageRead);
    forall key
      ensures Permits(after, GetKey(key)) <==> InScope(after, StorageRead, key)
      ensures Permits(before, GetKey(key)) <==> InScope(before, StorageRead, key)
    {
      StorageDecision(after, StorageRead, key, 0);
      StorageDecision(before, StorageRead, key, 0);
    }
  }

  lemma DeleteCalls(after: seq<Grant>, before: seq<Grant>)
    ensures KeysWithin(after, before, StorageWrite) <==>
            forall key :: Permits(after, DeleteKey(key)) ==> Permits(before, DeleteKey(key))
  {
    KeyCalls(after, before, StorageWrite);
    forall key
      ensures Permits(after, DeleteKey(key)) <==> InScope(after, StorageWrite, key)
      ensures Permits(before, DeleteKey(key)) <==> InScope(before, StorageWrite, key)
    {
      StorageDecision(after, StorageWrite, key, 0);
      StorageDecision(before, StorageWrite, key, 0);
    }
  }

  lemma SetPermitted(caps: seq<Grant>, key: string, len: U64, others: nat)
    ensures Permits(caps, SetKey(key, len, others)) <==>
            && InScope(caps, StorageWrite, key) && len <= Find(caps, StorageWrite).value.params.value.maxBytes
            && others + len <= Quota(caps, StorageWrite).first
  {
    StorageDecision(caps, StorageWrite, key, len);
  }

  lemma SetCalls(after: seq<Grant>, before: seq<Grant>)
    requires KeysWithin(after, before, StorageWrite)
    ensures BytesWithin(after, before) ==>
              forall key, len, others ::
                Permits(after, SetKey(key, len, others)) ==> Permits(before, SetKey(key, len, others))
  {
    KeyCalls(after, before, StorageWrite);
    if BytesWithin(after, before) {
      forall key, len, others | Permits(after, SetKey(key, len, others))
        ensures Permits(before, SetKey(key, len, others))
      {
        SetPermitted(after, key, len, others);
        SetPermitted(before, key, len, others);
      }
    }
  }

  /** Too much room shows in the longest value, or in one more byte on top of what is stored. */
  lemma SetWitness(after: seq<Grant>, before: seq<Grant>) returns (call: Call)
    requires KeysWithin(after, before, StorageWrite) && !BytesWithin(after, before)
    ensures Permits(after, call) && !Permits(before, call)
  {
    var quota := Quota(after, StorageWrite).first;
    var p := Find(after, StorageWrite).value.params.value;
    var key := if p.keys == [] then "" else p.keys[0];
    if quota <= Quota(before, StorageWrite).first {
      var len: U64 := if p.maxBytes <= quota then p.maxBytes else quota;
      call := SetKey(key, len, 0);
      SetPermitted(after, key, len, 0);
      SetPermitted(before, key, len, 0);
    } else {
      call := SetKey(key, 0, quota);
      SetPermitted(after, key, 0, quota);
      SetPermitted(before, key, 0, quota);
    }
  }

  lemma TimerCalls(after: seq<Grant>, before: seq<Grant>)
    ensures TimersWithin(after, before) <==>
            && (Permits(after, CancelTimer) ==> Permits(before, CancelTimer))
            && forall used, active ::
                 Permits(after, ScheduleTimer(used, active)) ==> Permits(before, ScheduleTimer(used, active))
  {
    var quota := Quota(after, TimerSchedule);
    if Decides(after, TimerSchedule, Some(Timer(1, 1))) && quota.first > 0 && quota.second > 0 {
      var last := ScheduleTimer(quota.first - 1, quota.second - 1);
      assert Permits(after, last);
      assert Permits(before, last) ==>
          quota.first <= Quota(before, TimerSchedule).first && quota.second <= Quota(before, TimerSchedule).second;
    }
  }

  lemma SampleCalls(after: seq<Grant>, before: seq<Grant>)
    ensures SamplesWithin(after, before) <==>
            forall elapsed :: Permits(after, ReadCpu(elapsed)) ==> Permits(before, ReadCpu(elapsed))
  {
    if Decides(after, SystemCpu, Some(Metrics(1))) {
      var soonest := Some(Interval(Quota(after, SystemCpu).first));
      assert Permits(after, ReadCpu(soonest)) && Permits(after, ReadCpu(None));
      assert Permits(before, ReadCpu(soonest)) ==> Interval(Quota(before, SystemCpu).first) <= soonest.value;
    }
  }

  lemma OneIn(x: string, xs: seq<string>)
    ensures AllIn([x], xs) <==> x in xs
  {
    assert x in [x];
  }

  lemma FetchPermitted(caps: seq<Grant>, origin: string, bytes: U64, timeout: U64, used: nat)
    ensures Permits(caps, Fetch(origin, bytes, timeout, used)) <==>
            && Fetches(caps) && used < Quota(caps, NetworkHttps).first
            && var p := Find(caps, NetworkHttps).value.params.value;
            origin in p.origins && bytes <= p.maxResponseBytes && timeout <= p.maxTimeoutMs
  {
    var request := Some(Network([origin], 1, bytes, timeout));
    var held := Find(caps, NetworkHttps);
    assert Decides(caps, NetworkHttps, request) <==> Decide(held, request).Allowed?;
    if held.Some? && held.value.params.Some? && held.value.params.value.Network? {
      OneIn(origin, held.value.params.value.origins);
    } else {
      assert !Decide(held, request).Allowed?;
    }
  }

  lemma FetchCalls(after: seq<Grant>, before: seq<Grant>)
    requires FetchesWithin(after, before)
    ensures forall origin, bytes, timeout, used ::
              Permits(after, Fetch(origin, bytes, timeout, used)) ==>
                Permits(before, Fetch(origin, bytes, timeout, used))
  {
    forall origin, bytes, timeout, used | Permits(after, Fetch(origin, bytes, timeout, used))
      ensures Permits(before, Fetch(origin, bytes, timeout, used))
    {
      FetchPermitted(after, origin, bytes, timeout, used);
      FetchPermitted(before, origin, bytes, timeout, used);
    }
  }

  /** The largest request of the fullest minute, to an origin that is not allowed if there is one. */
  lemma FetchWitness(after: seq<Grant>, before: seq<Grant>) returns (call: Call)
    requires !FetchesWithin(after, before)
    ensures Permits(after, call) && !Permits(before, call)
  {
    var p := Find(after, NetworkHttps).value.params.value;
    var origin := p.origins[0];
    if Fetches(before) && !AllIn(p.origins, Find(before, NetworkHttps).value.params.value.origins) {
      origin :| origin in p.origins && origin !in Find(before, NetworkHttps).value.params.value.origins;
    }
    var used := Quota(after, NetworkHttps).first - 1;
    call := Fetch(origin, p.maxResponseBytes, p.maxTimeoutMs, used);
    FetchPermitted(after, origin, p.maxResponseBytes, p.maxTimeoutMs, used);
    FetchPermitted(before, origin, p.maxResponseBytes, p.maxTimeoutMs, used);
  }

  // ---- Results ----

  lemma WithinPermits(after: seq<Grant>, before: seq<Grant>, call: Call)
    requires FirstsAndLastsWithin(after, before) && Permits(after, call)
    ensures Permits(before, call)
  {
    PlainCalls(after, before);
    GetCalls(after, before);
    DeleteCalls(after, before);
    SetCalls(after, before);
    TimerCalls(after, before);
    SampleCalls(after, before);
    FetchCalls(after, before);
  }

  /**
   For any two lists of grants: the broker carries out no call for the first that it would not for the second
   exactly when the first grants, where the decision is made, and the last quotas, where a service counts, compare.
   */
  lemma CallsWithinIffFirstsAndLasts(after: seq<Grant>, before: seq<Grant>)
    ensures CallsWithin(after, before) <==> FirstsAndLastsWithin(after, before)
  {
    if FirstsAndLastsWithin(after, before) {
      forall call: Call | Permits(after, call)
        ensures Permits(before, call)
      {
        WithinPermits(after, before, call);
      }
    } else {
      PlainCalls(after, before);
      GetCalls(after, before);
      DeleteCalls(after, before);
      TimerCalls(after, before);
      SampleCalls(after, before);
      if KeysWithin(after, before, StorageWrite) && !BytesWithin(after, before) {
        var call := SetWitness(after, before);
      }
      if !FetchesWithin(after, before) {
        var call := FetchWitness(after, before);
      }
    }
  }

  // ---- Plans and calls ----

  function GrantsOf(manifest: Manifest): seq<Grant>
  {
    DeclaredGrants(manifest.permissions)
  }

  /** Manifest validation refuses declarations of inherent capabilities. */
  predicate NoInherent(manifest: Manifest)
  {
    forall g | g in GrantsOf(manifest) :: !Inherent(g.capability)
  }

  lemma {:induction false} LastGrantQuota(caps: seq<Grant>, c: CapabilityId)
    requires LastGrant(caps, c).Some?
    ensures LastGrant(caps, c).value.capability == c
    ensures LimitOf(LastGrant(caps, c).value).Some? ==> Quota(caps, c) == LimitOf(LastGrant(caps, c).value).value
  {
    if caps[|caps| - 1].capability != c {
      LastGrantQuota(caps[..|caps| - 1], c);
    }
  }

  /** In a coherent manifest the quota is the one its first declaration carries. */
  lemma CoherentQuota(manifest: Manifest, c: CapabilityId)
    requires Coherent(manifest) && Find(GrantsOf(manifest), c).Some?
    requires LimitOf(Find(GrantsOf(manifest), c).value).Some?
    ensures Quota(GrantsOf(manifest), c) == LimitOf(Find(GrantsOf(manifest), c).value).value
  {
    assert FirstAndLastAgree(GrantsOf(manifest), c);
    FirstAndLastBothExist(GrantsOf(manifest), c);
    LastGrantQuota(GrantsOf(manifest), c);
  }

  lemma LimitsWithin(a: Grant, b: Grant)
    requires a.capability == b.capability && ParamsWithin(a.params, b.params)
    ensures LimitOf(a).Some? <==> LimitOf(b).Some?
    ensures LimitOf(a).Some? ==>
              LimitOf(a).value.first <= LimitOf(b).value.first && LimitOf(a).value.second <= LimitOf(b).value.second
  {
  }

  lemma Scaled(x: nat, y: nat, k: nat)
    requires x <= y
    ensures x * k <= y * k
  {
  }

  lemma QuotientAtLeast(n: nat, d: nat, q: nat)
    requires d > 0 && q * d <= n
    ensures q <= n / d
  {
    var r := n / d;
    assert n < (r + 1) * d;
    if q > r {
      Scaled(r + 1, q, d);
      assert false;
    }
  }

  lemma IntervalShrinks(slow: nat, fast: nat)
    requires 0 < slow <= fast
    ensures Interval(fast) <= Interval(slow)
  {
    var q := SECOND / fast;
    assert q * fast <= SECOND;
    Scaled(slow, fast, q);
    assert q * slow == slow * q && q * fast == fast * q;
    QuotientAtLeast(SECOND, slow, q);
  }

  lemma FirstsCompare(after: Manifest, before: Manifest, c: CapabilityId)
    requires Coherent(after) && Coherent(before) && FirstsWithin(GrantsOf(after), GrantsOf(before))
    requires Find(GrantsOf(after), c).Some?
    ensures Find(GrantsOf(before), c).Some?
    ensures ParamsWithin(Find(GrantsOf(after), c).value.params, Find(GrantsOf(before), c).value.params)
    ensures LimitOf(Find(GrantsOf(after), c).value).Some? ==>
              && Quota(GrantsOf(after), c) == LimitOf(Find(GrantsOf(after), c).value).value
              && Quota(GrantsOf(before), c) == LimitOf(Find(GrantsOf(before), c).value).value
              && Quota(GrantsOf(after), c).first <= Quota(GrantsOf(before), c).first
              && Quota(GrantsOf(after), c).second <= Quota(GrantsOf(before), c).second
  {
    var a, b := Find(GrantsOf(after), c).value, Find(GrantsOf(before), c).value;
    LimitsWithin(a, b);
    if LimitOf(a).Some? {
      CoherentQuota(after, c);
      CoherentQuota(before, c);
    }
  }

  lemma CoherentPlain(after: Manifest, before: Manifest)
    requires Coherent(after) && Coherent(before) && FirstsWithin(GrantsOf(after), GrantsOf(before))
        && NoInherent(before)
    ensures PlainWithin(GrantsOf(after), GrantsOf(before))
  {
    forall c | c in {UiUpdateState, LogWrite, ClockRead, SystemMemory, ThemeSubscribe}
                && Decides(GrantsOf(after), c, None)
      ensures Decides(GrantsOf(before), c, None)
    {
      if Find(GrantsOf(after), c).Some? {
        FirstsCompare(after, before, c);
      }
    }
  }

  lemma CoherentStorage(after: Manifest, before: Manifest)
    requires Coherent(after) && Coherent(before) && FirstsWithin(GrantsOf(after), GrantsOf(before))
    ensures KeysWithin(GrantsOf(after), GrantsOf(before), StorageRead)
    ensures KeysWithin(GrantsOf(after), GrantsOf(before), StorageWrite)
        && BytesWithin(GrantsOf(after), GrantsOf(before))
  {
    if Stores(GrantsOf(after), StorageRead) {
      FirstsCompare(after, before, StorageRead);
    }
    if Stores(GrantsOf(after), StorageWrite) {
      FirstsCompare(after, before, StorageWrite);
    }
  }

  lemma CoherentServices(after: Manifest, before: Manifest)
    requires Coherent(after) && Coherent(before) && FirstsWithin(GrantsOf(after), GrantsOf(before))
    ensures TimersWithin(GrantsOf(after), GrantsOf(before))
    ensures SamplesWithin(GrantsOf(after), GrantsOf(before))
  {
    if Decides(GrantsOf(after), TimerSchedule, Some(Timer(1, 1))) {
      FirstsCompare(after, before, TimerSchedule);
    }
    if Decides(GrantsOf(after), SystemCpu, Some(Metrics(1))) {
      FirstsCompare(after, before, SystemCpu);
      IntervalShrinks(Quota(GrantsOf(after), SystemCpu).first, Quota(GrantsOf(before), SystemCpu).first);
    }
  }

  lemma CoherentFetches(after: Manifest, before: Manifest)
    requires Coherent(after) && Coherent(before) && FirstsWithin(GrantsOf(after), GrantsOf(before))
    ensures FetchesWithin(GrantsOf(after), GrantsOf(before))
  {
    if Fetches(GrantsOf(after)) {
      FirstsCompare(after, before, NetworkHttps);
      var p := Find(GrantsOf(after), NetworkHttps).value.params.value;
      assert p.origins[0] in p.origins;
    }
  }

  /** Between coherent manifests, no new authority as the planners read it means no new call at all. */
  lemma PlannedWithinIsCallsWithin(after: Manifest, before: Manifest)
    requires ParsedPermissions(after.permissions).Ok? && ParsedPermissions(before.permissions).Ok?
    requires Coherent(after) && Coherent(before) && NoInherent(before) && AuthorityWithin(after, before)
    ensures CallsWithin(GrantsOf(after), GrantsOf(before))
  {
    CoherentWithin(after, before);
    DecidedWithinIffFirsts(before, after);
    CoherentPlain(after, before);
    CoherentStorage(after, before);
    CoherentServices(after, before);
    CoherentFetches(after, before);
    CallsWithinIffFirstsAndLasts(GrantsOf(after), GrantsOf(before));
  }

  /** An upgrade that asks for no confirmation lets an instance make no new call. */
  lemma UnconfirmedGainsNoCall(current: Manifest, candidate: Manifest)
    requires PlanUpgrade(current, candidate).Ok? && !PlanUpgrade(current, candidate).value.requiresConfirmation
    requires Coherent(current) && Coherent(candidate) && NoInherent(current)
    ensures CallsWithin(GrantsOf(candidate), GrantsOf(current))
  {
    UpgradeConfirmation(current, candidate);
    PlannedWithinIsCallsWithin(candidate, current);
  }

  lemma RollbackGainsNoCall(current: Manifest, target: Manifest)
    requires PlanRollback(current, target).Ok? && Coherent(current) && Coherent(target) && NoInherent(current)
    ensures CallsWithin(GrantsOf(target), GrantsOf(current))
  {
    RollbackNeverWidens(current, target);
    PlannedWithinIsCallsWithin(target, current);
  }

  predicate Sane(manifest: Manifest)
  {
    Coherent(manifest) && NoInherent(manifest)
  }

  /** Along a chain of planned moves, a call an instance can make was possible at first or since a confirmed upgrade. */
  lemma {:induction false} ChainCalls(first: Manifest, moves: seq<Move>, call: Call)
    requires Planned(first, moves) && Sane(first) && forall m | m in moves :: Sane(m.manifest)
    requires Permits(GrantsOf(Final(first, moves)), call)
    ensures Permits(GrantsOf(first), call) ||
            exists i | 0 <= i < |moves| :: Confirmed(first, moves, i) && Permits(GrantsOf(moves[i].manifest), call)
    decreases |moves|
  {
    if moves != [] {
      var next := moves[0].manifest;
      assert Final(next, moves[1..]) == Final(first, moves);
      assert forall m | m in moves[1..] :: m in moves;
      assert moves[0] in moves;
      ChainCalls(next, moves[1..], call);
      if !Permits(GrantsOf(next), call) {
        var i :| 0 <= i < |moves[1..]| && Confirmed(next, moves[1..], i)
            && Permits(GrantsOf(moves[1..][i].manifest), call);
        assert Confirmed(first, moves, i + 1);
      } else if moves[0].Upgrade? {
        if !Confirmed(first, moves, 0) {
          UnconfirmedGainsNoCall(first, next);
        }
      } else {
        RollbackGainsNoCall(first, next);
      }
    }
  }

  // ---- With duplicates the two readings part ----

  /** The first of two timer grants decides more, but the broker asks for one timer and the last one sets the quota. */
  lemma DecidedMoreButNoNewCall()
    ensures var one, two := [Grant(TimerSchedule, Some(Timer(1, 1)))],
                            [Grant(TimerSchedule, Some(Timer(10, 10))), Grant(TimerSchedule, Some(Timer(1, 1)))];
      && Authorizes(two, TimerSchedule, Some(Timer(10, 10))) && !Authorizes(one, TimerSchedule, Some(Timer(10, 10)))
      && CallsWithin(two, one)
  {
    var small, big := Grant(TimerSchedule, Some(Timer(1, 1))), Grant(TimerSchedule, Some(Timer(10, 10)));
    var one, two := [small], [big, small];
    QuotaIsLast(one, TimerSchedule, 1);
    QuotaIsLast(two, TimerSchedule, 2);
    forall call: Call | Permits(two, call)
      ensures Permits(one, call)
    {
      assert Find(one[1..], Needs(call)).None? && two[1..] == one;
    }
  }

  /** The upgrade that hides an expansion behind a duplicate does gain a call. */
  lemma DuplicateHidesCall()
    ensures var current, candidate := WithPermissions(1.0, [KeyA()]), WithPermissions(2.0, [AllKeys(), KeyA()]);
      && PlanUpgrade(current, candidate).Ok? && !PlanUpgrade(current, candidate).value.requiresConfirmation
      && Permits(GrantsOf(candidate), GetKey("b")) && !Permits(GrantsOf(current), GetKey("b"))
  {
    var current, candidate := WithPermissions(1.0, [KeyA()]), WithPermissions(2.0, [AllKeys(), KeyA()]);
    DuplicateHidesExpansion();
    StorageDecision(GrantsOf(candidate), StorageRead, "b", 8);
    StorageDecision(GrantsOf(current), StorageRead, "b", 8);
    StorageDecision(GrantsOf(candidate), StorageRead, "b", 0);
    StorageDecision(GrantsOf(current), StorageRead, "b", 0);
  }
}
