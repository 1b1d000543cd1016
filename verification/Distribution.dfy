/**
 Upgrade and rollback planning (crates/floatile-core/src/distribution.rs:124-263).

 The planners compare permission maps syntactically. The lemmas here relate their verdicts to
 authority: the set of (capability, request) pairs a manifest's permissions allow.
 */
module Distribution {
  import opened Prelude
  import opened Capability

  /** One manifest permission after its name and parameters were parsed, or the parse error. */
  datatype PermissionDecl = Declared(capability: CapabilityId, params: Params) | Malformed(message: string)

  /** `version` is None when the text is not a semantic version. */
  datatype Manifest = Manifest(
    id: string,
    publisher: string,
    version: Option<Version>,
    storageMigration: Option<U64>,
    permissions: seq<PermissionDecl>)

  type Permissions = map<CapabilityId, Params>

  datatype ChangeKind = Added | Removed | Expanded | Reduced | Unchanged

  datatype PermissionChange = PermissionChange(capability: CapabilityId, kind: ChangeKind)

  datatype UpgradePlan = UpgradePlan(
    current: Version, candidate: Version, permissions: seq<PermissionChange>, requiresConfirmation: bool)

  datatype RollbackPlan = RollbackPlan(current: Version, target: Version, permissions: seq<PermissionChange>)

  datatype UpgradeError =
    | PluginMismatch
    | PublisherMismatch
    | VersionNotNewer
    | StorageMigrationRollback
    | InvalidPermission(message: string)

  datatype RollbackError =
    | RollbackPluginMismatch
    | RollbackPublisherMismatch
    | VersionNotOlder
    | StorageMigrationIncompatible
    | PermissionExpansion
    | RollbackInvalidPermission(message: string)

  // ---- Parsed permissions: a later declaration of a capability replaces an earlier one ----

  function ParsedPermissions(decls: seq<PermissionDecl>): Result<Permissions, string>
  {
    if decls == [] then Ok(map[])
    else
      var last := decls[|decls| - 1];
      match ParsedPermissions(decls[..|decls| - 1])
      case Err(message) => Err(message)
      case Ok(permissions) =>
        if last.Malformed? then Err(last.message)
        else Ok(permissions[last.capability := last.params])
  }

  /** The grants a host builds from the same declarations, in declaration order. */
  function DeclaredGrants(decls: seq<PermissionDecl>): seq<Grant>
  {
    if decls == [] then []
    else
      var last := decls[|decls| - 1];
      DeclaredGrants(decls[..|decls| - 1]) + if last.Declared? then [Grant(last.capability, last.params)] else []
  }

  function LastGrant(caps: seq<Grant>, capability: CapabilityId): Option<Grant>
  {
    if caps == [] then None
    else if caps[|caps| - 1].capability == capability then Some(caps[|caps| - 1])
    else LastGrant(caps[..|caps| - 1], capability)
  }

  lemma {:induction false} ParsedIsLastGrant(decls: seq<PermissionDecl>, capability: CapabilityId)
    requires ParsedPermissions(decls).Ok?
    ensures var permissions := ParsedPermissions(decls).value;
            var last := LastGrant(DeclaredGrants(decls), capability);
            && (capability in permissions <==> last.Some?)
            && (last.Some? ==> permissions[capability] == last.value.params)
  {
    if decls != [] {
      var n := |decls| - 1;
      ParsedIsLastGrant(decls[..n], capability);
      var caps := DeclaredGrants(decls);
      assert caps[..|caps| - 1] == DeclaredGrants(decls[..n]);
    }
  }

  lemma {:induction false} FirstAndLastBothExist(caps: seq<Grant>, capability: CapabilityId)
    ensures Find(caps, capability).Some? <==> LastGrant(caps, capability).Some?
  {
    if caps != [] {
      var n := |caps| - 1;
      FirstAndLastBothExist(caps[..n], capability);
      assert forall g | g in caps :: g in caps[..n] || g == caps[n];
      assert forall g | g in caps[..n] :: g in caps;
      assert caps[n] in caps;
    }
  }

  predicate Holds(permissions: Permissions, capability: CapabilityId, request: Params)
  {
    capability in permissions && Allows(permissions[capability], request)
  }

  /** Authority as the planners read it: every (capability, request) pair the manifest allows. */
  predicate Authority(manifest: Manifest, capability: CapabilityId, request: Params)
  {
    var parsed := ParsedPermissions(manifest.permissions);
    parsed.Ok? && Holds(parsed.value, capability, request)
  }

  predicate FirstAndLastAgree(caps: seq<Grant>, capability: CapabilityId)
  {
    var first, last := Find(caps, capability), LastGrant(caps, capability);
    first.Some? && last.Some? ==>
      && ParamsWithin(first.value.params, last.value.params)
      && ParamsWithin(last.value.params, first.value.params)
  }

  /**
   The planners keep the last declaration of a capability and the broker looks up the first, so both
   see the same authority over it exactly when those two declarations include each other.
   */
  lemma PlannerSeesBrokerAuthority(manifest: Manifest, capability: CapabilityId)
    requires ParsedPermissions(manifest.permissions).Ok?
    ensures (forall request: Params ::
               Authority(manifest, capability, request) <==>
               Authorizes(DeclaredGrants(manifest.permissions), capability, request))
       <==> FirstAndLastAgree(DeclaredGrants(manifest.permissions), capability)
  {
    var caps := DeclaredGrants(manifest.permissions);
    ParsedIsLastGrant(manifest.permissions, capability);
    FirstAndLastBothExist(caps, capability);
    var first, last := Find(caps, capability), LastGrant(caps, capability);
    if first.Some? {
      ParamsWithinIsInclusion(first.value.params, last.value.params);
      ParamsWithinIsInclusion(last.value.params, first.value.params);
      assert forall request: Params ::
          (Authority(manifest, capability, request) <==> Allows(last.value.params, request)) &&
          (Authorizes(caps, capability, request) <==> Allows(first.value.params, request));
    }
  }

  // ---- Permission changes ----

  /** Registry order, the order in which capabilities compare. */
  function Rank(capability: CapabilityId): nat
  {
    match capability
    case UiUpdateState => 0
    case LogWrite => 1
    case ClockRead => 2
    case StorageRead => 3
    case StorageWrite => 4
    case TimerSchedule => 5
    case ThemeSubscribe => 6
    case SystemCpu => 7
    case SystemMemory => 8
    case NetworkHttps => 9
  }

  lemma {:induction false} SomeLeast(capabilities: set<CapabilityId>)
    requires capabilities != {}
    ensures exists c :: IsLeast(c, capabilities)
  {
    var c :| c in capabilities;
    if capabilities != {c} {
      assert capabilities - {c} != {} by {
        assert capabilities == capabilities - {c} + {c};
      }
      SomeLeast(capabilities - {c});
      var least :| IsLeast(least, capabilities - {c});
      var smaller := if Rank(c) <= Rank(least) then c else least;
      assert forall d | d in capabilities :: d == c || d in capabilities - {c};
      assert IsLeast(smaller, capabilities);
    } else {
      assert IsLeast(c, capabilities);
    }
  }

  predicate IsLeast(capability: CapabilityId, capabilities: set<CapabilityId>)
  {
    capability in capabilities && forall d | d in capabilities :: Rank(capability) <= Rank(d)
  }

  lemma LeastIsUnique(capabilities: set<CapabilityId>)
    ensures forall a, b :: IsLeast(a, capabilities) && IsLeast(b, capabilities) ==> a == b
  {
    forall a, b | IsLeast(a, capabilities) && IsLeast(b, capabilities)
      ensures a == b
    {
      RankInjective(a, b);
    }
  }

  /** The iteration order of an ordered set of capabilities. */
  function Ordered(capabilities: set<CapabilityId>): seq<CapabilityId>
  {
    if capabilities == {} then []
    else
      SomeLeast(capabilities);
      LeastIsUnique(capabilities);
      var least :| IsLeast(least, capabilities);
      [least] + Ordered(capabilities - {least})
  }

  ghost predicate StrictlyRanked(xs: seq<CapabilityId>)
  {
    forall i, j | 0 <= i < j < |xs| :: Rank(xs[i]) < Rank(xs[j])
  }

  lemma {:induction false} OrderedIsSorted(capabilities: set<CapabilityId>)
    ensures StrictlyRanked(Ordered(capabilities))
    ensures forall c :: c in Ordered(capabilities) <==> c in capabilities
  {
    if capabilities != {} {
      SomeLeast(capabilities);
      var least :| IsLeast(least, capabilities) && Ordered(capabilities) == [least] + Ordered(capabilities - {least});
      var rest := Ordered(capabilities - {least});
      OrderedIsSorted(capabilities - {least});
      forall i, j | 0 <= i < j < |rest| + 1
        ensures Rank(([least] + rest)[i]) < Rank(([least] + rest)[j])
      {
        var later := rest[j - 1];
        assert later in rest;
        RankInjective(least, later);
      }
    }
  }

  lemma RankInjective(a: CapabilityId, b: CapabilityId)
    ensures Rank(a) == Rank(b) ==> a == b
  {
  }

  function KindOf(current: Permissions, candidate: Permissions, capability: CapabilityId): ChangeKind
    requires capability in current.Keys + candidate.Keys
  {
    if capability !in current then Added
    else if capability !in candidate then Removed
    else if current[capability] == candidate[capability] then Unchanged
    else if ParamsWithin(candidate[capability], current[capability]) then Reduced
    else Expanded
  }

  function ChangesFor(current: Permissions, candidate: Permissions, capabilities: seq<CapabilityId>):
    (r: seq<PermissionChange>)
    requires forall c | c in capabilities :: c in current.Keys + candidate.Keys
    ensures |r| == |capabilities|
    ensures forall i | 0 <= i < |r| ::
        r[i] == PermissionChange(capabilities[i], KindOf(current, candidate, capabilities[i]))
  {
    seq(|capabilities|, i requires 0 <= i < |capabilities| =>
      PermissionChange(capabilities[i], KindOf(current, candidate, capabilities[i])))
  }

  function ChangeList(current: Permissions, candidate: Permissions): seq<PermissionChange>
  {
    OrderedIsSorted(current.Keys + candidate.Keys);
    ChangesFor(current, candidate, Ordered(current.Keys + candidate.Keys))
  }

  /** `permission_changes`: classifies the union of the capabilities, once each, in order. */
  method PermissionChanges(current: Permissions, candidate: Permissions) returns (changes: seq<PermissionChange>)
    ensures changes == ChangeList(current, candidate)
  {
    var capabilities := Ordered(current.Keys + candidate.Keys);
    OrderedIsSorted(current.Keys + candidate.Keys);
    changes := [];
    for i := 0 to |capabilities|
      invariant |changes| == i
      invariant forall j | 0 <= j < i ::
          capabilities[j] in current.Keys + candidate.Keys &&
          changes[j] == PermissionChange(capabilities[j], KindOf(current, candidate, capabilities[j]))
    {
      var capability := capabilities[i];
      assert capability in capabilities;
      var kind;
      if capability !in current {
        kind := Added;
      } else if capability !in candidate {
        kind := Removed;
      } else if current[capability] == candidate[capability] {
        kind := Unchanged;
      } else if ParamsWithin(candidate[capability], current[capability]) {
        kind := Reduced;
      } else {
        kind := Expanded;
      }
      assert kind == KindOf(current, candidate, capability);
      changes := changes + [PermissionChange(capability, kind)];
    }
  }

  ghost predicate Covered(changes: seq<PermissionChange>, capability: CapabilityId)
  {
    exists i | 0 <= i < |changes| :: changes[i].capability == capability
  }

  /** The change list is ordered and covers the union of both capability sets, each once. */
  lemma ChangeListCoverage(current: Permissions, candidate: Permissions)
    ensures var changes := ChangeList(current, candidate);
            && (forall i, j | 0 <= i < j < |changes| :: Rank(changes[i].capability) < Rank(changes[j].capability))
            && (forall c :: c in current.Keys + candidate.Keys <==> Covered(changes, c))
  {
    var keys := current.Keys + candidate.Keys;
    OrderedIsSorted(keys);
    var order, changes := Ordered(keys), ChangeList(current, candidate);
    forall c
      ensures c in keys <==> Covered(changes, c)
    {
      if c in keys {
        var i :| 0 <= i < |order| && order[i] == c;
        assert changes[i].capability == c;
      }
    }
  }

  /** What each kind says about the two request sets of its capability. */
  lemma ChangeKindMeaning(current: Permissions, candidate: Permissions, c: CapabilityId)
    requires c in current.Keys + candidate.Keys
    ensures var kind := KindOf(current, candidate, c);
            && (kind.Added? <==> c !in current)
            && (kind.Removed? <==> c !in candidate)
            && (kind.Unchanged? ==> current[c] == candidate[c])
            && (kind.Reduced? ==> Included(candidate[c], current[c]) && candidate[c] != current[c])
            && (kind.Expanded? <==> c in current && c in candidate && !Included(candidate[c], current[c]))
  {
    if c in current && c in candidate {
      ParamsWithinIsInclusion(candidate[c], current[c]);
    }
  }

  predicate Widening(change: PermissionChange)
  {
    change.kind.Added? || change.kind.Expanded?
  }

  predicate Widens(changes: seq<PermissionChange>)
  {
    exists i | 0 <= i < |changes| :: Widening(changes[i])
  }

  ghost predicate HeldWithin(candidate: Permissions, current: Permissions)
  {
    forall c: CapabilityId, request: Params :: Holds(candidate, c, request) ==> Holds(current, c, request)
  }

  /** A change list widens exactly when the candidate allows some pair the current side refuses. */
  lemma WidensIffNewAuthority(current: Permissions, candidate: Permissions)
    ensures Widens(ChangeList(current, candidate)) <==> !HeldWithin(candidate, current)
  {
    var changes := ChangeList(current, candidate);
    ChangeListCoverage(current, candidate);
    if Widens(changes) {
      var i :| 0 <= i < |changes| && Widening(changes[i]);
      var c := changes[i].capability;
      ChangeKindMeaning(current, candidate, c);
      DecideReflexive(candidate[c]);
      var request :| Allows(candidate[c], request) && (c in current ==> !Allows(current[c], request));
      assert Holds(candidate, c, request) && !Holds(current, c, request);
    } else {
      forall c: CapabilityId, request: Params | Holds(candidate, c, request)
        ensures Holds(current, c, request)
      {
        assert Covered(changes, c);
        var i :| 0 <= i < |changes| && changes[i].capability == c;
        assert !Widening(changes[i]);
        ChangeKindMeaning(current, candidate, c);
      }
    }
  }

  // ---- The planners ----

  function Migration(manifest: Manifest): U64
  {
    if manifest.storageMigration.Some? then manifest.storageMigration.value else 0
  }

  function PlanChanges(current: Manifest, candidate: Manifest): Result<seq<PermissionChange>, string>
  {
    var before, after := ParsedPermissions(current.permissions), ParsedPermissions(candidate.permissions);
    if before.Err? then Err(before.error)
    else if after.Err? then Err(after.error)
    else Ok(ChangeList(before.value, after.value))
  }

  function PlanUpgrade(current: Manifest, candidate: Manifest): Result<UpgradePlan, UpgradeError>
  {
    if current.id != candidate.id then Err(PluginMismatch)
    else if current.publisher != candidate.publisher then Err(PublisherMismatch)
    else if current.version.None? || candidate.version.None? then Err(InvalidPermission("version"))
    else if candidate.version.value <= current.version.value then Err(VersionNotNewer)
    else if Migration(candidate) < Migration(current) then Err(StorageMigrationRollback)
    else
      var changes := PlanChanges(current, candidate);
      if changes.Err? then Err(InvalidPermission(changes.error))
      else Ok(UpgradePlan(current.version.value, candidate.version.value, changes.value, Widens(changes.value)))
  }

  function PlanRollback(current: Manifest, target: Manifest): Result<RollbackPlan, RollbackError>
  {
    if current.id != target.id then Err(RollbackPluginMismatch)
    else if current.publisher != target.publisher then Err(RollbackPublisherMismatch)
    else if current.version.None? || target.version.None? then Err(RollbackInvalidPermission("version"))
    else if target.version.value >= current.version.value then Err(VersionNotOlder)
    else if Migration(target) != Migration(current) then Err(StorageMigrationIncompatible)
    else
      var changes := PlanChanges(current, target);
      if changes.Err? then Err(RollbackInvalidPermission(changes.error))
      else if Widens(changes.value) then Err(PermissionExpansion)
      else Ok(RollbackPlan(current.version.value, target.version.value, changes.value))
  }

  /** `b` allows nothing that `a` does not. */
  ghost predicate AuthorityWithin(b: Manifest, a: Manifest)
  {
    forall c: CapabilityId, request: Params :: Authority(b, c, request) ==> Authority(a, c, request)
  }

  lemma AuthorityIsHeld(b: Manifest, a: Manifest)
    requires ParsedPermissions(a.permissions).Ok? && ParsedPermissions(b.permissions).Ok?
    ensures AuthorityWithin(b, a) <==>
            HeldWithin(ParsedPermissions(b.permissions).value, ParsedPermissions(a.permissions).value)
  {
    var after, before := ParsedPermissions(b.permissions).value, ParsedPermissions(a.permissions).value;
    if AuthorityWithin(b, a) {
      forall c: CapabilityId, request: Params | Holds(after, c, request)
        ensures Holds(before, c, request)
      {
        assert Authority(b, c, request);
      }
    }
  }

  /** An accepted upgrade asks for confirmation exactly when it gains authority. */
  lemma UpgradeConfirmation(current: Manifest, candidate: Manifest)
    requires PlanUpgrade(current, candidate).Ok?
    ensures PlanUpgrade(current, candidate).value.requiresConfirmation <==> !AuthorityWithin(candidate, current)
  {
    WidensIffNewAuthority(
      ParsedPermissions(current.permissions).value, ParsedPermissions(candidate.permissions).value);
    AuthorityIsHeld(candidate, current);
  }

  /** A successful rollback never restores authority. */
  lemma RollbackNeverWidens(current: Manifest, target: Manifest)
    requires PlanRollback(current, target).Ok?
    ensures AuthorityWithin(target, current)
  {
    WidensIffNewAuthority(
      ParsedPermissions(current.permissions).value, ParsedPermissions(target.permissions).value);
  }

  /**
   Undoing an accepted upgrade is allowed exactly when it did not migrate storage and gave up no
   authority; upgrading back and forth without a rollback is never allowed.
   */
  lemma UndoingAnUpgrade(before: Manifest, after: Manifest)
    requires PlanUpgrade(before, after).Ok?
    ensures PlanRollback(after, before).Ok? <==>
            Migration(after) == Migration(before) && AuthorityWithin(before, after)
    ensures PlanUpgrade(after, before).Err? && PlanRollback(before, after).Err?
  {
    WidensIffNewAuthority(
      ParsedPermissions(after.permissions).value, ParsedPermissions(before.permissions).value);
    AuthorityIsHeld(before, after);
  }

  // ---- Chains of upgrades and rollbacks ----

  datatype Move = Upgrade(manifest: Manifest) | Rollback(manifest: Manifest)

  /** Every move of the chain was planned successfully against its predecessor. */
  predicate Planned(first: Manifest, moves: seq<Move>)
    decreases |moves|
  {
    moves == [] ||
    (&& (if moves[0].Upgrade? then PlanUpgrade(first, moves[0].manifest).Ok?
         else PlanRollback(first, moves[0].manifest).Ok?)
     && Planned(moves[0].manifest, moves[1..]))
  }

  function Final(first: Manifest, moves: seq<Move>): Manifest
  {
    if moves == [] then first else moves[|moves| - 1].manifest
  }

  /** The move was an upgrade for which the plan demanded (and so got) a confirmation. */
  predicate Confirmed(first: Manifest, moves: seq<Move>, i: nat)
    requires i < |moves|
  {
    var previous := if i == 0 then first else moves[i - 1].manifest;
    moves[i].Upgrade? &&
    PlanUpgrade(previous, moves[i].manifest).Ok? &&
    PlanUpgrade(previous, moves[i].manifest).value.requiresConfirmation
  }

  /**
   Whatever the last manifest of a chain allows was allowed by the first one or by an upgrade the
   user confirmed. A chain without confirmations never exceeds the first manifest's authority.
   */
  lemma {:induction false} ChainAuthority(first: Manifest, moves: seq<Move>, c: CapabilityId, request: Params)
    requires Planned(first, moves)
    requires Authority(Final(first, moves), c, request)
    ensures Authority(first, c, request) ||
            exists i | 0 <= i < |moves| :: Confirmed(first, moves, i) && Authority(moves[i].manifest, c, request)
    decreases |moves|
  {
    if moves != [] {
      var next := moves[0].manifest;
      assert Final(next, moves[1..]) == Final(first, moves);
      ChainAuthority(next, moves[1..], c, request);
      if !Authority(next, c, request) {
        var i :| 0 <= i < |moves[1..]| && Confirmed(next, moves[1..], i)
            && Authority(moves[1..][i].manifest, c, request);
        assert Confirmed(first, moves, i + 1);
      } else if moves[0].Upgrade? {
        UpgradeConfirmation(first, next);
        if !Confirmed(first, moves, 0) {
          assert AuthorityWithin(next, first);
        }
      } else {
        RollbackNeverWidens(first, next);
      }
    }
  }

  // ---- What `authorize` decides: the first declaration of each capability ----

  /** The pairs `authorize` allows an instance of the manifest: it looks declarations up first to last. */
  predicate Decided(manifest: Manifest, capability: CapabilityId, request: Params)
  {
    Authorizes(DeclaredGrants(manifest.permissions), capability, request)
  }

  ghost predicate DecidedWithin(b: Manifest, a: Manifest)
  {
    forall c: CapabilityId, request: Params :: Decided(b, c, request) ==> Decided(a, c, request)
  }

  /** No capability is declared twice, or the duplicates that count allow the same. */
  predicate Coherent(manifest: Manifest)
  {
    forall c: CapabilityId :: FirstAndLastAgree(DeclaredGrants(manifest.permissions), c)
  }

  predicate DeclaresOnce(manifest: Manifest)
  {
    var caps := DeclaredGrants(manifest.permissions);
    forall i, j | 0 <= i < j < |caps| :: caps[i].capability != caps[j].capability
  }

  lemma {:induction false} FirstIsLast(caps: seq<Grant>, c: CapabilityId)
    requires forall i, j | 0 <= i < j < |caps| :: caps[i].capability != caps[j].capability
    ensures Find(caps, c) == LastGrant(caps, c)
  {
    FirstAndLastBothExist(caps, c);
    if Find(caps, c).Some? {
      FirstIsMember(caps, c);
      LastIsMember(caps, c);
    }
  }

  lemma {:induction false} FirstIsMember(caps: seq<Grant>, c: CapabilityId)
    requires Find(caps, c).Some?
    ensures exists i :: 0 <= i < |caps| && caps[i] == Find(caps, c).value
  {
    assert Find(caps, c).value in caps;
  }

  lemma {:induction false} LastIsMember(caps: seq<Grant>, c: CapabilityId)
    requires LastGrant(caps, c).Some?
    ensures exists i :: 0 <= i < |caps| && caps[i] == LastGrant(caps, c).value
    ensures LastGrant(caps, c).value.capability == c
  {
    var n := |caps| - 1;
    if caps[n].capability != c {
      LastIsMember(caps[..n], c);
      var i :| 0 <= i < n && caps[..n][i] == LastGrant(caps[..n], c).value;
      assert caps[i] == LastGrant(caps, c).value;
    }
  }

  lemma OnceIsCoherent(manifest: Manifest)
    requires DeclaresOnce(manifest)
    ensures Coherent(manifest)
  {
    forall c: CapabilityId
      ensures FirstAndLastAgree(DeclaredGrants(manifest.permissions), c)
    {
      FirstIsLast(DeclaredGrants(manifest.permissions), c);
      if Find(DeclaredGrants(manifest.permissions), c).Some? {
        var p := Find(DeclaredGrants(manifest.permissions), c).value.params;
        ParamsWithinPreorder(p, p, p);
      }
    }
  }

  /** On a coherent manifest the planners read exactly what `authorize` decides. */
  lemma CoherentIsDecided(manifest: Manifest, c: CapabilityId, request: Params)
    requires ParsedPermissions(manifest.permissions).Ok? && Coherent(manifest)
    ensures Authority(manifest, c, request) <==> Decided(manifest, c, request)
  {
    PlannerSeesBrokerAuthority(manifest, c);
    assert FirstAndLastAgree(DeclaredGrants(manifest.permissions), c);
  }

  lemma CoherentWithin(b: Manifest, a: Manifest)
    requires ParsedPermissions(a.permissions).Ok? && ParsedPermissions(b.permissions).Ok?
    requires Coherent(a) && Coherent(b)
    ensures AuthorityWithin(b, a) <==> DecidedWithin(b, a)
  {
    forall c: CapabilityId, request: Params
      ensures Authority(b, c, request) <==> Decided(b, c, request)
      ensures Authority(a, c, request) <==> Decided(a, c, request)
    {
      CoherentIsDecided(a, c, request);
      CoherentIsDecided(b, c, request);
    }
    if AuthorityWithin(b, a) {
      forall c: CapabilityId, request: Params | Decided(b, c, request)
        ensures Decided(a, c, request)
      {
        assert Authority(b, c, request);
      }
    } else {
      var c: CapabilityId, request: Params :| Authority(b, c, request) && !Authority(a, c, request);
      assert Decided(b, c, request) && !Decided(a, c, request);
    }
  }

  /** Between coherent manifests an upgrade asks for confirmation exactly when `authorize` would allow more. */
  lemma DecidedUpgradeConfirmation(current: Manifest, candidate: Manifest)
    requires PlanUpgrade(current, candidate).Ok? && Coherent(current) && Coherent(candidate)
    ensures PlanUpgrade(current, candidate).value.requiresConfirmation <==> !DecidedWithin(candidate, current)
  {
    UpgradeConfirmation(current, candidate);
    CoherentWithin(candidate, current);
  }

  lemma DecidedRollbackNeverWidens(current: Manifest, target: Manifest)
    requires PlanRollback(current, target).Ok? && Coherent(current) && Coherent(target)
    ensures DecidedWithin(target, current)
  {
    RollbackNeverWidens(current, target);
    CoherentWithin(target, current);
  }

  lemma DecidedUndoing(before: Manifest, after: Manifest)
    requires PlanUpgrade(before, after).Ok? && Coherent(before) && Coherent(after)
    ensures PlanRollback(after, before).Ok? <==>
            Migration(after) == Migration(before) && DecidedWithin(before, after)
  {
    UndoingAnUpgrade(before, after);
    CoherentWithin(before, after);
  }

  /** Along a chain of coherent manifests what `authorize` allows comes from the first or a confirmed upgrade. */
  lemma DecidedChain(first: Manifest, moves: seq<Move>, c: CapabilityId, request: Params)
    requires Planned(first, moves) && Coherent(first) && forall m | m in moves :: Coherent(m.manifest)
    requires ParsedPermissions(first.permissions).Ok?
    requires Decided(Final(first, moves), c, request)
    ensures Decided(first, c, request) ||
            exists i | 0 <= i < |moves| :: Confirmed(first, moves, i) && Decided(moves[i].manifest, c, request)
  {
    PlannedParses(first, moves);
    CoherentIsDecided(Final(first, moves), c, request);
    ChainAuthority(first, moves, c, request);
    if Authority(first, c, request) {
      CoherentIsDecided(first, c, request);
    } else {
      var i :| 0 <= i < |moves| && Confirmed(first, moves, i) && Authority(moves[i].manifest, c, request);
      CoherentIsDecided(moves[i].manifest, c, request);
    }
  }

  lemma {:induction false} PlannedParses(first: Manifest, moves: seq<Move>)
    requires Planned(first, moves) && ParsedPermissions(first.permissions).Ok?
    ensures ParsedPermissions(Final(first, moves).permissions).Ok?
    decreases |moves|
  {
    if moves != [] {
      PlannedParses(moves[0].manifest, moves[1..]);
      assert Final(moves[0].manifest, moves[1..]) == Final(first, moves);
    }
  }

  /** The first declarations, compared as the planners would compare them. */
  predicate FirstsWithin(candidate: seq<Grant>, current: seq<Grant>)
  {
    forall c: CapabilityId ::
      var after, had := Find(candidate, c), Find(current, c);
      after.Some? ==> had.Some? && ParamsWithin(after.value.params, had.value.params)
  }

  /**
   For any two manifests, coherent or not: `authorize` allows nothing new exactly when its
   first declarations are within the current ones. This is the comparison the planners do not make.
   */
  lemma DecidedWithinIffFirsts(current: Manifest, candidate: Manifest)
    ensures DecidedWithin(candidate, current) <==>
            FirstsWithin(DeclaredGrants(candidate.permissions), DeclaredGrants(current.permissions))
  {
    var after, before := DeclaredGrants(candidate.permissions), DeclaredGrants(current.permissions);
    if FirstsWithin(after, before) {
      forall c: CapabilityId, request: Params | Decided(candidate, c, request)
        ensures Decided(current, c, request)
      {
        ParamsWithinIsInclusion(Find(after, c).value.params, Find(before, c).value.params);
      }
    } else {
      var c: CapabilityId :| Find(after, c).Some? &&
        !(Find(before, c).Some? && ParamsWithin(Find(after, c).value.params, Find(before, c).value.params));
      var p := Find(after, c).value.params;
      if Find(before, c).None? {
        DecideReflexive(p);
        assert Decided(candidate, c, p) && !Decided(current, c, p);
      } else {
        var request := WideningRequest(p, Find(before, c).value.params);
        assert Decided(candidate, c, request) && !Decided(current, c, request);
      }
    }
  }

  function WithPermissions(version: Version, permissions: seq<PermissionDecl>): Manifest
  {
    Manifest("plugin", "publisher", Some(version), None, permissions)
  }

  function KeyA(): PermissionDecl
  {
    Declared(StorageRead, Some(Storage(["a"], 8)))
  }

  function AllKeys(): PermissionDecl
  {
    Declared(StorageRead, Some(Storage([], 8)))
  }

  /** A duplicate declaration hides an expansion: accepted without confirmation, key `b` becomes readable. */
  lemma DuplicateHidesExpansion()
    ensures var current, candidate := WithPermissions(1.0, [KeyA()]), WithPermissions(2.0, [AllKeys(), KeyA()]);
      && PlanUpgrade(current, candidate).Ok? && !PlanUpgrade(current, candidate).value.requiresConfirmation
      && Decided(candidate, StorageRead, Some(Storage(["b"], 8)))
      && !Decided(current, StorageRead, Some(Storage(["b"], 8)))
  {
    var one, two := [KeyA()], [AllKeys(), KeyA()];
    var current, candidate := WithPermissions(1.0, one), WithPermissions(2.0, two);
    var a := KeyA().params;
    assert one[..0] == [] && two[..1] == [AllKeys()] && two[..1][..0] == [];
    assert ParsedPermissions(two[..1]) == Ok(map[StorageRead := AllKeys().params]);
    assert ParsedPermissions(one).value == map[StorageRead := a]
        && ParsedPermissions(two).value == map[StorageRead := a];
    assert DeclaredGrants(one) == [Grant(StorageRead, a)];
    assert DeclaredGrants(two[..1]) == [Grant(StorageRead, AllKeys().params)];
    assert DeclaredGrants(two) == [Grant(StorageRead, AllKeys().params), Grant(StorageRead, a)];
    assert "b" in ["b"] && "b" !in ["a"];
    UpgradeConfirmation(current, candidate);
    assert forall c: CapabilityId, request: Params ::
        Authority(candidate, c, request) <==> Authority(current, c, request);
  }
}
