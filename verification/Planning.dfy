/**
 When a plan is made and when it is refused (crates/floatile-core/src/distribution.rs:124-263): each check in
 terms of the two manifests, in the order of precedence of their errors, and what a plan says.
 */
module Planning {
  import opened Prelude
  import opened Capability
  import opened Distribution

  // ---- Permissions that parse ----

  predicate AllDeclared(manifest: Manifest)
  {
    forall d | d in manifest.permissions :: d.Declared?
  }

  /** The message of the first permission that does not parse, if there is one. */
  predicate FirstMalformed(manifest: Manifest, message: string)
  {
    exists i :: 0 <= i < |manifest.permissions| && MalformedAt(manifest.permissions, i, message)
  }

  predicate MalformedAt(decls: seq<PermissionDecl>, i: nat, message: string)
    requires i < |decls|
  {
    decls[i] == Malformed(message) && forall j | 0 <= j < i :: decls[j].Declared?
  }

  lemma {:induction false} ParseStopsAtFirst(decls: seq<PermissionDecl>)
    ensures var r := ParsedPermissions(decls);
      && (r.Ok? <==> forall d | d in decls :: d.Declared?)
      && (r.Err? ==> exists i :: 0 <= i < |decls| && MalformedAt(decls, i, r.error))
  {
    if decls != [] {
      var n := |decls| - 1;
      var init := decls[..n];
      ParseStopsAtFirst(init);
      assert decls == init + [decls[n]];
      assert forall d :: d in decls <==> d in init || d == decls[n];
      if ParsedPermissions(init).Err? {
        var i :| 0 <= i < n && MalformedAt(init, i, ParsedPermissions(init).error);
        assert MalformedAt(decls, i, ParsedPermissions(init).error);
      } else if decls[n].Malformed? {
        assert forall j | 0 <= j < n :: decls[j] == init[j] && init[j] in init;
        assert MalformedAt(decls, n, decls[n].message);
        assert decls[n] in decls && !decls[n].Declared?;
      }
    }
  }

  predicate Declares(manifest: Manifest, c: CapabilityId)
  {
    exists d | d in manifest.permissions :: d.Declared? && d.capability == c
  }

  lemma {:induction false} ParsedKeys(decls: seq<PermissionDecl>, c: CapabilityId)
    requires ParsedPermissions(decls).Ok?
    ensures c in ParsedPermissions(decls).value <==> exists d | d in decls :: d.Declared? && d.capability == c
  {
    if decls != [] {
      var n := |decls| - 1;
      ParsedKeys(decls[..n], c);
      assert decls == decls[..n] + [decls[n]];
    }
  }

  // ---- Checks ----

  /** A storage schema without a migration version counts as version zero. */
  predicate MigrationKept(older: Manifest, newer: Manifest)
  {
    older.storageMigration.None? || older.storageMigration.value == 0 ||
    (newer.storageMigration.Some? && newer.storageMigration.value >= older.storageMigration.value)
  }

  predicate Newer(a: Manifest, b: Manifest)
  {
    a.version.Some? && b.version.Some? && a.version.value > b.version.value
  }

  /** The message with which a list of permissions is refused. */
  function ParseMessage(manifest: Manifest): string
  {
    if ParsedPermissions(manifest.permissions).Err? then ParsedPermissions(manifest.permissions).error else ""
  }

  lemma ParseMessageIsFirst(manifest: Manifest)
    ensures ParsedPermissions(manifest.permissions).Ok? <==> AllDeclared(manifest)
    ensures !AllDeclared(manifest) ==> FirstMalformed(manifest, ParseMessage(manifest))
  {
    ParseStopsAtFirst(manifest.permissions);
  }

  function UpgradeChecks(current: Manifest, candidate: Manifest): seq<Check<UpgradeError>>
  {
    [ Check(current.id == candidate.id, PluginMismatch),
      Check(current.publisher == candidate.publisher, PublisherMismatch),
      Check(current.version.Some? && candidate.version.Some?, InvalidPermission("version")),
      Check(Newer(candidate, current), VersionNotNewer),
      Check(MigrationKept(current, candidate), StorageMigrationRollback),
      Check(AllDeclared(current), InvalidPermission(ParseMessage(current))),
      Check(AllDeclared(candidate), InvalidPermission(ParseMessage(candidate))) ]
  }

  ghost function RollbackChecks(current: Manifest, target: Manifest): seq<Check<RollbackError>>
  {
    [ Check(current.id == target.id, RollbackPluginMismatch),
      Check(current.publisher == target.publisher, RollbackPublisherMismatch),
      Check(current.version.Some? && target.version.Some?, RollbackInvalidPermission("version")),
      Check(Newer(current, target), VersionNotOlder),
      Check(MigrationKept(current, target) && MigrationKept(target, current), StorageMigrationIncompatible),
      Check(AllDeclared(current), RollbackInvalidPermission(ParseMessage(current))),
      Check(AllDeclared(target), RollbackInvalidPermission(ParseMessage(target))),
      Check(AuthorityWithin(target, current), PermissionExpansion) ]
  }

  // ---- What a plan lists ----

  ghost predicate Gains(current: Manifest, candidate: Manifest, c: CapabilityId)
  {
    exists request: Params :: Authority(candidate, c, request) && !Authority(current, c, request)
  }

  /** What the kind of a change says of the two manifests. */
  ghost predicate Describes(change: PermissionChange, current: Manifest, candidate: Manifest)
  {
    var c := change.capability;
    match change.kind
    case Added => Declares(candidate, c) && !Declares(current, c)
    case Removed => Declares(current, c) && !Declares(candidate, c)
    case Expanded => Declares(current, c) && Declares(candidate, c) && Gains(current, candidate, c)
    case Reduced =>
      Declares(current, c) && Declares(candidate, c) && !Gains(current, candidate, c) &&
      !SameParams(current, candidate, c)
    case Unchanged => Declares(current, c) && Declares(candidate, c) && SameParams(current, candidate, c)
  }

  /** The last declarations of the capability carry the same parameters. */
  predicate SameParams(a: Manifest, b: Manifest, c: CapabilityId)
  {
    LastGrant(DeclaredGrants(a.permissions), c) == LastGrant(DeclaredGrants(b.permissions), c)
  }

  /** The changes name each capability of either manifest once, in registry order, and describe it. */
  ghost predicate Lists(changes: seq<PermissionChange>, current: Manifest, candidate: Manifest)
  {
    && (forall i, j | 0 <= i < j < |changes| :: Rank(changes[i].capability) < Rank(changes[j].capability))
    && (forall c :: Covered(changes, c) <==> Declares(current, c) || Declares(candidate, c))
    && (forall change | change in changes :: Describes(change, current, candidate))
  }

  lemma GainsIsInclusion(current: Manifest, candidate: Manifest, c: CapabilityId)
    requires ParsedPermissions(current.permissions).Ok? && ParsedPermissions(candidate.permissions).Ok?
    requires c in ParsedPermissions(current.permissions).value && c in ParsedPermissions(candidate.permissions).value
    ensures var before, after := ParsedPermissions(current.permissions).value,
        ParsedPermissions(candidate.permissions).value;
      Gains(current, candidate, c) <==> !Included(after[c], before[c])
  {
    var before, after := ParsedPermissions(current.permissions).value, ParsedPermissions(candidate.permissions).value;
    forall request: Params
      ensures Authority(candidate, c, request) <==> Allows(after[c], request)
      ensures Authority(current, c, request) <==> Allows(before[c], request)
    {
    }
    if Gains(current, candidate, c) {
      var request :| Authority(candidate, c, request) && !Authority(current, c, request);
      assert Allows(after[c], request) && !Allows(before[c], request);
    }
    if !Included(after[c], before[c]) {
      var request :| Allows(after[c], request) && !Allows(before[c], request);
      assert Authority(candidate, c, request) && !Authority(current, c, request);
    }
  }

  lemma KindDescribes(current: Manifest, candidate: Manifest, c: CapabilityId)
    requires ParsedPermissions(current.permissions).Ok? && ParsedPermissions(candidate.permissions).Ok?
    requires Declares(current, c) || Declares(candidate, c)
    ensures var before, after := ParsedPermissions(current.permissions).value,
        ParsedPermissions(candidate.permissions).value;
      && c in before.Keys + after.Keys
      && Describes(PermissionChange(c, KindOf(before, after, c)), current, candidate)
  {
    var before, after := ParsedPermissions(current.permissions).value, ParsedPermissions(candidate.permissions).value;
    ParsedKeys(current.permissions, c);
    ParsedKeys(candidate.permissions, c);
    ChangeKindMeaning(before, after, c);
    if c in before && c in after {
      GainsIsInclusion(current, candidate, c);
      ParsedIsLastGrant(current.permissions, c);
      ParsedIsLastGrant(candidate.permissions, c);
      LastGrantNames(DeclaredGrants(current.permissions), c);
      LastGrantNames(DeclaredGrants(candidate.permissions), c);
      ParamsWithinIsInclusion(after[c], before[c]);
    }
  }

  lemma {:induction false} LastGrantNames(caps: seq<Grant>, c: CapabilityId)
    requires LastGrant(caps, c).Some?
    ensures LastGrant(caps, c).value.capability == c
  {
    LastIsMember(caps, c);
  }

  lemma ChangesAreListed(current: Manifest, candidate: Manifest)
    requires ParsedPermissions(current.permissions).Ok? && ParsedPermissions(candidate.permissions).Ok?
    ensures Lists(PlanChanges(current, candidate).value, current, candidate)
  {
    var before, after := ParsedPermissions(current.permissions).value, ParsedPermissions(candidate.permissions).value;
    var changes := PlanChanges(current, candidate).value;
    ChangeListCoverage(before, after);
    forall c
      ensures c in before.Keys + after.Keys <==> Declares(current, c) || Declares(candidate, c)
    {
      ParsedKeys(current.permissions, c);
      ParsedKeys(candidate.permissions, c);
    }
    forall change | change in changes
      ensures Describes(change, current, candidate)
    {
      assert Covered(changes, change.capability);
      KindDescribes(current, candidate, change.capability);
    }
  }

  // ---- Results ----

  /** An upgrade is planned exactly when every check holds; otherwise the error is that of the first that fails. */
  lemma UpgradeOutcome(current: Manifest, candidate: Manifest)
    ensures var r, checks := PlanUpgrade(current, candidate), UpgradeChecks(current, candidate);
      && (r.Ok? <==> AllHold(checks))
      && (r.Err? ==> FirstFailure(checks, r.error))
      && (r.Ok? ==>
            && current.version == Some(r.value.current) && candidate.version == Some(r.value.candidate)
            && Lists(r.value.permissions, current, candidate)
            && (r.value.requiresConfirmation <==> !AuthorityWithin(candidate, current)))
  {
    var r, checks := PlanUpgrade(current, candidate), UpgradeChecks(current, candidate);
    ParseMessageIsFirst(current);
    ParseMessageIsFirst(candidate);
    UpgradeFails(current, candidate);
    if r.Ok? {
      ChangesAreListed(current, candidate);
      UpgradeConfirmation(current, candidate);
    }
  }

  lemma UpgradeFails(current: Manifest, candidate: Manifest)
    ensures var r, checks := PlanUpgrade(current, candidate), UpgradeChecks(current, candidate);
      (r.Ok? ==> AllHold(checks)) && (r.Err? ==> FirstFailure(checks, r.error) && !AllHold(checks))
  {
    var r, checks := PlanUpgrade(current, candidate), UpgradeChecks(current, candidate);
    ParseMessageIsFirst(current);
    ParseMessageIsFirst(candidate);
    if r.Err? {
      var k := if current.id != candidate.id then 0
               else if current.publisher != candidate.publisher then 1
               else if current.version.None? || candidate.version.None? then 2
               else if candidate.version.value <= current.version.value then 3
               else if !MigrationKept(current, candidate) then 4
               else if !AllDeclared(current) then 5 else 6;
      assert FailsFirst(checks, k) && checks[k].error == r.error;
    }
  }

  lemma RollbackFails(current: Manifest, target: Manifest)
    ensures var r, checks := PlanRollback(current, target), RollbackChecks(current, target);
      (r.Ok? ==> AllHold(checks)) && (r.Err? ==> FirstFailure(checks, r.error) && !AllHold(checks))
  {
    var r, checks := PlanRollback(current, target), RollbackChecks(current, target);
    ParseMessageIsFirst(current);
    ParseMessageIsFirst(target);
    if AllDeclared(current) && AllDeclared(target) {
      WidensIffNewAuthority(
        ParsedPermissions(current.permissions).value, ParsedPermissions(target.permissions).value);
      AuthorityIsHeld(target, current);
    }
    if r.Err? {
      var k := if current.id != target.id then 0
               else if current.publisher != target.publisher then 1
               else if current.version.None? || target.version.None? then 2
               else if target.version.value >= current.version.value then 3
               else if !(MigrationKept(current, target) && MigrationKept(target, current)) then 4
               else if !AllDeclared(current) then 5
               else if !AllDeclared(target) then 6 else 7;
      assert FailsFirst(checks, k) && checks[k].error == r.error;
    }
  }

  /** The same for a rollback, whose last check is that no authority comes back. */
  lemma RollbackOutcome(current: Manifest, target: Manifest)
    ensures var r, checks := PlanRollback(current, target), RollbackChecks(current, target);
      && (r.Ok? <==> AllHold(checks))
      && (r.Err? ==> FirstFailure(checks, r.error))
      && (r.Ok? ==>
            && current.version == Some(r.value.current) && target.version == Some(r.value.target)
            && Lists(r.value.permissions, current, target))
  {
    RollbackFails(current, target);
    ParseMessageIsFirst(current);
    ParseMessageIsFirst(target);
    if PlanRollback(current, target).Ok? {
      ChangesAreListed(current, target);
    }
  }

  /** No planned upgrade lowers the storage migration. */
  lemma PlannedKeepsMigration(current: Manifest, candidate: Manifest)
    requires PlanUpgrade(current, candidate).Ok?
    ensures MigrationKept(current, candidate)
  {
    UpgradeFails(current, candidate);
    assert UpgradeChecks(current, candidate)[4].holds;
  }
}
