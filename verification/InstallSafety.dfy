/**
 What trusted installs guarantee over every run, crashes included: shapes on disk, the anti-rollback
 mark, the upgrade check, and when recovery converges.
 */
module InstallSafety {
  import opened Prelude
  import opened Distribution
  import opened BrokerCalls
  import Planning
  import opened Install
  import opened InstallRun

  datatype Shape = StagingOnly | Neither | FinalOnly | Both

  function ShapeOf(disk: Disk, tx: Tx): Shape
    requires tx in disk.pending
  {
    match (tx in disk.staging, disk.pending[tx].place in disk.installed)
    case (true, true) => Both
    case (true, false) => StagingOnly
    case (false, true) => FinalOnly
    case (false, false) => Neither
  }

  /**
   In every run, at most one journal entry is pending; it never has staging and final together; a
   final directory it names holds the journaled package; and every installed directory holds the
   complete file set of one validated package.
   */
  lemma {:induction false} CrashSafety(trust: map<string, Binding>, events: seq<Event>)
    ensures var disk := Play(trust, events).disk;
            && |disk.pending| <= 1
            && (forall tx | tx in disk.pending ::
                  && !ShapeOf(disk, tx).Both?
                  && (ShapeOf(disk, tx).FinalOnly? ==>
                        Matches(disk.installed[disk.pending[tx].place], disk.pending[tx])))
            && (forall place | place in disk.installed :: Complete(disk.installed[place], place))
  {
    PlayInv(trust, events);
    var pending := Play(trust, events).disk.pending;
    if tx :| tx in pending {
      assert pending.Keys == {tx};
      assert |pending.Keys| == |pending|;
    }
    assert forall tx | tx in pending :: Shaped(Play(trust, events).disk, tx);
  }

  // ---- Nothing durable is taken back ----

  function Continue(m: Machine, events: seq<Event>): Machine
  {
    if events == [] then m else Step(Continue(m, events[..|events| - 1]), events[|events| - 1])
  }

  lemma {:induction false} ContinueInv(m: Machine, events: seq<Event>)
    requires Inv(m)
    ensures Inv(Continue(m, events))
  {
    if events != [] {
      ContinueInv(m, events[..|events| - 1]);
      StepKeepsInv(Continue(m, events[..|events| - 1]), events[|events| - 1]);
    }
  }

  /** Marks only rise, and a mark keeps the digest it was raised with. */
  predicate MarksAdvance(before: map<Owner, Accepted>, after: map<Owner, Accepted>)
  {
    forall owner | owner in before ::
      && owner in after
      && before[owner].version <= after[owner].version
      && (before[owner].version == after[owner].version ==> before[owner].digest == after[owner].digest)
  }

  predicate DirectoriesKept(before: map<Place, Files>, after: map<Place, Files>)
  {
    forall place | place in before :: place in after && after[place] == before[place]
  }

  ghost predicate Durable(before: Disk, after: Disk)
  {
    MarksAdvance(before.accepted, after.accepted) && DirectoriesKept(before.installed, after.installed)
  }

  lemma AcceptAdvances(disk: Disk, p: Pending)
    requires Install.Acceptable(disk, p)
    ensures Durable(disk, AcceptPackage(disk, p))
  {
  }

  lemma SharedKeepsDurable(m: Machine, e: Event)
    ensures Durable(m.disk, StepShared(m, e).disk)
  {
    if StepShared(m, e).disk.accepted != m.disk.accepted {
      var tx := if m.phase.Accepting? then m.phase.txn.tx else m.phase.step.tx;
      AcceptAdvances(m.disk, m.disk.pending[tx]);
      assert StepShared(m, e).disk == AcceptPackage(m.disk, m.disk.pending[tx]);
    } else {
      SharedInstalls(m, e);
    }
  }

  lemma RenameKeepsDurable(disk: Disk, tx: Tx, place: Place)
    requires tx in disk.staging && place !in disk.installed
    ensures Durable(disk, Rename(disk, tx, place))
  {
  }

  lemma CommitKeepsDurable(m: Machine, e: Event)
    requires PhaseInv(m)
    ensures Durable(m.disk, StepCommit(m, e).disk)
  {
    if m.phase.Renaming? && e.RenameDone? {
      var txn := m.phase.txn;
      if e.ok && txn.tx in m.disk.staging {
        RenameKeepsDurable(m.disk, txn.tx, PlaceOf(txn.package));
      }
    } else {
      var next := StepCommit(m, e).disk;
      assert next == m.disk.(pending := next.pending);
    }
  }

  lemma WriteKeepsDurable(m: Machine, e: Event)
    ensures StepWrite(m, e).disk == m.disk.(staging := StepWrite(m, e).disk.staging)
  {
  }

  lemma RecoverKeepsDisk(m: Machine, e: Event)
    ensures StepRecover(m, e).disk == m.disk
  {
  }

  lemma StepKeepsDurable(m: Machine, e: Event)
    requires Inv(m)
    ensures Durable(m.disk, Step(m, e).disk)
  {
    SharedKeepsDurable(m, e);
    CommitKeepsDurable(m, e);
    WriteKeepsDurable(m, e);
    RecoverKeepsDisk(m, e);
  }

  lemma SharedInstalls(m: Machine, e: Event)
    ensures StepShared(m, e).disk.installed == m.disk.installed
  {
  }

  lemma CommitInstalls(m: Machine, e: Event)
    requires !e.RenameDone?
    ensures StepCommit(m, e).disk.installed == m.disk.installed
  {
  }

  /** The final directories change at the rename only. */
  lemma OnlyRenameInstalls(m: Machine, e: Event)
    requires !e.RenameDone?
    ensures Step(m, e).disk.installed == m.disk.installed
  {
    SharedInstalls(m, e);
    CommitInstalls(m, e);
    WriteKeepsDurable(m, e);
    RecoverKeepsDisk(m, e);
  }

  /**
   From any reachable state on, through crashes and recoveries: the accepted version of a plugin
   never goes down or changes its contents, and an installed directory is never replaced or altered.
   */
  lemma {:induction false} DurableForever(m: Machine, events: seq<Event>)
    requires Inv(m)
    ensures MarksAdvance(m.disk.accepted, Continue(m, events).disk.accepted)
    ensures DirectoriesKept(m.disk.installed, Continue(m, events).disk.installed)
  {
    if events != [] {
      var prefix := events[..|events| - 1];
      DurableForever(m, prefix);
      ContinueInv(m, prefix);
      StepKeepsDurable(Continue(m, prefix), events[|events| - 1]);
    }
  }

  /** Once no intent is pending, every installed version is at or below its publisher's mark. */
  lemma InstalledIsAccepted(trust: map<string, Binding>, events: seq<Event>)
    requires Play(trust, events).disk.pending == map[]
    ensures var disk := Play(trust, events).disk;
            forall place | place in disk.installed :: Marked(disk, place)
  {
    PlayInv(trust, events);
  }

  // ---- The upgrade check at the commit point ----

  lemma PublisherOfLoaded(dir: Files)
    requires LoadFromDir(dir).Some?
    ensures PublisherOf(dir) == LoadFromDir(dir).value.manifest.publisher
  {
  }

  /**
   A package about to be renamed into place was checked against the highest installed version of its
   plugin: under the same publisher it is strictly newer, its plan succeeded, it does not lower the storage migration,
   and without consent it gains no authority as the planners read it. When both manifests are coherent it then gains no
   call of the broker either; in any case a call is gained exactly when first grants and last quotas do not compare. A
   highest version of another publisher is strictly newer than the candidate; only then no plan is made.
   */
  lemma CommitIsGated(trust: map<string, Binding>, events: seq<Event>, place: Place)
    requires Play(trust, events).phase.Renaming?
    requires var m := Play(trust, events);
             Highest(m.disk.installed, place) && place.plugin == m.phase.txn.package.manifest.id
    ensures var m := Play(trust, events);
            var candidate, current := m.phase.txn.package.manifest, LoadFromDir(m.disk.installed[place]);
            && current.Some? && candidate.version.Some?
            && (if current.value.manifest.publisher == candidate.publisher
                then && place.version < candidate.version.value
                     && PlanUpgrade(current.value.manifest, candidate).Ok?
                     && Planning.MigrationKept(current.value.manifest, candidate)
                     && (AuthorityWithin(candidate, current.value.manifest) || m.phase.txn.consent)
                     && (Coherent(candidate) && Coherent(current.value.manifest) ==>
                           DecidedWithin(candidate, current.value.manifest) || m.phase.txn.consent)
                     && (DecidedWithin(candidate, current.value.manifest) <==>
                         FirstsWithin(GrantsOf(candidate), GrantsOf(current.value.manifest)))
                     && (Coherent(candidate) && Sane(current.value.manifest) ==>
                           CallsWithin(GrantsOf(candidate), GrantsOf(current.value.manifest)) || m.phase.txn.consent)
                     && (CallsWithin(GrantsOf(candidate), GrantsOf(current.value.manifest)) <==>
                         FirstsAndLastsWithin(GrantsOf(candidate), GrantsOf(current.value.manifest)))
                else candidate.version.value < place.version)
  {
    PlayInv(trust, events);
    var m := Play(trust, events);
    var txn := m.phase.txn;
    var candidate, dir := txn.package.manifest, m.disk.installed[place];
    assert Gate(m.disk, txn);
    var current := LoadFromDir(dir).value.manifest;
    PublisherOfLoaded(dir);
    assert PlaceOf(txn.package) != place;
    if current.publisher == candidate.publisher {
      assert Shaped(m.disk, txn.tx);
      assert !Journaled(m.disk, place);
      UpgradeConfirmation(current, candidate);
      DecidedWithinIffFirsts(current, candidate);
      Planning.PlannedKeepsMigration(current, candidate);
      if Coherent(candidate) && Coherent(current) {
        DecidedUpgradeConfirmation(current, candidate);
      }
      CallsWithinIffFirstsAndLasts(GrantsOf(candidate), GrantsOf(current));
      if Coherent(candidate) && Sane(current) && !txn.consent {
        UnconfirmedGainsNoCall(current, candidate);
      }
    }
  }

  // ---- Recovery ----

  /** The journal entry's package still verifies, and its directory can be loaded. */
  predicate Endorsed(disk: Disk, tx: Tx)
    requires tx in disk.pending
  {
    SignatureOk(disk.trust, disk.pending[tx].publisher, disk.pending[tx].installDigest) &&
    INSTALL_JSON !in disk.pending[tx].installDigest
  }

  lemma ConfirmsIffEndorsed(disk: Disk, tx: Tx)
    requires tx in disk.pending && disk.pending[tx].place in disk.installed
    requires Matches(disk.installed[disk.pending[tx].place], disk.pending[tx])
    ensures Confirms(disk, disk.pending[tx]) <==> Endorsed(disk, tx)
  {
    var p := disk.pending[tx];
    var package: Package :| Validated(package) && p == PendingFor(package)
        && disk.installed[p.place] == WrittenOut(package);
    LoadWrittenOut(package);
  }

  ghost predicate Lists(listing: seq<Tx>, disk: Disk)
  {
    && (forall tx | tx in listing :: tx in disk.pending)
    && (forall tx | tx in disk.pending :: tx in listing)
    && (forall i, j | 0 <= i < j < |listing| :: listing[i] != listing[j])
  }

  /** Number of listed entries whose rename happened. */
  function Renamed(disk: Disk, listing: seq<Tx>): (n: nat)
    requires forall tx | tx in listing :: tx in disk.pending
    ensures n <= |listing|
  {
    if listing == [] then 0 else Count(ShapeOf(disk, listing[0]).FinalOnly?) + Renamed(disk, listing[1..])
  }

  lemma RenamedOne(disk: Disk, tx: Tx)
    requires tx in disk.pending
    ensures Renamed(disk, [tx]) == Count(ShapeOf(disk, tx).FinalOnly?)
  {
    assert [tx][1..] == [];
  }

  predicate RenamedEndorsed(disk: Disk)
  {
    forall tx | tx in disk.pending :: ShapeOf(disk, tx).FinalOnly? ==> Endorsed(disk, tx)
  }

  lemma ListingIsShort(m: Machine, listing: seq<Tx>)
    requires Inv(m) && Lists(listing, m.disk)
    ensures listing == [] || (|listing| == 1 && m.disk.pending.Keys == {listing[0]})
  {
    forall i, j | 0 <= i < |listing| && 0 <= j < |listing|
      ensures listing[i] == listing[j]
    {
      assert listing[i] in m.disk.pending && listing[j] in m.disk.pending;
    }
    if listing != [] {
      assert listing[0] == listing[|listing| - 1];
      assert listing == [listing[0]];
      assert m.disk.pending.Keys == {listing[0]};
    }
  }

  /** What recovery leaves of one entry of a reachable state. */
  lemma EntryConverges(m: Machine, tx: Tx)
    requires Inv(m) && tx in m.disk.pending
    ensures var (disk, outcome) := RecoverEntry(m.disk, tx);
            && (outcome.Ok? <==> (ShapeOf(m.disk, tx).FinalOnly? ==> Endorsed(m.disk, tx)))
            && (outcome.Err? ==> disk == m.disk && outcome.error.NotConfirmed?)
            && (outcome.Ok? ==>
                  && disk.pending == map[]
                  && outcome.value == Report(Count(ShapeOf(m.disk, tx).FinalOnly?),
                      Count(!ShapeOf(m.disk, tx).FinalOnly?))
                  && disk.installed == m.disk.installed
                  && disk.staging == m.disk.staging - {tx}
                  && DiskInv(disk, m.used))
  {
    var p := m.disk.pending[tx];
    assert Shaped(m.disk, tx);
    if tx !in m.disk.staging {
      assert m.disk.staging - {tx} == m.disk.staging;
    }
    if p.place in m.disk.installed {
      ConfirmsIffEndorsed(m.disk, tx);
      if Confirms(m.disk, p) {
        AcceptKeepsDiskInv(m.disk, m.used, tx);
        DeleteKeepsDiskInv(AcceptPackage(m.disk, p), m.used, tx);
      }
    } else {
      StagingKeepsDiskInv(m.disk, m.used, m.disk.staging - {tx});
      DeleteKeepsDiskInv(RemoveStaging(m.disk, tx), m.used, tx);
      DeleteKeepsDiskInv(m.disk, m.used, tx);
    }
  }

  lemma RecoverOne(disk: Disk, tx: Tx)
    requires tx in disk.pending
    ensures var (next, outcome) := RecoverEntry(disk, tx);
            Recover(disk, [tx], Report(0, 0)) == (next, outcome)
  {
    assert [tx][1..] == [];
  }

  ghost predicate Converged(m: Machine, listing: seq<Tx>, disk: Disk, outcome: Result<Report, RecoveryError>)
    requires forall tx | tx in listing :: tx in m.disk.pending
  {
    && (outcome.Ok? <==> RenamedEndorsed(m.disk))
    && (outcome.Err? ==> disk == m.disk && outcome.error.NotConfirmed?)
    && (outcome.Ok? ==>
          && disk.pending == map[]
          && outcome.value == Report(Renamed(m.disk, listing), |listing| - Renamed(m.disk, listing))
          && disk.installed == m.disk.installed
          && disk.staging == m.disk.staging - m.disk.pending.Keys
          && (forall place | place in disk.installed :: Marked(disk, place))
          && Recover(disk, [], Report(0, 0)) == (disk, Ok(Report(0, 0))))
  }

  lemma RecoverOneConverges(m: Machine, tx: Tx)
    requires Inv(m) && m.disk.pending.Keys == {tx}
    ensures var (disk, outcome) := RecoverEntry(m.disk, tx); Converged(m, [tx], disk, outcome)
  {
    EntryConverges(m, tx);
    RenamedOne(m.disk, tx);
    assert RenamedEndorsed(m.disk) <==> (ShapeOf(m.disk, tx).FinalOnly? ==> Endorsed(m.disk, tx));
    var (disk, outcome) := RecoverEntry(m.disk, tx);
    if outcome.Ok? {
      forall place | place in disk.installed
        ensures Marked(disk, place)
      {
        assert !Journaled(disk, place);
      }
    }
  }

  /**
   Recovery converges from every reachable state. It succeeds exactly when each entry whose rename
   happened still verifies and its package held no `install.json`; then it empties the journal, finalizes
   exactly the renamed entries and aborts the others, and every installed version is marked. When it
   fails it changes nothing. A second pass over the result finds nothing to do.
   */
  lemma {:induction false} RecoveryConverges(m: Machine, listing: seq<Tx>)
    requires Inv(m) && Lists(listing, m.disk)
    ensures var (disk, outcome) := Recover(m.disk, listing, Report(0, 0)); Converged(m, listing, disk, outcome)
  {
    ListingIsShort(m, listing);
    if listing == [] {
      assert m.disk.pending.Keys == {};
      assert m.disk.staging - m.disk.pending.Keys == m.disk.staging;
    } else {
      var tx := listing[0];
      assert listing == [tx];
      RecoverOne(m.disk, tx);
      RecoverOneConverges(m, tx);
    }
  }

  // ---- Interrupted recoveries ----

  /** The disk that recovery makes of a reachable one. */
  ghost function Settled(disk: Disk): Disk
  {
    if disk.pending.Keys == {} then disk
    else
      var tx :| tx in disk.pending;
      RecoverEntry(disk, tx).0
  }

  /** A process that recovers and does not install, with the publishers' trust at rest. */
  predicate RecoveryOnly(e: Event)
  {
    !e.BeginInstall? && !e.TrustChanges?
  }

  ghost predicate Reconciling(m: Machine)
  {
    && (m.phase.Idle? || m.phase.Ready? || m.phase.Recovering?)
    && (m.phase.Recovering? && (m.phase.step.AcceptingEntry? || m.phase.step.ClearingEntry?) ==>
          var tx := m.phase.step.tx;
          tx in m.disk.pending && m.disk.pending[tx].place in m.disk.installed && Confirms(m.disk, m.disk.pending[tx]))
  }

  lemma SettledOne(m: Machine, tx: Tx)
    requires Inv(m) && tx in m.disk.pending
    ensures Settled(m.disk) == RecoverEntry(m.disk, tx).0
  {
  }

  /** Removing some or all of a doomed staging directory does not change what recovery makes of it. */
  lemma RemovalKeepsSettled(m: Machine, tx: Tx, staging: map<Tx, Files>)
    requires Inv(m) && EntryGone(m.disk, tx)
    requires Inv(m.(disk := m.disk.(staging := staging), phase := Idle))
    requires staging - {tx} == m.disk.staging - {tx}
    ensures Settled(m.disk.(staging := staging)) == Settled(m.disk)
  {
    var next := m.(disk := m.disk.(staging := staging), phase := Idle);
    SettledOne(m, tx);
    SettledOne(next, tx);
    assert forall s: map<Tx, Files> | tx !in s :: s - {tx} == s;
  }

  lemma AcceptIsIdempotent(m: Machine, tx: Tx)
    requires Inv(m) && EntryAccepted(m.disk, tx) && Install.Acceptable(m.disk, m.disk.pending[tx])
    ensures AcceptPackage(m.disk, m.disk.pending[tx]) == m.disk
  {
    var p := m.disk.pending[tx];
    assert Shaped(m.disk, tx);
    var package: Package :| Validated(package) && p == PendingFor(package)
        && m.disk.installed[p.place] == WrittenOut(package);
    WrittenOutPublisher(package);
  }

  lemma AcceptKeepsSettled(m: Machine, tx: Tx)
    requires Inv(m) && EntryRenamed(m.disk, tx) && Confirms(m.disk, m.disk.pending[tx])
    requires Install.Acceptable(m.disk, m.disk.pending[tx])
    ensures Settled(AcceptPackage(m.disk, m.disk.pending[tx])) == Settled(m.disk)
  {
    var p := m.disk.pending[tx];
    AcceptKeepsDiskInv(m.disk, m.used, tx);
    var next := Machine(AcceptPackage(m.disk, p), Idle, m.used);
    assert Confirms(next.disk, p);
    SettledOne(m, tx);
    SettledOne(next, tx);
    AcceptIsIdempotent(next, tx);
  }

  lemma DeleteKeepsSettled(m: Machine, tx: Tx)
    requires Inv(m) && tx in m.disk.pending
    requires (EntryGone(m.disk, tx) && tx !in m.disk.staging) ||
             (EntryAccepted(m.disk, tx) && Confirms(m.disk, m.disk.pending[tx]))
    ensures Settled(DeleteIntent(m.disk, tx)) == Settled(m.disk)
  {
    SettledOne(m, tx);
    DeleteKeepsDiskInv(m.disk, m.used, tx);
    assert DeleteIntent(m.disk, tx).pending.Keys == {};
    if EntryAccepted(m.disk, tx) {
      assert Shaped(m.disk, tx);
      AcceptIsIdempotent(m, tx);
    }
  }

  lemma ConfirmsAfterAccept(disk: Disk, p: Pending)
    requires p.place in disk.installed && Install.Acceptable(disk, p)
    ensures Confirms(AcceptPackage(disk, p), p) == Confirms(disk, p)
  {
  }

  lemma AcceptKeepsReconciling(m: Machine, ok: bool)
    requires PhaseInv(m) && Reconciling(m)
    ensures Reconciling(StepShared(m, AcceptDone(ok)))
  {
    if m.phase.Recovering? && m.phase.step.AcceptingEntry? {
      var p := m.disk.pending[m.phase.step.tx];
      if Install.Acceptable(m.disk, p) {
        ConfirmsAfterAccept(m.disk, p);
      }
    }
  }

  lemma StepKeepsReconciling(m: Machine, e: Event)
    requires Inv(m) && Reconciling(m) && RecoveryOnly(e)
    ensures Reconciling(Step(m, e))
  {
    if e.AcceptDone? {
      AcceptKeepsReconciling(m, e.ok);
    } else if m.phase.Recovering? && m.phase.step.NextEntry? {
      assert Step(m, e).disk == m.disk;
    }
  }

  /** The disk changes of recovery, step by step. */
  lemma ReconcilingChanges(m: Machine, e: Event)
    requires Inv(m) && Reconciling(m) && RecoveryOnly(e) && Step(m, e).disk != m.disk
    ensures m.phase.Recovering? && !m.phase.step.NextEntry?
    ensures var next, tx := Step(m, e).disk, m.phase.step.tx;
            match m.phase.step
            case Removing(_) =>
              next == m.disk.(staging := next.staging) && next.staging - {tx} == m.disk.staging - {tx}
            case Aborting(_) => next == DeleteIntent(m.disk, tx)
            case AcceptingEntry(_) =>
              Install.Acceptable(m.disk, m.disk.pending[tx]) && next == AcceptPackage(m.disk, m.disk.pending[tx])
            case ClearingEntry(_) => next == DeleteIntent(m.disk, tx)
  {
  }

  lemma RemovingKeepsSettled(m: Machine, e: Event)
    requires Inv(m) && Reconciling(m) && RecoveryOnly(e) && Step(m, e).disk != m.disk
    requires m.phase.Recovering? && m.phase.step.Removing?
    ensures Settled(Step(m, e).disk) == Settled(m.disk)
  {
    StepKeepsInv(m, e);
    ReconcilingChanges(m, e);
    RemovalKeepsSettled(m, m.phase.step.tx, Step(m, e).disk.staging);
  }

  lemma StepKeepsSettled(m: Machine, e: Event)
    requires Inv(m) && Reconciling(m) && RecoveryOnly(e)
    ensures Settled(Step(m, e).disk) == Settled(m.disk)
  {
    var next := Step(m, e);
    if next.disk != m.disk {
      ReconcilingChanges(m, e);
      var tx := m.phase.step.tx;
      match m.phase.step {
        case Removing(_) => RemovingKeepsSettled(m, e);
        case Aborting(_) => DeleteKeepsSettled(m, tx);
        case AcceptingEntry(_) => AcceptKeepsSettled(m, tx);
        case ClearingEntry(_) => DeleteKeepsSettled(m, tx);
      }
    }
  }

  /**
   However often recovery is interrupted, at whatever step, the recovery that finally completes ends
   with exactly the disk a single uninterrupted one would have produced.
   */
  lemma {:induction false} InterruptedRecovery(m: Machine, events: seq<Event>)
    requires Inv(m) && m.phase.Idle?
    requires forall e | e in events :: RecoveryOnly(e)
    ensures var end := Continue(m, events);
            && Inv(end) && Reconciling(end)
            && Settled(end.disk) == Settled(m.disk)
            && (end.phase.Ready? ==> end.disk == Settled(m.disk))
  {
    if events != [] {
      InterruptedRecovery(m, events[..|events| - 1]);
      StepKeepsReconciling(Continue(m, events[..|events| - 1]), events[|events| - 1]);
      StepKeepsSettled(Continue(m, events[..|events| - 1]), events[|events| - 1]);
      StepKeepsInv(Continue(m, events[..|events| - 1]), events[|events| - 1]);
    }
  }

  /** The event reports success: no crash, no failed or partial operation, no change of trust. */
  predicate Succeeds(e: Event)
  {
    match e
    case Crash => false
    case TrustChanges(_) => false
    case TearFile(_, _) => false
    case RemovePartly(_) => false
    case WriteFile(_, ok) => ok
    case WriteMeta(ok) => ok
    case PrepareDone(ok) => ok
    case RenameDone(ok) => ok
    case RemoveDone(ok) => ok
    case AbortDone(ok) => ok
    case AcceptDone(ok) => ok
    case ClearDone(ok) => ok
    case _ => true
  }

  /** The operations that reconcile one journal entry when nothing fails. */
  function EntryEvents(shape: Shape, tx: Tx): seq<Event>
  {
    match shape
    case StagingOnly => [PickEntry(tx), RemoveDone(true), AbortDone(true)]
    case Neither => [PickEntry(tx), AbortDone(true)]
    case FinalOnly => [PickEntry(tx), AcceptDone(true), ClearDone(true)]
    case Both => [PickEntry(tx)]
  }

  lemma EntryEventsSucceed(shape: Shape, tx: Tx)
    ensures forall e | e in EntryEvents(shape, tx) :: RecoveryOnly(e) && Succeeds(e)
  {
  }

  ghost predicate AtEntry(m: Machine, tx: Tx)
  {
    && m.phase.Recovering? && m.phase.step.NextEntry? && m.phase.todo == {tx}
    && tx in m.disk.pending && !ShapeOf(m.disk, tx).Both?
    && (ShapeOf(m.disk, tx).FinalOnly? ==>
          Confirms(m.disk, m.disk.pending[tx]) && Install.Acceptable(m.disk, m.disk.pending[tx]))
  }

  predicate EntriesDone(m: Machine)
  {
    m.phase.Recovering? && m.phase.step.NextEntry? && m.phase.todo == {}
  }

  lemma TwoSteps(m: Machine, tx: Tx)
    requires AtEntry(m, tx) && ShapeOf(m.disk, tx).Neither?
    ensures EntriesDone(Step(Step(m, PickEntry(tx)), AbortDone(true)))
  {
  }

  lemma ThreeSteps(m: Machine, tx: Tx)
    requires AtEntry(m, tx) && !ShapeOf(m.disk, tx).Neither?
    ensures var events := EntryEvents(ShapeOf(m.disk, tx), tx);
            EntriesDone(Step(Step(Step(m, events[0]), events[1]), events[2]))
  {
    var events := EntryEvents(ShapeOf(m.disk, tx), tx);
    var picked := Step(m, events[0]);
    assert picked.disk == m.disk;
    var second := Step(picked, events[1]);
    assert second.phase.Recovering? && second.phase.todo == {tx};
  }

  lemma EntryCompletes(m: Machine, events: seq<Event>, tx: Tx)
    requires AtEntry(Continue(m, events), tx)
    ensures var before := Continue(m, events);
            EntriesDone(Continue(m, events + EntryEvents(ShapeOf(before.disk, tx), tx)))
  {
    var before := Continue(m, events);
    var more := EntryEvents(ShapeOf(before.disk, tx), tx);
    ContinueOne(m, events, more[0]);
    ContinueOne(m, events + [more[0]], more[1]);
    if |more| == 2 {
      TwoSteps(before, tx);
      assert events + more == events + [more[0]] + [more[1]];
    } else {
      ThreeSteps(before, tx);
      ContinueOne(m, events + [more[0]] + [more[1]], more[2]);
      assert events + more == events + [more[0]] + [more[1]] + [more[2]];
    }
  }

  lemma FinishCompletes(m: Machine, events: seq<Event>)
    requires Inv(m) && m.phase.Idle? && EntriesDone(Continue(m, events)) && forall e | e in events :: RecoveryOnly(e)
    ensures Continue(m, events + [FinishRecovery]).phase.Ready?
    ensures Continue(m, events + [FinishRecovery]).disk == Settled(m.disk)
  {
    ContinueOne(m, events, FinishRecovery);
    InterruptedRecovery(m, events + [FinishRecovery]);
  }

  /** With trust at rest and nothing failing, one recovery process gets through to Ready. */
  lemma RecoveryCanComplete(m: Machine) returns (events: seq<Event>)
    requires Inv(m) && m.phase.Idle? && RenamedEndorsed(m.disk)
    ensures forall e | e in events :: RecoveryOnly(e) && Succeeds(e)
    ensures Continue(m, events).phase.Ready? && Continue(m, events).disk == Settled(m.disk)
  {
    events := [StartProcess];
    StartRecovers(m);
    if m.disk.pending.Keys != {} {
      var tx :| tx in m.disk.pending;
      ReachesEntry(m, tx);
      EntryEventsSucceed(ShapeOf(m.disk, tx), tx);
      EntryCompletes(m, events, tx);
      events := events + EntryEvents(ShapeOf(m.disk, tx), tx);
    }
    FinishCompletes(m, events);
    events := events + [FinishRecovery];
  }

  lemma StartRecovers(m: Machine)
    requires m.phase.Idle?
    ensures Continue(m, [StartProcess]) == m.(phase := Recovering(m.disk.pending.Keys, NextEntry, Report(0, 0)))
  {
    assert [StartProcess][..0] == [];
    assert Continue(m, [StartProcess]) == Step(m, StartProcess);
  }

  lemma ReachesEntry(m: Machine, tx: Tx)
    requires Inv(m) && m.phase.Idle? && RenamedEndorsed(m.disk) && tx in m.disk.pending
    ensures AtEntry(Continue(m, [StartProcess]), tx)
  {
    StartRecovers(m);
    assert m.disk.pending.Keys == {tx};
    ConfirmsWhenFinal(m, tx);
    assert Shaped(m.disk, tx);
  }

  lemma ConfirmsWhenFinal(m: Machine, tx: Tx)
    requires Inv(m) && RenamedEndorsed(m.disk) && tx in m.disk.pending
    ensures ShapeOf(m.disk, tx).FinalOnly? ==>
              Confirms(m.disk, m.disk.pending[tx]) && Install.Acceptable(m.disk, m.disk.pending[tx])
  {
    assert Shaped(m.disk, tx);
    if ShapeOf(m.disk, tx).FinalOnly? {
      ConfirmsIffEndorsed(m.disk, tx);
    }
  }

  lemma {:induction false} ContinueOne(m: Machine, events: seq<Event>, e: Event)
    ensures Continue(m, events + [e]) == Step(Continue(m, events), e)
  {
    assert (events + [e])[..|events|] == events;
  }

  // ---- A package that contains `install.json` ----

  /** A renamed journal entry whose package contained an `install.json`, with no process running past it. */
  ghost predicate Blocked(m: Machine, tx: Tx)
  {
    && EntryRenamed(m.disk, tx)
    && INSTALL_JSON in m.disk.pending[tx].installDigest
    && (m.phase.Idle? || (m.phase.Recovering? && m.phase.step.NextEntry?))
  }

  lemma IdleStaysBlocked(m: Machine, tx: Tx, e: Event)
    requires Blocked(m, tx) && m.phase.Idle?
    ensures Blocked(Step(m, e), tx)
  {
  }

  lemma UnconfirmedStaysBlocked(m: Machine, tx: Tx, e: Event)
    requires Blocked(m, tx) && m.disk.pending.Keys == {tx} && m.phase.Recovering? && m.phase.todo == {tx}
    requires !Confirms(m.disk, m.disk.pending[tx])
    ensures Blocked(Step(m, e), tx)
  {
  }

  lemma BlockedStep(m: Machine, tx: Tx, e: Event)
    requires Inv(m) && Blocked(m, tx)
    ensures Blocked(Step(m, e), tx)
  {
    assert Shaped(m.disk, tx);
    ConfirmsIffEndorsed(m.disk, tx);
    assert m.disk.pending.Keys == {tx};
    if m.phase.Idle? {
      IdleStaysBlocked(m, tx, e);
    } else {
      UnconfirmedStaysBlocked(m, tx, e);
    }
  }

  /**
   A crash between the rename and the acceptance of such a package blocks every later trusted
   install: no sequence of processes, failures or trust changes ever completes a recovery again.
   */
  lemma {:induction false} BlockedForever(m: Machine, tx: Tx, events: seq<Event>)
    requires Inv(m) && Blocked(m, tx)
    ensures Blocked(Continue(m, events), tx)
  {
    if events != [] {
      var prefix, e := events[..|events| - 1], events[|events| - 1];
      BlockedForever(m, tx, prefix);
      ContinueInv(m, prefix);
      BlockedStep(Continue(m, prefix), tx, e);
    }
  }
}
