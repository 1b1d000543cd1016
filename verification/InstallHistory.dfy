/**
 Where durable state came from (crates/floatile-cli/src/install.rs:169-274; crates/floatile-store/src/trust.rs:254-350):
 each accepted mark has its directory in place, and each directory's envelope verified before it was renamed there.
 */
module InstallHistory {
  import opened Prelude
  import opened Distribution
  import opened Install
  import opened InstallRun
  import opened InstallSafety

  // ---- Accepted implies installed ----

  /** The directory is a complete package of that publisher and with those signed contents. */
  ghost predicate Bears(dir: Files, place: Place, publisher: string, digest: Files)
  {
    exists package: Package ::
      && Validated(package) && PlaceOf(package) == place && dir == WrittenOut(package)
      && package.manifest.publisher == publisher && Signable(package.files) == digest
  }

  function MarkedPlace(accepted: map<Owner, Accepted>, owner: Owner): Place
    requires owner in accepted
  {
    Place(owner.plugin, accepted[owner].version)
  }

  ghost predicate MarkInPlace(disk: Disk, owner: Owner)
    requires owner in disk.accepted
  {
    var place := MarkedPlace(disk.accepted, owner);
    place in disk.installed && Bears(disk.installed[place], place, owner.publisher, disk.accepted[owner].digest)
  }

  ghost predicate MarksInPlace(disk: Disk)
  {
    forall owner | owner in disk.accepted :: MarkInPlace(disk, owner)
  }

  lemma KeptMarks(before: Disk, after: Disk)
    requires MarksInPlace(before) && after.accepted == before.accepted
    requires DirectoriesKept(before.installed, after.installed)
    ensures MarksInPlace(after)
  {
    forall owner | owner in after.accepted
      ensures MarkInPlace(after, owner)
    {
      assert MarkInPlace(before, owner);
    }
  }

  lemma AcceptKeepsMarks(disk: Disk, tx: Tx)
    requires MarksInPlace(disk) && EntryRenamed(disk, tx) && Shaped(disk, tx)
    requires Install.Acceptable(disk, disk.pending[tx])
    ensures MarksInPlace(AcceptPackage(disk, disk.pending[tx]))
  {
    var p := disk.pending[tx];
    var next := AcceptPackage(disk, p);
    var package: Package :| Validated(package) && p == PendingFor(package)
        && disk.installed[p.place] == WrittenOut(package);
    forall owner | owner in next.accepted
      ensures MarkInPlace(next, owner)
    {
      if owner == OwnerOf(p) {
        assert MarkedPlace(next.accepted, owner) == p.place;
      } else {
        assert MarkInPlace(disk, owner);
      }
    }
  }

  lemma SharedMarks(m: Machine, e: Event)
    requires !e.AcceptDone?
    ensures StepShared(m, e).disk.accepted == m.disk.accepted
  {
  }

  lemma CommitMarks(m: Machine, e: Event)
    ensures StepCommit(m, e).disk.accepted == m.disk.accepted
  {
  }

  lemma OnlyAcceptMarks(m: Machine, e: Event)
    requires !e.AcceptDone?
    ensures Step(m, e).disk.accepted == m.disk.accepted
  {
    SharedMarks(m, e);
    CommitMarks(m, e);
    WriteKeepsDurable(m, e);
    RecoverKeepsDisk(m, e);
  }

  /** The mark only moves when the entry at hand is accepted. */
  lemma MarkMoves(m: Machine, ok: bool)
    requires PhaseInv(m)
    ensures var next := Step(m, AcceptDone(ok)); next.disk.accepted != m.disk.accepted ==>
      && (m.phase.Accepting? || (m.phase.Recovering? && m.phase.step.AcceptingEntry?))
      && var tx := if m.phase.Accepting? then m.phase.txn.tx else m.phase.step.tx;
      && EntryRenamed(m.disk, tx) && Install.Acceptable(m.disk, m.disk.pending[tx])
      && next.disk == AcceptPackage(m.disk, m.disk.pending[tx])
  {
    assert Step(m, AcceptDone(ok)) == StepShared(m, AcceptDone(ok));
  }

  lemma StepKeepsMarks(m: Machine, e: Event)
    requires Inv(m) && MarksInPlace(m.disk)
    ensures MarksInPlace(Step(m, e).disk)
  {
    if Step(m, e).disk.accepted == m.disk.accepted {
      StepKeepsDurable(m, e);
      KeptMarks(m.disk, Step(m, e).disk);
    } else {
      if !e.AcceptDone? {
        OnlyAcceptMarks(m, e);
      }
      MarkMoves(m, e.ok);
      var tx := if m.phase.Accepting? then m.phase.txn.tx else m.phase.step.tx;
      assert Shaped(m.disk, tx);
      AcceptKeepsMarks(m.disk, tx);
    }
  }

  /**
   In every run each accepted mark has the directory of its version in place: a complete package of the mark's
   publisher and plugin, whose signed contents are the accepted ones.
   */
  lemma {:induction false} AcceptedIsInstalled(trust: map<string, Binding>, events: seq<Event>)
    ensures MarksInPlace(Play(trust, events).disk)
  {
    if events != [] {
      var prefix := events[..|events| - 1];
      AcceptedIsInstalled(trust, prefix);
      PlayInv(trust, prefix);
      StepKeepsMarks(Play(trust, prefix), events[|events| - 1]);
    }
  }

  // ---- Installed implies verified ----

  /** The package's envelope verified under the trust in force after one of the first events. */
  ghost predicate Vouched(trust: map<string, Binding>, events: seq<Event>, package: Package)
  {
    exists k :: 0 <= k <= |events| && VouchedAt(Play(trust, events[..k]).disk.trust, package)
  }

  predicate VouchedAt(trust: map<string, Binding>, package: Package)
  {
    SignatureOk(trust, package.manifest.publisher, package.files)
  }

  ghost predicate DirVouched(trust: map<string, Binding>, events: seq<Event>, dir: Files, place: Place)
  {
    exists package: Package ::
      && Validated(package) && PlaceOf(package) == place && dir == WrittenOut(package)
      && Vouched(trust, events, package)
  }

  /** The install in progress up to its rename. */
  function Working(phase: Phase): Option<Txn>
  {
    match phase
    case Writing(txn, _) => Some(txn)
    case Preparing(txn) => Some(txn)
    case Renaming(txn) => Some(txn)
    case _ => None
  }

  ghost predicate HistoryInv(trust: map<string, Binding>, events: seq<Event>)
  {
    var m := Play(trust, events);
    && (Working(m.phase).Some? ==> Vouched(trust, events, Working(m.phase).value.package))
    && (forall place | place in m.disk.installed :: DirVouched(trust, events, m.disk.installed[place], place))
  }

  lemma VouchedLater(trust: map<string, Binding>, events: seq<Event>, package: Package)
    requires events != [] && Vouched(trust, events[..|events| - 1], package)
    ensures Vouched(trust, events, package)
  {
    var prefix := events[..|events| - 1];
    var k :| 0 <= k <= |prefix| && VouchedAt(Play(trust, prefix[..k]).disk.trust, package);
    assert events[..k] == prefix[..k];
  }

  lemma VouchedNow(trust: map<string, Binding>, events: seq<Event>, package: Package)
    requires events != [] && VouchedAt(Play(trust, events[..|events| - 1]).disk.trust, package)
    ensures Vouched(trust, events, package)
  {
    assert events[..|events| - 1] == events[..(|events| - 1)];
  }

  lemma WorkStarts(m: Machine, e: Event)
    requires Working(Step(m, e).phase).Some?
    ensures Working(Step(m, e).phase) == Working(m.phase) ||
            (e.BeginInstall? && MayBegin(m, e.txn) && Working(Step(m, e).phase) == Some(e.txn))
  {
  }

  lemma RenameInstalls(m: Machine, ok: bool, place: Place)
    requires PhaseInv(m) && place !in m.disk.installed
    ensures place in StepCommit(m, RenameDone(ok)).disk.installed ==>
      && m.phase.Renaming? && Validated(m.phase.txn.package) && PlaceOf(m.phase.txn.package) == place
      && StepCommit(m, RenameDone(ok)).disk.installed[place] == WrittenOut(m.phase.txn.package)
  {
  }

  lemma DirectoryAppears(m: Machine, e: Event, place: Place)
    requires Inv(m) && place in Step(m, e).disk.installed && place !in m.disk.installed
    ensures m.phase.Renaming? && Validated(m.phase.txn.package) && PlaceOf(m.phase.txn.package) == place
    ensures Step(m, e).disk.installed[place] == WrittenOut(m.phase.txn.package)
  {
    if e.RenameDone? {
      RenameInstalls(m, e.ok, place);
    } else {
      OnlyRenameInstalls(m, e);
    }
  }

  lemma WorkVouched(trust: map<string, Binding>, events: seq<Event>)
    requires events != [] && HistoryInv(trust, events[..|events| - 1])
    requires Working(Play(trust, events).phase).Some?
    ensures Vouched(trust, events, Working(Play(trust, events).phase).value.package)
  {
    var m, e := Play(trust, events[..|events| - 1]), events[|events| - 1];
    WorkStarts(m, e);
    var package := Working(Step(m, e).phase).value.package;
    if Working(Step(m, e).phase) == Working(m.phase) {
      VouchedLater(trust, events, package);
    } else {
      VouchedNow(trust, events, package);
    }
  }

  lemma DirectoryVouched(trust: map<string, Binding>, events: seq<Event>, place: Place)
    requires events != [] && HistoryInv(trust, events[..|events| - 1])
    requires place in Play(trust, events).disk.installed
    ensures DirVouched(trust, events, Play(trust, events).disk.installed[place], place)
  {
    var prefix := events[..|events| - 1];
    var m, e := Play(trust, prefix), events[|events| - 1];
    PlayInv(trust, prefix);
    if place in m.disk.installed {
      StepKeepsDurable(m, e);
      var dir := m.disk.installed[place];
      assert DirVouched(trust, prefix, dir, place);
      var package: Package :| Validated(package) && PlaceOf(package) == place && dir == WrittenOut(package)
                              && Vouched(trust, prefix, package);
      VouchedLater(trust, events, package);
    } else {
      DirectoryAppears(m, e, place);
      VouchedLater(trust, events, m.phase.txn.package);
    }
  }

  lemma {:induction false} PlayHistory(trust: map<string, Binding>, events: seq<Event>)
    ensures HistoryInv(trust, events)
  {
    if events != [] {
      PlayHistory(trust, events[..|events| - 1]);
      if Working(Play(trust, events).phase).Some? {
        WorkVouched(trust, events);
      }
      forall place | place in Play(trust, events).disk.installed
        ensures DirVouched(trust, events, Play(trust, events).disk.installed[place], place)
      {
        DirectoryVouched(trust, events, place);
      }
    }
  }

  /** The envelope in the files covers the rest of them and no revoked key, and some trusted key signed it. */
  predicate SignedUnder(trust: map<string, Binding>, publisher: string, files: Files)
  {
    && publisher in trust && !trust[publisher].revoked
    && SIGNATURE in files && files[SIGNATURE].Envelope?
    && files[SIGNATURE].payload == files - {SIGNATURE}
    && (forall key | key in files[SIGNATURE].signatures :: key !in trust[publisher].revokedKeys)
    && exists key | key in trust[publisher].keys ::
         key in files[SIGNATURE].signatures && files[SIGNATURE].signatures[key]
  }

  lemma VouchedIsSigned(trust: map<string, Binding>, publisher: string, files: Files)
    requires SignatureOk(trust, publisher, files)
    ensures SignedUnder(trust, publisher, files)
  {
  }

  /**
   In every run every installed directory is the complete file set of a package, and at some earlier moment of the run
   the package's publisher was trusted and a trusted, unrevoked key of it had signed exactly these contents.
   */
  lemma InstalledWasVerified(trust: map<string, Binding>, events: seq<Event>, place: Place)
    requires place in Play(trust, events).disk.installed
    ensures exists package: Package, k ::
              && Validated(package) && PlaceOf(package) == place
              && Play(trust, events).disk.installed[place] == WrittenOut(package)
              && 0 <= k <= |events|
              && SignedUnder(Play(trust, events[..k]).disk.trust, package.manifest.publisher, package.files)
  {
    PlayHistory(trust, events);
    var dir := Play(trust, events).disk.installed[place];
    assert DirVouched(trust, events, dir, place);
    var package: Package :| Validated(package) && PlaceOf(package) == place && dir == WrittenOut(package)
                            && Vouched(trust, events, package);
    var k :| 0 <= k <= |events| && VouchedAt(Play(trust, events[..k]).disk.trust, package);
    VouchedIsSigned(Play(trust, events[..k]).disk.trust, package.manifest.publisher, package.files);
  }
}
