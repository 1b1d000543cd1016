/**
 What trusted installs can leave behind for good: staging directories no journal entry names, and plugins
 that can no longer be upgraded (crates/floatile-cli/src/install.rs:195-274, 302-381, 430-494).
 */
module InstallLeaks {
  import opened Prelude
  import opened Distribution
  import opened Install
  import opened InstallRun
  import opened InstallSafety

  // ---- Staging directories ----

  /** The transaction the running process is working on. */
  function PhaseTx(phase: Phase): Option<Tx>
  {
    match phase
    case Writing(txn, _) => Some(txn.tx)
    case Preparing(txn) => Some(txn.tx)
    case Renaming(txn) => Some(txn.tx)
    case Accepting(txn) => Some(txn.tx)
    case Clearing(txn) => Some(txn.tx)
    case Cleaning(tx, _) => Some(tx)
    case Withdrawing(tx) => Some(tx)
    case _ => None
  }

  /** Staged, unknown to the journal, and not what a process is working on. */
  predicate Orphan(m: Machine, tx: Tx)
  {
    tx in m.disk.staging && tx !in m.disk.pending && tx in m.used && PhaseTx(m.phase) != Some(tx)
  }

  ghost predicate KeepsOrphan(m: Machine, next: Machine, tx: Tx)
    requires tx in m.disk.staging
  {
    Orphan(next, tx) && next.disk.staging[tx] == m.disk.staging[tx]
  }

  lemma WriteKeepsOrphan(m: Machine, tx: Tx, e: Event)
    requires Inv(m) && Orphan(m, tx)
    ensures KeepsOrphan(m, StepWrite(m, e), tx)
  {
  }

  lemma CommitKeepsOrphan(m: Machine, tx: Tx, e: Event)
    requires Inv(m) && Orphan(m, tx)
    ensures KeepsOrphan(m, StepCommit(m, e), tx)
  {
  }

  lemma RemovalKeepsOrphan(m: Machine, tx: Tx, e: Event)
    requires Inv(m) && Orphan(m, tx) && (e.RemovePartly? || e.RemoveDone?)
    ensures KeepsOrphan(m, StepShared(m, e), tx)
  {
    assert RemovingTx(m.phase) != Some(tx);
  }

  /** Without a removal the shared steps leave staging alone, journal nothing new and take up no transaction. */
  lemma SharedShrinks(m: Machine, e: Event)
    requires !e.RemovePartly? && !e.RemoveDone?
    ensures StepShared(m, e).disk.staging == m.disk.staging
    ensures StepShared(m, e).disk.pending.Keys <= m.disk.pending.Keys
  {
  }

  lemma SharedPhase(m: Machine, e: Event)
    requires !e.RemovePartly? && !e.RemoveDone?
    ensures PhaseTx(StepShared(m, e).phase) == PhaseTx(m.phase) || PhaseTx(StepShared(m, e).phase) == None
    ensures StepShared(m, e).used == m.used
  {
  }

  lemma SharedKeepsOrphan(m: Machine, tx: Tx, e: Event)
    requires Inv(m) && Orphan(m, tx)
    ensures KeepsOrphan(m, StepShared(m, e), tx)
  {
    if e.RemovePartly? || e.RemoveDone? {
      RemovalKeepsOrphan(m, tx, e);
    } else {
      SharedShrinks(m, e);
      SharedPhase(m, e);
    }
  }

  lemma StepKeepsOrphan(m: Machine, tx: Tx, e: Event)
    requires Inv(m) && Orphan(m, tx)
    ensures KeepsOrphan(m, Step(m, e), tx)
  {
    WriteKeepsOrphan(m, tx, e);
    CommitKeepsOrphan(m, tx, e);
    SharedKeepsOrphan(m, tx, e);
    if e.PickEntry? || e.FinishRecovery? {
      assert Step(m, e).disk == m.disk;
    }
  }

  /** No process, recovery, failure or trust change ever touches an orphaned staging directory. */
  lemma {:induction false} OrphanForever(m: Machine, tx: Tx, events: seq<Event>)
    requires Inv(m) && Orphan(m, tx)
    ensures KeepsOrphan(m, Continue(m, events), tx)
  {
    if events != [] {
      var prefix := events[..|events| - 1];
      OrphanForever(m, tx, prefix);
      ContinueInv(m, prefix);
      StepKeepsOrphan(Continue(m, prefix), tx, events[|events| - 1]);
    }
  }

  ghost predicate KeptForever(m: Machine, tx: Tx)
  {
    forall events :: tx in Continue(m, events).disk.staging
  }

  /**
   When a process has ended, by a crash or by giving up, a staging directory stays for good exactly
   when the journal does not name it: a named one is removed by the next recovery that completes.
   */
  lemma {:induction false} LeftForeverIffUnjournaled(m: Machine, tx: Tx)
    requires Inv(m) && m.phase.Idle?
    ensures KeptForever(m, tx) <==> tx in m.disk.staging && tx !in m.disk.pending
  {
    if tx !in m.disk.staging {
      assert tx !in Continue(m, []).disk.staging;
    } else if tx !in m.disk.pending {
      forall events
        ensures tx in Continue(m, events).disk.staging
      {
        OrphanForever(m, tx, events);
      }
    } else {
      assert Shaped(m.disk, tx);
      assert RenamedEndorsed(m.disk) by {
        assert forall other | other in m.disk.pending :: other == tx;
      }
      var events := RecoveryCanComplete(m);
      SettledOne(m, tx);
      assert tx !in Continue(m, events).disk.staging;
    }
  }

  // ---- Plugins whose highest version cannot be loaded ----

  /** The highest installed version of a plugin does not load. */
  predicate Stuck(m: Machine, place: Place)
  {
    Highest(m.disk.installed, place) && LoadFromDir(m.disk.installed[place]).None?
  }

  /** The highest version is stuck exactly when its package contained an `install.json`. */
  lemma StuckIffHeldMetadata(m: Machine, place: Place, p: Package)
    requires Highest(m.disk.installed, place)
    requires Validated(p) && m.disk.installed[place] == WrittenOut(p)
    ensures Stuck(m, place) <==> INSTALL_JSON in p.files
  {
    LoadWrittenOut(p);
  }

  predicate SamePlaces(m: Machine, next: Machine, plugin: string)
  {
    && (forall p | p in m.disk.installed && p.plugin == plugin :: p in next.disk.installed)
    && (forall p | p in next.disk.installed && p.plugin == plugin :: p in m.disk.installed)
  }

  lemma CommitKeepsStuck(m: Machine, place: Place, e: Event)
    requires Inv(m) && Stuck(m, place)
    ensures Stuck(StepCommit(m, e), place) && SamePlaces(m, StepCommit(m, e), place.plugin)
  {
    if m.phase.Renaming? && e.RenameDone? {
      var txn := m.phase.txn;
      assert Gate(m.disk, txn);
      assert txn.package.manifest.id != place.plugin;
    }
  }

  lemma SamePlacesSameStuck(m: Machine, next: Machine, place: Place)
    requires Stuck(m, place) && next.disk.installed == m.disk.installed
    ensures Stuck(next, place) && SamePlaces(m, next, place.plugin)
  {
  }

  lemma StepKeepsStuck(m: Machine, place: Place, e: Event)
    requires Inv(m) && Stuck(m, place)
    ensures Stuck(Step(m, e), place) && SamePlaces(m, Step(m, e), place.plugin)
  {
    if e.RenameDone? {
      CommitKeepsStuck(m, place, e);
    } else {
      OnlyRenameInstalls(m, e);
      SamePlacesSameStuck(m, Step(m, e), place);
    }
  }

  /** Once stuck, a plugin never gets another version: every later install of it is refused. */
  lemma {:induction false} StuckForever(m: Machine, place: Place, events: seq<Event>)
    requires Inv(m) && Stuck(m, place)
    ensures var end := Continue(m, events);
      && Inv(end) && Stuck(end, place) && SamePlaces(m, end, place.plugin)
      && (forall txn: Txn | Validated(txn.package) && txn.package.manifest.id == place.plugin :: !MayBegin(end, txn))
  {
    if events != [] {
      var prefix := events[..|events| - 1];
      StuckForever(m, place, prefix);
      StepKeepsInv(Continue(m, prefix), events[|events| - 1]);
      StepKeepsStuck(Continue(m, prefix), place, events[|events| - 1]);
    }
  }
}
