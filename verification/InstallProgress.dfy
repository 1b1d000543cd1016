/**
 A good package does get installed (crates/floatile-cli/src/install.rs:169-275; crates/floatile-store/src/trust.rs,
 lines 324-349 and 532-543): with trust at rest and nothing failing, recovery and install go through from every
 reachable state.
 */
module InstallProgress {
  import opened Prelude
  import opened Distribution
  import opened Install
  import opened InstallRun
  import opened InstallSafety

  // ---- Runs, step by step ----

  lemma {:induction false} ContinueJoin(m: Machine, a: seq<Event>, b: seq<Event>)
    ensures Continue(m, a + b) == Continue(Continue(m, a), b)
  {
    if b == [] {
      assert a + b == a;
    } else {
      var n := |b| - 1;
      ContinueJoin(m, a, b[..n]);
      assert a + b == (a + b[..n]) + [b[n]];
      ContinueOne(m, a + b[..n], b[n]);
    }
  }

  lemma ContinueStep(m: Machine, e: Event)
    ensures Continue(m, [e]) == Step(m, e)
  {
    assert [e][..0] == [];
  }

  /** Only the start of an install draws a nonce. */
  lemma {:induction false} UsedKept(m: Machine, events: seq<Event>)
    requires forall e | e in events :: !e.BeginInstall?
    ensures Continue(m, events).used == m.used
  {
    if events != [] {
      var n := |events| - 1;
      UsedKept(m, events[..n]);
      StepKeepsUsed(Continue(m, events[..n]), events[n]);
    }
  }

  lemma StepKeepsUsed(m: Machine, e: Event)
    requires !e.BeginInstall?
    ensures Step(m, e).used == m.used
  {
  }

  // ---- Writing ----

  lemma WriteStep(m: Machine, txn: Txn, written: set<Path>, name: Path)
    requires m.phase == Writing(txn, written) && Validated(txn.package)
    requires name in txn.package.files && name !in written && written <= txn.package.files.Keys
    ensures var next := Step(m, WriteFile(name, true));
            && next.phase == Writing(txn, written + {name})
            && next.disk == m.disk.(staging := next.disk.staging)
            && txn.tx in next.disk.staging
  {
  }

  /** In the middle of writing: `before` but for what lies under staging. */
  ghost predicate Written(before: Disk, m: Machine, txn: Txn, written: set<Path>)
  {
    Inv(m) && m.phase == Writing(txn, written) && m.disk == before.(staging := m.disk.staging)
  }

  lemma WriteOne(before: Disk, m: Machine, txn: Txn, written: set<Path>, name: Path)
    requires Written(before, m, txn, written) && name in txn.package.files.Keys - written
    ensures Written(before, Continue(m, [WriteFile(name, true)]), txn, written + {name})
  {
    WriteStep(m, txn, written, name);
    StepKeepsInv(m, WriteFile(name, true));
    ContinueStep(m, WriteFile(name, true));
  }

  lemma AllWritten(before: Disk, m: Machine, txn: Txn, written: set<Path>)
    requires Written(before, m, txn, written) && txn.package.files.Keys - written == {}
    ensures written == txn.package.files.Keys
  {
    assert written <= txn.package.files.Keys;
    forall name | name in txn.package.files.Keys
      ensures name in written
    {
      assert name in written || name in txn.package.files.Keys - written;
    }
  }

  lemma {:induction false} WriteAll(before: Disk, m: Machine, txn: Txn, written: set<Path>) returns (events: seq<Event>)
    requires Written(before, m, txn, written)
    ensures forall e | e in events :: Succeeds(e)
    ensures Written(before, Continue(m, events), txn, txn.package.files.Keys)
    decreases |txn.package.files.Keys - written|
  {
    var left := txn.package.files.Keys - written;
    if left == {} {
      AllWritten(before, m, txn, written);
      events := [];
    } else {
      var name :| name in left;
      var first := [WriteFile(name, true)];
      WriteOne(before, m, txn, written, name);
      assert txn.package.files.Keys - (written + {name}) == left - {name};
      var rest := WriteAll(before, Continue(m, first), txn, written + {name});
      ContinueJoin(m, first, rest);
      events := first + rest;
    }
  }

  lemma MetaFully(m: Machine, txn: Txn)
    requires m.phase == Writing(txn, txn.package.files.Keys) && Validated(txn.package) && Inv(m)
    ensures var next := Step(m, WriteMeta(true));
      && next.phase == Preparing(txn) && txn.tx in next.disk.staging
      && next.disk.staging[txn.tx] == WrittenOut(txn.package) && next.disk == m.disk.(staging := next.disk.staging)
  {
    StepKeepsInv(m, WriteMeta(true));
  }

  // ---- Committing ----

  /** The mark of the package's publisher and plugin, if there is one, is below its version. */
  predicate AboveAccepted(accepted: map<Owner, Accepted>, package: Package)
    requires Validated(package)
  {
    var owner := Owner(package.manifest.publisher, package.manifest.id);
    owner in accepted ==> accepted[owner].version < package.manifest.version.value
  }

  predicate Trusted(trust: map<string, Binding>, publisher: string)
  {
    publisher in trust && !trust[publisher].revoked
  }

  lemma PrepareFully(m: Machine, txn: Txn)
    requires m.phase == Preparing(txn) && Validated(txn.package)
    requires Trusted(m.disk.trust, txn.package.manifest.publisher) && AboveAccepted(m.disk.accepted, txn.package)
    ensures Step(m, PrepareDone(true)) ==
            m.(disk := m.disk.(pending := m.disk.pending[txn.tx := PendingFor(txn.package)]), phase := Renaming(txn))
  {
  }

  lemma RenameFully(m: Machine, txn: Txn)
    requires m.phase == Writing(txn, txn.package.files.Keys) && Inv(m)
    requires Trusted(m.disk.trust, txn.package.manifest.publisher) && AboveAccepted(m.disk.accepted, txn.package)
    ensures var end := Step(Step(Step(m, WriteMeta(true)), PrepareDone(true)), RenameDone(true));
      && end.phase == Accepting(txn)
      && end.disk == m.disk.(staging := end.disk.staging, pending := map[txn.tx := PendingFor(txn.package)],
                             installed := m.disk.installed[PlaceOf(txn.package) := WrittenOut(txn.package)])
  {
    MetaFully(m, txn);
    var prepared := Step(m, WriteMeta(true));
    PrepareFully(prepared, txn);
    var renaming := Step(prepared, PrepareDone(true));
    var end := Step(renaming, RenameDone(true));
    assert end == Machine(Rename(renaming.disk, txn.tx, PlaceOf(txn.package)), Accepting(txn), renaming.used);
  }

  lemma AcceptFully(m: Machine, txn: Txn)
    requires Validated(txn.package) && m.phase == Accepting(txn)
    requires m.disk.pending == map[txn.tx := PendingFor(txn.package)]
    requires Trusted(m.disk.trust, txn.package.manifest.publisher) && AboveAccepted(m.disk.accepted, txn.package)
    ensures var end := Step(Step(m, AcceptDone(true)), ClearDone(true)); var manifest := txn.package.manifest;
      && end.phase.Idle?
      && end.disk == m.disk.(pending := map[],
                             accepted := m.disk.accepted[Owner(manifest.publisher, manifest.id) :=
                                           Accepted(manifest.version.value, txn.package.files - {SIGNATURE})])
  {
    var accepted := Step(m, AcceptDone(true));
    assert accepted.phase == Clearing(txn) && accepted.disk == AcceptPackage(m.disk, PendingFor(txn.package));
    assert accepted.disk.pending - {txn.tx} == map[];
  }

  function CommitEvents(): seq<Event>
  {
    [WriteMeta(true), PrepareDone(true), RenameDone(true)] + [AcceptDone(true), ClearDone(true)]
  }

  lemma ThreeMore(m: Machine, a: Event, b: Event, c: Event)
    ensures Continue(m, [a, b, c]) == Step(Step(Step(m, a), b), c)
  {
    ContinueStep(m, a);
    ContinueOne(m, [a], b);
    ContinueOne(m, [a] + [b], c);
    assert [a, b, c] == [a] + [b] + [c];
  }

  lemma TwoMore(m: Machine, a: Event, b: Event)
    ensures Continue(m, [a, b]) == Step(Step(m, a), b)
  {
    ContinueStep(m, a);
    ContinueOne(m, [a], b);
    assert [a, b] == [a] + [b];
  }

  lemma CommitFully(before: Disk, m: Machine, txn: Txn)
    requires Written(before, m, txn, txn.package.files.Keys) && Validated(txn.package)
    requires Trusted(before.trust, txn.package.manifest.publisher) && AboveAccepted(before.accepted, txn.package)
    ensures Committed(before, Continue(m, CommitEvents()), txn.package)
  {
    RenameFully(m, txn);
    ThreeMore(m, WriteMeta(true), PrepareDone(true), RenameDone(true));
    var renamed := Continue(m, [WriteMeta(true), PrepareDone(true), RenameDone(true)]);
    AcceptFully(renamed, txn);
    TwoMore(renamed, AcceptDone(true), ClearDone(true));
    ContinueJoin(m, [WriteMeta(true), PrepareDone(true), RenameDone(true)], [AcceptDone(true), ClearDone(true)]);
  }

  /** Installed, accepted and off the journal; everything else installed or accepted is as it was. */
  predicate Committed(before: Disk, end: Machine, package: Package)
    requires Validated(package)
  {
    var manifest := package.manifest;
    && end.phase.Idle? && end.disk.pending == map[] && end.disk.trust == before.trust
    && end.disk.installed == before.installed[PlaceOf(package) := WrittenOut(package)]
    && end.disk.accepted ==
       before.accepted[Owner(manifest.publisher, manifest.id) :=
         Accepted(manifest.version.value, package.files - {SIGNATURE})]
  }

  // ---- After recovery ----

  /** Above every installed version of its publisher and plugin. */
  predicate AboveInstalled(installed: map<Place, Files>, package: Package)
    requires Validated(package)
  {
    forall place | place in installed && place.plugin == package.manifest.id ::
      PublisherOf(installed[place]) == package.manifest.publisher ==> place.version < package.manifest.version.value
  }

  /** Each highest installed version of the plugin loads; if it is older, the plan is made, and confirmed if it asks. */
  predicate PlanAllows(installed: map<Place, Files>, txn: Txn)
    requires Validated(txn.package)
  {
    var candidate := txn.package.manifest;
    forall place | place in installed && place.plugin == candidate.id && Highest(installed, place) ::
      var current := LoadFromDir(installed[place]);
      && current.Some?
      && (place.version < candidate.version.value ==>
            var plan := PlanUpgrade(current.value.manifest, candidate);
            plan.Ok? && (plan.value.requiresConfirmation ==> txn.consent))
  }

  /** What recovery leaves: the same directories and trust, and no mark above what is installed. */
  lemma SettledKeeps(m: Machine, package: Package)
    requires Inv(m) && RenamedEndorsed(m.disk) && Validated(package)
    requires AboveAccepted(m.disk.accepted, package) && AboveInstalled(m.disk.installed, package)
    ensures var disk := Settled(m.disk);
      && disk.installed == m.disk.installed && disk.trust == m.disk.trust && disk.pending == map[]
      && AboveAccepted(disk.accepted, package)
  {
    if m.disk.pending.Keys == {} {
      assert m.disk.pending == map[];
    } else {
      var tx :| tx in m.disk.pending;
      SettledOne(m, tx);
      EntryConverges(m, tx);
      EntryKeepsMark(m, tx, package);
      EntryKeepsTrust(m.disk, tx);
    }
  }

  lemma EntryKeepsTrust(disk: Disk, tx: Tx)
    requires tx in disk.pending
    ensures RecoverEntry(disk, tx).0.trust == disk.trust
    ensures RecoverEntry(disk, tx).0.accepted == disk.accepted ||
            (&& disk.pending[tx].place in disk.installed && Install.Acceptable(disk, disk.pending[tx])
             && RecoverEntry(disk, tx).0.accepted == AcceptPackage(disk, disk.pending[tx]).accepted)
  {
  }

  lemma EntryKeepsMark(m: Machine, tx: Tx, package: Package)
    requires Inv(m) && tx in m.disk.pending && Validated(package)
    requires AboveAccepted(m.disk.accepted, package) && AboveInstalled(m.disk.installed, package)
    ensures AboveAccepted(RecoverEntry(m.disk, tx).0.accepted, package)
  {
    var p := m.disk.pending[tx];
    EntryKeepsTrust(m.disk, tx);
    if p.place in m.disk.installed {
      PublisherOfEntry(m, tx);
    }
  }

  lemma PublisherOfEntry(m: Machine, tx: Tx)
    requires Inv(m) && tx in m.disk.pending && m.disk.pending[tx].place in m.disk.installed
    ensures PublisherOf(m.disk.installed[m.disk.pending[tx].place]) == m.disk.pending[tx].publisher
  {
    var p := m.disk.pending[tx];
    assert Shaped(m.disk, tx);
    var held: Package :| Validated(held) && p == PendingFor(held) && m.disk.installed[p.place] == WrittenOut(held);
    WrittenOutPublisher(held);
  }

  lemma BeginFully(m: Machine, txn: Txn)
    requires Inv(m) && m.phase.Ready? && Validated(txn.package) && txn.tx !in m.used
    requires SignatureOk(m.disk.trust, txn.package.manifest.publisher, txn.package.files)
    requires PlaceOf(txn.package) !in m.disk.installed && PlanAllows(m.disk.installed, txn)
    ensures Written(m.disk, Continue(m, [BeginInstall(txn)]), txn, {})
  {
    assert Gate(m.disk, txn);
    StepKeepsInv(m, BeginInstall(txn));
    ContinueStep(m, BeginInstall(txn));
  }

  lemma InstallFromReady(m: Machine, txn: Txn) returns (events: seq<Event>)
    requires Inv(m) && m.phase.Ready? && Validated(txn.package) && txn.tx !in m.used
    requires SignatureOk(m.disk.trust, txn.package.manifest.publisher, txn.package.files)
    requires PlaceOf(txn.package) !in m.disk.installed && PlanAllows(m.disk.installed, txn)
    requires AboveAccepted(m.disk.accepted, txn.package)
    ensures forall e | e in events :: Succeeds(e)
    ensures Committed(m.disk, Continue(m, events), txn.package)
  {
    var first := [BeginInstall(txn)];
    BeginFully(m, txn);
    var begun := Continue(m, first);
    var writes := WriteAll(m.disk, begun, txn, {});
    CommitFully(m.disk, Continue(begun, writes), txn);
    InTurn(m, first, writes, CommitEvents());
    events := first + writes + CommitEvents();
  }

  lemma InTurn(m: Machine, a: seq<Event>, b: seq<Event>, c: seq<Event>)
    ensures Continue(m, a + b + c) == Continue(Continue(Continue(m, a), b), c)
  {
    ContinueJoin(m, a, b);
    ContinueJoin(m, a + b, c);
  }

  // ---- Results ----

  /**
   From every reachable idle state whose renamed entries are endorsed, some run of successful events recovers and then
   installs any validated package that verifies, whose place is free, that is newer than every accepted and installed
   version of its publisher and plugin, and whose plan is made: afterwards its directory is in place, the mark is its
   version and signed contents, the journal is empty, and nothing else installed has changed.
   */
  lemma InstallCanComplete(m: Machine, txn: Txn) returns (events: seq<Event>)
    requires Inv(m) && m.phase.Idle? && RenamedEndorsed(m.disk)
    requires Validated(txn.package) && txn.tx !in m.used
    requires SignatureOk(m.disk.trust, txn.package.manifest.publisher, txn.package.files)
    requires PlaceOf(txn.package) !in m.disk.installed
    requires AboveAccepted(m.disk.accepted, txn.package) && AboveInstalled(m.disk.installed, txn.package)
    requires PlanAllows(m.disk.installed, txn)
    ensures forall e | e in events :: Succeeds(e)
    ensures Committed(Settled(m.disk), Continue(m, events), txn.package)
    ensures Settled(m.disk).installed == m.disk.installed
  {
    var recovery := RecoveryCanComplete(m);
    var ready := Continue(m, recovery);
    SettledKeeps(m, txn.package);
    ContinueInv(m, recovery);
    UsedKept(m, recovery);
    var install := InstallFromReady(ready, txn);
    ContinueJoin(m, recovery, install);
    events := recovery + install;
  }

  /** The journal never names a package below the mark of its publisher and plugin, or another one at the mark. */
  lemma JournaledIsAbove(trust: map<string, Binding>, events: seq<Event>, tx: Tx)
    requires tx in Play(trust, events).disk.pending
    ensures var disk := Play(trust, events).disk; var p := disk.pending[tx];
      var owner := Owner(p.publisher, p.place.plugin);
      owner in disk.accepted ==>
        || disk.accepted[owner].version < p.place.version
        || (disk.accepted[owner].version == p.place.version && disk.accepted[owner].digest == p.signedDigest)
  {
    PlayInv(trust, events);
    assert Shaped(Play(trust, events).disk, tx);
  }

  /** An install whose staging is complete is journaled exactly when its publisher is trusted and the mark admits it. */
  lemma PreparedIff(m: Machine)
    requires Inv(m) && m.phase.Preparing?
    ensures var package := m.phase.txn.package; var next := Step(m, PrepareDone(true));
      var owner := Owner(package.manifest.publisher, package.manifest.id);
      && (next.phase.Renaming? <==>
            && Trusted(m.disk.trust, package.manifest.publisher)
            && (owner in m.disk.accepted ==>
                  || m.disk.accepted[owner].version < package.manifest.version.value
                  || (&& m.disk.accepted[owner].version == package.manifest.version.value
                      && m.disk.accepted[owner].digest == package.files - {SIGNATURE})))
      && (next.phase.Renaming? ==> m.phase.txn.tx in next.disk.pending)
      && (!next.phase.Renaming? ==> next.disk == m.disk)
  {
  }

  // ---- An install that fails cleans up ----

  /** A failed write, or a refused or failed journal entry, takes the staging directory away and nothing else. */
  lemma FailedWriteCleansUp(m: Machine, e: Event)
    requires m.phase.Writing? || m.phase.Preparing?
    requires m.phase.Writing? ==> e == WriteMeta(false) || (e.WriteFile? && !e.ok)
    requires m.phase.Preparing? ==> e == PrepareDone(false)
    requires Inv(m)
    ensures Continue(m, [e, RemoveDone(true)]) ==
            Machine(m.disk.(staging := m.disk.staging - {m.phase.txn.tx}), Idle, m.used)
  {
    TwoMore(m, e, RemoveDone(true));
  }

  /** A failed rename takes away the staging directory and then its journal entry, and nothing else. */
  lemma FailedRenameCleansUp(m: Machine)
    requires m.phase.Renaming? && Inv(m)
    ensures Continue(m, [RenameDone(false), RemoveDone(true), AbortDone(true)]) ==
            Machine(m.disk.(staging := m.disk.staging - {m.phase.txn.tx}, pending := map[]), Idle, m.used)
  {
    var tx := m.phase.txn.tx;
    ThreeMore(m, RenameDone(false), RemoveDone(true), AbortDone(true));
    var removed := Step(Step(m, RenameDone(false)), RemoveDone(true));
    assert removed == Machine(RemoveStaging(m.disk, tx), Withdrawing(tx), m.used);
    assert m.disk.pending - {tx} == map[];
  }
}
