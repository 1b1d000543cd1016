/**
 Trusted installs and recoveries as a crash-step protocol
 (crates/floatile-cli/src/install.rs:166-274, 302-381, 431-499; crates/floatile-cli/src/main.rs:998).

 One process runs at a time. A process recovers, and only then installs. Every file and database
 operation is one event that may fail, and a crash may fall between any two of them, or leave a file
 half written or a directory half removed. Publisher trust may change at any moment.
 */
module InstallRun {
  import opened Prelude
  import opened Distribution
  import opened Install

  /** One install in progress. `consent` is the caller's acceptance of a permission expansion. */
  datatype Txn = Txn(tx: Tx, package: Package, consent: bool)

  datatype RecoveryStep =
    | NextEntry
    | Removing(tx: Tx)
    | Aborting(tx: Tx)
    | AcceptingEntry(tx: Tx)
    | ClearingEntry(tx: Tx)

  datatype Phase =
    | Idle
    | Recovering(todo: set<Tx>, step: RecoveryStep, report: Report)
    | Ready
    | Writing(txn: Txn, written: set<Path>)
    | Preparing(txn: Txn)
    | Renaming(txn: Txn)
    | Cleaning(tx: Tx, journaled: bool)
    | Withdrawing(tx: Tx)
    | Accepting(txn: Txn)
    | Clearing(txn: Txn)

  /** `used` are the nonces drawn so far. */
  datatype Machine = Machine(disk: Disk, phase: Phase, used: set<Tx>)

  datatype Event =
    | Crash
    | TrustChanges(trust: map<string, Binding>)
    | StartProcess
    // recovery
    | PickEntry(tx: Tx)
    | RemovePartly(rest: Files)
    | RemoveDone(ok: bool)
    | AbortDone(ok: bool)
    | AcceptDone(ok: bool)
    | ClearDone(ok: bool)
    | FinishRecovery
    // install
    | BeginInstall(txn: Txn)
    | TearFile(name: Path, content: Content)
    | WriteFile(name: Path, ok: bool)
    | WriteMeta(ok: bool)
    | PrepareDone(ok: bool)
    | RenameDone(ok: bool)

  /** `load_highest`: the place no other place of the plugin is above. */
  predicate Highest(installed: map<Place, Files>, place: Place)
  {
    place in installed &&
    forall other | other in installed && other.plugin == place.plugin :: other.version <= place.version
  }

  /** The upgrade check against the highest installed version; older candidates are not planned. */
  predicate Gate(disk: Disk, txn: Txn)
    requires Validated(txn.package)
  {
    var candidate := txn.package.manifest;
    forall place | place in disk.installed && place.plugin == candidate.id && Highest(disk.installed, place) ::
      var current := LoadFromDir(disk.installed[place]);
      && current.Some?
      && (place.version < candidate.version.value ==>
            var plan := PlanUpgrade(current.value.manifest, candidate);
            plan.Ok? && (plan.value.requiresConfirmation ==> txn.consent))
  }

  /** Everything an install checks before it touches the disk. The nonce is assumed fresh. */
  predicate MayBegin(m: Machine, txn: Txn)
  {
    && Validated(txn.package)
    && txn.tx !in m.used
    && SignatureOk(m.disk.trust, txn.package.manifest.publisher, txn.package.files)
    && PlaceOf(txn.package) !in m.disk.installed
    && Gate(m.disk, txn)
  }

  function StagedFiles(disk: Disk, tx: Tx): Files
  {
    if tx in disk.staging then disk.staging[tx] else map[]
  }

  function Put(disk: Disk, tx: Tx, name: Path, content: Content): Disk
  {
    disk.(staging := disk.staging[tx := StagedFiles(disk, tx)[name := content]])
  }

  /** The effect of one event; an event that does not fit the current phase changes nothing. */
  function Step(m: Machine, e: Event): Machine
  {
    match e
    case Crash => m.(phase := Idle)
    case TrustChanges(trust) => m.(disk := m.disk.(trust := trust))
    case StartProcess =>
      if m.phase.Idle? then m.(phase := Recovering(m.disk.pending.Keys, NextEntry, Report(0, 0))) else m
    case BeginInstall(txn) =>
      if !m.phase.Ready? then m
      else if !MayBegin(m, txn) then m.(phase := Idle)
      else m.(phase := Writing(txn, {}), used := m.used + {txn.tx})
    case TearFile(_, _) => StepWrite(m, e)
    case WriteFile(_, _) => StepWrite(m, e)
    case WriteMeta(_) => StepWrite(m, e)
    case PrepareDone(_) => StepCommit(m, e)
    case RenameDone(_) => StepCommit(m, e)
    case PickEntry(_) => StepRecover(m, e)
    case FinishRecovery => StepRecover(m, e)
    case RemovePartly(_) => StepShared(m, e)
    case RemoveDone(_) => StepShared(m, e)
    case AbortDone(_) => StepShared(m, e)
    case AcceptDone(_) => StepShared(m, e)
    case ClearDone(_) => StepShared(m, e)
  }

  /** Writing the staging directory, file by file and then the metadata. */
  function StepWrite(m: Machine, e: Event): Machine
  {
    if !m.phase.Writing? || !Validated(m.phase.txn.package) then m
    else
      var txn, files := m.phase.txn, m.phase.txn.package.files;
      match e
      case TearFile(name, content) =>
        if name in files || name == INSTALL_JSON
        then m.(disk := Put(m.disk, txn.tx, name, content), phase := Writing(txn, m.phase.written - {name})) else m
      case WriteFile(name, ok) =>
        if !ok then m.(phase := Cleaning(txn.tx, false))
        else if name in files && m.phase.written != files.Keys
        then m.(disk := Put(m.disk, txn.tx, name, files[name]), phase := Writing(txn, m.phase.written + {name}))
        else m
      case WriteMeta(ok) =>
        if !ok then m.(phase := Cleaning(txn.tx, false))
        else if m.phase.written == files.Keys
        then m.(disk := Put(m.disk, txn.tx, INSTALL_JSON, InstallJson(MetaOf(txn.package))), phase := Preparing(txn))
        else m
      case _ => m
  }

  /** Recording the intent and renaming the staging directory into place. */
  function StepCommit(m: Machine, e: Event): Machine
  {
    match (m.phase, e)
    case (Preparing(txn), PrepareDone(ok)) =>
      if ok && Validated(txn.package) && Install.Acceptable(m.disk, PendingFor(txn.package))
      then m.(disk := m.disk.(pending := m.disk.pending[txn.tx := PendingFor(txn.package)]), phase := Renaming(txn))
      else m.(phase := Cleaning(txn.tx, false))
    case (Renaming(txn), RenameDone(ok)) =>
      if ok && Validated(txn.package) && txn.tx in m.disk.staging
      then m.(disk := Rename(m.disk, txn.tx, PlaceOf(txn.package)), phase := Accepting(txn))
      else m.(phase := Cleaning(txn.tx, true))
    case _ => m
  }

  /** Recovery picks the next journal entry and looks at what is on disk for it. */
  function StepRecover(m: Machine, e: Event): Machine
  {
    if !m.phase.Recovering? || !m.phase.step.NextEntry? then m
    else
      var phase := m.phase;
      match e
      case PickEntry(tx) =>
        if !(tx in phase.todo && tx in m.disk.pending) then m
        else
          var p := m.disk.pending[tx];
          (match (tx in m.disk.staging, p.place in m.disk.installed)
           case (true, true) => m.(phase := Idle)
           case (true, false) => m.(phase := phase.(step := Removing(tx)))
           case (false, false) => m.(phase := phase.(step := Aborting(tx)))
           case (false, true) =>
             if Confirms(m.disk, p) then m.(phase := phase.(step := AcceptingEntry(tx))) else m.(phase := Idle))
      case FinishRecovery => if phase.todo == {} then m.(phase := Ready) else m
      case _ => m
  }

  /** The operations that recovery and install have in common. */
  function StepShared(m: Machine, e: Event): Machine
  {
    match e
    case RemovePartly(rest) =>
      var tx := RemovingTx(m.phase);
      if tx.Some? && tx.value in m.disk.staging && rest.Items <= m.disk.staging[tx.value].Items
      then m.(disk := m.disk.(staging := m.disk.staging[tx.value := rest])) else m
    case RemoveDone(ok) =>
      (match m.phase
       case Cleaning(tx, journaled) =>
         var disk := if ok then RemoveStaging(m.disk, tx) else m.disk;
         Machine(disk, if journaled then Withdrawing(tx) else Idle, m.used)
       case Recovering(todo, Removing(tx), report) =>
         if ok then Machine(RemoveStaging(m.disk, tx), Recovering(todo, Aborting(tx), report), m.used)
         else m.(phase := Idle)
       case _ => m)
    case AbortDone(ok) =>
      (match m.phase
       case Withdrawing(tx) => Machine(if ok then DeleteIntent(m.disk, tx) else m.disk, Idle, m.used)
       case Recovering(todo, Aborting(tx), report) =>
         if ok
         then Machine(DeleteIntent(m.disk, tx), Recovering(todo - {tx}, NextEntry,
             report.(aborted := report.aborted + 1)), m.used)
         else m.(phase := Idle)
       case _ => m)
    case AcceptDone(ok) =>
      (match m.phase
       case Accepting(txn) =>
         if ok && txn.tx in m.disk.pending && Install.Acceptable(m.disk, m.disk.pending[txn.tx])
         then Machine(AcceptPackage(m.disk, m.disk.pending[txn.tx]), Clearing(txn), m.used) else m.(phase := Idle)
       case Recovering(todo, AcceptingEntry(tx), report) =>
         if ok && tx in m.disk.pending && Install.Acceptable(m.disk, m.disk.pending[tx])
         then Machine(AcceptPackage(m.disk, m.disk.pending[tx]), Recovering(todo, ClearingEntry(tx), report), m.used)
         else m.(phase := Idle)
       case _ => m)
    case ClearDone(ok) =>
      (match m.phase
       case Clearing(txn) => Machine(if ok then DeleteIntent(m.disk, txn.tx) else m.disk, Idle, m.used)
       case Recovering(todo, ClearingEntry(tx), report) =>
         if ok
         then Machine(DeleteIntent(m.disk, tx), Recovering(todo - {tx}, NextEntry,
             report.(finalized := report.finalized + 1)), m.used)
         else m.(phase := Idle)
       case _ => m)
    case _ => m
  }

  /** The transaction whose staging directory is being removed. */
  function RemovingTx(phase: Phase): Option<Tx>
  {
    match phase
    case Cleaning(tx, _) => Some(tx)
    case Recovering(_, Removing(tx), _) => Some(tx)
    case _ => None
  }

  function Start(trust: map<string, Binding>): Machine
  {
    Machine(Disk(map[], map[], map[], map[], trust), Idle, {})
  }

  function Play(trust: map<string, Binding>, events: seq<Event>): Machine
  {
    if events == [] then Start(trust) else Step(Play(trust, events[..|events| - 1]), events[|events| - 1])
  }

  // ---- Invariant ----

  /** The final directory matches both digests of its journal entry. */
  ghost predicate Matches(dir: Files, p: Pending)
  {
    exists package: Package :: Validated(package) && p == PendingFor(package) && dir == WrittenOut(package)
  }

  /** Never staging and final together, and a final directory is the journaled one. */
  ghost predicate Shaped(disk: Disk, tx: Tx)
    requires tx in disk.pending
  {
    var p := disk.pending[tx];
    && !(tx in disk.staging && p.place in disk.installed)
    && (p.place in disk.installed ==> Matches(disk.installed[p.place], p))
    && AboveMark(disk.accepted, p)
  }

  /** The publisher that a complete directory's metadata names. */
  function PublisherOf(dir: Files): string
  {
    if INSTALL_JSON in dir && dir[INSTALL_JSON].InstallJson? &&
       MANIFEST in dir[INSTALL_JSON].meta.files && dir[INSTALL_JSON].meta.files[MANIFEST].ManifestJson?
    then dir[INSTALL_JSON].meta.files[MANIFEST].manifest.publisher
    else ""
  }

  /** The high-water mark of the directory's publisher has reached it. */
  predicate Marked(disk: Disk, place: Place)
    requires place in disk.installed
  {
    var owner := Owner(PublisherOf(disk.installed[place]), place.plugin);
    owner in disk.accepted && place.version <= disk.accepted[owner].version
  }

  predicate Journaled(disk: Disk, place: Place)
  {
    exists tx | tx in disk.pending :: disk.pending[tx].place == place
  }

  ghost predicate DiskInv(disk: Disk, used: set<Tx>)
  {
    && disk.staging.Keys <= used
    && disk.pending.Keys <= used
    && (forall a, b | a in disk.pending && b in disk.pending :: a == b)
    && (forall tx | tx in disk.pending :: Shaped(disk, tx))
    && (forall place | place in disk.installed :: Complete(disk.installed[place], place))
    && (forall place | place in disk.installed :: Marked(disk, place) || Journaled(disk, place))
  }

  /** The staging directory of the transaction holds exactly the written-out package. */
  ghost predicate Staged(m: Machine, txn: Txn)
  {
    && Validated(txn.package)
    && txn.tx in m.disk.staging
    && m.disk.staging[txn.tx] == WrittenOut(txn.package)
  }

  ghost predicate Fresh(m: Machine, txn: Txn)
  {
    && Validated(txn.package)
    && txn.tx in m.used
    && PlaceOf(txn.package) !in m.disk.installed
    && Gate(m.disk, txn)
  }

  ghost predicate EntryGone(disk: Disk, tx: Tx)
  {
    tx in disk.pending && disk.pending[tx].place !in disk.installed
  }

  ghost predicate EntryRenamed(disk: Disk, tx: Tx)
  {
    tx in disk.pending && tx !in disk.staging && disk.pending[tx].place in disk.installed
  }

  ghost predicate EntryAccepted(disk: Disk, tx: Tx)
  {
    EntryRenamed(disk, tx) && Marked(disk, disk.pending[tx].place)
  }

  ghost predicate WritingInv(m: Machine, txn: Txn, written: set<Path>)
  {
    && m.disk.pending == map[]
    && Fresh(m, txn)
    && written <= txn.package.files.Keys
    && StagedFiles(m.disk, txn.tx).Keys <= txn.package.files.Keys + {INSTALL_JSON}
    && forall name | name in written ::
         name in StagedFiles(m.disk, txn.tx) && StagedFiles(m.disk, txn.tx)[name] == txn.package.files[name]
  }

  ghost predicate RecoveringInv(m: Machine, todo: set<Tx>, step: RecoveryStep)
  {
    && todo == m.disk.pending.Keys
    && match step
       case NextEntry => true
       case Removing(tx) => EntryGone(m.disk, tx)
       case Aborting(tx) => EntryGone(m.disk, tx) && tx !in m.disk.staging
       case AcceptingEntry(tx) => EntryRenamed(m.disk, tx)
       case ClearingEntry(tx) => EntryAccepted(m.disk, tx)
  }

  ghost predicate PhaseInv(m: Machine)
  {
    match m.phase
    case Idle => true
    case Recovering(todo, step, _) => RecoveringInv(m, todo, step)
    case Ready => m.disk.pending == map[]
    case Writing(txn, written) => WritingInv(m, txn, written)
    case Preparing(txn) => m.disk.pending == map[] && Fresh(m, txn) && Staged(m, txn)
    case Renaming(txn) =>
      && Fresh(m, txn) && Staged(m, txn)
      && txn.tx in m.disk.pending && m.disk.pending[txn.tx] == PendingFor(txn.package)
    case Cleaning(tx, journaled) => if journaled then EntryGone(m.disk, tx) else m.disk.pending == map[]
    case Withdrawing(tx) => EntryGone(m.disk, tx)
    case Accepting(txn) => EntryRenamed(m.disk, txn.tx)
    case Clearing(txn) => EntryAccepted(m.disk, txn.tx)
  }

  ghost predicate Inv(m: Machine)
  {
    DiskInv(m.disk, m.used) && PhaseInv(m)
  }

  // ---- Preservation ----

  lemma WrittenOutPublisher(p: Package)
    requires Validated(p)
    ensures PublisherOf(WrittenOut(p)) == p.manifest.publisher
  {
  }

  lemma WriteKeepsInv(m: Machine, e: Event)
    requires Inv(m)
    ensures Inv(StepWrite(m, e))
  {
    if m.phase.Writing? && Validated(m.phase.txn.package) {
      var next, txn := StepWrite(m, e), m.phase.txn;
      if e.WriteMeta? && next.phase.Preparing? {
        assert StagedFiles(next.disk, txn.tx) == WrittenOut(txn.package);
      }
    }
  }

  lemma PrepareKeepsInv(m: Machine, ok: bool)
    requires Inv(m) && m.phase.Preparing?
    ensures Inv(StepCommit(m, PrepareDone(ok)))
  {
    var next := StepCommit(m, PrepareDone(ok));
    if next.phase.Renaming? {
      assert Shaped(next.disk, m.phase.txn.tx);
    }
  }

  lemma RenameKeepsInv(m: Machine, ok: bool)
    requires Inv(m) && m.phase.Renaming?
    ensures Inv(StepCommit(m, RenameDone(ok)))
  {
    var next, txn := StepCommit(m, RenameDone(ok)), m.phase.txn;
    if next.phase.Accepting? {
      var place := PlaceOf(txn.package);
      assert Complete(next.disk.installed[place], place);
      assert Matches(next.disk.installed[place], next.disk.pending[txn.tx]);
      assert next.disk.pending[txn.tx].place == place;
      forall other | other in next.disk.installed
        ensures Marked(next.disk, other) || Journaled(next.disk, other)
      {
        assert other != place ==> other in m.disk.installed && (Marked(m.disk, other) || Journaled(m.disk, other));
      }
    }
  }

  lemma CommitKeepsInv(m: Machine, e: Event)
    requires Inv(m)
    ensures Inv(StepCommit(m, e))
  {
    match (m.phase, e)
    case (Preparing(_), PrepareDone(ok)) => PrepareKeepsInv(m, ok);
    case (Renaming(_), RenameDone(ok)) => RenameKeepsInv(m, ok);
    case _ =>
  }

  lemma AcceptMarks(disk: Disk, tx: Tx)
    requires tx in disk.pending && Shaped(disk, tx) && disk.pending[tx].place in disk.installed
    requires Install.Acceptable(disk, disk.pending[tx])
    ensures Marked(AcceptPackage(disk, disk.pending[tx]), disk.pending[tx].place)
    ensures forall place | place in disk.installed && Marked(disk, place) ::
        Marked(AcceptPackage(disk, disk.pending[tx]), place)
  {
    var p := disk.pending[tx];
    var package: Package :| Validated(package) && p == PendingFor(package)
        && disk.installed[p.place] == WrittenOut(package);
    WrittenOutPublisher(package);
  }

  lemma AcceptKeepsDiskInv(disk: Disk, used: set<Tx>, tx: Tx)
    requires DiskInv(disk, used) && EntryRenamed(disk, tx)
    requires Install.Acceptable(disk, disk.pending[tx])
    ensures var next := AcceptPackage(disk, disk.pending[tx]);
            DiskInv(next, used) && EntryAccepted(next, tx)
  {
    var next := AcceptPackage(disk, disk.pending[tx]);
    AcceptMarks(disk, tx);
    forall place | place in next.installed
      ensures Marked(next, place) || Journaled(next, place)
    {
      if Journaled(disk, place) {
        var other :| other in disk.pending && disk.pending[other].place == place;
        assert next.pending[other].place == place;
      }
    }
    assert Shaped(next, tx);
  }

  lemma DeleteKeepsDiskInv(disk: Disk, used: set<Tx>, tx: Tx)
    requires DiskInv(disk, used) && tx in disk.pending
    requires EntryGone(disk, tx) || EntryAccepted(disk, tx)
    ensures DiskInv(DeleteIntent(disk, tx), used)
    ensures DeleteIntent(disk, tx).pending == map[]
  {
    var next := DeleteIntent(disk, tx);
    assert next.pending == map[];
    forall place | place in next.installed
      ensures Marked(next, place)
    {
      if Journaled(disk, place) {
        var other :| other in disk.pending && disk.pending[other].place == place;
        assert other == tx;
      }
    }
  }

  /** Trust, and what lies under staging, may change freely as long as nothing new is staged. */
  lemma FrameDiskInv(disk: Disk, next: Disk, used: set<Tx>)
    requires DiskInv(disk, used)
    requires next == disk.(staging := next.staging, trust := next.trust)
    requires next.staging.Keys <= disk.staging.Keys
    ensures DiskInv(next, used)
  {
    forall place | place in next.installed
      ensures Marked(next, place) || Journaled(next, place)
    {
      if Journaled(disk, place) {
        JournaledFrame(disk, next, place);
      }
    }
    forall tx | tx in next.pending
      ensures Shaped(next, tx)
    {
      assert Shaped(disk, tx);
    }
  }

  lemma JournaledFrame(disk: Disk, next: Disk, place: Place)
    requires Journaled(disk, place) && next.pending == disk.pending
    ensures Journaled(next, place)
  {
    var tx :| tx in disk.pending && disk.pending[tx].place == place;
    assert next.pending[tx].place == place;
  }

  lemma StagingKeepsDiskInv(disk: Disk, used: set<Tx>, staging: map<Tx, Files>)
    requires DiskInv(disk, used)
    requires staging.Keys <= disk.staging.Keys
    ensures DiskInv(disk.(staging := staging), used)
  {
    FrameDiskInv(disk, disk.(staging := staging), used);
  }

  lemma RemovalKeepsInv(m: Machine, e: Event)
    requires Inv(m) && (e.RemovePartly? || e.RemoveDone?)
    ensures Inv(StepShared(m, e))
  {
    var tx := RemovingTx(m.phase);
    if e.RemovePartly? && StepShared(m, e) != m {
      StagingKeepsDiskInv(m.disk, m.used, m.disk.staging[tx.value := e.rest]);
    }
    if e.RemoveDone? && tx.Some? {
      StagingKeepsDiskInv(m.disk, m.used, m.disk.staging - {tx.value});
    }
  }

  lemma DeletionKeepsInv(m: Machine, e: Event)
    requires Inv(m) && (e.AbortDone? || e.ClearDone?)
    ensures Inv(StepShared(m, e))
  {
    match (m.phase, e)
    case (Withdrawing(tx), AbortDone(_)) => DeleteKeepsDiskInv(m.disk, m.used, tx);
    case (Recovering(_, Aborting(tx), _), AbortDone(_)) => DeleteKeepsDiskInv(m.disk, m.used, tx);
    case (Clearing(txn), ClearDone(_)) => DeleteKeepsDiskInv(m.disk, m.used, txn.tx);
    case (Recovering(_, ClearingEntry(tx), _), ClearDone(_)) => DeleteKeepsDiskInv(m.disk, m.used, tx);
    case _ =>
  }

  lemma AcceptanceKeepsInv(m: Machine, ok: bool)
    requires Inv(m)
    ensures Inv(StepShared(m, AcceptDone(ok)))
  {
    match m.phase
    case Accepting(txn) =>
      if Install.Acceptable(m.disk, m.disk.pending[txn.tx]) {
        AcceptKeepsDiskInv(m.disk, m.used, txn.tx);
      }
    case Recovering(_, AcceptingEntry(tx), _) =>
      if Install.Acceptable(m.disk, m.disk.pending[tx]) {
        AcceptKeepsDiskInv(m.disk, m.used, tx);
      }
    case _ =>
  }

  lemma SharedKeepsInv(m: Machine, e: Event)
    requires Inv(m)
    ensures Inv(StepShared(m, e))
  {
    match e
    case RemovePartly(_) => RemovalKeepsInv(m, e);
    case RemoveDone(_) => RemovalKeepsInv(m, e);
    case AbortDone(_) => DeletionKeepsInv(m, e);
    case ClearDone(_) => DeletionKeepsInv(m, e);
    case AcceptDone(ok) => AcceptanceKeepsInv(m, ok);
    case _ =>
  }

  lemma TrustKeepsPhase(m: Machine, trust: map<string, Binding>)
    requires PhaseInv(m)
    ensures PhaseInv(m.(disk := m.disk.(trust := trust)))
  {
  }

  lemma TrustKeepsInv(m: Machine, trust: map<string, Binding>)
    requires Inv(m)
    ensures Inv(m.(disk := m.disk.(trust := trust)))
  {
    FrameDiskInv(m.disk, m.disk.(trust := trust), m.used);
    TrustKeepsPhase(m, trust);
  }

  lemma StepKeepsInv(m: Machine, e: Event)
    requires Inv(m)
    ensures Inv(Step(m, e))
  {
    WriteKeepsInv(m, e);
    CommitKeepsInv(m, e);
    SharedKeepsInv(m, e);
    if e.TrustChanges? {
      TrustKeepsInv(m, e.trust);
    }
  }

  lemma {:induction false} PlayInv(trust: map<string, Binding>, events: seq<Event>)
    ensures Inv(Play(trust, events))
  {
    if events != [] {
      PlayInv(trust, events[..|events| - 1]);
      StepKeepsInv(Play(trust, events[..|events| - 1]), events[|events| - 1]);
    }
  }
}
