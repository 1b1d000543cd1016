/** Runs that end in what nothing repairs: a blocked recovery, a leaked directory, a plugin stuck at a version. */
module InstallExample {
  import opened Prelude
  import opened Distribution
  import opened Install
  import opened InstallRun
  import opened InstallSafety
  import opened InstallLeaks
  import opened InstallProgress

  /** Events of installing a three-file package, up to a crash right after the rename. */
  function InstallAndCrash(txn: Txn, names: seq<Path>): seq<Event>
    requires |names| == 3
  {
    [StartProcess, FinishRecovery, BeginInstall(txn),
     WriteFile(names[0], true), WriteFile(names[1], true), WriteFile(names[2], true),
     WriteMeta(true), PrepareDone(true), RenameDone(true), Crash]
  }

  predicate Names(p: Package, names: seq<Path>)
  {
    && |names| == 3
    && p.files.Keys == {names[0], names[1], names[2]}
    && names[0] != names[1] && names[0] != names[2] && names[1] != names[2]
  }

  lemma ThreeWritten(m: Machine, txn: Txn, names: seq<Path>)
    requires m.phase == Writing(txn, {}) && Validated(txn.package) && Names(txn.package, names)
    ensures var two := Step(Step(m, WriteFile(names[0], true)), WriteFile(names[1], true));
            var end := Step(two, WriteFile(names[2], true));
            && end.phase == Writing(txn, txn.package.files.Keys)
            && end.disk == m.disk.(staging := end.disk.staging)
            && txn.tx in end.disk.staging
  {
    WriteStep(m, txn, {}, names[0]);
    var one := Step(m, WriteFile(names[0], true));
    WriteStep(one, txn, {} + {names[0]}, names[1]);
    var two := Step(one, WriteFile(names[1], true));
    WriteStep(two, txn, {names[0]} + {names[1]}, names[2]);
    assert {names[0]} + {names[1]} + {names[2]} == txn.package.files.Keys;
  }

  lemma CommitAndCrash(m: Machine, txn: Txn)
    requires m.phase == Writing(txn, txn.package.files.Keys) && Validated(txn.package)
    requires txn.tx in m.disk.staging && m.disk.pending == map[]
    requires Install.Acceptable(m.disk, PendingFor(txn.package))
    requires INSTALL_JSON in txn.package.files
    ensures Blocked(Step(Step(Step(Step(m, WriteMeta(true)), PrepareDone(true)), RenameDone(true)), Crash), txn.tx)
  {
    var prepared := Step(m, WriteMeta(true));
    assert prepared.phase == Preparing(txn) && txn.tx in prepared.disk.staging;
    var renaming := Step(prepared, PrepareDone(true));
    assert renaming.phase == Renaming(txn) && txn.tx in renaming.disk.staging;
  }

  function Unsigned(): Files
  {
    map[MANIFEST := ManifestJson(Manifest("plugin", "publisher", Some(1.0), None, [])), INSTALL_JSON := Data([])]
  }

  function Sample(): Package
  {
    Package(Manifest("plugin", "publisher", Some(1.0), None, []),
            Unsigned()[SIGNATURE := Envelope(Unsigned(), map["key" := true])])
  }

  function SampleTrust(): map<string, Binding>
  {
    map["publisher" := Binding(false, {"key"}, {})]
  }

  lemma SampleFacts()
    ensures Validated(Sample()) && Names(Sample(), [MANIFEST, INSTALL_JSON, SIGNATURE])
    ensures SignatureOk(SampleTrust(), "publisher", Sample().files)
  {
    assert MANIFEST[0] == 'm' && INSTALL_JSON[0] == 'i' && SIGNATURE[0] == 's';
    var files := Sample().files;
    assert Signable(files) == files[SIGNATURE].payload;
    assert "key" in files[SIGNATURE].signatures;
  }

  /**
   The blocked state is reachable: install a signed package that holds an `install.json`, and crash
   between the rename and the acceptance.
   */
  lemma BlockedIsReachable()
    ensures var txn := Txn("1", Sample(), false);
            Blocked(Play(SampleTrust(), InstallAndCrash(txn, [MANIFEST, INSTALL_JSON, SIGNATURE])), "1")
  {
    SampleFacts();
    InstallAndCrashBlocks(SampleTrust(), Txn("1", Sample(), false), [MANIFEST, INSTALL_JSON, SIGNATURE]);
  }

  lemma PlayStep(trust: map<string, Binding>, events: seq<Event>, i: nat)
    requires i < |events|
    ensures Play(trust, events[..i + 1]) == Step(Play(trust, events[..i]), events[i])
  {
    assert events[..i + 1][..i] == events[..i];
  }

  /** From an empty host, any such package that verifies ends up blocked. */
  lemma InstallAndCrashBlocks(trust: map<string, Binding>, txn: Txn, names: seq<Path>)
    requires Validated(txn.package) && Names(txn.package, names) && INSTALL_JSON in txn.package.files
    requires SignatureOk(trust, txn.package.manifest.publisher, txn.package.files)
    ensures Blocked(Play(trust, InstallAndCrash(txn, names)), txn.tx)
  {
    var events := InstallAndCrash(txn, names);
    var s0 := Start(trust);
    assert s0.disk.pending.Keys == {};
    var s2 := Step(Step(s0, StartProcess), FinishRecovery);
    assert s2 == s0.(phase := Ready);
    var s3 := Step(s2, BeginInstall(txn));
    assert s3.phase == Writing(txn, {});
    ThreeWritten(s3, txn, names);
    var s6 := Step(Step(Step(s3, events[3]), events[4]), events[5]);
    CommitAndCrash(s6, txn);
    PlayStep(trust, events, 0);
    PlayStep(trust, events, 1);
    PlayStep(trust, events, 2);
    PlayStep(trust, events, 3);
    PlayStep(trust, events, 4);
    PlayStep(trust, events, 5);
    PlayStep(trust, events, 6);
    PlayStep(trust, events, 7);
    PlayStep(trust, events, 8);
    PlayStep(trust, events, 9);
    assert events[..0] == [] && events[..10] == events;
  }

  // ---- Runs that leak or get stuck ----

  function FirstFileAndCrash(txn: Txn, name: Path): seq<Event>
  {
    [StartProcess, FinishRecovery, BeginInstall(txn), WriteFile(name, true), Crash]
  }

  lemma FirstFilePlay(trust: map<string, Binding>, txn: Txn, name: Path)
    requires Validated(txn.package) && name in txn.package.files
    requires SignatureOk(trust, txn.package.manifest.publisher, txn.package.files)
    ensures var m := Play(trust, FirstFileAndCrash(txn, name));
      m.phase.Idle? && txn.tx in m.disk.staging && m.disk.pending == map[]
  {
    var events := FirstFileAndCrash(txn, name);
    var s0 := Start(trust);
    assert s0.disk.pending.Keys == {};
    var s2 := Step(Step(s0, StartProcess), FinishRecovery);
    assert s2 == s0.(phase := Ready);
    var s3 := Step(s2, BeginInstall(txn));
    assert s3.phase == Writing(txn, {}) && s3.disk == s0.disk;
    WriteStep(s3, txn, {}, name);
    PlayStep(trust, events, 0);
    PlayStep(trust, events, 1);
    PlayStep(trust, events, 2);
    PlayStep(trust, events, 3);
    PlayStep(trust, events, 4);
    assert events[..0] == [] && events[..5] == events;
  }

  /** A crash after the first file of any install leaves a directory that stays for good. */
  lemma CrashWhileWritingLeaks(trust: map<string, Binding>, txn: Txn, name: Path)
    requires Validated(txn.package) && name in txn.package.files
    requires SignatureOk(trust, txn.package.manifest.publisher, txn.package.files)
    ensures KeptForever(Play(trust, FirstFileAndCrash(txn, name)), txn.tx)
  {
    FirstFilePlay(trust, txn, name);
    PlayInv(trust, FirstFileAndCrash(txn, name));
    LeftForeverIffUnjournaled(Play(trust, FirstFileAndCrash(txn, name)), txn.tx);
  }

  function InstallFully(txn: Txn, names: seq<Path>): seq<Event>
    requires |names| == 3
  {
    [StartProcess, FinishRecovery, BeginInstall(txn),
     WriteFile(names[0], true), WriteFile(names[1], true), WriteFile(names[2], true),
     WriteMeta(true), PrepareDone(true), RenameDone(true), AcceptDone(true), ClearDone(true)]
  }

  lemma CompletedSticks(before: Disk, m: Machine, txn: Txn)
    requires Written(before, m, txn, txn.package.files.Keys) && Validated(txn.package)
    requires before.installed == map[] && before.accepted == map[]
    requires Trusted(before.trust, txn.package.manifest.publisher)
    requires INSTALL_JSON in txn.package.files
    ensures var end := Continue(m, CommitEvents());
      end.phase.Idle? && end.disk.pending == map[] && Stuck(end, PlaceOf(txn.package))
  {
    CommitFully(before, m, txn);
    StuckIffHeldMetadata(Continue(m, CommitEvents()), PlaceOf(txn.package), txn.package);
  }

  /** From an empty host, a complete, undisturbed install of such a package leaves its plugin stuck. */
  lemma InstallFullySticks(trust: map<string, Binding>, txn: Txn, names: seq<Path>)
    requires Validated(txn.package) && Names(txn.package, names) && INSTALL_JSON in txn.package.files
    requires SignatureOk(trust, txn.package.manifest.publisher, txn.package.files)
    ensures var m := Play(trust, InstallFully(txn, names));
      m.phase.Idle? && m.disk.pending == map[] && Stuck(m, PlaceOf(txn.package))
  {
    var events := InstallFully(txn, names);
    var s0 := Start(trust);
    assert s0.disk.pending.Keys == {};
    var s2 := Step(Step(s0, StartProcess), FinishRecovery);
    assert s2 == s0.(phase := Ready);
    var s3 := Step(s2, BeginInstall(txn));
    assert s3.phase == Writing(txn, {});
    ThreeWritten(s3, txn, names);
    PlayStep(trust, events, 0);
    PlayStep(trust, events, 1);
    PlayStep(trust, events, 2);
    PlayStep(trust, events, 3);
    PlayStep(trust, events, 4);
    PlayStep(trust, events, 5);
    assert events[..0] == [];
    var s6 := Play(trust, events[..6]);
    assert s6 == Step(Step(Step(s3, events[3]), events[4]), events[5]);
    PlayInv(trust, events[..6]);
    assert Written(s0.disk, s6, txn, txn.package.files.Keys);
    CompletedSticks(s0.disk, s6, txn);
    PlayContinue(trust, events[..6], CommitEvents());
    assert events[..6] + CommitEvents() == events;
  }

  lemma {:induction false} PlayContinue(trust: map<string, Binding>, events: seq<Event>, more: seq<Event>)
    ensures Play(trust, events + more) == Continue(Play(trust, events), more)
  {
    if more == [] {
      assert events + more == events;
    } else {
      var n := |more| - 1;
      PlayContinue(trust, events, more[..n]);
      assert (events + more)[..|events| + n] == events + more[..n];
    }
  }
}
