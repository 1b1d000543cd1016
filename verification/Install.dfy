/**
 Packages, installed directories and the trust journal: the vocabulary of trusted installs
 (crates/floatile-cli/src/install.rs, crates/floatile-store/src/trust.rs,
 crates/floatile-store/src/installation.rs) and the recovery pass over it.

 Hashes and signatures are symbolic: a digest is represented by the file map it was computed from.
 `Encoding.PreimageInjective` shows that nothing but a hash collision is abstracted away.
 */
module Install {
  import opened Prelude
  import opened Distribution

  type Path = string
  type Tx = string
  type KeyId = string
  type Files = map<Path, Content>

  /** A file: arbitrary bytes, or bytes that parse as one of the three JSON documents the host reads. */
  datatype Content =
    | Data(bytes: seq<int>)
    | ManifestJson(manifest: Manifest)
    | Envelope(payload: Files, signatures: map<KeyId, bool>)
    | InstallJson(meta: Meta)

  /** The per-file digests and the aggregate digest recorded in `install.json`. */
  datatype Meta = Meta(id: string, version: Version, files: Files, digest: Files)

  const MANIFEST: Path := "manifest.json"
  const SIGNATURE: Path := "signature.json"
  const INSTALL_JSON: Path := "install.json"

  /** The directory `<store>/<id>/<version>`. */
  datatype Place = Place(plugin: string, version: Version)

  datatype Package = Package(manifest: Manifest, files: Files)

  /** What package validation guarantees. It does not reserve the name `install.json`. */
  predicate Validated(p: Package)
  {
    p.manifest.version.Some? && MANIFEST in p.files && p.files[MANIFEST] == ManifestJson(p.manifest)
  }

  function PlaceOf(p: Package): Place
    requires Validated(p)
  {
    Place(p.manifest.id, p.manifest.version.value)
  }

  function MetaOf(p: Package): Meta
    requires Validated(p)
  {
    Meta(p.manifest.id, p.manifest.version.value, p.files, p.files)
  }

  /** The directory `write_staging` leaves behind when every write succeeded. */
  function WrittenOut(p: Package): Files
    requires Validated(p)
  {
    p.files[INSTALL_JSON := InstallJson(MetaOf(p))]
  }

  /** A directory that holds the complete file set of some validated package, for its own place. */
  ghost predicate Complete(dir: Files, place: Place)
  {
    exists p: Package :: Validated(p) && PlaceOf(p) == place && dir == WrittenOut(p)
  }

  // ---- Reading an installed directory back ----

  datatype Installation = Installation(manifest: Manifest, files: Files)

  /** `load_from_dir`: re-reads every listed file and checks each digest and the aggregate. */
  function LoadFromDir(dir: Files): Option<Installation>
  {
    if !(INSTALL_JSON in dir && dir[INSTALL_JSON].InstallJson?) then None
    else
      var meta := dir[INSTALL_JSON].meta;
      if !(forall name | name in meta.files :: name in dir && dir[name] == meta.files[name]) then None
      else if meta.digest != meta.files then None
      else if !(MANIFEST in meta.files && meta.files[MANIFEST].ManifestJson?) then None
      else
        var manifest := meta.files[MANIFEST].manifest;
        if manifest.version != Some(meta.version) || manifest.id != meta.id then None
        else Some(Installation(manifest, meta.files))
  }

  /**
   A written-out package can be loaded back, with exactly its own files, if and only if it did not
   itself contain an `install.json`: the metadata overwrites that entry, and no file can hold the digest
   of the document that lists it.
   */
  lemma LoadWrittenOut(p: Package)
    requires Validated(p)
    ensures LoadFromDir(WrittenOut(p)).Some? <==> INSTALL_JSON !in p.files
    ensures INSTALL_JSON !in p.files ==> LoadFromDir(WrittenOut(p)) == Some(Installation(p.manifest, p.files))
  {
    var dir, meta := WrittenOut(p), MetaOf(p);
    assert MANIFEST != INSTALL_JSON by {
      assert MANIFEST[0] != INSTALL_JSON[0];
    }
    if INSTALL_JSON in p.files {
      assert meta.files[INSTALL_JSON] != InstallJson(meta);
    } else {
      assert forall name | name in meta.files :: name in dir && dir[name] == meta.files[name];
    }
  }

  /** The metadata and every listed file of the package are there, whatever else is. */
  predicate HoldsPackage(dir: Files, p: Package)
    requires Validated(p)
  {
    && INSTALL_JSON in dir && dir[INSTALL_JSON] == InstallJson(MetaOf(p))
    && forall name | name in p.files :: name in dir && dir[name] == p.files[name]
  }

  /** A directory loads exactly when it holds, unchanged, every file of a validated package under its metadata. */
  lemma LoadIff(dir: Files, i: Installation)
    ensures LoadFromDir(dir) == Some(i) <==>
            exists p: Package :: Validated(p) && HoldsPackage(dir, p) && i == Installation(p.manifest, p.files)
  {
    if LoadFromDir(dir) == Some(i) {
      var p := Package(i.manifest, i.files);
      assert Validated(p) && HoldsPackage(dir, p);
    }
  }

  // ---- The host's durable state ----

  datatype Binding = Binding(revoked: bool, keys: set<KeyId>, revokedKeys: set<KeyId>)

  /** A journal entry. */
  datatype Pending = Pending(publisher: string, place: Place, signedDigest: Files, installDigest: Files)

  /** The highest accepted version of a plugin from a publisher. */
  datatype Accepted = Accepted(version: Version, digest: Files)

  datatype Owner = Owner(publisher: string, plugin: string)

  datatype Disk = Disk(
    staging: map<Tx, Files>,
    installed: map<Place, Files>,
    pending: map<Tx, Pending>,
    accepted: map<Owner, Accepted>,
    trust: map<string, Binding>)

  function Signable(files: Files): Files
  {
    files - {SIGNATURE}
  }

  function PendingFor(p: Package): Pending
    requires Validated(p)
  {
    Pending(p.manifest.publisher, PlaceOf(p), Signable(p.files), p.files)
  }

  /** The outcome of `verify_signature_envelope` under the publisher's current trust record. */
  predicate SignatureOk(trust: map<string, Binding>, publisher: string, files: Files)
  {
    && publisher in trust
    && !trust[publisher].revoked
    && SIGNATURE in files
    && files[SIGNATURE].Envelope?
    && files[SIGNATURE].payload == Signable(files)
    && files[SIGNATURE].signatures.Keys !! trust[publisher].revokedKeys
    && exists k | k in files[SIGNATURE].signatures :: k in trust[publisher].keys && files[SIGNATURE].signatures[k]
  }

  function OwnerOf(p: Pending): Owner
  {
    Owner(p.publisher, p.place.plugin)
  }

  /** Not below the high-water mark, and not a different package under its version. */
  predicate AboveMark(accepted: map<Owner, Accepted>, p: Pending)
  {
    OwnerOf(p) in accepted ==>
      var mark := accepted[OwnerOf(p)];
      mark.version < p.place.version || (mark.version == p.place.version && mark.digest == p.signedDigest)
  }

  /** The policy shared by `check_candidate` and `accept_package`. */
  predicate Acceptable(disk: Disk, p: Pending)
  {
    p.publisher in disk.trust && !disk.trust[p.publisher].revoked && AboveMark(disk.accepted, p)
  }

  // ---- Durable primitives ----

  function RemoveStaging(disk: Disk, tx: Tx): Disk
  {
    disk.(staging := disk.staging - {tx})
  }

  function DeleteIntent(disk: Disk, tx: Tx): Disk
  {
    disk.(pending := disk.pending - {tx})
  }

  /** `accept_package` raises the mark, or leaves it when this very package is already accepted. */
  function AcceptPackage(disk: Disk, p: Pending): Disk
    requires Acceptable(disk, p)
  {
    disk.(accepted := disk.accepted[OwnerOf(p) := Accepted(p.place.version, p.signedDigest)])
  }

  function Rename(disk: Disk, tx: Tx, place: Place): Disk
    requires tx in disk.staging
  {
    disk.(staging := disk.staging - {tx}, installed := disk.installed[place := disk.staging[tx]])
  }

  // ---- Recovery ----

  /** The final directory of a journal entry loads, matches both journaled digests and is signed. */
  predicate Confirms(disk: Disk, p: Pending)
    requires p.place in disk.installed
  {
    var loaded := LoadFromDir(disk.installed[p.place]);
    && loaded.Some?
    && loaded.value.files == p.installDigest
    && Signable(loaded.value.files) == p.signedDigest
    && p.publisher == loaded.value.manifest.publisher
    && SignatureOk(disk.trust, p.publisher, loaded.value.files)
  }

  /**
   Of any directory, tampered with or not: it confirms exactly when it holds unchanged a package with the journaled
   publisher and both journaled digests that verifies under the publisher's current trust.
   */
  lemma ConfirmsIff(disk: Disk, p: Pending)
    requires p.place in disk.installed
    ensures Confirms(disk, p) <==>
            exists held: Package ::
              && Validated(held) && HoldsPackage(disk.installed[p.place], held)
              && held.manifest.publisher == p.publisher && held.files == p.installDigest
              && held.files - {SIGNATURE} == p.signedDigest && SignatureOk(disk.trust, p.publisher, held.files)
  {
    var dir := disk.installed[p.place];
    if Confirms(disk, p) {
      LoadIff(dir, LoadFromDir(dir).value);
    }
    if held: Package :|
         && Validated(held) && HoldsPackage(dir, held)
         && held.manifest.publisher == p.publisher && held.files == p.installDigest
         && held.files - {SIGNATURE} == p.signedDigest && SignatureOk(disk.trust, p.publisher, held.files) {
      LoadIff(dir, Installation(held.manifest, held.files));
    }
  }

  datatype Report = Report(finalized: nat, aborted: nat)

  datatype RecoveryError = StagingAndFinal | NotConfirmed | PolicyRefused

  /** What recovery does to one journal entry. */
  function RecoverEntry(disk: Disk, tx: Tx): (r: (Disk, Result<Report, RecoveryError>))
    requires tx in disk.pending
  {
    var p := disk.pending[tx];
    match (tx in disk.staging, p.place in disk.installed)
    case (true, true) => (disk, Err(StagingAndFinal))
    case (true, false) => (DeleteIntent(RemoveStaging(disk, tx), tx), Ok(Report(0, 1)))
    case (false, false) => (DeleteIntent(disk, tx), Ok(Report(0, 1)))
    case (false, true) =>
      if !Confirms(disk, p) then (disk, Err(NotConfirmed))
      else if !Acceptable(disk, p) then (disk, Err(PolicyRefused))
      else (DeleteIntent(AcceptPackage(disk, p), tx), Ok(Report(1, 0)))
  }

  /** Recovery over a listing of journal entries, stopping at the first that cannot be reconciled. */
  function Recover(disk: Disk, listing: seq<Tx>, report: Report): (Disk, Result<Report, RecoveryError>)
    decreases |listing|
  {
    if listing == [] then (disk, Ok(report))
    else if listing[0] !in disk.pending then Recover(disk, listing[1..], report)
    else
      var (next, outcome) := RecoverEntry(disk, listing[0]);
      if outcome.Err? then (next, Err(outcome.error))
      else
        Recover(next, listing[1..],
                Report(report.finalized + outcome.value.finalized, report.aborted + outcome.value.aborted))
  }

  class Host {
    var staging: map<Tx, Files>
    var installed: map<Place, Files>
    var pending: map<Tx, Pending>
    var accepted: map<Owner, Accepted>
    var trust: map<string, Binding>

    constructor (disk: Disk)
      ensures View() == disk
    {
      staging, installed, pending := disk.staging, disk.installed, disk.pending;
      accepted, trust := disk.accepted, disk.trust;
    }

    function View(): Disk
      reads this
    {
      Disk(staging, installed, pending, accepted, trust)
    }

    /** `recover_trusted_installs`, with every file and database operation succeeding. */
    method RecoverTrustedInstalls(listing: seq<Tx>) returns (r: Result<Report, RecoveryError>)
      requires forall tx | tx in listing :: tx in pending
      requires forall i, j | 0 <= i < j < |listing| :: listing[i] != listing[j]
      modifies this
      ensures (View(), r) == Recover(old(View()), listing, Report(0, 0))
    {
      var finalized, aborted := 0, 0;
      for i := 0 to |listing|
        invariant Recover(old(View()), listing, Report(0, 0))
            == Recover(View(), listing[i..], Report(finalized, aborted))
        invariant forall j | i <= j < |listing| :: listing[j] in pending
      {
        var tx := listing[i];
        var p := pending[tx];
        assert listing[i..][0] == tx && listing[i..][1..] == listing[i + 1..];
        if tx in staging && p.place in installed {
          return Err(StagingAndFinal);
        } else if tx in staging {
          staging := staging - {tx};
          pending := pending - {tx};
          aborted := aborted + 1;
        } else if p.place !in installed {
          pending := pending - {tx};
          aborted := aborted + 1;
        } else {
          if !Confirms(View(), p) {
            return Err(NotConfirmed);
          }
          if !Acceptable(View(), p) {
            return Err(PolicyRefused);
          }
          accepted := accepted[OwnerOf(p) := Accepted(p.place.version, p.signedDigest)];
          pending := pending - {tx};
          finalized := finalized + 1;
        }
      }
      assert listing[|listing|..] == [];
      return Ok(Report(finalized, aborted));
    }
  }
}
