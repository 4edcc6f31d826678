/** A smallest target and bundle, on which the counterexamples to the documented promises happen. */
module Witness {
  import opened Wrappers
  import opened DigestCodec
  import opened Documents
  import opened BootBundle
  import opened TargetDisk
  import opened Operations
  import opened CrashInvariant
  import opened ActivationProof
  import opened ApplyProof
  import opened CrashSafety
  import opened CrashTheorems
  import opened Preparation
  import opened Superseded

  const FIRST: Digest :=
    [1, 0, 0, 0, 0, 0, 0, 0, 0, 0, 0, 0, 0, 0, 0, 0, 0, 0, 0, 0, 0, 0, 0, 0, 0, 0, 0, 0, 0, 0, 0, 0]
  const OTHER: Digest :=
    [2, 0, 0, 0, 0, 0, 0, 0, 0, 0, 0, 0, 0, 0, 0, 0, 0, 0, 0, 0, 0, 0, 0, 0, 0, 0, 0, 0, 0, 0, 0, 0]

  function Sha(bytes: Bytes): Digest {
    if bytes == [] then FIRST else OTHER
  }

  /** The empty image is the first generation; any other image follows it. */
  function ParentOf(image: Bytes): Option<Option<Digest>> {
    if image == [] then Some(None) else Some(Some(FIRST))
  }

  function BaseManifest(): Manifest {
    var text := Encode(OTHER);
    RawManifest(BOOT_BUNDLE_SCHEMA, [text, text, text, text], [None, None, None, None, None, None, None, None])
  }

  function SmallEnv(): Env {
    Env(Sha, plan => "", bytes => Some(BaseManifest()), bytes => false, ParentOf)
  }

  /** The four base artifacts, each only its header, and a manifest. */
  function SmallBundle(): map<string, Bytes> {
    map["arach" := ELF_MAGIC, "push" := ELF_MAGIC, "crest" := ELF_MAGIC, "granite.efi" := PE_MAGIC,
      MANIFEST_NAME := [0]]
  }

  function RequestFor(id: string, image: Bytes): Request {
    Request(TRANSACTION_SCHEMA, id, "", image, SmallBundle(), None)
  }

  lemma SmallBundleReads()
    ensures ReadBootBundle(SmallEnv(), SmallBundle()).Ok?
  {
    EncodeIsValid(OTHER);
    var env, root := SmallEnv(), SmallBundle();
    assert ArtifactReadable(env, root, BASE_ARTIFACTS[0], Encode(OTHER));
    assert ArtifactReadable(env, root, BASE_ARTIFACTS[1], Encode(OTHER));
    assert ArtifactReadable(env, root, BASE_ARTIFACTS[2], Encode(OTHER));
    assert ArtifactReadable(env, root, BASE_ARTIFACTS[3], Encode(OTHER));
  }

  const FIRST_ID := "00000000000000000000000000000001"
  const SECOND_ID := "00000000000000000000000000000002"

  /** What `prepare` leaves on an empty medium. */
  function PreparedRuntime(id: string, image: Bytes): Option<Runtime> {
    RuntimeOf(Preparation.Prepare(SmallEnv(), Media(None, None, None, None), RequestFor(id, image)).0)
  }

  function SmallBundleRead(): Bundle {
    match ReadBootBundle(SmallEnv(), SmallBundle())
    case Ok(bundle) => bundle
    case Err(_) => Bundle([], [], [])
  }

  /** Files that an apply may replace. */
  ghost predicate SmallBoot(boot: map<string, Node>) {
    forall i | 0 <= i < 13 ::
      var node := At(boot, DESTINATIONS[i]);
      node.Absent? || (node.Regular? && |node.bytes| <= MAX_BOOT_ARTIFACT_BYTES)
  }

  lemma {:induction false} SmallPrepareSucceeds(id: string, image: Bytes)
    requires ValidTransactionId(id)
    ensures var request := RequestFor(id, image);
      && Preparation.Prepare(SmallEnv(), Media(None, None, None, None), request).1.Ok?
      && Checked(SmallEnv(), request) == Some(SmallBundleRead())
      && PreparedRuntime(id, image).Some?
      && PreparedRuntime(id, image).value.plan.id == id
      && PreparedRuntime(id, image).value.plan.hardwareSha.None?
      && PreparedRuntime(id, image).value.generation == image
  {
    hide ReadBootBundle, SmallBundle, Sha;
    SmallBundleReads();
    CreateCases(SmallEnv(), Media(None, None, None, None), RequestFor(id, image), SmallBundleRead());
  }

  /** Prepared for the active generation's successor, the small bundle installs. */
  lemma {:induction false} SmallApplySucceeds(d: Disk, id: string, image: Bytes)
    requires ValidTransactionId(id) && d.runtime == PreparedRuntime(id, image) && id !in d.checkpoints
    requires SaneStore(d.store) && ParentOf(image) == Some(d.store.active) && SmallBoot(d.boot)
    ensures Succeeds(SmallEnv(), "/mnt", d, SmallBundle(), None)
    ensures ApplyChecks(SmallEnv(), d, SmallBundle()) == Ok(SmallBundleRead())
    ensures d.runtime.Some? && d.runtime.value.plan.id == id && d.runtime.value.generation == image
  {
    hide ReadBootBundle, SmallBundle, ApplyChecks, ApplyRun, FilesOf, Preparation.Prepare, Checked, Start, Installable;
    var env := SmallEnv();
    SmallPrepareSucceeds(id, image);
    InstallableHere(d, image);
    PreparedIsReady(env, Media(None, None, None, None), RequestFor(id, image), d);
    ApplySucceedsExactlyWhen(env, "/mnt", d, SmallBundle(), None);
    var s := SceneOf(env, "/mnt", d, SmallBundleRead());
    FilesOfDestinations(SmallBundleRead());
    forall i | 0 <= i < |s.files|
      ensures Replaceable(s, i)
    {
      assert s.files[i].destination == DESTINATIONS[i];
    }
  }

  lemma InstallableHere(d: Disk, image: Bytes)
    requires SaneStore(d.store) && (d.runtime.Some? ==> d.runtime.value.generation == image)
    ensures Installable(SmallEnv(), d)
  {
    assert FIRST[0] != NO_GENERATION[0] && OTHER[0] != NO_GENERATION[0];
  }

  /** An empty target with the first installation prepared. */
  function EmptyTarget(): Disk {
    Disk(map[], Store(false, None, map[]), map[], PreparedRuntime(FIRST_ID, []))
  }

  lemma {:induction false} EmptyTargetSucceeds()
    ensures Succeeds(SmallEnv(), "/mnt", EmptyTarget(), SmallBundle(), None)
    ensures ApplyChecks(SmallEnv(), EmptyTarget(), SmallBundle()) == Ok(SmallBundleRead())
    ensures EmptyTarget().runtime.Some? && EmptyTarget().runtime.value.plan.id == FIRST_ID
    ensures EmptyTarget().runtime.value.generation == []
  {
    hide SmallBundle, SmallBundleRead, PreparedRuntime;
    SmallApplySucceeds(EmptyTarget(), FIRST_ID, []);
  }

  lemma SmallBundleFirstFile()
    ensures |FilesOf(SmallBundleRead())| > 0 && FilesOf(SmallBundleRead())[0] == BootFile(DESTINATIONS[0], PE_MAGIC)
  {
    SmallBundleReads();
  }

  /**
   * On the empty target: crash right after the boot loader is renamed into place and roll
   * back completely. The installation is recorded as rolled back, and the boot loader stays.
   */
  lemma {:induction false} BootLoaderSurvivesRollback()
    ensures var env, d0 := SmallEnv(), EmptyTarget();
      && d0.runtime.Some?
      && var crash := CrashAtRename(env, "/mnt", d0, SmallBundle(), None, 0);
         var undo := Complete(env, "/mnt", After(env, "/mnt", d0, [crash]), Op.Rollback(FromCheckpoint(FIRST_ID)));
         var after := After(env, "/mnt", d0, [crash, undo]);
         && FIRST_ID in after.checkpoints && after.checkpoints[FIRST_ID].journal.status == RolledBack
         && At(after.boot, "boot/EFI/BOOT/BOOTX64.EFI") == Regular(PE_MAGIC)
         && At(d0.boot, "boot/EFI/BOOT/BOOTX64.EFI") == Absent
  {
    hide SmallBundle, SmallBundleRead, PreparedRuntime, ApplyRun, ApplyChecks, FilesOf, CrashAtRename, After, Complete;
    EmptyTargetSucceeds();
    SmallBundleFirstFile();
    InFlightFileSurvivesRollback(SmallEnv(), "/mnt", EmptyTarget(), SmallBundle(), None, 0);
  }

  /** After the first installation is verified, a second one of another generation can follow. */
  function SecondPrepared(): Option<Runtime> {
    PreparedRuntime(SECOND_ID, [1])
  }

  lemma {:induction false} SecondSucceeds()
    ensures SecondPrepared().Some? && SecondPrepared().value.plan.id == SECOND_ID
    ensures SecondPrepared().value.generation == [1]
    ensures Stacked(SmallEnv(), "/mnt", EmptyTarget(), SmallBundle(), None, SecondPrepared().value, SmallBundle(), None)
  {
    hide SmallBundle, SmallBundleRead, PreparedRuntime, ApplyRun, ApplyChecks, FilesOf, Core, Setting, Standing,
      Superseded.Installed,
      Succeeds;
    EmptyTargetSucceeds();
    SmallPrepareSucceeds(SECOND_ID, [1]);
    var env, d0 := SmallEnv(), EmptyTarget();
    InstalledIsVerified(env, "/mnt", d0, SmallBundle(), None);
    var s := SceneOf(env, "/mnt", d0, SmallBundleRead());
    var between := Superseded.Installed(env, "/mnt", d0, SmallBundle(), None).(runtime := SecondPrepared());
    FirstStandsSmall(s, between.(runtime := Superseded.Installed(env, "/mnt", d0, SmallBundle(), None).runtime));
    SmallApplySucceeds(between, SECOND_ID, [1]);
  }

  /** What the first installation leaves for the second. */
  lemma {:induction false} FirstStandsSmall(s: Scene, d: Disk)
    requires s.files == FilesOf(SmallBundleRead()) && s.pre == EmptyTarget() && s.digest == FIRST
    requires s.plan.id == FIRST_ID
    requires Standing(SmallEnv(), s, d)
    ensures SaneStore(d.store) && d.store.active == Some(FIRST) && SmallBoot(d.boot) && SECOND_ID !in d.checkpoints
  {
    hide CheckpointHolds, BootHolds, RuntimeHolds, RecordWith, SavedBelow, PreparedRuntime, FilesOf, SmallBundleRead;
    assert FIRST[0] != NO_GENERATION[0];
    SmallFiles();
    forall i | 0 <= i < 13
      ensures var node := At(d.boot, DESTINATIONS[i]);
        node.Absent? || (node.Regular? && |node.bytes| <= MAX_BOOT_ARTIFACT_BYTES)
    {
      if IsDestination(s, DESTINATIONS[i]) {
        var j :| 0 <= j < |s.files| && s.files[j].destination == DESTINATIONS[i];
        assert At(d.boot, s.files[j].destination) == Regular(s.files[j].bytes);
      } else {
        assert At(d.boot, DESTINATIONS[i]) == At(s.pre.boot, DESTINATIONS[i]);
      }
    }
    assert FIRST_ID[31] != SECOND_ID[31];
  }

  lemma SmallFiles()
    ensures forall j | 0 <= j < |FilesOf(SmallBundleRead())| ::
      |FilesOf(SmallBundleRead())[j].bytes| <= MAX_BOOT_ARTIFACT_BYTES
  {
    SmallBundleReads();
  }

  /**
   * On the empty target: crash inside the first write of the boot record. Whatever runs
   * later, the new generation stays active without any boot file, and no rollback succeeds.
   */
  lemma {:induction false} TornRecordOnEmptyTarget(events: seq<Event>, source: Source)
    requires EmptyTarget().runtime.Some? && SaneEvents(EmptyTarget(), events) && OwnCopy(FIRST_ID, source)
    ensures var env, d0 := SmallEnv(), EmptyTarget();
      var after := After(env, "/mnt", d0, [CrashInRecord(env, "/mnt", d0, SmallBundle(), None)] + events);
      && after.store.active == Some(FIRST) && RollbackRun(env, "/mnt", after, source).result.Err?
      && forall path :: At(after.boot, path) == Absent
  {
    hide SmallBundle, SmallBundleRead, PreparedRuntime, ApplyRun, ApplyChecks, FilesOf, CrashInRecord, After,
      RollbackRun, SaneOp;
    EmptyTargetSucceeds();
    TornRecordIsPermanent(SmallEnv(), "/mnt", EmptyTarget(), SmallBundle(), None, events, source);
  }

  /**
   * On the empty target: install and verify, install a second generation, and try to roll
   * back the first. It is refused, the second is still recorded as applied, and there is no
   * boot loader any more.
   */
  lemma {:induction false} RefusedRollbackRemovesBootLoader()
    requires SecondPrepared().Some?
    ensures var env, d0, second := SmallEnv(), EmptyTarget(), SecondPrepared().value;
      var d := Twice(env, "/mnt", d0, SmallBundle(), None, second, SmallBundle(), None);
      var run := RollbackRun(env, "/mnt", d, FromCheckpoint(FIRST_ID));
      var after := Exec(d, run.writes);
      && run.result == Err(AuthorityDiffers)
      && SECOND_ID in after.checkpoints && after.checkpoints[SECOND_ID].journal.status == Applied
      && At(after.boot, "boot/EFI/BOOT/BOOTX64.EFI") == Absent
  {
    hide SmallBundle, SmallBundleRead, PreparedRuntime, ApplyRun, ApplyChecks, FilesOf, RollbackRun,
      Superseded.Installed,
      Twice, Stacked;
    EmptyTargetSucceeds();
    SecondSucceeds();
    SmallBundleFirstFile();
    SupersededRollbackOverwritesLater(SmallEnv(), "/mnt", EmptyTarget(), SmallBundle(), None,
      SecondPrepared().value, SmallBundle(), None);
    assert FIRST[0] != OTHER[0];
  }
}
