/**
 * The measured boot bundle: reading it before activation and re-hashing the
 * installed files afterwards (src/installer.rs).
 */
module BootBundle {
  import opened Wrappers
  import opened DigestCodec
  import opened Documents

  const BOOT_BUNDLE_SCHEMA: nat := 1
  const DOCUMENT_LIMIT: nat := 1024 * 1024
  const MAX_BOOT_ARTIFACT_BYTES: nat := 32 * 1024 * 1024

  const PE_MAGIC: Bytes := [0x4d, 0x5a]
  const ELF_MAGIC: Bytes := [0x7f, 0x45, 0x4c, 0x46]

  const MANIFEST_NAME := "manifest.json"
  const MANIFEST_PATH := "boot/BOOT/ARACH-MANIFEST.json"

  /** Every path activation may write, in activation order: base artifacts, manifest, services. */
  const DESTINATIONS: seq<string> := [
    "boot/EFI/BOOT/BOOTX64.EFI",
    "boot/BOOT/ARACH",
    "boot/BOOT/PUSH",
    "boot/BOOT/CREST",
    MANIFEST_PATH,
    "boot/BOOT/SEATD.BIN",
    "boot/BOOT/DBUS.BIN",
    "boot/BOOT/PIPEWIRE.BIN",
    "boot/BOOT/WIREPLUMBER.BIN",
    "boot/BOOT/COSCOMP.BIN",
    "boot/BOOT/COSGREETER.BIN",
    "boot/BOOT/COSSESSION.BIN",
    "boot/BOOT/COSPORTAL.BIN"
  ]

  datatype Artifact = Artifact(name: string, magic: Bytes)

  /** Installed at the first four destinations. */
  const BASE_ARTIFACTS: seq<Artifact> := [
    Artifact("granite.efi", PE_MAGIC),
    Artifact("arach", ELF_MAGIC),
    Artifact("push", ELF_MAGIC),
    Artifact("crest", ELF_MAGIC)
  ]

  /** Installed at the last eight destinations. */
  const COSMIC_ARTIFACTS: seq<Artifact> := [
    Artifact("seatd", ELF_MAGIC),
    Artifact("dbus-broker", ELF_MAGIC),
    Artifact("pipewire", ELF_MAGIC),
    Artifact("wireplumber", ELF_MAGIC),
    Artifact("cosmic-comp", ELF_MAGIC),
    Artifact("cosmic-greeter", ELF_MAGIC),
    Artifact("cosmic-session", ELF_MAGIC),
    Artifact("xdg-desktop-portal-cosmic", ELF_MAGIC)
  ]

  lemma DestinationsAreDistinct(i: nat, j: nat)
    requires i < j < 13
    ensures DESTINATIONS[i] != DESTINATIONS[j]
  {
  }

  predicate IsBootDestination(path: string) {
    path in DESTINATIONS
  }

  datatype BootFile = BootFile(destination: string, bytes: Bytes)

  /** The bytes activation installs; `cosmic` is empty or holds all eight services. */
  datatype Bundle = Bundle(manifest: Bytes, base: seq<Bytes>, cosmic: seq<Bytes>)

  datatype BundleError = BadManifest | IncompleteServiceSet | BadArtifact

  /**
   * What is found at a boot destination. A rename replaces what is special, such as a
   * symbolic link, but not a directory.
   */
  datatype Node = Absent | Regular(bytes: Bytes) | Special | Directory

  function At(boot: map<string, Node>, path: string): Node {
    if path in boot then boot[path] else Absent
  }

  function Digested(env: Env, bytes: Bytes): string {
    Encode(env.sha(bytes))
  }

  // ----------------------------------------------------------------- reading a bundle

  predicate ArtifactReadable(env: Env, root: map<string, Bytes>, artifact: Artifact, expected: string) {
    artifact.name in root &&
    var bytes := root[artifact.name];
    0 < |bytes| <= MAX_BOOT_ARTIFACT_BYTES && artifact.magic <= bytes && Digested(env, bytes) == expected
  }

  predicate NoServices(manifest: Manifest) {
    forall i | 0 <= i < 8 :: manifest.cosmic[i].None?
  }

  predicate AllServices(manifest: Manifest) {
    forall i | 0 <= i < 8 :: manifest.cosmic[i].Some?
  }

  function Contents(root: map<string, Bytes>, artifacts: seq<Artifact>): seq<Bytes>
    requires forall a | a in artifacts :: a.name in root
  {
    seq(|artifacts|, i requires 0 <= i < |artifacts| => root[artifacts[i].name])
  }

  function ReadBootBundle(env: Env, root: map<string, Bytes>): Result<Bundle, BundleError> {
    if MANIFEST_NAME !in root || |root[MANIFEST_NAME]| > DOCUMENT_LIMIT then Err(BadManifest)
    else match env.parseManifest(root[MANIFEST_NAME])
      case None => Err(BadManifest)
      case Some(manifest) =>
        if manifest.schema != BOOT_BUNDLE_SCHEMA || !(forall i | 0 <= i < 4 :: ValidDigest(manifest.base[i])) then
          Err(BadManifest)
        else if !(forall i | 0 <= i < 4 :: ArtifactReadable(env, root, BASE_ARTIFACTS[i], manifest.base[i])) then
          Err(BadArtifact)
        else if NoServices(manifest) then
          Ok(Bundle(root[MANIFEST_NAME], Contents(root, BASE_ARTIFACTS), []))
        else if !AllServices(manifest) then
          Err(IncompleteServiceSet)
        else if !(forall i | 0 <= i < 8 ::
                    ArtifactReadable(env, root, COSMIC_ARTIFACTS[i], manifest.cosmic[i].value)) then
          Err(BadArtifact)
        else
          Ok(Bundle(root[MANIFEST_NAME], Contents(root, BASE_ARTIFACTS), Contents(root, COSMIC_ARTIFACTS)))
  }

  /** What activation writes, in order: the base artifacts, the manifest, then the services. */
  function FilesOf(bundle: Bundle): seq<BootFile> {
    var contents := bundle.base + [bundle.manifest] + bundle.cosmic;
    seq(if |contents| <= 13 then |contents| else 13, i requires 0 <= i < |contents| && i < 13 =>
      BootFile(DESTINATIONS[i], contents[i]))
  }

  // ----------------------------------------------------------------- re-hashing what is installed

  predicate ArtifactInstalled(env: Env, boot: map<string, Node>, index: nat, magic: Bytes, expected: string)
    requires index < 13
  {
    match At(boot, DESTINATIONS[index])
    case Regular(bytes) =>
      |bytes| <= MAX_BOOT_ARTIFACT_BYTES && magic <= bytes && Digested(env, bytes) == expected
    case _ => false
  }

  /** The checks of `verify_installed_boot_bundle`. */
  predicate InstalledBundleVerifies(env: Env, boot: map<string, Node>, plan: Plan) {
    match At(boot, MANIFEST_PATH)
    case Regular(bytes) =>
      && |bytes| <= DOCUMENT_LIMIT
      && Digested(env, bytes) == plan.bootSha
      && (match env.parseManifest(bytes)
          case None => false
          case Some(manifest) =>
            && manifest.schema == BOOT_BUNDLE_SCHEMA
            && (forall i | 0 <= i < 4 ::
                  ArtifactInstalled(env, boot, i, BASE_ARTIFACTS[i].magic, manifest.base[i]))
            && (NoServices(manifest) ||
                (AllServices(manifest) &&
                 forall i | 0 <= i < 8 ::
                   ArtifactInstalled(env, boot, 5 + i, COSMIC_ARTIFACTS[i].magic, manifest.cosmic[i].value))))
    case _ => false
  }

  ghost predicate Installed(boot: map<string, Node>, files: seq<BootFile>) {
    forall i | 0 <= i < |files| :: At(boot, files[i].destination) == Regular(files[i].bytes)
  }

  lemma {:induction false} FilesOfDestinations(bundle: Bundle)
    ensures |FilesOf(bundle)| <= 13
    ensures forall i | 0 <= i < |FilesOf(bundle)| :: FilesOf(bundle)[i].destination == DESTINATIONS[i]
    ensures forall i, j | 0 <= i < j < |FilesOf(bundle)| ::
      FilesOf(bundle)[i].destination != FilesOf(bundle)[j].destination
  {
    forall i, j | 0 <= i < j < |FilesOf(bundle)|
      ensures FilesOf(bundle)[i].destination != FilesOf(bundle)[j].destination
    {
      DestinationsAreDistinct(i, j);
    }
  }

  /** A bundle accepted before activation, once installed file by file, passes verification. */
  lemma {:induction false} AcceptedBundleVerifies(env: Env, root: map<string, Bytes>, plan: Plan,
                                                  boot: map<string, Node>)
    requires ReadBootBundle(env, root).Ok?
    requires var bundle := ReadBootBundle(env, root).value;
      Digested(env, bundle.manifest) == plan.bootSha && Installed(boot, FilesOf(bundle))
    ensures InstalledBundleVerifies(env, boot, plan)
  {
    var bundle := ReadBootBundle(env, root).value;
    var files := FilesOf(bundle);
    assert files[4] == BootFile(MANIFEST_PATH, bundle.manifest);
    var manifest := env.parseManifest(bundle.manifest).value;
    forall i | 0 <= i < 4
      ensures ArtifactInstalled(env, boot, i, BASE_ARTIFACTS[i].magic, manifest.base[i])
    {
      assert ArtifactReadable(env, root, BASE_ARTIFACTS[i], manifest.base[i]);
      assert files[i] == BootFile(DESTINATIONS[i], root[BASE_ARTIFACTS[i].name]);
    }
    if !NoServices(manifest) {
      forall i | 0 <= i < 8
        ensures ArtifactInstalled(env, boot, 5 + i, COSMIC_ARTIFACTS[i].magic, manifest.cosmic[i].value)
      {
        assert ArtifactReadable(env, root, COSMIC_ARTIFACTS[i], manifest.cosmic[i].value);
        assert files[5 + i] == BootFile(DESTINATIONS[5 + i], root[COSMIC_ARTIFACTS[i].name]);
      }
    }
  }

  /** The hash tells these two files apart, if they are files and differ. */
  predicate HashesApart(env: Env, left: Node, right: Node) {
    left.Regular? && right.Regular? && env.sha(left.bytes) == env.sha(right.bytes) ==> left.bytes == right.bytes
  }

  /**
   * Verification decides the whole installed bundle: where no two of the files compared
   * collide under the hash, two boot trees that both verify against one plan hold the same manifest, the same
   * base artifacts and, if the manifest names services, the same services.
   */
  lemma {:induction false} VerifiedBundleIsUnique(env: Env, plan: Plan, left: map<string, Node>,
                                                  right: map<string, Node>, i: nat)
    requires InstalledBundleVerifies(env, left, plan) && InstalledBundleVerifies(env, right, plan)
    requires forall j | 0 <= j < 13 :: HashesApart(env, At(left, DESTINATIONS[j]), At(right, DESTINATIONS[j]))
    requires i < 13
    requires i < 5 || !NoServices(env.parseManifest(At(left, MANIFEST_PATH).bytes).value)
    ensures At(left, DESTINATIONS[i]) == At(right, DESTINATIONS[i])
  {
    EncodeIsInjective(env.sha(At(left, MANIFEST_PATH).bytes), env.sha(At(right, MANIFEST_PATH).bytes));
    assert DESTINATIONS[4] == MANIFEST_PATH;
    if i != 4 {
      var manifest := env.parseManifest(At(left, MANIFEST_PATH).bytes).value;
      var magic, expected :=
        if i < 4 then BASE_ARTIFACTS[i].magic else COSMIC_ARTIFACTS[i - 5].magic,
        if i < 4 then manifest.base[i] else manifest.cosmic[i - 5].value;
      assert i > 4 ==> 5 + (i - 5) == i;
      assert ArtifactInstalled(env, left, i, magic, expected);
      assert ArtifactInstalled(env, right, i, magic, expected);
      EncodeIsInjective(env.sha(At(left, DESTINATIONS[i]).bytes), env.sha(At(right, DESTINATIONS[i]).bytes));
    }
  }
}
