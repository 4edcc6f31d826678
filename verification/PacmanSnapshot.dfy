/**
 * Staging a signed offline Pacman snapshot and the command it authorizes
 * (installer/calamares/modules/arachpacman/adapter.py).
 */
module PacmanSnapshot {
  import opened Wrappers
  import opened DigestCodec

  const FORMAT: int := 1
  const MAX_DOCUMENT_BYTES: nat := 1024 * 1024
  const MAX_ARCHIVE_BYTES: nat := 2 * 1024 * 1024 * 1024
  const MAX_PACKAGES: nat := 256

  const MAPPING := "mapping.toml"
  const SIGNATURE := "mapping.toml.sig"
  const KEYRING := "keyring.gpg"
  const CONFIG := "pacman.conf"

  datatype Package = Package(archive: string, sha: string)

  /** A mapping document as the TOML parser returns it, with exactly the expected fields. */
  datatype Document = Document(format: int, planSha: string, configSha: string, packages: seq<Package>)

  datatype Snapshot = Snapshot(planSha: string, configSha: string, packages: seq<Package>)

  /** What the model does not look inside: the hash, the TOML parser and gpgv. */
  datatype Tools = Tools(
    hash: Bytes -> string,
    parse: Bytes -> Option<Document>,
    verifies: (Bytes, Bytes, Bytes) -> bool)

  /** A file as the copy sees it: its metadata when opened, then what each read returns. */
  datatype Source = Unreadable | Opened(regular: bool, size: int, chunks: seq<Bytes>)

  datatype AdapterError =
    | BadDocument | BadArchiveName(name: string) | DuplicateArchive(name: string) | BadDigest
    | CannotRead | AlreadyStaged(name: string) | NotBounded | TooLarge
    | NotVerified | StageExists | BadSignature | WrongPlan | NoSnapshotRoot | WrongConfig | WrongArchive(name: string)
    | BadTarget | EmptySnapshot

  predicate ValidArchiveName(name: string) {
    && 0 < |name| <= 255
    && name != "." && name != ".."
    && forall c | c in name :: c != '/' && c != '\\' && c >= '!' && c != 0x7F as char
  }

  predicate DistinctArchives(packages: seq<Package>) {
    forall i, j | 0 <= i < j < |packages| :: packages[i].archive != packages[j].archive
  }

  predicate PackageAccepted(package: Package) {
    ValidArchiveName(package.archive) && ValidDigest(package.sha)
  }

  predicate DocumentAccepted(document: Document) {
    && document.format == FORMAT
    && ValidDigest(document.planSha) && ValidDigest(document.configSha)
    && |document.packages| <= MAX_PACKAGES
    && (forall p | p in document.packages :: PackageAccepted(p))
    && DistinctArchives(document.packages)
  }

  /** The snapshot a mapping file describes, if it describes one. */
  function Described(tools: Tools, raw: Bytes): Option<Snapshot> {
    if raw == [] || |raw| > MAX_DOCUMENT_BYTES then None
    else match tools.parse(raw)
      case None => None
      case Some(document) =>
        if DocumentAccepted(document)
        then Some(Snapshot(document.planSha, document.configSha, document.packages)) else None
  }

  /** A digest in a mapping: 64 lower-case hexadecimal characters. */
  predicate DigestText(text: string) {
    |text| == 64 && forall c | c in text :: '0' <= c <= '9' || 'a' <= c <= 'f'
  }

  /** A file name that stays in its directory: no separator, no control character or space. */
  predicate PlainName(name: string) {
    && 1 <= |name| <= 255 && name != "." && name != ".."
    && '/' !in name && '\\' !in name
    && forall c | c in name :: 0x21 <= c as int && c as int != 0x7f
  }

  lemma {:induction false} PackageIs(package: Package)
    ensures PackageAccepted(package) <==> PlainName(package.archive) && DigestText(package.sha)
  {
    hide IsHex;
    DigestTextIs(package.sha);
  }

  lemma DigestTextIs(text: string)
    ensures DigestText(text) <==> ValidDigest(text)
  {
    assert forall i | 0 <= i < |text| :: text[i] in text;
  }

  /**
   * A mapping file describes a snapshot exactly when it is non-empty and bounded, parses,
   * has format 1, digests for the plan and the configuration, and at most 256 packages
   * with distinct plain names and digests; the snapshot is what it says.
   */
  lemma {:induction false} DescribedExactlyWhen(tools: Tools, raw: Bytes)
    ensures Described(tools, raw).Some? <==>
      && 0 < |raw| <= 1048576 && tools.parse(raw).Some?
      && var document := tools.parse(raw).value;
         && document.format == 1 && DigestText(document.planSha) && DigestText(document.configSha)
         && |document.packages| <= 256
         && (forall p | p in document.packages :: PlainName(p.archive) && DigestText(p.sha))
         && (forall i, j | 0 <= i < j < |document.packages| ::
               document.packages[i].archive != document.packages[j].archive)
    ensures Described(tools, raw).Some? ==>
      var document := tools.parse(raw).value;
      Described(tools, raw).value == Snapshot(document.planSha, document.configSha, document.packages)
  {
    hide PackageAccepted, PlainName, DigestText, ValidDigest;
    if tools.parse(raw).Some? {
      var document := tools.parse(raw).value;
      DigestTextIs(document.planSha);
      DigestTextIs(document.configSha);
      forall p | p in document.packages
        ensures PackageAccepted(p) <==> PlainName(p.archive) && DigestText(p.sha)
      {
        PackageIs(p);
      }
    }
  }

  method ParseSignedSnapshot(tools: Tools, raw: Bytes) returns (result: Result<Snapshot, AdapterError>)
    ensures result.Ok? <==> Described(tools, raw).Some?
    ensures result.Ok? ==> Described(tools, raw) == Some(result.value)
  {
    hide PackageAccepted;
    if raw == [] || |raw| > MAX_DOCUMENT_BYTES {
      return Err(BadDocument);
    }
    var parsed := tools.parse(raw);
    if parsed.None? || parsed.value.format != FORMAT {
      return Err(BadDocument);
    }
    var document := parsed.value;
    if !ValidDigest(document.planSha) || !ValidDigest(document.configSha) {
      return Err(BadDigest);
    }
    if |document.packages| > MAX_PACKAGES {
      return Err(BadDocument);
    }
    var packages: seq<Package> := [];
    var names: set<string> := {};
    for i := 0 to |document.packages|
      invariant packages == document.packages[..i]
      invariant forall p | p in packages :: PackageAccepted(p) && p.archive in names
      invariant forall n | n in names :: exists k | 0 <= k < i :: document.packages[k].archive == n
      invariant DistinctArchives(packages)
    {
      var package := document.packages[i];
      assert package in document.packages;
      IsAccepted(package);
      if !ValidArchiveName(package.archive) {
        return Err(BadArchiveName(package.archive));
      }
      if package.archive in names {
        return Err(DuplicateArchive(package.archive));
      }
      names := names + {package.archive};
      if !ValidDigest(package.sha) {
        return Err(BadDigest);
      }
      packages := packages + [package];
    }
    assert document.packages[..|document.packages|] == document.packages;
    return Ok(Snapshot(document.planSha, document.configSha, packages));
  }

  lemma IsAccepted(package: Package)
    ensures PackageAccepted(package) <==> ValidArchiveName(package.archive) && ValidDigest(package.sha)
  {
  }

  // ----------------------------------------------------------------- copying

  /** All that is read: the chunks up to the first empty one. */
  function Stream(chunks: seq<Bytes>): Bytes {
    if chunks == [] || |chunks[0]| == 0 then [] else chunks[0] + Stream(chunks[1..])
  }

  predicate Copyable(source: Source, limit: nat) {
    source.Opened? && source.regular && 0 < source.size <= limit && |Stream(source.chunks)| <= limit
  }

  lemma {:induction false} StreamPrefix(chunks: seq<Bytes>, i: nat)
    requires i <= |chunks| && forall k | 0 <= k < i :: |chunks[k]| > 0
    ensures Stream(chunks) == Stream(chunks[..i]) + Stream(chunks[i..])
  {
    if i > 0 {
      StreamPrefix(chunks[1..], i - 1);
      assert chunks[1..][..i - 1] == chunks[..i][1..];
      assert chunks[1..][i - 1..] == chunks[i..];
    }
  }

  lemma {:induction false} StreamAppend(chunks: seq<Bytes>, chunk: Bytes)
    requires |chunk| > 0 && forall k | 0 <= k < |chunks| :: |chunks[k]| > 0
    ensures Stream(chunks + [chunk]) == Stream(chunks) + chunk
  {
    StreamPrefix(chunks + [chunk], |chunks|);
    assert (chunks + [chunk])[..|chunks|] == chunks && (chunks + [chunk])[|chunks|..] == [chunk];
    assert [chunk][1..] == [];
    assert Stream([chunk]) == chunk + Stream([]);
  }

  lemma StreamStarts(chunks: seq<Bytes>)
    ensures Stream(chunks[..0]) == []
  {
  }

  lemma {:induction false} StreamGrows(chunks: seq<Bytes>, i: nat)
    requires i < |chunks| && forall k | 0 <= k <= i :: |chunks[k]| > 0
    ensures Stream(chunks[..i + 1]) == Stream(chunks[..i]) + chunks[i]
    ensures Stream(chunks[..i]) <= Stream(chunks[..i + 1]) <= Stream(chunks)
  {
    hide Stream;
    StreamPrefix(chunks, i + 1);
    assert chunks[..i + 1] == chunks[..i] + [chunks[i]];
    StreamAppend(chunks[..i], chunks[i]);
    Prefix(Stream(chunks[..i]), chunks[i]);
    Prefix(Stream(chunks[..i + 1]), Stream(chunks[i + 1..]));
  }

  lemma Prefix(left: Bytes, right: Bytes)
    ensures left <= left + right
  {
  }

  lemma {:induction false} StreamEnds(chunks: seq<Bytes>, i: nat)
    requires i <= |chunks| && forall k | 0 <= k < i :: |chunks[k]| > 0
    requires i == |chunks| || |chunks[i]| == 0
    ensures Stream(chunks) == Stream(chunks[..i])
  {
    StreamPrefix(chunks, i);
    assert Stream(chunks[i..]) == [];
  }

  /** What the staging reads from outside the stage. */
  datatype Inputs = Inputs(
    plan: Option<string>,  // the digest of the plan that its verification receipt covers
    mapping: Source, signature: Source, keyring: Source,
    snapshotRoot: Option<map<string, Source>>)

  function FileIn(root: map<string, Source>, name: string): Source {
    if name in root then root[name] else Unreadable
  }

  predicate Reserved(name: string) {
    name == MAPPING || name == SIGNATURE || name == KEYRING || name == CONFIG
  }

  predicate ArchiveMatches(tools: Tools, root: map<string, Source>, package: Package) {
    && !Reserved(package.archive)
    && Copyable(FileIn(root, package.archive), MAX_ARCHIVE_BYTES)
    && tools.hash(Stream(FileIn(root, package.archive).chunks)) == package.sha
  }

  /** The inputs that are staged, apart from the archives. */
  predicate HeadAuthorized(tools: Tools, inputs: Inputs) {
    && inputs.plan.Some?
    && Copyable(inputs.mapping, MAX_DOCUMENT_BYTES)
    && Copyable(inputs.signature, MAX_DOCUMENT_BYTES)
    && Copyable(inputs.keyring, MAX_DOCUMENT_BYTES)
    && tools.verifies(Stream(inputs.keyring.chunks), Stream(inputs.signature.chunks), Stream(inputs.mapping.chunks))
    && Described(tools, Stream(inputs.mapping.chunks)).Some?
    && Described(tools, Stream(inputs.mapping.chunks)).value.planSha == inputs.plan.value
    && inputs.snapshotRoot.Some?
    && Copyable(FileIn(inputs.snapshotRoot.value, CONFIG), MAX_DOCUMENT_BYTES)
    && Stream(FileIn(inputs.snapshotRoot.value, CONFIG).chunks) != []
    && tools.hash(Stream(FileIn(inputs.snapshotRoot.value, CONFIG).chunks))
         == Described(tools, Stream(inputs.mapping.chunks)).value.configSha
  }

  /** The inputs that are staged and authorized. */
  predicate Authorizable(tools: Tools, inputs: Inputs) {
    && HeadAuthorized(tools, inputs)
    && forall p | p in Described(tools, Stream(inputs.mapping.chunks)).value.packages ::
         ArchiveMatches(tools, inputs.snapshotRoot.value, p)
  }

  function Archives(packages: seq<Package>): set<string> {
    set p | p in packages :: p.archive
  }

  /** What the stage holds when authorization returns. */
  ghost predicate Authorized(tools: Tools, plan: string, files: map<string, Bytes>, snapshot: Snapshot) {
    && files.Keys == {MAPPING, SIGNATURE, KEYRING, CONFIG} + Archives(snapshot.packages)
    && tools.verifies(files[KEYRING], files[SIGNATURE], files[MAPPING])
    && Described(tools, files[MAPPING]) == Some(snapshot)
    && snapshot.planSha == plan
    && tools.hash(files[CONFIG]) == snapshot.configSha
    && forall p | p in snapshot.packages ::
         !Reserved(p.archive) && tools.hash(files[p.archive]) == p.sha && |files[p.archive]| <= MAX_ARCHIVE_BYTES
  }

  class Stage {
    const tools: Tools
    var created: bool
    var files: map<string, Bytes>

    constructor (tools: Tools)
      ensures this.tools == tools && !created && files == map[]
    {
      this.tools := tools;
      created, files := false, map[];
    }

    /**
     * Exclusive creation, then chunk by chunk. On success the file is the stream and
     * the digest is of the stream; a failed copy leaves a prefix; nothing else changes.
     */
    method CopyRegularWithDigest(source: Source, name: string, limit: nat)
      returns (result: Result<string, AdapterError>)
      modifies this`files
      ensures result.Ok? <==> name !in old(files) && Copyable(source, limit)
      ensures result.Ok? ==>
        files == old(files)[name := Stream(source.chunks)] && result.value == tools.hash(Stream(source.chunks))
      ensures result.Err? ==>
        files == old(files)
        || (name !in old(files) && source.Opened? && exists part | part <= Stream(source.chunks) && |part| <= limit ::
              files == old(files)[name := part])
    {
      if source.Unreadable? {
        return Err(CannotRead);
      }
      if name in files {
        return Err(AlreadyStaged(name));
      }
      hide Stream;
      files := files[name := []];
      StreamStarts(source.chunks);
      if !source.regular || source.size <= 0 || source.size > limit {
        return Err(NotBounded);
      }
      var hashed: Bytes := [];
      var copied: nat := 0;
      var i := 0;
      while i < |source.chunks| && |source.chunks[i]| > 0
        invariant 0 <= i <= |source.chunks|
        invariant forall k | 0 <= k < i :: |source.chunks[k]| > 0
        invariant hashed == Stream(source.chunks[..i]) && copied == |hashed| <= limit
        invariant files == old(files)[name := hashed]
        decreases |source.chunks| - i
      {
        var chunk := source.chunks[i];
        StreamGrows(source.chunks, i);
        copied := copied + |chunk|;
        if copied > limit {
          return Err(TooLarge);
        }
        hashed := hashed + chunk;
        files := files[name := files[name] + chunk];
        i := i + 1;
      }
      StreamEnds(source.chunks, i);
      return Ok(tools.hash(hashed));
    }

    /** The three signed inputs, the mapping they sign, and the configuration. */
    method StageHead(inputs: Inputs) returns (result: Result<Snapshot, AdapterError>)
      requires files == map[]
      modifies this`files
      ensures result.Ok? <==> HeadAuthorized(tools, inputs)
      ensures result.Ok? ==> Some(result.value) == Described(tools, Stream(inputs.mapping.chunks))
      ensures result.Ok? ==> files == map[
        MAPPING := Stream(inputs.mapping.chunks), SIGNATURE := Stream(inputs.signature.chunks),
        KEYRING := Stream(inputs.keyring.chunks),
        CONFIG := Stream(FileIn(inputs.snapshotRoot.value, CONFIG).chunks)]
    {
      hide Described, Stream;
      if inputs.plan.None? {
        return Err(NotVerified);
      }
      var mapping := CopyRegularWithDigest(inputs.mapping, MAPPING, MAX_DOCUMENT_BYTES);
      if mapping.Err? {
        return Err(mapping.error);
      }
      var signature := CopyRegularWithDigest(inputs.signature, SIGNATURE, MAX_DOCUMENT_BYTES);
      if signature.Err? {
        return Err(signature.error);
      }
      var keyring := CopyRegularWithDigest(inputs.keyring, KEYRING, MAX_DOCUMENT_BYTES);
      if keyring.Err? {
        return Err(keyring.error);
      }
      if !tools.verifies(files[KEYRING], files[SIGNATURE], files[MAPPING]) {
        return Err(BadSignature);
      }
      var snapshot := ParseSignedSnapshot(tools, files[MAPPING]);
      if snapshot.Err? {
        return Err(snapshot.error);
      }
      if snapshot.value.planSha != inputs.plan.value {
        return Err(WrongPlan);
      }
      if inputs.snapshotRoot.None? {
        return Err(NoSnapshotRoot);
      }
      var config := CopyRegularWithDigest(FileIn(inputs.snapshotRoot.value, CONFIG), CONFIG, MAX_DOCUMENT_BYTES);
      if config.Err? {
        return Err(config.error);
      }
      if files[CONFIG] == [] || tools.hash(files[CONFIG]) != snapshot.value.configSha {
        return Err(WrongConfig);
      }
      return Ok(snapshot.value);
    }

    /** Archive by archive; a name that was staged before is never written again. */
    method StageArchives(root: map<string, Source>, packages: seq<Package>) returns (result: Result<Unit, AdapterError>)
      requires files.Keys == {MAPPING, SIGNATURE, KEYRING, CONFIG} && DistinctArchives(packages)
      modifies this`files
      ensures result.Ok? <==> forall p | p in packages :: ArchiveMatches(tools, root, p)
      ensures result.Ok? ==> files.Keys == old(files).Keys + Archives(packages)
      ensures result.Ok? ==> forall name | name in old(files) :: files[name] == old(files)[name]
      ensures result.Ok? ==> forall p | p in packages :: files[p.archive] == Stream(FileIn(root, p.archive).chunks)
    {
      hide Stream;
      for i := 0 to |packages|
        invariant files.Keys == old(files).Keys + Archives(packages[..i])
        invariant forall name | name in old(files) :: files[name] == old(files)[name]
        invariant forall k | 0 <= k < i :: ArchiveMatches(tools, root, packages[k])
        invariant forall k | 0 <= k < i ::
          files[packages[k].archive] == Stream(FileIn(root, packages[k].archive).chunks)
      {
        var package := packages[i];
        assert package in packages;
        ArchivesStep(packages, i);
        var copy := CopyRegularWithDigest(FileIn(root, package.archive), package.archive, MAX_ARCHIVE_BYTES);
        if copy.Err? {
          return Err(copy.error);
        }
        if copy.value != package.sha {
          return Err(WrongArchive(package.archive));
        }
      }
      assert packages[..|packages|] == packages;
      return Ok(Unit);
    }

    /** A fresh stage, or nothing: an earlier attempt is never continued. */
    method StageAndAuthorize(inputs: Inputs) returns (result: Result<Snapshot, AdapterError>)
      requires !created ==> files == map[]
      modifies this
      ensures result.Ok? <==> !old(created) && Authorizable(tools, inputs)
      ensures result.Ok? ==> Some(result.value) == Described(tools, Stream(inputs.mapping.chunks))
      ensures result.Ok? ==> Authorized(tools, inputs.plan.value, files, result.value)
      ensures result.Ok? ==> forall p | p in result.value.packages ::
        files[p.archive] == Stream(FileIn(inputs.snapshotRoot.value, p.archive).chunks)
      ensures old(created) ==> files == old(files)
      ensures created == (old(created) || inputs.plan.Some?)
    {
      hide Described, Stream, PackageAccepted, DistinctArchives;
      if inputs.plan.None? {
        return Err(NotVerified);
      }
      if created {
        return Err(StageExists);
      }
      created := true;
      result := StageHead(inputs);
      if result.Err? {
        return;
      }
      var snapshot := result.value;
      DescribedIsDistinct(tools, Stream(inputs.mapping.chunks));
      var archives := StageArchives(inputs.snapshotRoot.value, snapshot.packages);
      if archives.Err? {
        return Err(archives.error);
      }
      return Ok(snapshot);
    }
  }

  lemma {:induction false} ArchivesStep(packages: seq<Package>, i: nat)
    requires i < |packages| && DistinctArchives(packages)
    ensures Archives(packages[..i + 1]) == Archives(packages[..i]) + {packages[i].archive}
    ensures packages[i].archive !in Archives(packages[..i])
  {
    assert packages[..i + 1] == packages[..i] + [packages[i]];
  }

  lemma DescribedIsDistinct(tools: Tools, raw: Bytes)
    requires Described(tools, raw).Some?
    ensures DistinctArchives(Described(tools, raw).value.packages)
    ensures forall p | p in Described(tools, raw).value.packages :: ValidArchiveName(p.archive) && ValidDigest(p.sha)
  {
  }

  // ----------------------------------------------------------------- the command

  const PACMAN_PATH := "/usr/bin/pacman"

  function Under(directory: string, name: string): string {
    directory + "/" + name
  }

  function StagedPaths(stage: string, packages: seq<Package>): seq<string> {
    seq(|packages|, i requires 0 <= i < |packages| => Under(stage, packages[i].archive))
  }

  /** `usable` says whether the target is an absolute real directory other than the root, and the stage a real one. */
  function PacmanCommand(target: string, stage: string, usable: bool,
                         snapshot: Snapshot): Result<seq<string>, AdapterError> {
    if !usable then Err(BadTarget)
    else if snapshot.packages == [] then Err(EmptySnapshot)
    else Ok([PACMAN_PATH, "--root", target, "--dbpath", Under(target, "var/lib/pacman"), "--cachedir", stage,
             "--config", Under(stage, CONFIG), "--noconfirm", "--needed", "-U"] + StagedPaths(stage, snapshot.packages))
  }

  /** The last component of a path. */
  function BaseName(path: string): string {
    if path == "" || path[|path| - 1] == '/' then ""
    else BaseName(path[..|path| - 1]) + [path[|path| - 1]]
  }

  lemma {:induction false} BaseNameOfUnder(directory: string, name: string)
    requires '/' !in name
    ensures BaseName(Under(directory, name)) == name
    decreases name
  {
    var path := Under(directory, name);
    if name != "" {
      var rest := name[..|name| - 1];
      assert path[..|path| - 1] == Under(directory, rest);
      BaseNameOfUnder(directory, rest);
      assert name == rest + [name[|name| - 1]];
    }
  }

  /** What follows `-U`. */
  function Operands(command: seq<string>): seq<string> {
    if |command| > 12 && command[11] == "-U" then command[12..] else []
  }

  lemma {:induction false} OperandsAreStaged(target: string, stage: string, usable: bool, snapshot: Snapshot)
    requires PacmanCommand(target, stage, usable, snapshot).Ok?
    ensures Operands(PacmanCommand(target, stage, usable, snapshot).value) == StagedPaths(stage, snapshot.packages)
  {
    hide Under;
    assert |StagedPaths(stage, snapshot.packages)| > 0;
  }

  /** The value given to an option: the word behind its first occurrence. */
  function ValueOf(command: seq<string>, option: string): Option<string> {
    if |command| < 2 then None
    else if command[0] == option then Some(command[1])
    else ValueOf(command[1..], option)
  }

  /**
   * The command runs pacman on the target, with the database under the target, the stage as
   * cache and the staged configuration, without questions; it is refused exactly for an
   * unusable target or stage and for an empty snapshot.
   */
  lemma {:induction false} CommandStaysOnTarget(target: string, stage: string, usable: bool, snapshot: Snapshot)
    requires usable ==> "/" <= target && "/" <= stage
    ensures PacmanCommand(target, stage, usable, snapshot).Ok? <==> usable && snapshot.packages != []
    ensures PacmanCommand(target, stage, usable, snapshot).Ok? ==>
      var command := PacmanCommand(target, stage, usable, snapshot).value;
      && command[0] == "/usr/bin/pacman"
      && ValueOf(command, "--root") == Some(target)
      && ValueOf(command, "--dbpath") == Some(target + "/var/lib/pacman")
      && ValueOf(command, "--cachedir") == Some(stage)
      && ValueOf(command, "--config") == Some(stage + "/pacman.conf")
      && "--noconfirm" in command[..12] && "--needed" in command[..12]
  {
    if usable && snapshot.packages != [] {
      var command := PacmanCommand(target, stage, usable, snapshot).value;
      assert target[0] == '/' && stage[0] == '/';
      OptionAt(command, "--root", 1);
      OptionAt(command, "--dbpath", 3);
      OptionAt(command, "--cachedir", 5);
      OptionAt(command, "--config", 7);
      assert target + "/" + "var/lib/pacman" == target + "/var/lib/pacman";
      assert stage + "/" + "pacman.conf" == stage + "/pacman.conf";
      assert command[..12][9] == "--noconfirm" && command[..12][10] == "--needed";
    }
  }

  lemma {:induction false} OptionAt(command: seq<string>, option: string, i: nat)
    requires i + 1 < |command| && command[i] == option
    requires forall j | 0 <= j < i :: command[j] != option
    ensures ValueOf(command, option) == Some(command[i + 1])
    decreases i
  {
    if i > 0 {
      forall j | 0 <= j < i - 1
        ensures command[1..][j] != option
      {
        assert command[j + 1] != option;
      }
      OptionAt(command[1..], option, i - 1);
    }
  }

  /** One operand names a staged file whose bytes hash to what was signed. */
  ghost predicate NamesSigned(tools: Tools, files: map<string, Bytes>, stage: string, path: string, package: Package) {
    var name := BaseName(path);
    path == Under(stage, name) && name in files && !Reserved(name) && package == Package(name, tools.hash(files[name]))
  }

  /**
   * After an authorization the command names, in the signed order and each once, the
   * staged archives and nothing else; the bytes at each path hash to the signed digest.
   */
  lemma {:induction false} CommandInstallsWhatWasSigned(tools: Tools, plan: string, files: map<string, Bytes>,
                                                        snapshot: Snapshot,
                                     target: string, stage: string, usable: bool)
    requires Authorized(tools, plan, files, snapshot)
    requires PacmanCommand(target, stage, usable, snapshot).Ok?
    ensures var operands := Operands(PacmanCommand(target, stage, usable, snapshot).value);
      && |operands| == |snapshot.packages| > 0
      && (forall i | 0 <= i < |operands| :: NamesSigned(tools, files, stage, operands[i], snapshot.packages[i]))
      && (forall i, j | 0 <= i < j < |operands| :: operands[i] != operands[j])
      && (forall name | name in files && !Reserved(name) :: Under(stage, name) in operands)
  {
    hide Described, PackageAccepted, Under, Reserved, BaseName;
    OperandsAreStaged(target, stage, usable, snapshot);
    var packages, operands := snapshot.packages, StagedPaths(stage, snapshot.packages);
    DescribedIsDistinct(tools, files[MAPPING]);
    forall i | 0 <= i < |operands|
      ensures NamesSigned(tools, files, stage, operands[i], packages[i])
      ensures BaseName(operands[i]) == packages[i].archive
    {
      assert packages[i] in packages && packages[i].archive in Archives(packages);
      BaseNameOfUnder(stage, packages[i].archive);
    }
    forall i, j | 0 <= i < j < |operands|
      ensures operands[i] != operands[j]
    {
      assert BaseName(operands[i]) != BaseName(operands[j]);
    }
    forall name | name in files && !Reserved(name)
      ensures Under(stage, name) in operands
    {
      OnlyArchivesAreNotReserved(tools, plan, files, snapshot, name);
      var i :| 0 <= i < |packages| && packages[i].archive == name;
      assert operands[i] == Under(stage, name);
    }
  }

  lemma {:induction false} OnlyArchivesAreNotReserved(tools: Tools, plan: string, files: map<string, Bytes>,
                                                      snapshot: Snapshot, name: string)
    requires Authorized(tools, plan, files, snapshot) && name in files && !Reserved(name)
    ensures exists i | 0 <= i < |snapshot.packages| :: snapshot.packages[i].archive == name
  {
    hide Described;
    assert name in Archives(snapshot.packages);
  }
}
