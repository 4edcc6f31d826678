/**
 * The boot layout as a table: which file of a bundle goes where, and what it must begin
 * with. Reading a bundle, installing it and re-hashing it are each stated against the table.
 */
module Layout {
  import opened Wrappers
  import opened DigestCodec
  import opened Documents
  import opened BootBundle
  import opened TargetDisk
  import opened Operations
  import opened CrashInvariant
  import opened ActivationProof
  import opened ApplyProof
  import opened CrashTheorems

  datatype Row = Row(name: string, path: string, header: Bytes)

  /** The four base artifacts, then the eight services. */
  function Table(): seq<Row> {
    [Row("granite.efi", "boot/EFI/BOOT/BOOTX64.EFI", [0x4d, 0x5a]),
     Row("arach", "boot/BOOT/ARACH", [0x7f, 0x45, 0x4c, 0x46]),
     Row("push", "boot/BOOT/PUSH", [0x7f, 0x45, 0x4c, 0x46]),
     Row("crest", "boot/BOOT/CREST", [0x7f, 0x45, 0x4c, 0x46]),
     Row("seatd", "boot/BOOT/SEATD.BIN", [0x7f, 0x45, 0x4c, 0x46]),
     Row("dbus-broker", "boot/BOOT/DBUS.BIN", [0x7f, 0x45, 0x4c, 0x46]),
     Row("pipewire", "boot/BOOT/PIPEWIRE.BIN", [0x7f, 0x45, 0x4c, 0x46]),
     Row("wireplumber", "boot/BOOT/WIREPLUMBER.BIN", [0x7f, 0x45, 0x4c, 0x46]),
     Row("cosmic-comp", "boot/BOOT/COSCOMP.BIN", [0x7f, 0x45, 0x4c, 0x46]),
     Row("cosmic-greeter", "boot/BOOT/COSGREETER.BIN", [0x7f, 0x45, 0x4c, 0x46]),
     Row("cosmic-session", "boot/BOOT/COSSESSION.BIN", [0x7f, 0x45, 0x4c, 0x46]),
     Row("xdg-desktop-portal-cosmic", "boot/BOOT/COSPORTAL.BIN", [0x7f, 0x45, 0x4c, 0x46])]
  }

  const MANIFEST := Row("manifest.json", "boot/BOOT/ARACH-MANIFEST.json", [])

  /** Where the artifact of row `i` is in activation order: the manifest comes fifth. */
  function Position(i: nat): nat {
    if i < 4 then i else i + 1
  }

  lemma TableIs(i: nat)
    requires i < 12
    ensures |Table()| == 12 && Table()[i].path == DESTINATIONS[Position(i)]
    ensures i < 4 ==> Table()[i].name == BASE_ARTIFACTS[i].name && Table()[i].header == BASE_ARTIFACTS[i].magic
    ensures 4 <= i ==>
      Table()[i].name == COSMIC_ARTIFACTS[i - 4].name && Table()[i].header == COSMIC_ARTIFACTS[i - 4].magic
    ensures MANIFEST.path == DESTINATIONS[4] == MANIFEST_PATH && MANIFEST.name == MANIFEST_NAME
  {
  }

  lemma TableHasTwelve()
    ensures |Table()| == 12
  {
  }

  /** The thirteen paths of the table are the ones a boot record may name. */
  lemma {:induction false} DestinationsAreTheTable(path: string)
    ensures |Table()| == 12
    ensures IsBootDestination(path) <==> path == MANIFEST.path || exists i | 0 <= i < 12 :: Table()[i].path == path
  {
    hide Table;
    TableHasTwelve();
    forall i | 0 <= i < 12
      ensures Table()[i].path == DESTINATIONS[Position(i)] && MANIFEST.path == DESTINATIONS[4]
    {
      TableIs(i);
    }
    assert MANIFEST.path == DESTINATIONS[4];
    if path in DESTINATIONS {
      var j :| 0 <= j < 13 && DESTINATIONS[j] == path;
      var i := if j < 4 then j else j - 1;
      assert j != 4 ==> 0 <= i < 12 && Position(i) == j;
    }
  }

  // ----------------------------------------------------------------- a whole bundle

  /** How a row is looked up: by its path once installed, by its name in a bundle. */
  function Key(row: Row, installed: bool): string {
    if installed then row.path else row.name
  }

  function Service(i: nat): Row
    requires i < 8 && |Table()| == 12
  {
    Table()[4 + i]
  }

  /** The regular files of a bundle directory. */
  function Nodes(root: map<string, Bytes>): map<string, Node> {
    map name | name in root :: Regular(root[name])
  }

  /** A bounded file with this header and this digest. */
  predicate Fits(env: Env, node: Node, header: Bytes, digest: string) {
    node.Regular? && |node.bytes| <= 33554432 && header <= node.bytes && Encode(env.sha(node.bytes)) == digest
  }

  predicate RowFits(env: Env, tree: map<string, Node>, installed: bool, i: nat, digest: string)
    requires i < |Table()|
  {
    Fits(env, At(tree, Key(Table()[i], installed)), Table()[i].header, digest)
  }

  /**
   * A whole bundle in a tree: a bounded manifest with this digest and schema 1, the four
   * base artifacts it measures, and either no service at all or all eight of them.
   */
  ghost predicate WholeBundle(env: Env, tree: map<string, Node>, installed: bool, digest: string)
    requires |Table()| == 12
  {
    var node := At(tree, Key(MANIFEST, installed));
    && node.Regular? && |node.bytes| <= 1048576 && Encode(env.sha(node.bytes)) == digest
    && env.parseManifest(node.bytes).Some?
    && var m := env.parseManifest(node.bytes).value;
       && m.schema == 1
       && (forall i | 0 <= i < 4 :: RowFits(env, tree, installed, i, m.base[i]))
       && ((forall i | 0 <= i < 8 :: m.cosmic[i].None?)
           || (forall i | 0 <= i < 8 ::
                 m.cosmic[i].Some? && RowFits(env, tree, installed, 4 + i, m.cosmic[i].value)))
  }

  lemma {:induction false} RowReadable(env: Env, root: map<string, Bytes>, i: nat, digest: string)
    requires i < 12
    ensures |Table()| == 12
    ensures RowFits(env, Nodes(root), false, i, digest) <==>
      ArtifactReadable(env, root, if i < 4 then BASE_ARTIFACTS[i] else COSMIC_ARTIFACTS[i - 4], digest)
    ensures RowFits(env, Nodes(root), false, i, digest) ==> ValidDigest(digest) && Table()[i].name in root
  {
    TableIs(i);
    if RowFits(env, Nodes(root), false, i, digest) {
      EncodeIsValid(env.sha(At(Nodes(root), Table()[i].name).bytes));
    }
  }

  /** A bundle is read exactly when it is whole, and what is read are its files, row by row. */
  lemma {:induction false} ReadsExactlyWholeBundles(env: Env, root: map<string, Bytes>)
    ensures |Table()| == 12
    ensures ReadBootBundle(env, root).Ok? <==>
      MANIFEST.name in root && WholeBundle(env, Nodes(root), false, Encode(env.sha(root[MANIFEST.name])))
    ensures ReadBootBundle(env, root).Ok? ==>
      var bundle := ReadBootBundle(env, root).value;
      && bundle.manifest == root[MANIFEST.name] && |bundle.base| == 4
      && (forall i | 0 <= i < 4 :: Table()[i].name in root && bundle.base[i] == root[Table()[i].name])
      && (if forall i | 0 <= i < 8 :: env.parseManifest(bundle.manifest).value.cosmic[i].None? then bundle.cosmic == []
          else |bundle.cosmic| == 8 && forall i | 0 <= i < 8 ::
                 Service(i).name in root && bundle.cosmic[i] == root[Service(i).name])
  {
    hide Table, RowFits, ArtifactReadable;
    TableHasTwelve();
    assert MANIFEST.name == MANIFEST_NAME;
    if MANIFEST_NAME in root && env.parseManifest(root[MANIFEST_NAME]).Some? {
      var m := env.parseManifest(root[MANIFEST_NAME]).value;
      forall i | 0 <= i < 4
        ensures RowFits(env, Nodes(root), false, i, m.base[i])
          <==> ArtifactReadable(env, root, BASE_ARTIFACTS[i], m.base[i])
        ensures RowFits(env, Nodes(root), false, i, m.base[i]) ==> ValidDigest(m.base[i]) && Table()[i].name in root
        ensures Table()[i].name == BASE_ARTIFACTS[i].name
      {
        RowReadable(env, root, i, m.base[i]);
        TableIs(i);
      }
      forall i | 0 <= i < 8 && m.cosmic[i].Some?
        ensures RowFits(env, Nodes(root), false, 4 + i, m.cosmic[i].value)
          <==> ArtifactReadable(env, root, COSMIC_ARTIFACTS[i], m.cosmic[i].value)
        ensures RowFits(env, Nodes(root), false, 4 + i, m.cosmic[i].value) ==> Table()[4 + i].name in root
        ensures Table()[4 + i].name == COSMIC_ARTIFACTS[i].name
      {
        RowReadable(env, root, 4 + i, m.cosmic[i].value);
        TableIs(4 + i);
      }
      var read := ReadBootBundle(env, root);
      if read.Ok? && !NoServices(m) {
        forall i | 0 <= i < 8
          ensures |read.value.cosmic| == 8 && Service(i).name in root
          ensures read.value.cosmic[i] == root[Service(i).name]
        {
          assert m.cosmic[i].Some? && ArtifactReadable(env, root, COSMIC_ARTIFACTS[i], m.cosmic[i].value);
        }
      }
    }
  }

  lemma {:induction false} RowInstalled(env: Env, boot: map<string, Node>, i: nat, digest: string)
    requires i < 12
    ensures |Table()| == 12
    ensures RowFits(env, boot, true, i, digest) <==>
      ArtifactInstalled(env, boot, Position(i),
        if i < 4 then BASE_ARTIFACTS[i].magic else COSMIC_ARTIFACTS[i - 4].magic, digest)
  {
    TableIs(i);
  }

  /** Re-hashing accepts exactly the trees in which the planned bundle is whole, path by path. */
  lemma {:induction false} VerifiesExactlyWholeBundles(env: Env, boot: map<string, Node>, plan: Plan)
    ensures |Table()| == 12
    ensures InstalledBundleVerifies(env, boot, plan) <==> WholeBundle(env, boot, true, plan.bootSha)
  {
    hide Table, RowFits, ArtifactInstalled;
    TableHasTwelve();
    assert MANIFEST.path == MANIFEST_PATH;
    if At(boot, MANIFEST_PATH).Regular? && env.parseManifest(At(boot, MANIFEST_PATH).bytes).Some? {
      var m := env.parseManifest(At(boot, MANIFEST_PATH).bytes).value;
      forall i | 0 <= i < 4
        ensures RowFits(env, boot, true, i, m.base[i]) <==> ArtifactInstalled(env, boot, i, BASE_ARTIFACTS[i].magic,
          m.base[i])
      {
        RowInstalled(env, boot, i, m.base[i]);
      }
      forall i | 0 <= i < 8 && m.cosmic[i].Some?
        ensures RowFits(env, boot, true, 4 + i, m.cosmic[i].value)
          <==> ArtifactInstalled(env, boot, 5 + i, COSMIC_ARTIFACTS[i].magic, m.cosmic[i].value)
      {
        RowInstalled(env, boot, 4 + i, m.cosmic[i].value);
      }
    }
  }

  /** The files of a bundle directory, each at its path. */
  ghost predicate Placed(root: map<string, Bytes>, boot: map<string, Node>)
    requires |Table()| == 12
  {
    && At(boot, MANIFEST.path) == At(Nodes(root), MANIFEST.name)
    && forall i | 0 <= i < 12 :: At(boot, Table()[i].path) == At(Nodes(root), Table()[i].name)
  }

  /** Reading a bundle and re-hashing it in place are one test. */
  lemma {:induction false} ReadableExactlyWhenVerifiableInPlace(env: Env, root: map<string, Bytes>,
                                                                boot: map<string, Node>, plan: Plan)
    requires |Table()| == 12 && Placed(root, boot)
    requires MANIFEST.name in root ==> plan.bootSha == Encode(env.sha(root[MANIFEST.name]))
    ensures ReadBootBundle(env, root).Ok? <==> InstalledBundleVerifies(env, boot, plan)
  {
    hide Table, ReadBootBundle, InstalledBundleVerifies;
    ReadsExactlyWholeBundles(env, root);
    VerifiesExactlyWholeBundles(env, boot, plan);
    if MANIFEST.name in root && env.parseManifest(root[MANIFEST.name]).Some? {
      var m := env.parseManifest(root[MANIFEST.name]).value;
      assert forall i, digest | 0 <= i < 12 ::
        RowFits(env, boot, true, i, digest) <==> RowFits(env, Nodes(root), false, i, digest);
    }
  }

  // ----------------------------------------------------------------- what an apply leaves

  /** Every path of the table holds the file of its row, and no other path has changed. */
  ghost predicate FilesInPlace(env: Env, root: map<string, Bytes>, before: map<string, Node>, after: map<string, Node>)
    requires |Table()| == 12 && MANIFEST.name in root && env.parseManifest(root[MANIFEST.name]).Some?
  {
    var services := exists i | 0 <= i < 8 :: env.parseManifest(root[MANIFEST.name]).value.cosmic[i].Some?;
    && At(after, MANIFEST.path) == Regular(root[MANIFEST.name])
    && (forall i | 0 <= i < 12 ::
          if i < 4 || services
          then Table()[i].name in root && At(after, Table()[i].path) == Regular(root[Table()[i].name])
          else At(after, Table()[i].path) == At(before, Table()[i].path))
    && (forall path | path != MANIFEST.path && (forall i | 0 <= i < 12 :: Table()[i].path != path) ::
          At(after, path) == At(before, path))
  }

  /** The files activation installs, in activation order, are the rows of the table. */
  lemma {:induction false} FilesOfTable(env: Env, root: map<string, Bytes>)
    requires ReadBootBundle(env, root).Ok?
    ensures |Table()| == 12 && MANIFEST.name in root && env.parseManifest(root[MANIFEST.name]).Some?
    ensures var files := FilesOf(ReadBootBundle(env, root).value);
      var services := exists i | 0 <= i < 8 :: env.parseManifest(root[MANIFEST.name]).value.cosmic[i].Some?;
      && |files| == (if services then 13 else 5)
      && files[4] == BootFile(MANIFEST.path, root[MANIFEST.name])
      && forall i | 0 <= i < 12 && (i < 4 || services) ::
           Table()[i].name in root && files[Position(i)] == BootFile(Table()[i].path, root[Table()[i].name])
  {
    hide Table, ReadBootBundle;
    ReadsExactlyWholeBundles(env, root);
    var bundle := ReadBootBundle(env, root).value;
    var services := exists i | 0 <= i < 8 :: env.parseManifest(root[MANIFEST.name]).value.cosmic[i].Some?;
    TableIs(0);
    forall i | 0 <= i < 12 && (i < 4 || services)
      ensures Table()[i].name in root
        && FilesOf(bundle)[Position(i)] == BootFile(Table()[i].path, root[Table()[i].name])
    {
      TableIs(i);
      assert i >= 4 ==> Service(i - 4) == Table()[i];
    }
  }

  /**
   * After a successful apply every artifact of the bundle lies at the path of its row, the
   * manifest at its own, and the rest of the tree is as it was.
   */
  lemma {:induction false} SuccessfulApplyInstallsTheTable(env: Env, target: string, d: Disk, root: map<string, Bytes>,
                                                           hardware: Option<HardwareInputs>, fault: Option<nat>)
    requires Installable(env, d) && SaneHardware(hardware)
    requires ApplyRun(env, target, d, root, hardware, fault).result.Ok?
    ensures |Table()| == 12 && MANIFEST.name in root && env.parseManifest(root[MANIFEST.name]).Some?
    ensures FilesInPlace(env, root, d.boot, Exec(d, ApplyRun(env, target, d, root, hardware, fault).writes).boot)
  {
    hide Table, ReadBootBundle, ApplyRun, ApplyChecks, FilesInPlace, FilesOf, Core;
    if ApplyChecks(env, d, root).Err? {
      RefusedApplyFails(env, target, d, root, hardware, fault);
    } else {
      AcceptedChecks(env, d, root);
      ApplyKeeps(env, target, d, root, hardware, fault);
      var s := SceneOf(env, target, d, ApplyChecks(env, d, root).value);
      FilesOfTable(env, root);
      BelowIsInPlace(env, root, s, Exec(d, ApplyRun(env, target, d, root, hardware, fault).writes).boot);
    }
  }

  lemma {:induction false} BelowIsInPlace(env: Env, root: map<string, Bytes>, s: Scene, after: map<string, Node>)
    requires ReadBootBundle(env, root).Ok? && s.files == FilesOf(ReadBootBundle(env, root).value)
    requires |Table()| == 12 && MANIFEST.name in root && env.parseManifest(root[MANIFEST.name]).Some?
    requires InstalledBelow(s, after, |s.files|)
    ensures FilesInPlace(env, root, s.pre.boot, after)
  {
    hide Table, ReadBootBundle, FilesOf;
    FilesOfTable(env, root);
    FilesOfDestinations(ReadBootBundle(env, root).value);
    var services := exists i | 0 <= i < 8 :: env.parseManifest(root[MANIFEST.name]).value.cosmic[i].Some?;
    forall path | path != MANIFEST.path && forall i | 0 <= i < 12 && (i < 4 || services) :: Table()[i].path != path
      ensures At(after, path) == At(s.pre.boot, path)
    {
      forall j | 0 <= j < |s.files|
        ensures s.files[j].destination != path
      {
        var i := if j < 4 then j else j - 1;
        assert j != 4 ==> 0 <= i < 12 && Position(i) == j && (i < 4 || services);
      }
    }
    forall i | 0 <= i < 12 && i >= 4 && !services
      ensures At(after, Table()[i].path) == At(s.pre.boot, Table()[i].path)
    {
      TableIs(i);
      DestinationsAreDistinct(4, Position(i));
      forall k | 0 <= k < 4
        ensures Table()[k].path != Table()[i].path
      {
        TableIs(k);
        DestinationsAreDistinct(k, Position(i));
      }
    }
  }
}
