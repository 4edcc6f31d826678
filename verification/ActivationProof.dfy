/** Boot activation keeps the invariant after each write; at most one entry is ever in flight. */
module ActivationProof {
  import opened Wrappers
  import opened Text
  import opened DigestCodec
  import opened Documents
  import opened BootBundle
  import opened Hardware
  import opened TargetDisk
  import opened Operations
  import opened CrashInvariant
  import opened UndoProof

  function WithBackups(d: Disk, id: string, backups: map<string, Bytes>): Disk {
    Updated(d, id, (c: Checkpoint) => c.(backups := backups))
  }

  lemma {:induction false} BackupNameIsInjective(i: nat, j: nat)
    requires BackupName(i) == BackupName(j)
    ensures i == j
  {
    var prefix := BACKUP_PREFIX + "file-";
    assert BackupName(i)[|prefix|..] == Decimal(i) && BackupName(j)[|prefix|..] == Decimal(j);
    DecimalIsInjective(i, j);
  }

  /** The destination can be replaced, and its old content is backed up. */
  ghost predicate Saved(s: Scene, backups: map<string, Bytes>, i: nat)
    requires i < |s.files|
  {
    match Old(s, i)
    case Absent => true
    case Regular(bytes) =>
      BackupName(i) in backups && backups[BackupName(i)] == bytes && |bytes| <= MAX_BOOT_ARTIFACT_BYTES
    case _ => false
  }

  ghost predicate SavedBelow(s: Scene, backups: map<string, Bytes>, n: nat) {
    forall i | 0 <= i < n && i < |s.files| :: Saved(s, backups, i)
  }

  lemma {:induction false} PutBackupKeeps(env: Env, s: Scene, d: Disk, i: nat, bytes: Bytes, n: nat)
    requires Core(env, s, -1, d) && Ckpt(s, d).record.NoRecord?
    requires n <= i && SavedBelow(s, Ckpt(s, d).backups, n)
    ensures var next := Perform(d, PutBackup(s.plan.id, BackupName(i), bytes));
      && Core(env, s, -1, next)
      && next == WithBackups(d, s.plan.id, Ckpt(s, d).backups[BackupName(i) := bytes])
      && SavedBelow(s, Ckpt(s, next).backups, n)
  {
    var next := Perform(d, PutBackup(s.plan.id, BackupName(i), bytes));
    forall j | 0 <= j < n && j < |s.files|
      ensures Saved(s, Ckpt(s, next).backups, j)
    {
      assert Saved(s, Ckpt(s, d).backups, j);
      if BackupName(j) == BackupName(i) {
        BackupNameIsInjective(j, i);
      }
    }
  }

  /** Backing up succeeds exactly when every destination is absent or a regular file within the limit. */
  ghost predicate Replaceable(s: Scene, i: nat)
    requires i < |s.files|
  {
    Old(s, i).Absent? || (Old(s, i).Regular? && |Old(s, i).bytes| <= MAX_BOOT_ARTIFACT_BYTES)
  }

  lemma {:induction false} SaveRunSucceeds(s: Scene, index: nat)
    requires index <= |s.files|
    ensures SaveRun(s.plan.id, s.pre.boot, map[], s.files, index).result.Ok?
      <==> forall i | index <= i < |s.files| :: Replaceable(s, i)
    decreases |s.files| - index
  {
    if index < |s.files| {
      SaveRunSucceeds(s, index + 1);
      assert (forall i | index <= i < |s.files| :: Replaceable(s, i))
        <==> Replaceable(s, index) && forall i | index + 1 <= i < |s.files| :: Replaceable(s, i);
    }
  }

  /** One backup: the empty file, then its content. */
  lemma {:induction false} SaveOneKeeps(env: Env, s: Scene, d: Disk, index: nat)
    requires Core(env, s, -1, d) && Ckpt(s, d).record.NoRecord? && index < |s.files|
    requires SavedBelow(s, Ckpt(s, d).backups, index)
    requires Replaceable(s, index) && Old(s, index).Regular?
    ensures var name, bytes := BackupName(index), Old(s, index).bytes;
      var writes := [PutBackup(s.plan.id, name, []), PutBackup(s.plan.id, name, bytes)];
      var after := Exec(d, writes);
      && Along(env, s, Exactly(-1), d, writes)
      && Core(env, s, -1, after)
      && after == WithBackups(d, s.plan.id, Ckpt(s, after).backups)
      && SavedBelow(s, Ckpt(s, after).backups, index + 1)
  {
    hide Core;
    CoreParts(env, s, -1, d);
    var name, bytes := BackupName(index), Old(s, index).bytes;
    var first, second := PutBackup(s.plan.id, name, []), PutBackup(s.plan.id, name, bytes);
    PutBackupKeeps(env, s, d, index, [], index);
    AlongOne(env, s, Exactly(-1), d, first);
    var d1 := Perform(d, first);
    PutBackupKeeps(env, s, d1, index, bytes, index);
    AlongOne(env, s, Exactly(-1), d1, second);
    AlongConcat(env, s, Exactly(-1), d, [first], [second]);
    ExecConcat(d, [first], [second]);
    assert [first] + [second] == [first, second];
    assert Saved(s, Ckpt(s, Perform(d1, second)).backups, index);
  }

  lemma {:induction false} SaveRunKeeps(env: Env, s: Scene, d: Disk, index: nat)
    requires Core(env, s, -1, d) && Ckpt(s, d).record.NoRecord? && index <= |s.files|
    requires SavedBelow(s, Ckpt(s, d).backups, index)
    ensures var run := SaveRun(s.plan.id, s.pre.boot, map[], s.files, index);
      var after := Exec(d, run.writes);
      && Along(env, s, Exactly(-1), d, run.writes)
      && Core(env, s, -1, after)
      && after == WithBackups(d, s.plan.id, Ckpt(s, after).backups)
      && (run.result.Ok? ==> SavedBelow(s, Ckpt(s, after).backups, |s.files|))
    decreases |s.files| - index
  {
    hide Core;
    CoreParts(env, s, -1, d);
    assert d == WithBackups(d, s.plan.id, Ckpt(s, d).backups);
    if index < |s.files| && Replaceable(s, index) {
      if Old(s, index).Absent? {
        assert Saved(s, Ckpt(s, d).backups, index);
        SaveRunKeeps(env, s, d, index + 1);
      } else {
        var name, bytes := BackupName(index), Old(s, index).bytes;
        var writes := [PutBackup(s.plan.id, name, []), PutBackup(s.plan.id, name, bytes)];
        SaveOneKeeps(env, s, d, index);
        var d1 := Exec(d, writes);
        SaveRunKeeps(env, s, d1, index + 1);
        var rest := SaveRun(s.plan.id, s.pre.boot, map[], s.files, index + 1);
        AlongConcat(env, s, Exactly(-1), d, writes, rest.writes);
        ExecConcat(d, writes, rest.writes);
      }
    }
  }

  // ----------------------------------------------------------------- the record

  lemma TearRecordKeeps(env: Env, s: Scene, d: Disk)
    requires Core(env, s, -1, d) && Ckpt(s, d).record.NoRecord?
    requires Ckpt(s, d).journal.status == CorinthPublished
    ensures Core(env, s, -1, Perform(d, TearRecord(s.plan.id)))
  {
  }

  /** The tree when the first `installed` files are in place. */
  ghost predicate InstalledBelow(s: Scene, boot: map<string, Node>, installed: nat) {
    && OthersUntouched(s, boot)
    && forall i | 0 <= i < |s.files| ::
         At(boot, s.files[i].destination) == if i < installed then Regular(s.files[i].bytes) else Old(s, i)
  }

  /** A record with `marked` marks over a tree with `installed` files fits, if at most one rename is ahead or behind. */
  lemma {:induction false} RecordFits(env: Env, s: Scene, boot: map<string, Node>, backups: map<string, Bytes>,
                   marked: nat, installed: nat, complete: bool)
    requires SavedBelow(s, backups, |s.files|) && InstalledBelow(s, boot, installed)
    requires marked <= |s.files| && installed <= |s.files|
    requires installed <= marked + 1
    ensures RecordHolds(s, if installed == marked + 1 then marked else -1, boot, backups,
                        RecordWith(s.plan, s.pre.boot, s.files, marked, complete))
  {
    var r := RecordWith(s.plan, s.pre.boot, s.files, marked, complete);
    var k := if installed == marked + 1 then marked else -1;
    forall i | 0 <= i < |s.files|
      ensures EntryHolds(s, k, boot, backups, r.entries[i], i)
    {
      assert Saved(s, backups, i);
      assert r.entries[i] == EntryFor(s.pre.boot, s.files, i, i < marked);
    }
  }

  /** What stays the same from the first record write on. */
  ghost predicate Activating(env: Env, s: Scene, d: Disk) {
    && s.plan.id in d.checkpoints
    && d.checkpoints == s.pre.checkpoints[s.plan.id := d.checkpoints[s.plan.id]]
    && CheckpointHolds(env, s, Ckpt(s, d)) && Ckpt(s, d).journal.published
    && StoreHolds(s, d.store, Ckpt(s, d).journal.status)
    && RuntimeHolds(env, s, d.runtime, Ckpt(s, d).journal)
    && SavedBelow(s, Ckpt(s, d).backups, |s.files|)
  }

  ghost predicate Progress(env: Env, s: Scene, d: Disk, marked: nat, installed: nat, complete: bool) {
    && Activating(env, s, d)
    && marked <= |s.files| && installed <= |s.files| && installed <= marked + 1
    && Ckpt(s, d).record == Whole(RecordWith(s.plan, s.pre.boot, s.files, marked, complete))
    && InstalledBelow(s, d.boot, installed)
  }

  lemma {:induction false} ProgressIsCore(env: Env, s: Scene, d: Disk, marked: nat, installed: nat, complete: bool)
    requires Progress(env, s, d, marked, installed, complete)
    ensures Core(env, s, if installed == marked + 1 then marked else -1, d)
    ensures Holds(env, s, Somewhere, d)
  {
    hide RecordHolds, RecordWith, CheckpointHolds, InstalledBelow, SavedBelow;
    RecordFits(env, s, d.boot, Ckpt(s, d).backups, marked, installed, complete);
  }

  lemma PutRecordProgress(env: Env, s: Scene, d: Disk, marked: nat, complete: bool)
    requires Activating(env, s, d) && marked <= |s.files|
    requires exists installed: nat ::
      installed <= marked + 1 && installed <= |s.files| && InstalledBelow(s, d.boot, installed)
    ensures var next := Perform(d, PutRecord(s.plan.id, RecordWith(s.plan, s.pre.boot, s.files, marked, complete)));
      && Activating(env, s, next) && next.boot == d.boot
      && Ckpt(s, next).record == Whole(RecordWith(s.plan, s.pre.boot, s.files, marked, complete))
      && Ckpt(s, next) == Ckpt(s, d).(record := Ckpt(s, next).record)
  {
    hide SavedBelow, InstalledBelow, RecordWith;
  }

  lemma {:induction false} PutBootProgress(env: Env, s: Scene, d: Disk, index: nat)
    requires Setting(s) && Activating(env, s, d) && index < |s.files| && InstalledBelow(s, d.boot, index)
    ensures var next := Perform(d, PutBoot(s.files[index].destination, Regular(s.files[index].bytes)));
      Activating(env, s, next) && InstalledBelow(s, next.boot, index + 1) && next.checkpoints == d.checkpoints
  {
    var next := Perform(d, PutBoot(s.files[index].destination, Regular(s.files[index].bytes)));
    forall i | 0 <= i < |s.files|
      ensures At(next.boot, s.files[i].destination) == if i < index + 1 then Regular(s.files[i].bytes) else Old(s, i)
    {
      if i != index {
        assert s.files[i].destination != s.files[index].destination;
      }
    }
    forall path | !IsDestination(s, path)
      ensures At(next.boot, path) == At(s.pre.boot, path)
    {
      assert path != s.files[index].destination;
    }
  }

  // ----------------------------------------------------------------- before activation

  /** Writes before activation, none of which activation looks at. */
  ghost predicate BeforeActivation(writes: seq<Write>) {
    forall w | w in writes :: w.PutJournal? || w.PutRuntime? || w.AddReceipt? || w.OpenStore? || w.Publish?
  }

  lemma {:induction false} BeforeActivationLeaves(d: Disk, id: string, writes: seq<Write>)
    requires BeforeActivation(writes) && id in d.checkpoints
    ensures var after := Exec(d, writes);
      && id in after.checkpoints && after.boot == d.boot
      && after.checkpoints[id].record == d.checkpoints[id].record
      && after.checkpoints[id].backups == d.checkpoints[id].backups
      && ((forall w | w in writes :: !w.OpenStore? && !w.Publish?) ==> after.store == d.store)
    decreases writes
  {
    if writes != [] {
      assert writes[0] in writes;
      BeforeActivationLeaves(Perform(d, writes[0]), id, writes[1..]);
    }
  }

  lemma HardwareRunIsBeforeActivation(plan: Plan, journal: Journal, hardware: Option<HardwareInputs>)
    ensures var writes := HardwareRun(plan, journal, hardware).writes;
      BeforeActivation(writes) && forall w | w in writes :: !w.OpenStore? && !w.Publish?
  {
    hide Ordered, Agreeing, InstallOrder, ExpectedPackages, AnnouncedJournal;
  }

  // ----------------------------------------------------------------- rename, then mark

  /** One file: renamed into place, then marked. */
  lemma {:induction false} InstallOne(env: Env, s: Scene, d: Disk, index: nat)
    requires Setting(s) && Progress(env, s, d, index, index, false) && index < |s.files|
    ensures var writes := [PutBoot(s.files[index].destination, Regular(s.files[index].bytes)),
                           PutRecord(s.plan.id, RecordWith(s.plan, s.pre.boot, s.files, index + 1, false))];
      && Along(env, s, Somewhere, d, writes)
      && Progress(env, s, Exec(d, writes), index + 1, index + 1, false)
  {
    hide Holds, Setting, Activating, InstalledBelow, RecordWith, Along;
    ProgressIsCore(env, s, d, index, index, false);
    var rename := PutBoot(s.files[index].destination, Regular(s.files[index].bytes));
    var mark := PutRecord(s.plan.id, RecordWith(s.plan, s.pre.boot, s.files, index + 1, false));
    PutBootProgress(env, s, d, index);
    var d1 := Perform(d, rename);
    ProgressIsCore(env, s, d1, index, index + 1, false);
    AlongOne(env, s, Somewhere, d, rename);
    PutRecordProgress(env, s, d1, index + 1, false);
    var d2 := Perform(d1, mark);
    ProgressIsCore(env, s, d2, index + 1, index + 1, false);
    AlongOne(env, s, Somewhere, d1, mark);
    AlongConcat(env, s, Somewhere, d, [rename], [mark]);
    assert [rename] + [mark] == [rename, mark];
    assert Exec(d, [rename]) == d1 && Exec(d1, [mark]) == d2;
    ExecConcat(d, [rename], [mark]);
  }

  lemma {:induction false} InstallKeeps(env: Env, s: Scene, d: Disk, index: nat)
    requires Setting(s) && Progress(env, s, d, index, index, false)
    ensures var writes := InstallWrites(s.plan, s.pre.boot, s.files, index);
      && Along(env, s, Somewhere, d, writes)
      && Progress(env, s, Exec(d, writes), |s.files|, |s.files|, true)
    decreases |s.files| - index
  {
    hide Holds, Setting, Activating, InstalledBelow, RecordWith;
    ProgressIsCore(env, s, d, index, index, false);
    assert Activating(env, s, d);
    if index == |s.files| {
      var last := PutRecord(s.plan.id, RecordWith(s.plan, s.pre.boot, s.files, index, true));
      PutRecordProgress(env, s, d, index, true);
      ProgressIsCore(env, s, Perform(d, last), index, index, true);
      AlongOne(env, s, Somewhere, d, last);
    } else {
      var one := [PutBoot(s.files[index].destination, Regular(s.files[index].bytes)),
                  PutRecord(s.plan.id, RecordWith(s.plan, s.pre.boot, s.files, index + 1, false))];
      var rest := InstallWrites(s.plan, s.pre.boot, s.files, index + 1);
      InstallOne(env, s, d, index);
      InstallKeeps(env, s, Exec(d, one), index + 1);
      AlongConcat(env, s, Somewhere, d, one, rest);
      ExecConcat(d, one, rest);
    }
  }

  /** From a published installation with nothing of its activation on disk yet. */
  ghost predicate ReadyToActivate(env: Env, s: Scene, d: Disk) {
    && Core(env, s, -1, d)
    && Ckpt(s, d).record.NoRecord? && Ckpt(s, d).backups == map[]
    && Ckpt(s, d).journal.status == CorinthPublished
    && d.boot == s.pre.boot
  }

  lemma TornBecomesRecord(env: Env, s: Scene, d: Disk)
    requires Core(env, s, -1, d) && Ckpt(s, d).record.Torn? && SavedBelow(s, Ckpt(s, d).backups, |s.files|)
    ensures Progress(env, s,
      Perform(d, PutRecord(s.plan.id, RecordWith(s.plan, s.pre.boot, s.files, 0, false))), 0, 0, false)
  {
    hide RecordWith, ReachableMutations, HardwareFileOk, SavedBelow;
  }

  /**
   * Activation keeps the invariant whatever write it stops after. It succeeds exactly
   * when every destination is absent or a regular file within the size limit, and then
   * every file is installed and marked.
   */
  lemma {:induction false} ActivationKeeps(env: Env, s: Scene, d: Disk)
    requires Setting(s) && ReadyToActivate(env, s, d)
    ensures var run := ActivationRun(d, s.plan, s.files);
      && Along(env, s, Somewhere, d, run.writes)
      && (run.result.Ok? <==> forall i | 0 <= i < |s.files| :: Replaceable(s, i))
      && (run.result.Ok? ==> Progress(env, s, Exec(d, run.writes), |s.files|, |s.files|, true))
  {
    hide Core, Setting, Holds, RecordWith, Progress, SavedBelow;
    CoreParts(env, s, -1, d);
    assert SavedBelow(s, map[], 0) by { NothingSaved(s); }
    SaveRunKeeps(env, s, d, 0);
    SaveRunSucceeds(s, 0);
    var save := SaveRun(s.plan.id, s.pre.boot, map[], s.files, 0);
    AlongWeakens(env, s, -1, d, save.writes);
    if save.result.Ok? {
      var d1 := Exec(d, save.writes);
      var tear := TearRecord(s.plan.id);
      TearRecordKeeps(env, s, d1);
      var d2 := Perform(d1, tear);
      HoldsSomewhere(env, s, -1, d1);
      HoldsSomewhere(env, s, -1, d2);
      AlongOne(env, s, Somewhere, d1, tear);
      var create := PutRecord(s.plan.id, RecordWith(s.plan, s.pre.boot, s.files, 0, false));
      TornBecomesRecord(env, s, d2);
      var d3 := Perform(d2, create);
      ProgressIsCore(env, s, d3, 0, 0, false);
      AlongOne(env, s, Somewhere, d2, create);
      InstallKeeps(env, s, d3, 0);
      var rest := InstallWrites(s.plan, s.pre.boot, s.files, 0);
      AlongConcat(env, s, Somewhere, d2, [create], rest);
      ExecConcat(d2, [create], rest);
      AlongConcat(env, s, Somewhere, d1, [tear], [create] + rest);
      ExecConcat(d1, [tear], [create] + rest);
      AlongConcat(env, s, Somewhere, d, save.writes, [tear] + ([create] + rest));
      ExecConcat(d, save.writes, [tear] + ([create] + rest));
      assert [tear] + ([create] + rest) == [tear, create] + rest;
    }
  }

  lemma NothingSaved(s: Scene)
    ensures SavedBelow(s, map[], 0)
  {
  }

  lemma HoldsSomewhere(env: Env, s: Scene, k: int, d: Disk)
    requires Core(env, s, k, d)
    ensures Holds(env, s, Somewhere, d)
  {
  }

  // ----------------------------------------------------------------- mark, then rename

  /** The same activation with each mark made durable before its rename; the installer does not do this. */
  function MarkFirstWrites(plan: Plan, boot: map<string, Node>, files: seq<BootFile>, index: nat): seq<Write>
    decreases |files| - index
  {
    if index >= |files| then [PutRecord(plan.id, RecordWith(plan, boot, files, |files|, true))]
    else
      [PutRecord(plan.id, RecordWith(plan, boot, files, index + 1, false)),
       PutBoot(files[index].destination, Regular(files[index].bytes))]
      + MarkFirstWrites(plan, boot, files, index + 1)
  }

  /** Marking first, no entry is ever in flight, so rollback restores every destination. */
  lemma {:induction false} MarkFirstKeeps(env: Env, s: Scene, d: Disk, index: nat)
    requires Setting(s) && Progress(env, s, d, index, index, false)
    ensures Along(env, s, Exactly(-1), d, MarkFirstWrites(s.plan, s.pre.boot, s.files, index))
    decreases |s.files| - index
  {
    hide Core, Setting, Activating, InstalledBelow, RecordWith;
    ProgressIsCore(env, s, d, index, index, false);
    assert Activating(env, s, d);
    if index == |s.files| {
      var last := PutRecord(s.plan.id, RecordWith(s.plan, s.pre.boot, s.files, index, true));
      PutRecordProgress(env, s, d, index, true);
      ProgressIsCore(env, s, Perform(d, last), index, index, true);
      AlongOne(env, s, Exactly(-1), d, last);
    } else {
      var mark := PutRecord(s.plan.id, RecordWith(s.plan, s.pre.boot, s.files, index + 1, false));
      var rename := PutBoot(s.files[index].destination, Regular(s.files[index].bytes));
      PutRecordProgress(env, s, d, index + 1, false);
      var d1 := Perform(d, mark);
      ProgressIsCore(env, s, d1, index + 1, index, false);
      AlongOne(env, s, Exactly(-1), d, mark);
      PutBootProgress(env, s, d1, index);
      var d2 := Perform(d1, rename);
      ProgressIsCore(env, s, d2, index + 1, index + 1, false);
      AlongOne(env, s, Exactly(-1), d1, rename);
      MarkFirstKeeps(env, s, d2, index + 1);
      var rest := MarkFirstWrites(s.plan, s.pre.boot, s.files, index + 1);
      AlongConcat(env, s, Exactly(-1), d1, [rename], rest);
      AlongConcat(env, s, Exactly(-1), d, [mark], [rename] + rest);
      assert [mark] + ([rename] + rest) == [mark, rename] + rest;
    }
  }
}
