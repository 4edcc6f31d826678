/** Which boot file is in flight at every crash point of activation and of the whole apply. */
module ActivationCuts {
  import opened Documents
  import opened BootBundle
  import opened TargetDisk
  import opened Operations
  import opened CrashInvariant
  import opened UndoProof
  import opened ActivationProof

  /** The entry in flight after `cut` writes of the install loop: one between each rename and its mark. */
  function InFlightAfter(files: nat, index: nat, cut: nat): int {
    if cut % 2 == 1 && index + cut / 2 < files then index + cut / 2 else -1
  }

  lemma InFlightBetween(files: nat, i: nat)
    requires i < files
    ensures InFlightAfter(files, 0, 2 * i + 1) == i
  {
  }

  /** Exactly the crash points between a rename and its mark leave an entry in flight. */
  lemma {:induction false} InFlightAtCut(env: Env, s: Scene, d: Disk, index: nat, cut: nat)
    requires Setting(s) && Progress(env, s, d, index, index, false)
    requires cut <= |InstallWrites(s.plan, s.pre.boot, s.files, index)|
    ensures var writes := InstallWrites(s.plan, s.pre.boot, s.files, index);
      Core(env, s, InFlightAfter(|s.files|, index, cut), Exec(d, writes[..cut]))
    decreases |s.files| - index
  {
    hide Core, Setting, Activating, InstalledBelow, RecordWith;
    var writes := InstallWrites(s.plan, s.pre.boot, s.files, index);
    ProgressIsCore(env, s, d, index, index, false);
    assert Activating(env, s, d);
    if cut > 0 && index == |s.files| {
      var last := PutRecord(s.plan.id, RecordWith(s.plan, s.pre.boot, s.files, index, true));
      PutRecordProgress(env, s, d, index, true);
      ProgressIsCore(env, s, Perform(d, last), index, index, true);
      assert writes[..cut] == [last];
      ExecOne(d, last);
    } else if cut > 0 {
      var rename := PutBoot(s.files[index].destination, Regular(s.files[index].bytes));
      var mark := PutRecord(s.plan.id, RecordWith(s.plan, s.pre.boot, s.files, index + 1, false));
      var rest := InstallWrites(s.plan, s.pre.boot, s.files, index + 1);
      if cut == 1 {
        PutBootProgress(env, s, d, index);
        ProgressIsCore(env, s, Perform(d, rename), index, index + 1, false);
        assert writes[..cut] == [rename];
        ExecOne(d, rename);
      } else {
        InstallOne(env, s, d, index);
        assert writes[..cut] == [rename, mark] + rest[..cut - 2];
        ExecConcat(d, [rename, mark], rest[..cut - 2]);
        InFlightAtCut(env, s, Exec(d, [rename, mark]), index + 1, cut - 2);
      }
    }
  }

  lemma {:induction false} ExecOne(d: Disk, w: Write)
    ensures Exec(d, [w]) == Perform(d, w)
  {
    assert [w][1..] == [];
  }

  lemma {:induction false} InstallLength(s: Scene, index: nat)
    requires index <= |s.files|
    ensures |InstallWrites(s.plan, s.pre.boot, s.files, index)| == 2 * (|s.files| - index) + 1
    decreases |s.files| - index
  {
    hide RecordWith;
    if index < |s.files| {
      InstallLength(s, index + 1);
    }
  }

  lemma {:induction false} InstallNeverTears(plan: Plan, boot: map<string, Node>, files: seq<BootFile>, index: nat)
    ensures forall w | w in InstallWrites(plan, boot, files, index) :: w.PutRecord? || w.PutBoot?
    decreases |files| - index
  {
    hide RecordWith;
    if index < |files| {
      InstallNeverTears(plan, boot, files, index + 1);
    }
  }

  lemma {:induction false} WholeStays(s: Scene, d: Disk, writes: seq<Write>)
    requires s.plan.id in d.checkpoints && Ckpt(s, d).record.Whole?
    requires forall w | w in writes :: w.PutRecord? || w.PutBoot?
    ensures s.plan.id in Exec(d, writes).checkpoints && Ckpt(s, Exec(d, writes)).record.Whole?
    decreases writes
  {
    if writes != [] {
      assert writes[0] in writes;
      WholeStays(s, Perform(d, writes[0]), writes[1..]);
    }
  }

  // ----------------------------------------------------------------- every cut of activation

  /** The entry in flight after `cut` writes of activation: none before the record, then as in the install loop. */
  function ActivationInFlight(id: string, boot: map<string, Node>, files: seq<BootFile>, cut: nat): int {
    var save := SaveRun(id, boot, map[], files, 0);
    if save.result.Err? || cut <= |save.writes| + 2 then -1
    else InFlightAfter(|files|, 0, cut - |save.writes| - 2)
  }

  ghost predicate RecordAt(save: Run, cut: nat, record: RecordFile) {
    && (record.NoRecord? <==> save.result.Err? || cut <= |save.writes|)
    && (record.Torn? <==> save.result.Ok? && cut == |save.writes| + 1)
  }

  /**
   * After every number of writes of activation: which entry is in flight, whether the
   * record is absent, torn or whole, and that nothing has changed before it exists.
   */
  lemma {:induction false} ActivationAtCut(env: Env, s: Scene, d: Disk, cut: nat)
    requires Setting(s) && ReadyToActivate(env, s, d)
    requires cut <= |ActivationRun(d, s.plan, s.files).writes|
    ensures var crashed := Exec(d, ActivationRun(d, s.plan, s.files).writes[..cut]);
      var save := SaveRun(s.plan.id, s.pre.boot, map[], s.files, 0);
      && Core(env, s, ActivationInFlight(s.plan.id, s.pre.boot, s.files, cut), crashed)
      && s.plan.id in crashed.checkpoints && RecordAt(save, cut, Ckpt(s, crashed).record)
      && (save.result.Err? || cut <= |save.writes| + 2 ==> crashed.boot == s.pre.boot)
  {
    hide Core, Setting, Along, SaveRun, ActivationRun, ReadyToActivate, SaveLog, InstallWrites;
    var save := SaveRun(s.plan.id, s.pre.boot, map[], s.files, 0);
    ActivationShape(env, s, d);
    if cut <= |save.writes| {
      CutWhileSaving(env, s, d, cut);
      assert ActivationRun(d, s.plan, s.files).writes[..cut] == save.writes[..cut];
    } else {
      var torn, recorded := Exec(d, save.writes + [TearRecord(s.plan.id)]), RecordedDisk(s, d);
      RecordAppears(env, s, d);
      if cut == |save.writes| + 1 {
        assert ActivationRun(d, s.plan, s.files).writes[..cut] == save.writes + [TearRecord(s.plan.id)];
      } else {
        var n := cut - |save.writes| - 2;
        var rest := InstallWrites(s.plan, s.pre.boot, s.files, 0);
        assert ActivationRun(d, s.plan, s.files).writes[..cut] == SaveLog(s) + rest[..n];
        ExecConcat(d, SaveLog(s), rest[..n]);
        InFlightAtCut(env, s, recorded, 0, n);
        WholeFromHere(env, s, recorded, n);
        assert n == 0 ==> rest[..n] == [];
      }
    }
  }

  /** All writes up to and including the first whole record. */
  ghost function SaveLog(s: Scene): seq<Write> {
    SaveRun(s.plan.id, s.pre.boot, map[], s.files, 0).writes
    + [TearRecord(s.plan.id), PutRecord(s.plan.id, RecordWith(s.plan, s.pre.boot, s.files, 0, false))]
  }

  ghost function RecordedDisk(s: Scene, d: Disk): Disk {
    Exec(d, SaveLog(s))
  }

  lemma {:induction false} ActivationShape(env: Env, s: Scene, d: Disk)
    requires ReadyToActivate(env, s, d)
    ensures var save := SaveRun(s.plan.id, s.pre.boot, map[], s.files, 0);
      var run := ActivationRun(d, s.plan, s.files);
      && (save.result.Err? ==> run == save)
      && (save.result.Ok? ==>
        run.result.Ok? && run.writes == SaveLog(s) + InstallWrites(s.plan, s.pre.boot, s.files, 0))
      && |SaveLog(s)| == |save.writes| + 2
      && SaveLog(s)[..|save.writes|] == save.writes
      && SaveLog(s)[..|save.writes| + 1] == save.writes + [TearRecord(s.plan.id)]
  {
    hide Core, SaveRun, InstallWrites, RecordWith;
    CoreParts(env, s, -1, d);
  }

  lemma {:induction false} CutWhileSaving(env: Env, s: Scene, d: Disk, cut: nat)
    requires Setting(s) && ReadyToActivate(env, s, d)
    requires cut <= |SaveRun(s.plan.id, s.pre.boot, map[], s.files, 0).writes|
    ensures var crashed := Exec(d, SaveRun(s.plan.id, s.pre.boot, map[], s.files, 0).writes[..cut]);
      Core(env, s, -1, crashed) && s.plan.id in crashed.checkpoints && Ckpt(s, crashed).record.NoRecord?
      && crashed.boot == s.pre.boot
  {
    hide Core, Setting, SaveRun;
    CoreParts(env, s, -1, d);
    NothingSaved(s);
    SaveRunKeeps(env, s, d, 0);
    AlongPrefix(env, s, Exactly(-1), d, SaveRun(s.plan.id, s.pre.boot, map[], s.files, 0).writes, cut);
    SavingLeaves(env, s, d, cut);
  }

  /** The two writes that create the record. */
  lemma {:induction false} RecordAppears(env: Env, s: Scene, d: Disk)
    requires Setting(s) && ReadyToActivate(env, s, d)
    requires SaveRun(s.plan.id, s.pre.boot, map[], s.files, 0).result.Ok?
    ensures var torn := Exec(d, SaveRun(s.plan.id, s.pre.boot, map[], s.files, 0).writes + [TearRecord(s.plan.id)]);
      && Core(env, s, -1, torn) && s.plan.id in torn.checkpoints && Ckpt(s, torn).record.Torn?
      && torn.boot == s.pre.boot
    ensures Progress(env, s, RecordedDisk(s, d), 0, 0, false) && RecordedDisk(s, d).boot == s.pre.boot
  {
    hide Core, Setting, SaveRun, Progress, SavedBelow, RecordWith;
    CoreParts(env, s, -1, d);
    NothingSaved(s);
    SaveRunKeeps(env, s, d, 0);
    var save := SaveRun(s.plan.id, s.pre.boot, map[], s.files, 0).writes;
    assert save[..|save|] == save;
    CutWhileSaving(env, s, d, |save|);
    var d1 := Exec(d, save);
    var tear, create := TearRecord(s.plan.id), PutRecord(s.plan.id, RecordWith(s.plan, s.pre.boot, s.files, 0, false));
    TearRecordKeeps(env, s, d1);
    TornNow(s, d1);
    TornBecomesRecord(env, s, Perform(d1, tear));
    ExecAppend(d, save, tear);
    ExecAppend(d, save + [tear], create);
    assert save + [tear] + [create] == SaveLog(s);
  }

  lemma {:induction false} SavingLeaves(env: Env, s: Scene, d: Disk, cut: nat)
    requires ReadyToActivate(env, s, d) && cut <= |SaveRun(s.plan.id, s.pre.boot, map[], s.files, 0).writes|
    ensures var crashed := Exec(d, SaveRun(s.plan.id, s.pre.boot, map[], s.files, 0).writes[..cut]);
      s.plan.id in crashed.checkpoints && Ckpt(s, crashed).record.NoRecord? && crashed.boot == s.pre.boot
  {
    hide Core, SaveRun;
    CoreParts(env, s, -1, d);
    var writes := SaveRun(s.plan.id, s.pre.boot, map[], s.files, 0).writes;
    OnlyBackups(s.plan.id, s.pre.boot, s.files, 0);
    BackupsLeave(s, d, writes[..cut]);
  }

  lemma {:induction false} OnlyBackups(id: string, boot: map<string, Node>, files: seq<BootFile>, index: nat)
    ensures forall w | w in SaveRun(id, boot, map[], files, index).writes :: w.PutBackup?
    decreases |files| - index
  {
    if index < |files| {
      OnlyBackups(id, boot, files, index + 1);
    }
  }

  lemma {:induction false} BackupsLeave(s: Scene, d: Disk, writes: seq<Write>)
    requires s.plan.id in d.checkpoints && forall w | w in writes :: w.PutBackup?
    ensures var after := Exec(d, writes);
      s.plan.id in after.checkpoints && Ckpt(s, after).record == Ckpt(s, d).record && after.boot == d.boot
    decreases writes
  {
    if writes != [] {
      assert writes[0] in writes;
      BackupsLeave(s, Perform(d, writes[0]), writes[1..]);
    }
  }

  lemma TornNow(s: Scene, d: Disk)
    requires s.plan.id in d.checkpoints
    ensures var torn := Perform(d, TearRecord(s.plan.id));
      && s.plan.id in torn.checkpoints && Ckpt(s, torn).record.Torn? && torn.boot == d.boot
      && Ckpt(s, torn).backups == Ckpt(s, d).backups
  {
  }

  lemma {:induction false} WholeFromHere(env: Env, s: Scene, d: Disk, n: nat)
    requires Progress(env, s, d, 0, 0, false) && n <= |InstallWrites(s.plan, s.pre.boot, s.files, 0)|
    ensures var crashed := Exec(d, InstallWrites(s.plan, s.pre.boot, s.files, 0)[..n]);
      s.plan.id in crashed.checkpoints && Ckpt(s, crashed).record.Whole?
  {
    hide RecordWith, InstalledBelow, SavedBelow, CheckpointHolds, InstallWrites;
    InstallNeverTears(s.plan, s.pre.boot, s.files, 0);
    WholeStays(s, d, InstallWrites(s.plan, s.pre.boot, s.files, 0)[..n]);
  }
}
