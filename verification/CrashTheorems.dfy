/** What the invariant gives: the safety theorems about whole runs of one installation. */
module CrashTheorems {
  import opened Wrappers
  import opened DigestCodec
  import opened Documents
  import opened BootBundle
  import opened Hardware
  import opened TargetDisk
  import opened Operations
  import opened CrashInvariant
  import opened UndoProof
  import opened ActivationProof
  import opened ActivationCuts
  import opened ApplyProof
  import opened ApplyCuts
  import opened CrashSafety

  /** The boot tree of `d0`, except that this file, if any, has its new contents. */
  ghost predicate BootIs(d0: Disk, file: Option<BootFile>, boot: map<string, Node>) {
    forall path :: At(boot, path) ==
      if file.Some? && file.value.destination == path then Regular(file.value.bytes) else At(d0.boot, path)
  }

  /** Rolled back on record, no package left, the old generation active, the old boot tree but for this file. */
  ghost predicate UndoneOnDisk(d0: Disk, id: string, file: Option<BootFile>, d: Disk) {
    && id in d.checkpoints
    && d.checkpoints[id].journal.status == RolledBack
    && d.checkpoints[id].receipts == {}
    && d.store.active == d0.store.active
    && BootIs(d0, file, d.boot)
  }

  /** A tree that is the old one but for the entry in flight, as a tree with one new file. */
  lemma {:induction false} OneFileInFlight(s: Scene, k: int, d0: Disk, boot: map<string, Node>)
    requires OldExceptInFlight(s, k, boot) && -1 <= k < |s.files| && s.pre.boot == d0.boot
    requires DistinctFiles(s.files)
    ensures BootIs(d0, FileAt(s.files, k), boot)
  {
    forall path
      ensures At(boot, path) ==
        if k >= 0 && s.files[k].destination == path then Regular(s.files[k].bytes) else At(d0.boot, path)
    {
      if IsDestination(s, path) {
        var i :| 0 <= i < |s.files| && s.files[i].destination == path;
        assert At(boot, path) == Unmarked(s, k, i);
        assert k >= 0 && s.files[k].destination == path ==> k == i;
      }
    }
  }

  lemma {:induction false} UndoneIsUndone(env: Env, s: Scene, k: int, d0: Disk, d: Disk)
    requires Setting(s) && Core(env, s, k, d) && Ckpt(s, d).journal.status == RolledBack
    requires s.pre.boot == d0.boot && s.pre.store == d0.store
    ensures UndoneOnDisk(d0, s.plan.id, FileAt(s.files, k), d)
  {
    hide CheckpointHolds, BootIs;
    RolledBackFacts(env, s, k, d);
    OneFileInFlight(s, k, d0, d.boot);
  }

  lemma RolledBackFacts(env: Env, s: Scene, k: int, d: Disk)
    requires Core(env, s, k, d) && Ckpt(s, d).journal.status == RolledBack
    ensures ReceiptsHold(Ckpt(s, d)) && !Ckpt(s, d).journal.published
    ensures OldExceptInFlight(s, k, d.boot) && -1 <= k < |s.files|
  {
  }

  /**
   * Whole-run crash safety. Take any prepared installation and any run of apply,
   * verify, rollback, recover and restarts, each interrupted anywhere. If its
   * checkpoint was never created the target is untouched. Otherwise the installation
   * is undone, or one complete rollback from any copy undoes it, or the boot record is
   * torn: then no boot file has changed and rollback refuses. Undone means undone but
   * for exactly the file at which its apply was interrupted between rename and mark.
   */
  lemma {:induction false} WholeRunCrashSafety(env: Env, target: string, d0: Disk, events: seq<Event>, source: Source)
    requires Start(env, d0) && SaneEvents(d0, events) && OwnCopy(d0.runtime.value.plan.id, source)
    ensures var id, file := d0.runtime.value.plan.id, FileInFlight(env, target, d0, events);
      var d := After(env, target, d0, events);
      var run := RollbackRun(env, target, d, source);
      if id !in d.checkpoints then d.boot == d0.boot && d.store == d0.store && d.checkpoints == d0.checkpoints
      else if d.checkpoints[id].journal.status == RolledBack then UndoneOnDisk(d0, id, file, d)
      else if d.checkpoints[id].record.Torn? then run.result.Err? && BootIs(d0, None, d.boot) && file.None?
      else if source == FromRuntime && d.runtime.None? then run.result.Err? && run.writes == []
      else run.result.Ok? && UndoneOnDisk(d0, id, file, Exec(d, run.writes))
  {
    hide Core, Setting, WellShaped, AllClosed, After, RollbackRun, UndoneOnDisk, Undone, Untouched, OldExceptInFlight,
      FileInFlight, SaneOp, BootIs;
    var id, file := d0.runtime.value.plan.id, FileInFlight(env, target, d0, events);
    var d := After(env, target, d0, events);
    StartIsUntouched(env, d0);
    RunInvariant(env, target, d0, d0, events);
    if Untouched(env, d0, d) {
      UntouchedDisk(env, d0, d);
    } else {
      var s, k :| SceneFrom(target, d0, s) && Core(env, s, k, d) && FileAt(s.files, k) == file;
      CoreParts(env, s, k, d);
      RollbackKeeps(env, s, k, d, source);
      if Ckpt(s, d).journal.status == RolledBack {
        UndoneIsUndone(env, s, k, d0, d);
      } else if Ckpt(s, d).record.Torn? {
        TornChangedNothing(env, s, k, d0, d);
      } else if source == FromRuntime && d.runtime.None? {
        RollbackDecidesFromCheckpoint(env, s, k, d, source);
      } else {
        var after := Exec(d, RollbackRun(env, target, d, source).writes);
        UndoneStatus(env, s, k, d, after);
        UndoneIsUndone(env, s, k, d0, after);
      }
    }
  }

  lemma StartIsUntouched(env: Env, d0: Disk)
    requires Start(env, d0)
    ensures Untouched(env, d0, d0)
  {
    hide WellShaped;
  }

  lemma UntouchedDisk(env: Env, d0: Disk, d: Disk)
    requires Start(env, d0) && Untouched(env, d0, d)
    ensures d.boot == d0.boot && d.store == d0.store && d.checkpoints == d0.checkpoints
    ensures d0.runtime.value.plan.id !in d.checkpoints
  {
    hide WellShaped;
  }

  lemma {:induction false} UndoneStatus(env: Env, s: Scene, k: int, d: Disk, after: Disk)
    requires s.plan.id in d.checkpoints && IsUndone(env, s, k, d, after)
    ensures s.plan.id in after.checkpoints && Core(env, s, k, after) && Ckpt(s, after).journal.status == RolledBack
  {
    hide Core;
    CoreParts(env, s, k, after);
  }

  lemma {:induction false} TornChangedNothing(env: Env, s: Scene, k: int, d0: Disk, d: Disk)
    requires Setting(s) && Core(env, s, k, d) && Ckpt(s, d).record.Torn? && s.pre.boot == d0.boot
    ensures BootIs(d0, None, d.boot) && k == -1
  {
    hide CheckpointHolds, BootIs;
    OneFileInFlight(s, -1, d0, d.boot);
  }

  // ----------------------------------------------------------------- exact restoration

  /** No unmarked entry of the record differs from its backup. */
  ghost predicate NothingInFlight(boot: map<string, Node>, r: Record, backups: map<string, Bytes>) {
    forall e | e in r.entries && !e.installed ::
      At(boot, e.destination) ==
        match e.backup
        case None => Absent
        case Some(name) => if name in backups then Regular(backups[name]) else Absent
  }

  lemma {:induction false} NothingInFlightMeans(env: Env, s: Scene, k: int, d: Disk)
    requires Core(env, s, k, d) && Ckpt(s, d).record.Whole?
    ensures -1 <= k < |s.files|
    ensures NothingInFlight(d.boot, Ckpt(s, d).record.record, Ckpt(s, d).backups)
      <==> (k >= 0 ==> Regular(s.files[k].bytes) == Old(s, k))
  {
    hide CheckpointHolds, StoreHolds, RuntimeHolds;
    var c := Ckpt(s, d);
    var entries := c.record.record.entries;
    forall i | 0 <= i < |entries|
      ensures EntryHolds(s, k, d.boot, c.backups, entries[i], i) && entries[i] in entries
    {
    }
    if k >= 0 {
      assert EntryHolds(s, k, d.boot, c.backups, entries[k], k) && entries[k] in entries;
    }
    if k >= 0 ==> Regular(s.files[k].bytes) == Old(s, k) {
      forall e | e in entries && !e.installed
        ensures At(d.boot, e.destination) ==
          match e.backup
          case None => Absent
          case Some(name) => if name in c.backups then Regular(c.backups[name]) else Absent
      {
        var i :| 0 <= i < |entries| && entries[i] == e;
        assert EntryHolds(s, k, d.boot, c.backups, e, i);
      }
    }
  }

  /** Nothing is in flight, or what is equals what was there. */
  predicate Harmless(d0: Disk, file: Option<BootFile>) {
    file.Some? ==> Regular(file.value.bytes) == At(d0.boot, file.value.destination)
  }

  lemma {:induction false} RestoredExactlyWhenHarmless(d0: Disk, file: Option<BootFile>, boot: map<string, Node>)
    requires BootIs(d0, file, boot)
    ensures (forall path :: At(boot, path) == At(d0.boot, path)) <==> Harmless(d0, file)
  {
    if file.Some? {
      assert At(boot, file.value.destination) == Regular(file.value.bytes);
    }
  }

  /**
   * The documented promise, exactly, over whole runs. Wherever a run has been
   * interrupted, one complete rollback (or the one already recorded) leaves every boot
   * path as it was if and only if the run's apply was not interrupted between the
   * rename and the mark of a file that differs from the old one. On the disk itself:
   * with a record, no unmarked entry differs from its backup; once an interrupted
   * rollback has removed the record, the tree is already restored or never will be.
   */
  lemma {:induction false} RollbackRestoresExactlyWhen(env: Env, target: string, d0: Disk, events: seq<Event>,
                                                       source: Source)
    requires Start(env, d0) && SaneEvents(d0, events) && OwnCopy(d0.runtime.value.plan.id, source)
    requires d0.runtime.value.plan.id in After(env, target, d0, events).checkpoints
    requires !After(env, target, d0, events).checkpoints[d0.runtime.value.plan.id].record.Torn?
    requires source == FromRuntime ==> After(env, target, d0, events).runtime.Some?
    ensures var id, file := d0.runtime.value.plan.id, FileInFlight(env, target, d0, events);
      var d := After(env, target, d0, events);
      var c := d.checkpoints[id];
      var restored := if c.journal.status == RolledBack then d else Exec(d, RollbackRun(env, target, d, source).writes);
      && ((forall path :: At(restored.boot, path) == At(d0.boot, path)) <==> Harmless(d0, file))
      && (c.record.Whole? ==> (Harmless(d0, file) <==> NothingInFlight(d.boot, c.record.record, c.backups)))
      && (c.record.NoRecord? ==> (Harmless(d0, file) <==> forall path :: At(d.boot, path) == At(d0.boot, path)))
  {
    hide Core, Setting, WellShaped, AllClosed, After, RollbackRun, Undone, Untouched, FileInFlight, SaneOp, BootIs,
      NothingInFlight, OldExceptInFlight;
    var id, file := d0.runtime.value.plan.id, FileInFlight(env, target, d0, events);
    var d := After(env, target, d0, events);
    var c := d.checkpoints[id];
    WholeRunCrashSafety(env, target, d0, events, source);
    StartIsUntouched(env, d0);
    RunInvariant(env, target, d0, d0, events);
    if Untouched(env, d0, d) {
      UntouchedDisk(env, d0, d);
      assert false;
    } else {
      var s, k :| SceneFrom(target, d0, s) && Core(env, s, k, d) && FileAt(s.files, k) == file;
      var restored := if c.journal.status == RolledBack then d else Exec(d, RollbackRun(env, target, d, source).writes);
      RestoredExactlyWhenHarmless(d0, file, restored.boot);
      if c.record.Whole? {
        NothingInFlightMeans(env, s, k, d);
      } else {
        RecordGone(env, s, k, d);
        OneFileInFlight(s, k, d0, d.boot);
        RestoredExactlyWhenHarmless(d0, file, d.boot);
      }
    }
  }

  lemma RecordGone(env: Env, s: Scene, k: int, d: Disk)
    requires Setting(s) && Core(env, s, k, d) && Ckpt(s, d).record.NoRecord?
    ensures OldExceptInFlight(s, k, d.boot) && -1 <= k < |s.files| && DistinctFiles(s.files)
  {
  }

  lemma WholeIsOpen(env: Env, s: Scene, k: int, d: Disk)
    requires Core(env, s, k, d) && Ckpt(s, d).record.Whole?
    ensures Ckpt(s, d).journal.status != RolledBack
  {
  }

  // ----------------------------------------------------------------- the promise fails

  /** An operation that runs to its end. */
  function Complete(env: Env, target: string, d: Disk, op: Op): Event {
    Event(op, |WritesOf(env, target, d, op)|)
  }

  /** An apply that stops right after the rename of its file `i`. */
  function CrashAtRename(env: Env, target: string, d: Disk, root: map<string, Bytes>,
                         hardware: Option<HardwareInputs>, i: nat): Event
    requires d.runtime.Some?
  {
    Event(Op.Apply(root, hardware, None), RecordedAfter(env, target, d, root, hardware) + 2 * i + 1)
  }

  /** How many writes an apply has performed once its boot record is whole. */
  function RecordedAfter(env: Env, target: string, d: Disk, root: map<string, Bytes>,
                         hardware: Option<HardwareInputs>): nat
    requires d.runtime.Some?
  {
    var files := match ApplyChecks(env, d, root) case Ok(bundle) => FilesOf(bundle) case Err(_) => [];
    |Front(env, target, d, hardware)| + |SaveRun(d.runtime.value.plan.id, d.boot, map[], files, 0).writes| + 2
  }

  /** The counts above, of an apply that would succeed. */
  lemma {:induction false} CountsOfApply(env: Env, target: string, d: Disk, root: map<string, Bytes>,
                                         hardware: Option<HardwareInputs>)
    requires Installable(env, d) && SaneHardware(hardware) && d.runtime.Some?
    requires ApplyRun(env, target, d, root, hardware, None).result.Ok?
    ensures ApplyChecks(env, d, root).Ok?
    ensures var files := FilesOf(ApplyChecks(env, d, root).value);
      var save := SaveRun(d.runtime.value.plan.id, d.boot, map[], files, 0);
      && ReachesActivation(env, target, d, hardware) && save.result.Ok?
      && |ActivationIn(target, d, ApplyChecks(env, d, root).value, None).writes| == |save.writes| + 2 + 2 * |files| + 1
      && |ApplyRun(env, target, d, root, hardware, None).writes|
        == RecordedAfter(env, target, d, root, hardware) + 2 * |files| + 3
  {
    hide ApplyChecks, ApplyRun, FilesOf, SaveRun, ReachesActivation, ActivationRun, ApplyingIn, NewCheckpoint,
      Setting, Core,
      ReadyToActivate, Stage, SaveLog, JournalHolds, Front, InstallWrites;
    if ApplyChecks(env, d, root).Err? {
      RefusedApplyFails(env, target, d, root, hardware, None);
    }
    ApplySplits(env, target, d, root, hardware, None);
    var s := SceneOf(env, target, d, ApplyChecks(env, d, root).value);
    FrontIsReady(env, target, d, root, hardware);
    var ready := Exec(d, Front(env, target, d, hardware));
    CreatedIsFresh(target, d);
    BackupsFresh(target, d);
    SameActivation(env, s, Perform(d, Creation(target, d)), ready);
    ActivationShape(env, s, ready);
    InstallLength(s, 0);
    CopiesAreTwo(s.plan.id,
      LastJournal(PublishedIn(target, d, hardware), ActivationIn(target, d, ApplyChecks(env, d, root).value, None)));
  }

  /**
   * The promise of full restoration fails. Take any prepared installation that would
   * succeed and any of its files that differs from the one it replaces: crash its apply
   * right after the rename of that file, roll back completely from the checkpoint, and
   * the installation is recorded as rolled back with the new file still in place.
   */
  lemma {:induction false} InFlightFileSurvivesRollback(env: Env, target: string, d0: Disk, root: map<string, Bytes>,
                                                        hardware: Option<HardwareInputs>, i: nat)
    requires Start(env, d0) && SaneHardware(hardware)
    requires ApplyRun(env, target, d0, root, hardware, None).result.Ok? && ApplyChecks(env, d0, root).Ok?
    requires i < |FilesOf(ApplyChecks(env, d0, root).value)|
    requires var file := FilesOf(ApplyChecks(env, d0, root).value)[i];
      Regular(file.bytes) != At(d0.boot, file.destination)
    ensures var id, file := d0.runtime.value.plan.id, FilesOf(ApplyChecks(env, d0, root).value)[i];
      var crash := CrashAtRename(env, target, d0, root, hardware, i);
      var undo := Complete(env, target, After(env, target, d0, [crash]), Rollback(FromCheckpoint(id)));
      var after := After(env, target, d0, [crash, undo]);
      && UndoneOnDisk(d0, id, Some(file), after)
      && At(after.boot, file.destination) == Regular(file.bytes) != At(d0.boot, file.destination)
  {
    hide ApplyChecks, ApplyRun, FilesOf, SaveRun, ReachesActivation, Front, ActivationIn, RollbackRun, Installable,
      WellShaped, InFlightAfter,
      UndoneOnDisk, AllClosed, Core, Setting;
    var id, bundle := d0.runtime.value.plan.id, ApplyChecks(env, d0, root).value;
    var files := FilesOf(bundle);
    var crash := CrashAtRename(env, target, d0, root, hardware, i);
    CountsOfApply(env, target, d0, root, hardware);
    InFlightBetween(|files|, i);
    assert ApplyInFlight(env, target, d0, root, hardware, None, crash.cut) == i;
    assert FileInFlight(env, target, d0, [crash]) == Some(files[i]);
    CrashThenUndo(env, target, d0, crash, files[i]);
  }

  lemma {:induction false} CrashThenUndo(env: Env, target: string, d0: Disk, crash: Event, file: BootFile)
    requires Start(env, d0) && crash.op.Apply? && SaneHardware(crash.op.hardware)
    requires FileInFlight(env, target, d0, [crash]) == Some(file)
    ensures var id := d0.runtime.value.plan.id;
      var undo := Complete(env, target, After(env, target, d0, [crash]), Rollback(FromCheckpoint(id)));
      var after := After(env, target, d0, [crash, undo]);
      UndoneOnDisk(d0, id, Some(file), after) && At(after.boot, file.destination) == Regular(file.bytes)
  {
    hide ApplyChecks, ApplyRun, FilesOf, RollbackRun, WellShaped, AllClosed, Core, Setting, AfterEvent, FileInFlight,
      Untouched;
    var id := d0.runtime.value.plan.id;
    var d := After(env, target, d0, [crash]);
    var op := Rollback(FromCheckpoint(id));
    var undo := Complete(env, target, d, op);
    TwoEvents(env, target, d0, crash, undo);
    CompleteRuns(env, target, d, op);
    StartIsUntouched(env, d0);
    RunInvariant(env, target, d0, d0, [crash]);
    WholeRunCrashSafety(env, target, d0, [crash], FromCheckpoint(id));
    var s, k :| SceneFrom(target, d0, s) && Core(env, s, k, d) && FileAt(s.files, k) == Some(file);
    CoreParts(env, s, k, d);
    if Ckpt(s, d).journal.status == RolledBack {
      RolledBackWritesNothing(env, s, k, d, op);
    }
  }

  lemma {:induction false} TwoEvents(env: Env, target: string, d: Disk, first: Event, second: Event)
    ensures After(env, target, d, [first, second])
      == AfterEvent(env, target, After(env, target, d, [first]), second)
  {
    hide AfterEvent;
    var d1 := AfterEvent(env, target, d, first);
    assert [first, second][1..] == [second] && [first][1..] == [] && [second][1..] == [];
    assert After(env, target, d, [first]) == After(env, target, d1, []) == d1;
    assert After(env, target, d1, [second]) == After(env, target, AfterEvent(env, target, d1, second), []);
  }

  lemma CompleteRuns(env: Env, target: string, d: Disk, op: Op)
    requires !op.LoseRuntime?
    ensures AfterEvent(env, target, d, Complete(env, target, d, op)) == Exec(d, WritesOf(env, target, d, op))
  {
    hide WritesOf;
    assert WritesOf(env, target, d, op)[..|WritesOf(env, target, d, op)|] == WritesOf(env, target, d, op);
  }

  lemma {:induction false} MarkFirstFromRecord(env: Env, s: Scene, d: Disk, cut: nat)
    requires Setting(s) && Progress(env, s, d, 0, 0, false)
    requires cut <= |MarkFirstWrites(s.plan, s.pre.boot, s.files, 0)|
    ensures var crashed := Exec(d, MarkFirstWrites(s.plan, s.pre.boot, s.files, 0)[..cut]);
      var run := RollbackRun(env, s.target, crashed, FromCheckpoint(s.plan.id));
      run.result.Ok? && forall path :: At(Exec(crashed, run.writes).boot, path) == At(s.pre.boot, path)
  {
    hide Core, Setting, Progress, RollbackRun, MarkFirstWrites;
    var writes := MarkFirstWrites(s.plan, s.pre.boot, s.files, 0);
    MarkFirstKeeps(env, s, d, 0);
    AlongPrefix(env, s, Exactly(-1), d, writes, cut);
    var crashed := Exec(d, writes[..cut]);
    CoreParts(env, s, -1, crashed);
    RollbackKeeps(env, s, -1, crashed, FromCheckpoint(s.plan.id));
    MarkFirstKinds(s.plan, s.pre.boot, s.files, 0);
    ProgressIsWhole(env, s, d);
    WholeStays(s, d, writes[..cut]);
    WholeIsOpen(env, s, -1, crashed);
    var after := Exec(crashed, RollbackRun(env, s.target, crashed, FromCheckpoint(s.plan.id)).writes);
    forall path
      ensures At(after.boot, path) == At(s.pre.boot, path)
    {
      if IsDestination(s, path) {
        var i :| 0 <= i < |s.files| && s.files[i].destination == path;
        assert At(after.boot, path) == Unmarked(s, -1, i);
      }
    }
  }

  /** The disk of an apply that would succeed, when its boot record has just become whole. */
  lemma {:induction false} RecordBecomesWhole(env: Env, target: string, d: Disk, root: map<string, Bytes>,
                                              hardware: Option<HardwareInputs>)
    requires Installable(env, d) && SaneHardware(hardware) && d.runtime.Some?
    requires ApplyRun(env, target, d, root, hardware, None).result.Ok? && ApplyChecks(env, d, root).Ok?
    ensures var s := SceneOf(env, target, d, ApplyChecks(env, d, root).value);
      var n := RecordedAfter(env, target, d, root, hardware);
      && n <= |ApplyRun(env, target, d, root, hardware, None).writes|
      && Setting(s)
        && Progress(env, s, Exec(d, ApplyRun(env, target, d, root, hardware, None).writes[..n]), 0, 0, false)
  {
    hide ApplyChecks, ApplyRun, FilesOf, SaveRun, ReachesActivation, ActivationRun, ApplyingIn, NewCheckpoint,
      Setting, Core,
      ReadyToActivate, Stage, SaveLog, JournalHolds, Front, InstallWrites, Progress, LastJournal;
    CountsOfApply(env, target, d, root, hardware);
    ApplySplits(env, target, d, root, hardware, None);
    var s := SceneOf(env, target, d, ApplyChecks(env, d, root).value);
    FrontIsReady(env, target, d, root, hardware);
    var front := Front(env, target, d, hardware);
    var ready := Exec(d, front);
    CreatedIsFresh(target, d);
    BackupsFresh(target, d);
    SameActivation(env, s, Perform(d, Creation(target, d)), ready);
    ActivationShape(env, s, ready);
    RecordAppears(env, s, ready);
    var n := RecordedAfter(env, target, d, root, hardware);
    assert ApplyRun(env, target, d, root, hardware, None).writes[..n] == front + SaveLog(s);
    ExecConcat(d, front, SaveLog(s));
  }

  /**
   * Had the install loop made each mark durable before its rename, every crash in it
   * would be restored completely by one rollback.
   */
  lemma {:induction false} MarkFirstRestoresEverything(env: Env, target: string, d0: Disk, root: map<string, Bytes>,
                                                       hardware: Option<HardwareInputs>, cut: nat)
    requires Start(env, d0) && SaneHardware(hardware)
    requires ApplyRun(env, target, d0, root, hardware, None).result.Ok? && ApplyChecks(env, d0, root).Ok?
    requires var plan, files := d0.runtime.value.plan, FilesOf(ApplyChecks(env, d0, root).value);
      cut <= |MarkFirstWrites(plan, d0.boot, files, 0)|
    ensures var plan, files := d0.runtime.value.plan, FilesOf(ApplyChecks(env, d0, root).value);
      var recorded := Exec(d0,
        ApplyRun(env, target, d0, root, hardware, None).writes[..RecordedAfter(env, target, d0, root, hardware)]);
      var crashed := Exec(recorded, MarkFirstWrites(plan, d0.boot, files, 0)[..cut]);
      var run := RollbackRun(env, target, crashed, FromCheckpoint(plan.id));
      run.result.Ok? && forall path :: At(Exec(crashed, run.writes).boot, path) == At(d0.boot, path)
  {
    hide ApplyChecks, ApplyRun, FilesOf, RollbackRun, MarkFirstWrites, RecordedAfter, Setting, Progress, WellShaped,
      Core;
    RecordBecomesWhole(env, target, d0, root, hardware);
    var s := SceneOf(env, target, d0, ApplyChecks(env, d0, root).value);
    var recorded := Exec(d0,
      ApplyRun(env, target, d0, root, hardware, None).writes[..RecordedAfter(env, target, d0, root, hardware)]);
    MarkFirstFromRecord(env, s, recorded, cut);
  }

  lemma ProgressIsWhole(env: Env, s: Scene, d: Disk)
    requires Progress(env, s, d, 0, 0, false)
    ensures s.plan.id in d.checkpoints && Ckpt(s, d).record.Whole?
  {
    hide RecordWith, InstalledBelow, SavedBelow, CheckpointHolds;
  }

  lemma {:induction false} MarkFirstKinds(plan: Plan, boot: map<string, Node>, files: seq<BootFile>, index: nat)
    ensures forall w | w in MarkFirstWrites(plan, boot, files, index) :: w.PutRecord? || w.PutBoot?
    decreases |files| - index
  {
    hide RecordWith;
    if index < |files| {
      MarkFirstKinds(plan, boot, files, index + 1);
    }
  }

  // ----------------------------------------------------------------- the torn record

  ghost predicate OnlyReceiptsDrop(writes: seq<Write>) {
    forall w | w in writes :: w.DropReceipt?
  }

  lemma {:induction false} DropsOnlyReceipts(id: string, receipts: set<string>, packages: seq<string>)
    ensures OnlyReceiptsDrop(DropReceipts(id, receipts, packages))
    decreases packages
  {
    if packages != [] {
      DropsOnlyReceipts(id, receipts - {packages[0]}, packages[1..]);
      DropsOnlyReceipts(id, receipts, packages[1..]);
    }
  }

  lemma {:induction false} DropsLeaveTheRest(s: Scene, d: Disk, writes: seq<Write>)
    requires s.plan.id in d.checkpoints && OnlyReceiptsDrop(writes)
    ensures var after := Exec(d, writes);
      s.plan.id in after.checkpoints
      && Ckpt(s, after) == Ckpt(s, d).(receipts := Ckpt(s, after).receipts)
      && after.store == d.store && after.boot == d.boot
    decreases writes
  {
    if writes != [] {
      assert writes[0] in writes;
      DropsLeaveTheRest(s, Perform(d, writes[0]), writes[1..]);
    }
  }

  lemma {:induction false} TornRollbackOnlyDrops(env: Env, s: Scene, k: int, d: Disk, source: Source)
    requires Setting(s) && Core(env, s, k, d) && Ckpt(s, d).record.Torn? && GivenCopy(s, source)
    ensures var run := RollbackRun(env, s.target, d, source); run.result.Err? && OnlyReceiptsDrop(run.writes)
  {
    hide Core, Setting, UndoneJournal, CorinthUndo, RollbackRun;
    CoreParts(env, s, k, d);
    RollbackDecidesFromCheckpoint(env, s, k, d, source);
    DropsOnlyReceipts(s.plan.id, Ckpt(s, d).receipts, Ckpt(s, d).journal.packages);
    assert BootUndo(d, s.plan) == Failed(BadRecord);
  }

  lemma TornStatus(env: Env, s: Scene, k: int, d: Disk)
    requires Core(env, s, k, d) && Ckpt(s, d).record.Torn?
    ensures Ckpt(s, d).journal.status in {CorinthPublished, ApplyFailed}
  {
  }

  lemma {:induction false} TornRecoverOnlyDrops(env: Env, s: Scene, k: int, d: Disk, names: seq<string>, seen: nat,
                                                recovered: nat)
    requires Setting(s) && Core(env, s, k, d) && Ckpt(s, d).record.Torn? && AllClosed(s.pre.checkpoints)
    ensures OnlyReceiptsDrop(RecoverFrom(env, s.target, d, names, seen, recovered).writes)
    ensures s.plan.id in names ==> RecoverFrom(env, s.target, d, names, seen, recovered).result.Err?
    decreases names
  {
    hide Bound, RollbackRun, WellShaped, StoreHolds, BootHolds;
    if names != [] {
      TornStatus(env, s, k, d);
      TornRollbackOnlyDrops(env, s, k, d, FromCheckpoint(s.plan.id));
      TornRecoverOnlyDrops(env, s, k, d, names[1..], seen, recovered);
      TornRecoverOnlyDrops(env, s, k, d, names[1..], seen + 1, recovered);
      if names[0] == s.plan.id {
        assert IsHex(s.plan.id[0]);
        DotFileIs(s.plan.id);
      } else if names[0] in d.checkpoints {
        assert d.checkpoints[names[0]].journal.status in {Verified, RolledBack};
      }
    }
  }

  /** Whatever is run on it, a torn disk stays as it is but for its receipts. */
  lemma {:induction false} TornStays(env: Env, s: Scene, k: int, d: Disk, events: seq<Event>)
    requires Setting(s) && Core(env, s, k, d) && Ckpt(s, d).record.Torn?
    requires SaneRun(s.plan.id, s.pre.checkpoints, events)
    ensures var after := After(env, s.target, d, events);
      && s.plan.id in after.checkpoints
      && Ckpt(s, after) == Ckpt(s, d).(receipts := Ckpt(s, after).receipts)
      && after.store == d.store && after.boot == d.boot
    decreases events
  {
    hide Core, Setting, ApplyRun, VerifyRun, RollbackRun, RecoverFrom, InstalledBundleVerifies;
    CoreParts(env, s, k, d);
    if events != [] {
      var e := events[0];
      assert e in events;
      var writes := WritesOf(env, s.target, d, e.op);
      TornStatus(env, s, k, d);
      match e.op {
        case Apply(_, _, _) => SecondApplyWritesNothing(env, s, k, d, e.op);
        case Verify(source) => VerifyDecidesFromCheckpoint(env, s, k, d, source);
        case Rollback(source) => TornRollbackOnlyDrops(env, s, k, d, source);
        case Recover(names) => TornRecoverOnlyDrops(env, s, k, d, names, 0, 0);
        case LoseRuntime =>
      }
      assert OnlyReceiptsDrop(writes);
      var next := AfterEvent(env, s.target, d, e);
      DropsLeaveTheRest(s, d, if e.cut <= |writes| then writes[..e.cut] else writes);
      EventKeeps(env, s, k, d, e);
      TornStays(env, s, k, next, events[1..]);
    }
  }

  /** From a torn record on, every later rollback fails, and every recovery that reaches the installation. */
  lemma {:induction false} TornRecordStopsRecovery(env: Env, s: Scene, k: int, d: Disk, events: seq<Event>,
                                                   source: Source, names: seq<string>)
    requires Setting(s) && Core(env, s, k, d) && Ckpt(s, d).record.Torn?
    requires SaneRun(s.plan.id, s.pre.checkpoints, events)
    requires GivenCopy(s, source) && s.plan.id in names && AllClosed(s.pre.checkpoints)
    ensures var after := After(env, s.target, d, events);
      RollbackRun(env, s.target, after, source).result.Err? && RecoverRun(env, s.target, after, names).result.Err?
  {
    hide Core, Setting, After, RollbackRun, RecoverFrom, SaneOp;
    var after := After(env, s.target, d, events);
    EventsKeep(env, s, k, d, events);
    CoreParts(env, s, k, d);
    CoreParts(env, s, k, after);
    TornStays(env, s, k, d, events);
    TornRollbackOnlyDrops(env, s, k, after, source);
    TornRecoverOnlyDrops(env, s, k, after, names, 0, 0);
  }

  /** An apply that stops inside the first write of its boot record. */
  function CrashInRecord(env: Env, target: string, d: Disk, root: map<string, Bytes>,
                         hardware: Option<HardwareInputs>): Event
    requires d.runtime.Some?
  {
    var cut: int := RecordedAfter(env, target, d, root, hardware) - 1;
    Event(Op.Apply(root, hardware, None), cut)
  }

  /**
   * The torn record, from the start. Take any prepared installation that would succeed,
   * crash its apply inside the first write of the boot record, and run anything after it:
   * the record is still torn, the new generation is still the active one although no boot
   * file has changed, and no rollback from either copy succeeds.
   */
  lemma {:induction false} TornRecordIsPermanent(env: Env, target: string, d0: Disk, root: map<string, Bytes>,
                                                 hardware: Option<HardwareInputs>, events: seq<Event>, source: Source)
    requires Start(env, d0) && SaneHardware(hardware) && SaneEvents(d0, events)
    requires ApplyRun(env, target, d0, root, hardware, None).result.Ok?
    requires OwnCopy(d0.runtime.value.plan.id, source)
    ensures var id := d0.runtime.value.plan.id;
      var after := After(env, target, d0, [CrashInRecord(env, target, d0, root, hardware)] + events);
      && id in after.checkpoints && after.checkpoints[id].record.Torn?
      && after.store.active == Some(env.sha(d0.runtime.value.generation))
      && BootIs(d0, None, after.boot)
      && RollbackRun(env, target, after, source).result.Err?
  {
    hide ApplyChecks, ApplyRun, FilesOf, SaveRun, ReachesActivation, Front, ActivationIn, RollbackRun, WellShaped,
      ActivationInFlight, AllClosed, Core, Setting, BootIs, SaneOp, AfterEvent;
    var id, crash := d0.runtime.value.plan.id, CrashInRecord(env, target, d0, root, hardware);
    CountsOfApply(env, target, d0, root, hardware);
    var s := SceneOf(env, target, d0, ApplyChecks(env, d0, root).value);
    SceneIsSet(env, target, d0, root);
    ApplyAtCut(env, target, d0, root, hardware, None, crash.cut);
    var d1 := AfterEvent(env, target, d0, crash);
    assert d1 == Exec(d0,
      ApplyRun(env, target, d0, root, hardware, None).writes[..crash.cut]) by { CutEvent(env, target, d0, crash); }
    var k := ApplyInFlight(env, target, d0, root, hardware, None, crash.cut);
    assert Ckpt(s, d1).record.Torn?;
    TornStays(env, s, k, d1, events);
    EventsKeep(env, s, k, d1, events);
    assert ([crash] + events)[1..] == events;
    var after := After(env, target, d1, events);
    TornRollbackOnlyDrops(env, s, k, after, source);
    TornChangedNothing(env, s, k, d0, after);
  }

  lemma CutEvent(env: Env, target: string, d: Disk, e: Event)
    requires e.op.Apply? && e.cut <= |ApplyRun(env, target, d, e.op.root, e.op.hardware, e.op.fault).writes|
    ensures AfterEvent(env, target, d, e)
      == Exec(d, ApplyRun(env, target, d, e.op.root, e.op.hardware, e.op.fault).writes[..e.cut])
  {
    hide ApplyRun;
  }

  // ----------------------------------------------------------------- rolled back is final

  lemma {:induction false} RolledBackRecovery(env: Env, s: Scene, k: int, d: Disk, names: seq<string>, seen: nat,
                                              recovered: nat)
    requires Core(env, s, k, d) && Ckpt(s, d).journal.status == RolledBack && AllClosed(s.pre.checkpoints)
    ensures RecoverFrom(env, s.target, d, names, seen, recovered).writes == []
  {
    hide Bound, RollbackRun, WellShaped, StoreHolds, BootHolds, CheckpointHolds;
    assert AllClosed(d.checkpoints);
    ClosedRecovery(env, s.target, d, names, seen, recovered);
  }

  /** Nothing verified afterwards, nothing applied again: a rolled-back installation stays as it is. */
  lemma {:induction false} RolledBackIsFinal(env: Env, s: Scene, k: int, d: Disk, events: seq<Event>, source: Source)
    requires Setting(s) && Core(env, s, k, d) && Ckpt(s, d).journal.status == RolledBack
    requires SaneRun(s.plan.id, s.pre.checkpoints, events) && GivenCopy(s, source)
    ensures var after := After(env, s.target, d, events);
      && after == d.(runtime := after.runtime)
      && VerifyRun(env, s.target, after, source).result.Err? && RollbackRun(env, s.target, after, source).result.Err?
    decreases events
  {
    hide Core, Setting, ApplyRun, VerifyRun, RollbackRun, RecoverFrom, InstalledBundleVerifies, UndoRun;
    CoreParts(env, s, k, d);
    VerifyDecidesFromCheckpoint(env, s, k, d, source);
    RollbackKeeps(env, s, k, d, source);
    if events != [] {
      var e := events[0];
      assert e in events;
      var writes := WritesOf(env, s.target, d, e.op);
      RolledBackWritesNothing(env, s, k, d, e.op);
      assert writes == [];
      var next := AfterEvent(env, s.target, d, e);
      EventKeeps(env, s, k, d, e);
      RolledBackIsFinal(env, s, k, next, events[1..], source);
    }
  }

  lemma {:induction false} RolledBackWritesNothing(env: Env, s: Scene, k: int, d: Disk, op: Op)
    requires Setting(s) && Core(env, s, k, d) && Ckpt(s, d).journal.status == RolledBack
    requires SaneOp(s.plan.id, s.pre.checkpoints, op)
    ensures WritesOf(env, s.target, d, op) == []
  {
    hide Core, CheckpointHolds, ApplyRun, VerifyRun, RollbackRun, RecoverFrom, InstalledBundleVerifies;
    CoreParts(env, s, k, d);
    match op {
      case Apply(_, _, _) => SecondApplyWritesNothing(env, s, k, d, op);
      case Verify(source) => VerifyDecidesFromCheckpoint(env, s, k, d, source);
      case Rollback(source) => RollbackDecidesFromCheckpoint(env, s, k, d, source);
      case Recover(names) => RolledBackRecovery(env, s, k, d, names, 0, 0);
      case LoseRuntime =>
    }
  }

  // ----------------------------------------------------------------- journals, copies, packages

  /** The checkpoint of the prepared installation, wherever a run has left it. */
  lemma {:induction false} RunCheckpoint(env: Env, target: string, d0: Disk, events: seq<Event>)
    requires Start(env, d0) && SaneEvents(d0, events)
    ensures var id, d := d0.runtime.value.plan.id, After(env, target, d0, events);
      && (d.runtime.Some? ==>
            && d.runtime.value.plan == d0.runtime.value.plan
            && WellShaped(env, d.runtime.value.plan, d.runtime.value.journal))
      && (id in d.checkpoints ==>
            var c := d.checkpoints[id];
            && c.plan == d0.runtime.value.plan && WellShaped(env, c.plan, c.journal)
            && Encode(env.sha(c.generation)) == c.plan.generationSha
            && HardwareFileOk(env, c.hardwarePlan, c.plan.hardwareSha) && ReceiptsHold(c)
            && (d.runtime.Some? ==> Rank(d.runtime.value.journal) <= Rank(c.journal)))
  {
    hide WellShaped, AllClosed, After, Setting, BootHolds, StoreHolds, HardwareFileOk, SaneOp, FileInFlight;
    StartIsUntouched(env, d0);
    RunInvariant(env, target, d0, d0, events);
    var d := After(env, target, d0, events);
    if Untouched(env, d0, d) {
      UntouchedDisk(env, d0, d);
    } else {
      var s, k :| SceneFrom(target, d0, s) && Core(env, s, k, d)
        && FileAt(s.files, k) == FileInFlight(env, target, d0, events);
    }
  }

  /** Recovery is never blocked by the installer's own writes: every journal it leaves is accepted by its readers. */
  lemma {:induction false} EveryJournalLoads(env: Env, target: string, d0: Disk, events: seq<Event>, given: Journal)
    requires Start(env, d0) && SaneEvents(d0, events)
    ensures var id, d := d0.runtime.value.plan.id, After(env, target, d0, events);
      && (d.runtime.Some? ==> Bound(env, d.runtime.value.plan, d.runtime.value.journal))
      && (id in d.checkpoints ==>
            && Bound(env, d.checkpoints[id].plan, d.checkpoints[id].journal)
            && Authoritative(env, d, d0.runtime.value.plan, given) == Ok((d.checkpoints[id].journal, true)))
  {
    hide WellShaped, Bound, HardwareFileOk, After;
    RunCheckpoint(env, target, d0, events);
    var id, d := d0.runtime.value.plan.id, After(env, target, d0, events);
    if d.runtime.Some? {
      WellShapedIsBound(env, d.runtime.value.plan, d.runtime.value.journal);
    }
    if id in d.checkpoints {
      WellShapedIsBound(env, d.checkpoints[id].plan, d.checkpoints[id].journal);
    }
  }

  /**
   * From its creation on the checkpoint carries the generation image and the hardware plan
   * that the immutable plan names by digest.
   */
  lemma {:induction false} CheckpointCarriesInputs(env: Env, target: string, d0: Disk, events: seq<Event>)
    requires Start(env, d0) && SaneEvents(d0, events)
    ensures var id, d := d0.runtime.value.plan.id, After(env, target, d0, events);
      id in d.checkpoints ==>
        var c := d.checkpoints[id];
        && c.plan == d0.runtime.value.plan
        && Encode(env.sha(c.generation)) == c.plan.generationSha
        && (c.plan.hardwareSha.Some? ==>
              && c.hardwarePlan.Some? && env.hardwarePlanParses(c.hardwarePlan.value)
              && Encode(env.sha(c.hardwarePlan.value)) == c.plan.hardwareSha.value)
  {
    hide WellShaped, After;
    RunCheckpoint(env, target, d0, events);
  }

  /** The checkpoint journal is never behind the runtime journal. */
  lemma {:induction false} CheckpointIsNeverBehind(env: Env, target: string, d0: Disk, events: seq<Event>)
    requires Start(env, d0) && SaneEvents(d0, events)
    ensures var id, d := d0.runtime.value.plan.id, After(env, target, d0, events);
      id in d.checkpoints && d.runtime.Some? ==> Rank(d.runtime.value.journal) <= Rank(d.checkpoints[id].journal)
  {
    hide WellShaped, HardwareFileOk, After;
    RunCheckpoint(env, target, d0, events);
  }

  /** Hardware write-ahead: whatever was interrupted, only journaled packages are installed. */
  lemma {:induction false} InstalledPackagesAreJournaled(env: Env, target: string, d0: Disk, events: seq<Event>)
    requires Start(env, d0) && SaneEvents(d0, events)
    ensures var id, d := d0.runtime.value.plan.id, After(env, target, d0, events);
      id in d.checkpoints ==>
        && (forall p | p in d.checkpoints[id].receipts :: p in d.checkpoints[id].journal.packages)
        && (d.checkpoints[id].receipts != {} ==> Hardware in d.checkpoints[id].journal.mutations)
  {
    hide HardwareFileOk, After;
    RunCheckpoint(env, target, d0, events);
  }

  /** During apply the two copies are equal or the checkpoint is one transition ahead. */
  lemma {:induction false} ApplyKeepsCopiesInStep(env: Env, target: string, d: Disk, root: map<string, Bytes>,
                               hardware: Option<HardwareInputs>, fault: Option<nat>, cut: nat)
    requires Installable(env, d) && SaneHardware(hardware) && ApplyChecks(env, d, root).Ok?
    requires cut <= |ApplyRun(env, target, d, root, hardware, fault).writes|
    ensures var id := d.runtime.value.plan.id;
      var crashed := Exec(d, ApplyRun(env, target, d, root, hardware, fault).writes[..cut]);
      && (id in crashed.checkpoints <==> cut > 0)
      && (id in crashed.checkpoints && crashed.runtime.Some? ==>
            var durable, runtime := crashed.checkpoints[id].journal, crashed.runtime.value.journal;
            runtime == durable || Successor(runtime, durable))
  {
    hide Core, ApplyRun, FilesOf, Setting, ReadBootBundle, HardwareFileOk, Bound, Successor;
    var s := SceneOf(env, target, d, ApplyChecks(env, d, root).value);
    var writes := ApplyRun(env, target, d, root, hardware, fault).writes;
    if cut == 0 {
      assert writes[..cut] == [];
    } else {
      ApplyKeeps(env, target, d, root, hardware, fault);
      var created := Perform(d, writes[0]);
      AlongPrefix(env, s, InApply, created, writes[1..], cut - 1);
      assert writes[..cut][1..] == writes[1..][..cut - 1];
      var crashed := Exec(d, writes[..cut]);
      assert Holds(env, s, InApply, crashed);
      var k :| Core(env, s, k, crashed);
      CoreParts(env, s, k, crashed);
    }
  }

  // ----------------------------------------------------------------- activation establishes verification

  lemma VerifyReadsOnlyBoot(env: Env, target: string, d: Disk, boot: map<string, Node>)
    requires VerifyRun(env, target, d, FromRuntime).result.Ok?
      && InstalledBundleVerifies(env, boot, d.runtime.value.plan)
    requires d.runtime.Some?
    ensures VerifyRun(env, target, d.(boot := boot), FromRuntime).result.Ok?
  {
    hide Bound, HardwareFileOk, InstalledBundleVerifies;
  }

  /**
   * After a successful apply of any accepted bundle, base or with services, verification
   * succeeds as long as no boot destination changed.
   */
  lemma {:induction false} SuccessfulApplyVerifies(env: Env, target: string, d: Disk, root: map<string, Bytes>,
                                hardware: Option<HardwareInputs>, fault: Option<nat>, boot: map<string, Node>)
    requires Installable(env, d) && SaneHardware(hardware)
    requires ApplyRun(env, target, d, root, hardware, fault).result.Ok?
    requires var after := Exec(d, ApplyRun(env, target, d, root, hardware, fault).writes);
      forall i | 0 <= i < 13 :: At(boot, DESTINATIONS[i]) == At(after.boot, DESTINATIONS[i])
    ensures var after := Exec(d, ApplyRun(env, target, d, root, hardware, fault).writes);
      VerifyRun(env, target, after.(boot := boot), FromRuntime).result.Ok?
  {
    hide Core, ApplyRun, ApplyChecks, FilesOf, Setting, VerifyRun, InstalledBundleVerifies, ReadBootBundle;
    if ApplyChecks(env, d, root).Err? {
      RefusedApplyFails(env, target, d, root, hardware, fault);
    } else {
      AcceptedChecks(env, d, root);
      var bundle := ApplyChecks(env, d, root).value;
      var s := SceneOf(env, target, d, bundle);
      SceneIsSet(env, target, d, root);
      ApplyKeeps(env, target, d, root, hardware, fault);
      var after := Exec(d, ApplyRun(env, target, d, root, hardware, fault).writes);
      FilesOfDestinations(bundle);
      assert Installed(after.boot, s.files);
      forall i | 0 <= i < |s.files|
        ensures At(boot, s.files[i].destination) == Regular(s.files[i].bytes)
      {
        assert s.files[i].destination == DESTINATIONS[i];
      }
      AcceptedBundleVerifies(env, root, s.plan, after.boot);
      AcceptedBundleVerifies(env, root, s.plan, boot);
      RuntimePlan(env, s, after);
      VerifyDecidesFromCheckpoint(env, s, -1, after, FromRuntime);
      VerifyReadsOnlyBoot(env, target, after, boot);
    }
  }

  lemma RefusedApplyFails(env: Env, target: string, d: Disk, root: map<string, Bytes>,
                          hardware: Option<HardwareInputs>, fault: Option<nat>)
    requires ApplyChecks(env, d, root).Err?
    ensures ApplyRun(env, target, d, root, hardware, fault).result.Err?
  {
    hide ApplyChecks;
  }

  lemma AcceptedChecks(env: Env, d: Disk, root: map<string, Bytes>)
    requires ApplyChecks(env, d, root).Ok?
    ensures d.runtime.Some? && ReadBootBundle(env, root) == Ok(ApplyChecks(env, d, root).value)
    ensures Digested(env, ApplyChecks(env, d, root).value.manifest) == d.runtime.value.plan.bootSha
  {
    hide Bound, HardwareFileOk;
  }

  lemma RuntimePlan(env: Env, s: Scene, d: Disk)
    requires AppliedDisk(env, s, d)
    ensures d.runtime.Some? && d.runtime.value.plan == s.plan && s.plan.id in d.checkpoints
  {
  }

  /**
   * Without an input/output error, apply succeeds exactly on accepted inputs, the expected parent and
   * replaceable files.
   */
  lemma {:induction false} ApplySucceedsExactlyWhen(env: Env, target: string, d: Disk, root: map<string, Bytes>,
                                                    hardware: Option<HardwareInputs>)
    requires Installable(env, d) && SaneHardware(hardware) && ApplyChecks(env, d, root).Ok?
    ensures var s := SceneOf(env, target, d, ApplyChecks(env, d, root).value);
      ApplyRun(env, target, d, root, hardware, None).result.Ok? <==>
        && (hardware.Some? <==> s.plan.hardwareSha.Some?)
        && (hardware.Some? ==> hardware.value.verified.Some? && Agreeing(Intents(hardware.value.verified.value)))
        && env.parentOf(d.runtime.value.generation) == Some(d.store.active)
        && (forall i | 0 <= i < |s.files| :: Replaceable(s, i))
  {
    hide Core, Setting, ApplyChecks, FilesOf, PublishedJournal, ApplyingJournal, NewCheckpoint, Agreeing, RecordWith;
    AcceptedChecks(env, d, root);
    var s := SceneOf(env, target, d, ApplyChecks(env, d, root).value);
    var j := ApplyingJournal(target, d.store, s.plan, d.runtime.value.journal);
    NewlyCreated(s, j);
    ApplyStages(env, target, d, root, hardware, None);
    SaveRunSucceeds(s, 0);
  }
}
