/**
 * Whole runs: any sequence of operations on one installation, each interrupted
 * after any number of its writes.
 */
module CrashSafety {
  import opened Wrappers
  import opened DigestCodec
  import opened Documents
  import opened BootBundle
  import opened TargetDisk
  import opened Operations
  import opened CrashInvariant
  import opened UndoProof
  import opened ApplyProof
  import opened ApplyCuts

  datatype Op =
    | Apply(root: map<string, Bytes>, hardware: Option<HardwareInputs>, fault: Option<nat>)
    | Verify(source: Source)
    | Rollback(source: Source)
    | Recover(names: seq<string>)
    | LoseRuntime  // a restart loses the installation medium

  /** An operation that stops after at most `cut` writes. */
  datatype Event = Event(op: Op, cut: nat)

  function WritesOf(env: Env, target: string, d: Disk, op: Op): seq<Write> {
    match op
    case Apply(root, hardware, fault) => ApplyRun(env, target, d, root, hardware, fault).writes
    case Verify(source) => VerifyRun(env, target, d, source).writes
    case Rollback(source) => RollbackRun(env, target, d, source).writes
    case Recover(names) => RecoverRun(env, target, d, names).writes
    case LoseRuntime => []
  }

  function AfterEvent(env: Env, target: string, d: Disk, e: Event): Disk {
    var writes := WritesOf(env, target, d, e.op);
    if e.op.LoseRuntime? then d.(runtime := None)
    else Exec(d, if e.cut <= |writes| then writes[..e.cut] else writes)
  }

  function After(env: Env, target: string, d: Disk, events: seq<Event>): Disk
    decreases events
  {
    if events == [] then d else After(env, target, AfterEvent(env, target, d, events[0]), events[1..])
  }

  /**
   * The operations of one installation: applied with signed packages, verified and
   * rolled back from either copy of its own documents. `recover` touches every open
   * transaction, so it is an operation of this installation only if the others are closed.
   */
  ghost predicate SaneOp(id: string, others: map<string, Checkpoint>, op: Op) {
    match op
    case Apply(_, hardware, _) => SaneHardware(hardware)
    case Verify(source) => OwnCopy(id, source)
    case Rollback(source) => OwnCopy(id, source)
    case Recover(_) => AllClosed(others)
    case LoseRuntime => true
  }

  predicate OwnCopy(id: string, source: Source) {
    source == FromRuntime || source == FromCheckpoint(id)
  }

  ghost predicate SaneRun(id: string, others: map<string, Checkpoint>, events: seq<Event>) {
    forall e | e in events :: SaneOp(id, others, e.op)
  }

  ghost predicate SaneEvents(d0: Disk, events: seq<Event>)
    requires d0.runtime.Some?
  {
    SaneRun(d0.runtime.value.plan.id, d0.checkpoints, events)
  }

  /** A prepared installation, whatever earlier transactions the target holds. */
  ghost predicate Start(env: Env, d: Disk) {
    && Installable(env, d)
    && d.runtime.Some?
    && WellShaped(env, d.runtime.value.plan, d.runtime.value.journal)
    && d.runtime.value.journal.status == Prepared
    && d.runtime.value.plan.id !in d.checkpoints
  }

  /** The installation has not touched the target. */
  ghost predicate Untouched(env: Env, d0: Disk, d: Disk)
    requires d0.runtime.Some?
  {
    && d.boot == d0.boot && d.store == d0.store && d.checkpoints == d0.checkpoints
    && (d.runtime.Some? ==>
          && d.runtime.value == d0.runtime.value.(journal := d.runtime.value.journal)
          && WellShaped(env, d0.runtime.value.plan, d.runtime.value.journal)
          && d.runtime.value.journal.status in {Prepared, RolledBack})
  }

  /** The scenes of the installation that `d0` prepared. */
  ghost predicate SceneFrom(target: string, d0: Disk, s: Scene)
    requires d0.runtime.Some?
  {
    && Setting(s) && s.target == target && s.plan == d0.runtime.value.plan
    && s.pre.boot == d0.boot && s.pre.store == d0.store && s.pre.checkpoints == d0.checkpoints
  }

  /** The installation has begun, with this file in flight. */
  ghost predicate Begun(env: Env, target: string, d0: Disk, file: Option<BootFile>, d: Disk)
    requires d0.runtime.Some?
  {
    exists s, k :: SceneFrom(target, d0, s) && Core(env, s, k, d) && FileAt(s.files, k) == file
  }

  function FileAt(files: seq<BootFile>, k: int): Option<BootFile> {
    if 0 <= k < |files| then Some(files[k]) else None
  }

  /** An event that begins the installation: an accepted apply that gets to its first write. */
  predicate Begins(env: Env, d: Disk, e: Event) {
    e.op.Apply? && e.cut > 0 && ApplyChecks(env, d, e.op.root).Ok?
  }

  /** The file that an interrupted apply leaves renamed but not marked. */
  function FileCut(env: Env, target: string, d: Disk, e: Event): Option<BootFile>
    requires Begins(env, d, e)
  {
    var run := ApplyRun(env, target, d, e.op.root, e.op.hardware, e.op.fault);
    var cut := if e.cut <= |run.writes| then e.cut else |run.writes|;
    FileAt(FilesOf(ApplyChecks(env, d, e.op.root).value),
           ApplyInFlight(env, target, d, e.op.root, e.op.hardware, e.op.fault, cut))
  }

  /** The file a run leaves in flight: the one its first accepted apply was interrupted at, if any. */
  function FileInFlight(env: Env, target: string, d: Disk, events: seq<Event>): Option<BootFile>
    decreases events
  {
    if events == [] then None
    else if Begins(env, d, events[0]) then FileCut(env, target, d, events[0])
    else FileInFlight(env, target, AfterEvent(env, target, d, events[0]), events[1..])
  }

  // ----------------------------------------------------------------- before the checkpoint

  lemma {:induction false} ClosedRecovery(env: Env, target: string, d: Disk, names: seq<string>, seen: nat,
                                          recovered: nat)
    requires AllClosed(d.checkpoints)
    ensures RecoverFrom(env, target, d, names, seen, recovered).writes == []
    decreases names
  {
    hide Bound, RollbackRun;
    if names != [] {
      ClosedRecovery(env, target, d, names[1..], seen, recovered);
      ClosedRecovery(env, target, d, names[1..], seen + 1, recovered);
    }
  }

  lemma {:induction false} UntouchedRollback(env: Env, target: string, d0: Disk, d: Disk, source: Source, cut: nat)
    requires Start(env, d0) && Untouched(env, d0, d) && OwnCopy(d0.runtime.value.plan.id, source)
    requires cut <= |RollbackRun(env, target, d, source).writes|
    ensures Untouched(env, d0, Exec(d, RollbackRun(env, target, d, source).writes[..cut]))
  {
    hide Bound, WellShaped, CorinthUndo, Undone;
    var writes := RollbackRun(env, target, d, source).writes;
    if source == FromRuntime && d.runtime.Some? {
      var r := d.runtime.value;
      WellShapedIsBound(env, r.plan, r.journal);
      if r.journal.status == Prepared {
        PreparedRollback(env, target, d);
        UndoneIsWellShaped(env, r.plan, r.journal, target);
        assert writes == [PutRuntime(UndoneJournal(r.journal, target))];
        assert writes[..cut] == [] || writes[..cut] == writes;
        assert writes[1..] == [];
      }
    }
  }

  lemma PreparedRollback(env: Env, target: string, d: Disk)
    requires d.runtime.Some? && Bound(env, d.runtime.value.plan, d.runtime.value.journal)
    requires WellShaped(env, d.runtime.value.plan, d.runtime.value.journal)
    requires d.runtime.value.journal.status == Prepared && d.runtime.value.plan.id !in d.checkpoints
    ensures RollbackRun(env, target, d, FromRuntime)
      == Done([PutRuntime(UndoneJournal(d.runtime.value.journal, target))])
  {
    hide Bound, UndoneJournal;
  }

  lemma UntouchedVerify(env: Env, target: string, d0: Disk, d: Disk, source: Source)
    requires Start(env, d0) && Untouched(env, d0, d) && OwnCopy(d0.runtime.value.plan.id, source)
    ensures VerifyRun(env, target, d, source).writes == []
  {
    hide Bound, WellShaped, InstalledBundleVerifies;
  }

  lemma {:induction false} UntouchedApply(env: Env, target: string, d0: Disk, d: Disk, e: Event)
    requires Start(env, d0) && Untouched(env, d0, d) && e.op.Apply? && SaneHardware(e.op.hardware)
    ensures var after := AfterEvent(env, target, d, e);
      if Begins(env, d, e) then Begun(env, target, d0, FileCut(env, target, d, e), after)
      else Untouched(env, d0, after)
  {
    hide Core, WellShaped, ApplyRun, ApplyChecks, FilesOf, Setting, ApplyInFlight, CutAt;
    var op := e.op;
    if d.runtime.None? {
      NoRuntimeNoApply(env, d, op.root);
    }
    var writes := ApplyRun(env, target, d, op.root, op.hardware, op.fault).writes;
    var cut := if e.cut <= |writes| then e.cut else |writes|;
    assert writes[..|writes|] == writes;
    if ApplyChecks(env, d, op.root).Err? {
      RefusedApply(env, target, d, op);
    } else if e.cut == 0 {
      assert writes[..cut] == [];
    } else {
      var s := SceneOf(env, target, d, ApplyChecks(env, d, op.root).value);
      SceneIsSet(env, target, d, op.root);
      ApplyKeeps(env, target, d, op.root, op.hardware, op.fault);
      ApplyAtCut(env, target, d, op.root, op.hardware, op.fault, cut);
      assert SceneFrom(target, d0, s);
    }
  }

  lemma NoRuntimeNoApply(env: Env, d: Disk, root: map<string, Bytes>)
    requires d.runtime.None?
    ensures ApplyChecks(env, d, root).Err?
  {
  }

  lemma RefusedApply(env: Env, target: string, d: Disk, op: Op)
    requires op.Apply? && ApplyChecks(env, d, op.root).Err?
    ensures ApplyRun(env, target, d, op.root, op.hardware, op.fault).writes == []
  {
    hide ApplyChecks;
  }

  // ----------------------------------------------------------------- after the checkpoint

  /** Once its checkpoint exists, a further apply writes nothing, whatever the runtime copy says. */
  lemma SecondApplyWritesNothing(env: Env, s: Scene, k: int, d: Disk, op: Op)
    requires Core(env, s, k, d) && op.Apply?
    ensures ApplyRun(env, s.target, d, op.root, op.hardware, op.fault).writes == []
  {
    hide Bound, WellShaped, BootHolds, StoreHolds, CheckpointHolds, ReadBootBundle, HardwareFileOk;
    assert ApplyChecks(env, d, op.root).Err?;
  }

  lemma {:induction false} EventKeeps(env: Env, s: Scene, k: int, d: Disk, e: Event)
    requires Setting(s) && Core(env, s, k, d) && SaneOp(s.plan.id, s.pre.checkpoints, e.op)
    ensures Core(env, s, k, AfterEvent(env, s.target, d, e))
  {
    hide Core, Setting, ApplyRun, VerifyRun, RollbackRun, RecoverFrom;
    var writes := WritesOf(env, s.target, d, e.op);
    match e.op {
      case Apply(_, _, _) => SecondApplyWritesNothing(env, s, k, d, e.op);
      case Verify(source) => VerifyKeeps(env, s, k, d, source);
      case Rollback(source) => RollbackKeeps(env, s, k, d, source);
      case Recover(names) => RecoverKeeps(env, s, k, d, names, 0, 0);
      case LoseRuntime => RuntimeLost(env, s, k, d);
    }
    assert Along(env, s, Exactly(k), d, writes);
    var cut := if e.cut <= |writes| then e.cut else |writes|;
    AlongPrefix(env, s, Exactly(k), d, writes, cut);
    assert writes[..|writes|] == writes;
  }

  lemma RuntimeLost(env: Env, s: Scene, k: int, d: Disk)
    requires Core(env, s, k, d)
    ensures Core(env, s, k, d.(runtime := None))
  {
  }

  lemma {:induction false} EventsKeep(env: Env, s: Scene, k: int, d: Disk, events: seq<Event>)
    requires Setting(s) && Core(env, s, k, d) && SaneRun(s.plan.id, s.pre.checkpoints, events)
    ensures Core(env, s, k, After(env, s.target, d, events))
    decreases events
  {
    hide Core, Setting, AfterEvent, SaneOp;
    if events != [] {
      assert events[0] in events;
      EventKeeps(env, s, k, d, events[0]);
      EventsKeep(env, s, k, AfterEvent(env, s.target, d, events[0]), events[1..]);
    }
  }

  lemma {:induction false} UntouchedEvent(env: Env, target: string, d0: Disk, d: Disk, e: Event)
    requires Start(env, d0) && Untouched(env, d0, d)
    requires SaneOp(d0.runtime.value.plan.id, d0.checkpoints, e.op)
    ensures var after := AfterEvent(env, target, d, e);
      if Begins(env, d, e) then Begun(env, target, d0, FileCut(env, target, d, e), after)
      else Untouched(env, d0, after)
  {
    hide WellShaped, ApplyRun, ApplyChecks, VerifyRun, RollbackRun, RecoverFrom, Begun, AllClosed, FileCut;
    var writes := WritesOf(env, target, d, e.op);
    var cut := if e.cut <= |writes| then e.cut else |writes|;
    assert writes[..|writes|] == writes;
    match e.op {
      case Apply(_, _, _) => UntouchedApply(env, target, d0, d, e);
      case Verify(source) => UntouchedVerify(env, target, d0, d, source);
      case Rollback(source) => UntouchedRollback(env, target, d0, d, source, cut);
      case Recover(names) => ClosedRecovery(env, target, d, names, 0, 0);
      case LoseRuntime =>
    }
  }

  /**
   * Every disk of every run: the target is untouched, or the invariant of the installation
   * holds with exactly the file in flight at which its first accepted apply was interrupted.
   */
  lemma {:induction false} RunInvariant(env: Env, target: string, d0: Disk, d: Disk, events: seq<Event>)
    requires Start(env, d0) && SaneEvents(d0, events) && Untouched(env, d0, d)
    ensures var after := After(env, target, d, events);
      var file := FileInFlight(env, target, d, events);
      (Untouched(env, d0, after) && file.None?) || Begun(env, target, d0, file, after)
    decreases events
  {
    hide Core, Setting, AfterEvent, WellShaped, AllClosed, Begins, FileCut, SaneOp;
    if events != [] {
      assert events[0] in events;
      UntouchedEvent(env, target, d0, d, events[0]);
      var next := AfterEvent(env, target, d, events[0]);
      if Begins(env, d, events[0]) {
        var s, k :| SceneFrom(target, d0, s) && Core(env, s, k, next)
          && FileAt(s.files, k) == FileCut(env, target, d, events[0]);
        EventsKeep(env, s, k, next, events[1..]);
      } else {
        RunInvariant(env, target, d0, next, events[1..]);
      }
    }
  }
}
