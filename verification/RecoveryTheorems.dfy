/** `recover` over any set of checkpoints. */
module RecoveryTheorems {
  import opened Wrappers
  import opened DigestCodec
  import opened Documents
  import opened TargetDisk
  import opened Operations
  import opened CrashInvariant
  import opened UndoProof
  import opened CrashSafety
  import opened CrashTheorems

  /** Every transaction directory is named after the transaction it holds. */
  ghost predicate Named(d: Disk) {
    forall n | n in d.checkpoints :: d.checkpoints[n].plan.id == n
  }

  ghost predicate Distinct(names: seq<string>) {
    forall i, j | 0 <= i < j < |names| :: names[i] != names[j]
  }

  /** The mutation counts whose rollback leaves an accepted journal. */
  predicate BoundedMutations(journal: Journal) {
    && Count(journal, Generation) <= 1
    && Count(journal, GenerationUndone) <= 1
    && (Count(journal, Mutation.BootBundle) == Count(journal, BootBundleUndone)
        || (Count(journal, Mutation.BootBundle) == 1 && Count(journal, BootBundleUndone) == 0))
  }

  ghost function OpenIn(d: Disk, names: seq<string>): set<string> {
    set n | n in names && n in d.checkpoints && d.checkpoints[n].journal.status !in {Verified, RolledBack}
  }

  function Visible(names: seq<string>): nat {
    if names == [] then 0 else (if DotFile(names[0]) then 0 else 1) + Visible(names[1..])
  }

  // ----------------------------------------------------------------- one rollback

  ghost predicate OthersUnchanged(id: string, before: Disk, after: Disk) {
    && after.checkpoints.Keys == before.checkpoints.Keys
    && forall n | n in before.checkpoints && n != id :: after.checkpoints[n] == before.checkpoints[n]
  }

  lemma UndoWriteTouchesOne(id: string, journal: Journal, target: string, d: Disk, w: Write)
    requires UndoWrite(id, journal, target, w)
    ensures OthersUnchanged(id, d, Perform(d, w))
    ensures id in d.checkpoints ==> Perform(d, w).checkpoints[id].plan == d.checkpoints[id].plan
  {
    hide UndoneJournal;
  }

  lemma {:induction false} UndoWritesTouchOne(id: string, journal: Journal, target: string, d: Disk, writes: seq<Write>)
    requires UndoWrites(id, journal, target, writes)
    ensures OthersUnchanged(id, d, Exec(d, writes))
    ensures id in d.checkpoints ==> Exec(d, writes).checkpoints[id].plan == d.checkpoints[id].plan
    decreases writes
  {
    hide UndoWrite, Perform;
    if writes != [] {
      UndoWriteTouchesOne(id, journal, target, d, writes[0]);
      UndoWritesTouchOne(id, journal, target, Perform(d, writes[0]), writes[1..]);
    }
  }

  /** A scene that only names the plan, to speak of arbitrary disks. */
  ghost function PlanScene(target: string, plan: Plan, d: Disk): Scene {
    Scene(target, plan, NO_GENERATION, [], d)
  }

  lemma UndoRunEnds(target: string, d: Disk, name: string, plan: Plan, journal: Journal)
    requires UndoRun(target, d, FromCheckpoint(name), plan, journal, true).result.Ok? && plan.id == name
    ensures var writes := UndoRun(target, d, FromCheckpoint(name), plan, journal, true).writes;
      writes != [] && writes[|writes| - 1] == PutJournal(name, UndoneJournal(journal, target))
  {
    hide HardwareUndo, BootUndo, CorinthUndo, UndoneJournal;
  }

  /** Rolling back one transaction of any disk changes no other, and success records it as rolled back. */
  lemma {:induction false} RollbackTouchesOne(env: Env, target: string, d: Disk, name: string)
    requires name in d.checkpoints && d.checkpoints[name].plan.id == name
    ensures var run := RollbackRun(env, target, d, FromCheckpoint(name));
      var after := Exec(d, run.writes);
      && OthersUnchanged(name, d, after)
      && after.checkpoints[name].plan == d.checkpoints[name].plan
      && (run.result.Ok? ==>
            && d.checkpoints[name].journal.status != RolledBack
            && after.checkpoints[name].journal == UndoneJournal(d.checkpoints[name].journal, target))
  {
    hide Bound, HardwareFileOk, UndoRun, UndoneJournal;
    var c := d.checkpoints[name];
    var s := PlanScene(target, c.plan, d);
    var run := RollbackRun(env, target, d, FromCheckpoint(name));
    if run.writes != [] || run.result.Ok? {
      UndoRunIsUndo(d, s, FromCheckpoint(name), c.journal);
      UndoWritesTouchOne(name, c.journal, target, d, run.writes);
      if run.result.Ok? {
        UndoRunEnds(target, d, name, c.plan, c.journal);
        RolledBackRefuses(target, d, FromCheckpoint(name), c.plan, c.journal);
        var front, last := run.writes[..|run.writes| - 1], PutJournal(name, UndoneJournal(c.journal, target));
        assert run.writes == front + [last];
        ExecAppend(d, front, last);
        UndoWritesTouchOne(name, c.journal, target, d, front);
      }
    }
  }

  lemma RolledBackRefuses(target: string, d: Disk, source: Source, plan: Plan, journal: Journal)
    requires UndoRun(target, d, source, plan, journal, true).result.Ok?
    ensures journal.status != RolledBack
  {
    hide HardwareUndo, BootUndo, CorinthUndo, UndoneJournal;
  }

  // ----------------------------------------------------------------- the scan

  /** A listed open transaction is rolled back; any other is untouched. */
  ghost predicate RecoveredOne(env: Env, target: string, listed: bool, before: Checkpoint, after: Checkpoint) {
    if listed && before.journal.status !in {Verified, RolledBack} then
      && after.plan == before.plan && after.journal == UndoneJournal(before.journal, target)
      && Bound(env, before.plan, before.journal)
    else after == before
  }

  /** What a successful scan did to the transactions. */
  ghost predicate Recovered(env: Env, target: string, d: Disk, names: seq<string>, after: Disk) {
    && after.checkpoints.Keys == d.checkpoints.Keys
    && forall n | n in d.checkpoints ::
         RecoveredOne(env, target, n in names, d.checkpoints[n], after.checkpoints[n])
  }

  predicate Loadable(env: Env, d: Disk, n: string) {
    ValidTransactionId(n) && n in d.checkpoints && Bound(env, d.checkpoints[n].plan, d.checkpoints[n].journal)
  }

  lemma NamedStays(id: string, before: Disk, after: Disk)
    requires Named(before) && OthersUnchanged(id, before, after)
    requires id in before.checkpoints ==> after.checkpoints[id].plan == before.checkpoints[id].plan
    ensures Named(after)
  {
  }

  lemma {:induction false} OpenInStep(d: Disk, n: string, rest: seq<string>, next: Disk)
    requires n in d.checkpoints && n !in rest && d.checkpoints[n].journal.status !in {Verified, RolledBack}
    requires OthersUnchanged(n, d, next)
    ensures |OpenIn(d, [n] + rest)| == 1 + |OpenIn(next, rest)|
  {
    hide Open;
    var open, others := OpenIn(d, [n] + rest), OpenIn(next, rest);
    forall m
      ensures m in open <==> m == n || m in others
    {
      assert m in [n] + rest <==> m == n || m in rest;
      assert m in rest && m in d.checkpoints ==> next.checkpoints[m] == d.checkpoints[m];
    }
    assert n !in others;
    assert open == {n} + others;
  }

  lemma ClosedStep(d: Disk, n: string, rest: seq<string>)
    requires n in d.checkpoints ==> d.checkpoints[n].journal.status in {Verified, RolledBack}
    ensures OpenIn(d, [n] + rest) == OpenIn(d, rest)
  {
  }

  /**
   * Whenever the scan succeeds, it counted exactly the open transactions it was listed,
   * each of them is now rolled back, and nothing else changed.
   */
  lemma {:induction false} RecoverFromEffect(env: Env, target: string, d: Disk, names: seq<string>, seen: nat,
                                             recovered: nat)
    requires Named(d) && Distinct(names)
    requires forall n | n in d.checkpoints :: !DotFile(n)
    requires RecoverFrom(env, target, d, names, seen, recovered).result.Ok?
    ensures var r := RecoverFrom(env, target, d, names, seen, recovered);
      && Recovered(env, target, d, names, Exec(d, r.writes))
      && r.result.value == recovered + |OpenIn(d, names)|
    decreases names
  {
    hide Bound, RollbackRun, UndoneJournal, ValidTransactionId, Recovered;
    if names == [] {
      assert OpenIn(d, names) == {};
      assert Recovered(env, target, d, names, d) by { RecoveredNothing(env, target, d); }
    } else {
      var n, rest := names[0], names[1..];
      assert names == [n] + rest && Distinct(rest) && n !in rest;
      if DotFile(n) {
        RecoverFromEffect(env, target, d, rest, seen, recovered);
        ClosedStep(d, n, rest);
        RecoveredSkip(env, target, d, n, rest, Exec(d, RecoverFrom(env, target, d, rest, seen, recovered).writes));
      } else if d.checkpoints[n].journal.status in {Verified, RolledBack} {
        RecoverFromEffect(env, target, d, rest, seen + 1, recovered);
        ClosedStep(d, n, rest);
        RecoveredSkip(env, target, d, n, rest, Exec(d, RecoverFrom(env, target, d, rest, seen + 1, recovered).writes));
      } else {
        var run := RollbackRun(env, target, d, FromCheckpoint(n));
        RollbackTouchesOne(env, target, d, n);
        var next := Exec(d, run.writes);
        NamedStays(n, d, next);
        RecoverFromEffect(env, target, next, rest, seen + 1, recovered + 1);
        var more := RecoverFrom(env, target, next, rest, seen + 1, recovered + 1);
        ExecConcat(d, run.writes, more.writes);
        OpenInStep(d, n, rest, next);
        RecoveredStep(env, target, d, n, rest, next, Exec(next, more.writes));
      }
    }
  }

  lemma RecoveredNothing(env: Env, target: string, d: Disk)
    ensures Recovered(env, target, d, [], d)
  {
    hide UndoneJournal, Bound;
  }

  lemma {:induction false} RecoveredSkip(env: Env, target: string, d: Disk, n: string, rest: seq<string>, after: Disk)
    requires n in d.checkpoints ==> d.checkpoints[n].journal.status in {Verified, RolledBack}
    requires Recovered(env, target, d, rest, after)
    ensures Recovered(env, target, d, [n] + rest, after)
  {
    hide UndoneJournal, Bound;
    forall m | m in d.checkpoints
      ensures RecoveredOne(env, target, m in [n] + rest, d.checkpoints[m], after.checkpoints[m])
    {
      assert RecoveredOne(env, target, m in rest, d.checkpoints[m], after.checkpoints[m]);
    }
  }

  lemma {:induction false} RecoveredStep(env: Env, target: string, d: Disk, n: string, rest: seq<string>, next: Disk,
                                         after: Disk)
    requires n in d.checkpoints && n !in rest && d.checkpoints[n].journal.status !in {Verified, RolledBack}
    requires Bound(env, d.checkpoints[n].plan, d.checkpoints[n].journal)
    requires OthersUnchanged(n, d, next)
    requires next.checkpoints[n].journal == UndoneJournal(d.checkpoints[n].journal, target)
    requires next.checkpoints[n].plan == d.checkpoints[n].plan
    requires Recovered(env, target, next, rest, after)
    ensures Recovered(env, target, d, [n] + rest, after)
  {
    hide Bound, UndoneJournal;
    forall m | m in d.checkpoints
      ensures RecoveredOne(env, target, m in [n] + rest, d.checkpoints[m], after.checkpoints[m])
    {
      assert RecoveredOne(env, target, m in rest, next.checkpoints[m], after.checkpoints[m]);
    }
  }

  /** A successful scan accepted every entry it was listed, and there were at most 128. */
  lemma {:induction false} RecoverAccepts(env: Env, target: string, d: Disk, names: seq<string>, seen: nat,
                                          recovered: nat)
    requires Named(d) && Distinct(names) && seen <= 128
    requires RecoverFrom(env, target, d, names, seen, recovered).result.Ok?
    ensures seen + Visible(names) <= 128
    ensures forall n | n in names && !DotFile(n) :: Loadable(env, d, n)
    decreases names
  {
    hide Bound, RollbackRun, ValidTransactionId, UndoneJournal;
    if names != [] {
      var n, rest := names[0], names[1..];
      assert names == [n] + rest && Distinct(rest) && n !in rest;
      if DotFile(n) {
        RecoverAccepts(env, target, d, rest, seen, recovered);
      } else if d.checkpoints[n].journal.status in {Verified, RolledBack} {
        RecoverAccepts(env, target, d, rest, seen + 1, recovered);
      } else {
        RollbackTouchesOne(env, target, d, n);
        var next := Exec(d, RollbackRun(env, target, d, FromCheckpoint(n)).writes);
        NamedStays(n, d, next);
        RecoverAccepts(env, target, next, rest, seen + 1, recovered + 1);
        forall m | m in rest && !DotFile(m)
          ensures Loadable(env, d, m)
        {
          assert Loadable(env, next, m);
        }
      }
    }
  }

  lemma {:induction false} NothingToRecover(env: Env, target: string, d: Disk, names: seq<string>, seen: nat,
                                            recovered: nat)
    requires forall n | n in names && !DotFile(n) ::
      Loadable(env, d, n) && d.checkpoints[n].journal.status in {Verified, RolledBack}
    requires seen + Visible(names) <= 128
    ensures RecoverFrom(env, target, d, names, seen, recovered) == Recovery([], Ok(recovered))
    decreases names
  {
    hide Bound, RollbackRun, ValidTransactionId;
    if names != [] {
      assert names[0] in names;
      if DotFile(names[0]) {
        NothingToRecover(env, target, d, names[1..], seen, recovered);
      } else {
        NothingToRecover(env, target, d, names[1..], seen + 1, recovered);
      }
    }
  }

  /**
   * The contract of `recover`. Whenever it returns Ok(n) over a complete listing, n is the
   * number of open transactions, all transactions are now closed and the closed ones are
   * untouched. The next call returns Ok(0) and writes nothing, if and only if every journal
   * that was open had bounded mutation counts; otherwise it is refused.
   */
  lemma {:induction false} RecoverClosesEverything(env: Env, target: string, d: Disk, names: seq<string>)
    requires Named(d) && Distinct(names)
    requires forall n | n in d.checkpoints :: !DotFile(n) && n in names
    requires RecoverRun(env, target, d, names).result.Ok?
    ensures var r := RecoverRun(env, target, d, names);
      var after := Exec(d, r.writes);
      && r.result.value == |set n | n in d.checkpoints && d.checkpoints[n].journal.status !in {Verified, RolledBack}|
      && after.checkpoints.Keys == d.checkpoints.Keys
      && (forall n | n in after.checkpoints :: after.checkpoints[n].journal.status in {Verified, RolledBack})
      && (forall n | n in d.checkpoints && d.checkpoints[n].journal.status in {Verified, RolledBack} ::
            after.checkpoints[n] == d.checkpoints[n])
      && var next := RecoverRun(env, target, after, names);
         && (next.result.Ok? ==> next == Recovery([], Ok(0)))
         && (next.result.Ok? <==>
               forall n | n in d.checkpoints && d.checkpoints[n].journal.status !in {Verified, RolledBack} ::
                 BoundedMutations(d.checkpoints[n].journal))
  {
    hide Bound, RollbackRun, ValidTransactionId, UndoneJournal, BoundedMutations, RecoverFrom;
    RecoverFromEffect(env, target, d, names, 0, 0);
    RecoverAccepts(env, target, d, names, 0, 0);
    var after := Exec(d, RecoverRun(env, target, d, names).writes);
    assert OpenIn(d, names) == set n | n in d.checkpoints && d.checkpoints[n].journal.status !in {Verified, RolledBack};
    forall n | n in d.checkpoints
      ensures after.checkpoints[n].journal.status in {Verified, RolledBack}
      ensures d.checkpoints[n].journal.status in {Verified, RolledBack} ==> after.checkpoints[n] == d.checkpoints[n]
    {
      assert RecoveredOne(env, target, n in names, d.checkpoints[n], after.checkpoints[n]);
      UndoneIsClosed(d.checkpoints[n].journal, target);
    }
    NextRecoverySucceedsExactlyWhen(env, target, d, names);
  }

  lemma UndoneIsClosed(journal: Journal, target: string)
    ensures UndoneJournal(journal, target).status == RolledBack
  {
    hide Undone;
  }

  /** The next recovery over any listing that was just recovered. */
  lemma {:induction false} NextRecoverySucceedsExactlyWhen(env: Env, target: string, d: Disk, names: seq<string>)
    requires Named(d) && Distinct(names)
    requires forall n | n in d.checkpoints :: !DotFile(n)
    requires RecoverRun(env, target, d, names).result.Ok?
    ensures var next := RecoverRun(env, target, Exec(d, RecoverRun(env, target, d, names).writes), names);
      && (next.result.Ok? ==> next == Recovery([], Ok(0)))
      && (next.result.Ok? <==>
            forall n | n in names && n in d.checkpoints && d.checkpoints[n].journal.status !in {Verified, RolledBack} ::
              BoundedMutations(d.checkpoints[n].journal))
  {
    hide Bound, RollbackRun, ValidTransactionId, UndoneJournal, BoundedMutations, RecoverFrom;
    RecoverFromEffect(env, target, d, names, 0, 0);
    RecoverAccepts(env, target, d, names, 0, 0);
    var after := Exec(d, RecoverRun(env, target, d, names).writes);
    forall n | n in names && n in d.checkpoints
      ensures after.checkpoints[n].plan == d.checkpoints[n].plan
      ensures after.checkpoints[n].journal.status in {Verified, RolledBack}
      ensures Loadable(env, after, n)
        <==> (d.checkpoints[n].journal.status !in {Verified, RolledBack} ==> BoundedMutations(d.checkpoints[n].journal))
    {
      assert Loadable(env, d, n);
      assert RecoveredOne(env, target, n in names, d.checkpoints[n], after.checkpoints[n]);
      if d.checkpoints[n].journal.status !in {Verified, RolledBack} {
        BoundedMeans(env, d.checkpoints[n].plan, d.checkpoints[n].journal, target);
        UndoneIsClosed(d.checkpoints[n].journal, target);
      }
    }
    forall n | n in after.checkpoints
      ensures after.checkpoints[n].plan.id == n
    {
      assert RecoveredOne(env, target, n in names, d.checkpoints[n], after.checkpoints[n]);
    }
    if RecoverRun(env, target, after, names).result.Ok? {
      RecoverAccepts(env, target, after, names, 0, 0);
    }
    if forall n | n in names && !DotFile(n) :: Loadable(env, after, n) {
      NothingToRecover(env, target, after, names, 0, 0);
    }
  }

  /** Every journal of the installer's own runs is bounded in this sense. */
  lemma {:induction false} WellShapedIsBounded(env: Env, plan: Plan, journal: Journal)
    requires WellShaped(env, plan, journal) && journal.status != RolledBack
    ensures BoundedMutations(journal)
  {
    ForwardCounts(journal.status, journal.mutations);
  }

  lemma {:induction false} BoundedMeans(env: Env, plan: Plan, journal: Journal, target: string)
    requires Bound(env, plan, journal) && journal.status != RolledBack
    ensures BoundedMutations(journal) <==> Bound(env, plan, UndoneJournal(journal, target))
  {
    hide Bound, Undone;
    UndoneIsBoundExactlyWhen(env, plan, journal, target);
  }

  // ----------------------------------------------------------------- success

  /**
   * With only this installation possibly open, every listed document accepted and at most
   * 128 entries, recovery succeeds from every disk a run can leave except a torn record.
   */
  lemma {:induction false} RecoverSucceeds(env: Env, s: Scene, k: int, d: Disk, names: seq<string>, seen: nat,
                                           recovered: nat)
    requires AllClosed(s.pre.checkpoints)
    requires Setting(s) && Core(env, s, k, d) && !Ckpt(s, d).record.Torn?
    requires Distinct(names) && seen + Visible(names) <= 128
    requires forall n | n in names && !DotFile(n) :: Loadable(env, d, n)
    ensures var r := RecoverFrom(env, s.target, d, names, seen, recovered);
      var open := Ckpt(s, d).journal.status !in {Verified, RolledBack} && s.plan.id in names;
      && r.result == Ok(recovered + if open then 1 else 0)
      && (open ==> IsUndone(env, s, k, d, Exec(d, r.writes)))
      && (!open ==> r.writes == [])
    decreases names
  {
    hide Bound, RollbackRun, ValidTransactionId, Core, Setting, IsUndone, RecoverFrom, CheckpointHolds,
      JournalHolds;
    CoreParts(env, s, k, d);
    if names == [] {
      ScanEnds(env, s.target, d, seen, recovered);
    } else {
      var n, rest := names[0], names[1..];
      assert names == [n] + rest && n in names && n !in rest;
      ScanHead(env, s.target, d, names, seen, recovered);
      OnlyThisOneOpen(env, s, k, d);
      if DotFile(n) {
        RecoverSucceeds(env, s, k, d, rest, seen, recovered);
        ThisOneVisible(env, s, k, d);
      } else if d.checkpoints[n].journal.status in {Verified, RolledBack} {
        RecoverSucceeds(env, s, k, d, rest, seen + 1, recovered);
      } else {
        RollbackKeeps(env, s, k, d, FromCheckpoint(n));
        var run := RollbackRun(env, s.target, d, FromCheckpoint(n));
        var next := Exec(d, run.writes);
        UndoneStatus(env, s, k, d, next);
        LoadableStays(env, s, k, d, next, rest);
        NothingToRecover(env, s.target, next, rest, seen + 1, recovered + 1);
        assert run.writes + [] == run.writes;
      }
    }
  }

  /**
   * The same for whole runs: after any interrupted run, one complete recovery over the
   * listing of the target undoes the installation if it is open and else does nothing,
   * unless the boot record is torn.
   */
  lemma {:induction false} WholeRunRecovery(env: Env, target: string, d0: Disk, events: seq<Event>, names: seq<string>)
    requires Start(env, d0) && SaneEvents(d0, events) && AllClosed(d0.checkpoints)
    requires Distinct(names) && Visible(names) <= 128 && d0.runtime.value.plan.id in names
    requires forall n | n in names && !DotFile(n) && n != d0.runtime.value.plan.id :: Loadable(env, d0, n)
    requires d0.runtime.value.plan.id in After(env, target, d0, events).checkpoints
    requires !After(env, target, d0, events).checkpoints[d0.runtime.value.plan.id].record.Torn?
    ensures var id, d := d0.runtime.value.plan.id, After(env, target, d0, events);
      var r := RecoverRun(env, target, d, names);
      if d.checkpoints[id].journal.status !in {Verified, RolledBack} then 
        r.result == Ok(1) && UndoneOnDisk(d0, id, FileInFlight(env, target, d0, events), Exec(d, r.writes))
      else r == Recovery([], Ok(0))
  {
    hide Core, Setting, WellShaped, AllClosed, After, RecoverFrom, UndoneOnDisk, Bound, Untouched, IsUndone,
      ValidTransactionId, 
      FileInFlight, SaneOp;
    var id, d := d0.runtime.value.plan.id, After(env, target, d0, events);
    StartIsUntouched(env, d0);
    RunInvariant(env, target, d0, d0, events);
    if Untouched(env, d0, d) {
      UntouchedDisk(env, d0, d);
      assert false;
    } else {
      var s, k :| SceneFrom(target, d0, s) && Core(env, s, k, d)
        && FileAt(s.files, k) == FileInFlight(env, target, d0, events);
      StillLoadable(env, s, k, d0, d, names);
      RecoverSucceeds(env, s, k, d, names, 0, 0);
      if Ckpt(s, d).journal.status !in {Verified, RolledBack} {
        var after := Exec(d, RecoverRun(env, target, d, names).writes);
        CoreParts(env, s, k, d);
        UndoneStatus(env, s, k, d, after);
        UndoneIsUndone(env, s, k, d0, after);
      }
    }
  }

  lemma {:induction false} StillLoadable(env: Env, s: Scene, k: int, d0: Disk, d: Disk, names: seq<string>)
    requires Core(env, s, k, d) && s.pre.checkpoints == d0.checkpoints
    requires forall n | n in names && !DotFile(n) && n != s.plan.id :: Loadable(env, d0, n)
    ensures forall n | n in names && !DotFile(n) :: Loadable(env, d, n)
  {
    hide Bound, WellShaped, ValidTransactionId, BootHolds, StoreHolds;
    WellShapedIsBound(env, s.plan, Ckpt(s, d).journal);
    BoundIsNamed(env, s.plan, Ckpt(s, d).journal);
  }

  lemma BoundIsNamed(env: Env, plan: Plan, journal: Journal)
    requires Bound(env, plan, journal)
    ensures ValidTransactionId(plan.id)
  {
  }

  lemma ScanEnds(env: Env, target: string, d: Disk, seen: nat, recovered: nat)
    ensures RecoverFrom(env, target, d, [], seen, recovered) == Recovery([], Ok(recovered))
  {
  }

  /** The scan goes on behind an entry it can load and, if it is open, roll back. */
  lemma ScanHead(env: Env, target: string, d: Disk, names: seq<string>, seen: nat, recovered: nat)
    requires names != []
    ensures var n, rest, scan := names[0], names[1..], RecoverFrom(env, target, d, names, seen, recovered);
      if DotFile(n) then scan == RecoverFrom(env, target, d, rest, seen, recovered)
      else Loadable(env, d, n) && seen < 128 ==>
        if d.checkpoints[n].journal.status in {Verified, RolledBack} then scan
          == RecoverFrom(env, target, d, rest, seen + 1, recovered)
        else
          var run := RollbackRun(env, target, d, FromCheckpoint(n));
          if run.result.Err? then scan.result.Err?
          else
            var more := RecoverFrom(env, target, Exec(d, run.writes), rest, seen + 1, recovered + 1);
            scan == Recovery(run.writes + more.writes, more.result)
  {
    hide Bound, RollbackRun, ValidTransactionId;
  }

  /** Rolling this one back leaves the others loadable and closed. */
  lemma {:induction false} LoadableStays(env: Env, s: Scene, k: int, d: Disk, next: Disk, rest: seq<string>)
    requires AllClosed(s.pre.checkpoints)
    requires Setting(s) && Core(env, s, k, d) && Core(env, s, k, next) && Ckpt(s, next).journal.status == RolledBack
    requires s.plan.id !in rest && forall n | n in rest && !DotFile(n) :: Loadable(env, d, n)
    ensures forall n | n in rest && !DotFile(n) ::
      Loadable(env, next, n) && next.checkpoints[n].journal.status in {Verified, RolledBack}
  {
    hide Bound, ValidTransactionId, Core, Setting;
    ClosedNow(env, s, k, d, next);
  }

  lemma OnlyThisOneOpen(env: Env, s: Scene, k: int, d: Disk)
    requires AllClosed(s.pre.checkpoints)
    requires Setting(s) && Core(env, s, k, d)
    ensures forall n | n in d.checkpoints && n != s.plan.id :: d.checkpoints[n].journal.status in {Verified, RolledBack}
  {
  }

  lemma ThisOneVisible(env: Env, s: Scene, k: int, d: Disk)
    requires Setting(s)
    ensures !DotFile(s.plan.id)
  {
    assert IsHex(s.plan.id[0]);
    DotFileIs(s.plan.id);
  }

  lemma ClosedNow(env: Env, s: Scene, k: int, d: Disk, next: Disk)
    requires AllClosed(s.pre.checkpoints)
    requires Setting(s) && Core(env, s, k, d) && Core(env, s, k, next)
    requires Ckpt(s, next).journal.status == RolledBack
    ensures next.checkpoints.Keys == d.checkpoints.Keys
    ensures forall n | n in d.checkpoints && n != s.plan.id ::
      next.checkpoints[n] == d.checkpoints[n] && next.checkpoints[n].journal.status in {Verified, RolledBack}
  {
    hide CheckpointHolds;
  }
}
