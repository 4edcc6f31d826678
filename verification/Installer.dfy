/**
 * The installer's operations as they work: in-memory journals and records, loops,
 * and one durable write after another. Each is proved to perform exactly the writes,
 * and to end with exactly the result, that `Operations` specifies.
 */
module Installer {
  import opened Wrappers
  import opened Text
  import opened DigestCodec
  import opened Documents
  import opened BootBundle
  import opened Hardware
  import opened TargetDisk
  import opened Operations
  import opened ActivationProof
  import opened VerifyTheorems

  /** Where a run of writes leads: the history and the disk. */
  datatype Goal = Goal(log: seq<Write>, disk: Disk)

  ghost predicate Owed(d: Disk, before: seq<Write>, rest: seq<Write>, goal: Goal) {
    before + rest == goal.log && Exec(d, rest) == goal.disk
  }

  /** What a stage performed is no longer owed. */
  lemma {:induction false} Paid(d: Disk, before: seq<Write>, writes: seq<Write>, rest: seq<Write>, goal: Goal)
    requires Owed(d, before, writes + rest, goal)
    ensures Owed(Exec(d, writes), before + writes, rest, goal)
  {
    ExecConcat(d, writes, rest);
    assert before + (writes + rest) == before + writes + rest;
  }

  lemma PaidLast(d: Disk, before: seq<Write>, writes: seq<Write>, goal: Goal)
    requires Owed(d, before, writes, goal)
    ensures goal == Goal(before + writes, Exec(d, writes))
  {
  }

  class Machine {
    const env: Env
    const target: string
    var disk: Disk
    ghost var log: seq<Write>

    constructor (env: Env, target: string, disk: Disk)
      ensures this.env == env && this.target == target && this.disk == disk && log == []
    {
      this.env, this.target, this.disk, log := env, target, disk, [];
    }

    /** Since `(d, before)` exactly these writes were performed, in this order. */
    ghost predicate Performed(d: Disk, before: seq<Write>, writes: seq<Write>)
      reads this
    {
      log == before + writes && disk == Exec(d, writes)
    }

    lemma Idle()
      ensures Performed(disk, log, [])
    {
    }

    /** These writes, performed next, reach the goal. */
    ghost predicate Owes(rest: seq<Write>, goal: Goal)
      reads this
    {
      Owed(disk, log, rest, goal)
    }

    ghost function GoalOf(writes: seq<Write>): Goal
      reads this
    {
      Goal(log + writes, Exec(disk, writes))
    }

    /** One atomic durable write. */
    method Put(w: Write, ghost rest: seq<Write>, ghost goal: Goal)
      requires Owes([w] + rest, goal)
      modifies this`disk, this`log
      ensures Owes(rest, goal)
      ensures log == old(log) + [w] && disk == Perform(old(disk), w)
    {
      assert ([w] + rest)[1..] == rest;
      assert log + ([w] + rest) == log + [w] + rest;
      disk := Perform(disk, w);
      log := log + [w];
    }

    method RewriteJournalCopies(source: Source, id: string, durable: bool, journal: Journal)
      modifies this`disk, this`log
      ensures Performed(old(disk), old(log), JournalWrites(source, id, durable, journal))
    {
      ghost var last: seq<Write> := match source
        case FromRuntime => [PutRuntime(journal)]
        case FromCheckpoint(name) => if durable && name == id then [] else [PutJournal(name, journal)];
      ghost var goal := GoalOf(JournalWrites(source, id, durable, journal));
      assert JournalWrites(source, id, durable, journal) == (if durable then [PutJournal(id, journal)] else []) + last;
      if durable {
        Put(PutJournal(id, journal), last, goal);
      }
      assert [] + last == last && last + [] == last;
      assert Owes(last, goal);
      if source.FromRuntime? {
        Put(PutRuntime(journal), [], goal);
      } else if !(durable && source.name == id) {
        Put(PutJournal(source.name, journal), [], goal);
      }
      assert log + [] == log;
    }

    // --------------------------------------------------------------- rollback

    method RollbackHardware(id: string, journal: Journal, provisioned: bool)
      requires provisioned <==> Hardware in journal.mutations
      modifies this`disk, this`log
      ensures Performed(old(disk), old(log), HardwareUndo(old(disk), id, journal))
    {
      if !provisioned || journal.packages == [] || id !in disk.checkpoints {
        return;
      }
      ghost var goal := GoalOf(HardwareUndo(disk, id, journal));
      for i := 0 to |journal.packages|
        invariant id in disk.checkpoints
        invariant Owes(DropReceipts(id, disk.checkpoints[id].receipts, journal.packages[i..]), goal)
      {
        var package := journal.packages[i];
        assert journal.packages[i..][0] == package && journal.packages[i..][1..] == journal.packages[i + 1..];
        if package in disk.checkpoints[id].receipts {
          ghost var rest := DropReceipts(id, disk.checkpoints[id].receipts - {package}, journal.packages[i + 1..]);
          Put(DropReceipt(id, package), rest, goal);
        }
      }
      assert log + [] == log;
    }

    method RollbackBootBundle(plan: Plan) returns (result: Result<Unit, Fault>)
      modifies this`disk, this`log
      ensures Performed(old(disk), old(log), BootUndo(old(disk), plan).writes)
      ensures result == BootUndo(old(disk), plan).result
    {
      hide RecordMatches, EntriesUndo, EntryUndo, Exec;
      ExecNothing(disk);
      assert log + [] == log;
      if plan.id !in disk.checkpoints || disk.checkpoints[plan.id].record.NoRecord? {
        return Ok(Unit);
      }
      if disk.checkpoints[plan.id].record.Torn? || !RecordMatches(disk.checkpoints[plan.id].record.record, plan) {
        return Err(BadRecord);
      }
      ghost var whole, drop := BootUndo(disk, plan), Done([DropRecord(plan.id)]);
      ghost var goal := GoalOf(whole.writes);
      var record := disk.checkpoints[plan.id].record.record;
      var backups := disk.checkpoints[plan.id].backups;
      var i := |record.entries|;
      assert record.entries[..i] == record.entries;
      while i > 0
        invariant 0 <= i <= |record.entries|
        invariant var rest := Then(EntriesUndo(disk.boot, backups, record.entries[..i]), drop);
          Owes(rest.writes, goal) && whole.result == rest.result
        decreases i
      {
        i := i - 1;
        var entry := record.entries[i];
        assert record.entries[..i + 1] == record.entries[..i] + [entry];
        EntryStep(disk.boot, backups, record.entries[..i], entry, drop);
        if entry.installed {
          var undo := EntryUndo(disk.boot, backups, entry);
          ghost var rest := Then(EntriesUndo(AfterUndo(disk.boot, undo), backups, record.entries[..i]), drop);
          if undo.result.Err? {
            PaidLast(disk, log, [], goal);
            ExecNothing(disk);
            assert log + [] == log;
            return Err(undo.result.error);
          } else if undo.writes != [] {
            Put(undo.writes[0], rest.writes, goal);
          }
        }
      }
      assert record.entries[..0] == [];
      NoEntries(disk.boot, backups, drop);
      assert [DropRecord(plan.id)] + [] == [DropRecord(plan.id)];
      Put(DropRecord(plan.id), [], goal);
      PaidLast(disk, log, [], goal);
      ExecNothing(disk);
      assert log + [] == log;
      return Ok(Unit);
    }

    method RollbackCorinth(plan: Plan, journal: Journal) returns (result: Result<Unit, Fault>)
      modifies this`disk, this`log
      ensures Performed(old(disk), old(log), CorinthUndo(old(disk).store, plan, journal).writes)
      ensures result == CorinthUndo(old(disk).store, plan, journal).result
    {
      if journal.status == Prepared && journal.target.None? {
        return Ok(Unit);
      }
      var intended := DecodeGenerationDigest(plan.generationSha);
      if intended.Err? {
        return Err(UnreadableDigest);
      }
      var previous: Option<Digest> := None;
      if journal.previous.Some? {
        var decoded := DecodeGenerationDigest(journal.previous.value);
        if decoded.Err? {
          return Err(UnreadableDigest);
        }
        previous := Some(decoded.value);
      }
      if !disk.store.present {
        return if previous.None? then Ok(Unit) else Err(StoreMissing);
      }
      var active := disk.store.active;
      if active == previous {
        return Ok(Unit);
      }
      if active != Some(intended.value) || intended.value !in disk.store.parents {
        return Err(AuthorityDiffers);
      }
      var restored := disk.store.parents[intended.value];
      assert [RestoreGeneration(restored)] + [] == [RestoreGeneration(restored)];
      Put(RestoreGeneration(restored), [], GoalOf([RestoreGeneration(restored)]));
      assert log + [] == log;
      return if restored != previous then Err(UnexpectedParent) else Ok(Unit);
    }

    method Rollback(source: Source) returns (result: Result<Unit, Fault>)
      modifies this`disk, this`log
      ensures Performed(old(disk), old(log), RollbackRun(env, target, old(disk), source).writes)
      ensures result == RollbackRun(env, target, old(disk), source).result
    {
      hide Bound, HardwareFileOk, UndoRun;
      var documents := DocumentsAt(disk, source);
      if documents.None? || !Bound(env, documents.value.0, documents.value.1) {
        return Err(BadDocuments);
      }
      var plan := documents.value.0;
      var authority := Authoritative(env, disk, plan, documents.value.1);
      if authority.Err? {
        return Err(authority.error);
      }
      var (journal, durable) := authority.value;
      result := UndoTransaction(source, plan, journal, durable);
    }

    /** The first two stages; each success is marked in the in-memory journal only. */
    method UndoPackagesAndBoot(plan: Plan, durableJournal: Journal)
      returns (result: Result<Unit, Fault>, journal: Journal)
      modifies this`disk, this`log
      ensures Performed(old(disk), old(log),
        HardwareUndo(old(disk), plan.id, durableJournal) + BootUndo(old(disk), plan).writes)
      ensures result == BootUndo(old(disk), plan).result
      ensures result.Ok? ==> journal == durableJournal.(mutations := StagesMarked(durableJournal.mutations))
      ensures disk.store == old(disk).store
    {
      hide HardwareUndo, BootUndo, Exec;
      journal := durableJournal;
      ghost var d := disk;
      ghost var first, second := HardwareUndo(d, plan.id, journal), BootUndo(d, plan);
      var hadBoot, hadHardware := Mutation.BootBundle in journal.mutations, Hardware in journal.mutations;
      RollbackHardware(plan.id, journal, hadHardware);
      HardwareUndoLeaves(d, plan, journal);
      if hadHardware && HardwareUndone !in journal.mutations {
        journal := journal.(mutations := journal.mutations + [HardwareUndone]);
      }
      result := RollbackBootBundle(plan);
      BootUndoLeaves(d, plan, durableJournal);
      ExecConcat(d, first, second.writes);
      assert log == old(log) + (first + second.writes);
      if result.Ok? && hadBoot && BootBundleUndone !in journal.mutations {
        journal := journal.(mutations := journal.mutations + [BootBundleUndone]);
      }
    }

    /** The journal is changed in memory stage by stage and written once, at the end. */
    method UndoTransaction(source: Source, plan: Plan, durableJournal: Journal, durable: bool)
      returns (result: Result<Unit, Fault>)
      modifies this`disk, this`log
      ensures Performed(old(disk), old(log), UndoRun(target, old(disk), source, plan, durableJournal, durable).writes)
      ensures result == UndoRun(target, old(disk), source, plan, durableJournal, durable).result
    {
      hide HardwareUndo, BootUndo, CorinthUndo, JournalWrites, Exec, StagesMarked, Undone;
      if durableJournal.status == RolledBack {
        assert log + [] == log && Exec(disk, []) == disk by { ExecNothing(disk); }
        return Err(NotRollbackable);
      }
      if durableJournal.target.Some? && durableJournal.target.value != target {
        assert log + [] == log && Exec(disk, []) == disk by { ExecNothing(disk); }
        return Err(TargetMismatch);
      }
      ghost var d, before := disk, log;
      ghost var first, second := HardwareUndo(d, plan.id, durableJournal), BootUndo(d, plan);
      ghost var third := CorinthUndo(d.store, plan, durableJournal);
      ghost var last := JournalWrites(source, plan.id, durable, UndoneJournal(durableJournal, target));
      var boot, journal := UndoPackagesAndBoot(plan, durableJournal);
      if boot.Err? {
        return Err(boot.error);
      }
      var corinth := RollbackCorinth(plan, journal);
      CorinthUndoReads(d.store, plan, durableJournal, journal);
      ThreeStages(d, before, first, second.writes, third.writes);
      if corinth.Err? {
        return Err(corinth.error);
      }
      journal := journal.(status := RolledBack, target := Some(target), published := false);
      if GenerationUndone !in journal.mutations {
        journal := journal.(mutations := journal.mutations + [GenerationUndone]);
      }
      MarkedInTurn(durableJournal, journal, target);
      RewriteJournalCopies(source, plan.id, durable, journal);
      FourStages(d, before, first, second.writes, third.writes, last);
      return Ok(Unit);
    }

    // --------------------------------------------------------------- verify and recover

    /** Marks the transaction exactly when what is installed is what was planned, and touches nothing else. */
    method Verify(source: Source) returns (result: Result<Unit, Fault>)
      modifies this`disk, this`log
      ensures result.Ok? <==> Verifiable(env, target, old(disk), source)
      ensures result.Ok? ==> OnlyJournals(old(disk), disk) && DocumentsAt(disk, source).Some?
      ensures result.Ok? ==> DocumentsAt(disk, source).value.1.status == Verified
      ensures result.Err? ==> disk == old(disk)
      ensures Performed(old(disk), old(log), VerifyRun(env, target, old(disk), source).writes)
      ensures result == VerifyRun(env, target, old(disk), source).result
    {
      hide Bound, InstalledBundleVerifies, HardwareFileOk, Verifiable, OnlyJournals;
      VerifyMarksWhatIsInstalled(env, target, disk, source);
      var documents := DocumentsAt(disk, source);
      if documents.None? || !Bound(env, documents.value.0, documents.value.1) {
        return Err(BadDocuments);
      }
      var plan := documents.value.0;
      var authority := Authoritative(env, disk, plan, documents.value.1);
      if authority.Err? {
        return Err(authority.error);
      }
      var (journal, durable) := authority.value;
      if journal.status != Applied || journal.target != Some(target) {
        return Err(NotApplied);
      }
      if !InstalledBundleVerifies(env, disk.boot, plan) {
        return Err(VerificationFailed);
      }
      journal := journal.(status := Verified);
      RewriteJournalCopies(source, plan.id, durable, journal);
      return Ok(Unit);
    }

    /** `names` is the listing of the transactions directory, in whatever order the system returns it. */
    method Recover(names: seq<string>) returns (result: Result<nat, Fault>)
      modifies this`disk, this`log
      ensures Performed(old(disk), old(log), RecoverRun(env, target, old(disk), names).writes)
      ensures result == RecoverRun(env, target, old(disk), names).result
    {
      hide Bound, RollbackRun, ValidTransactionId;
      ghost var whole := RecoverRun(env, target, disk, names);
      ghost var goal := GoalOf(whole.writes);
      var recovered: nat, seen: nat := 0, 0;
      for i := 0 to |names|
        invariant var rest := RecoverFrom(env, target, disk, names[i..], seen, recovered);
          Owes(rest.writes, goal) && whole.result == rest.result
      {
        var name := names[i];
        assert names[i..][0] == name && names[i..][1..] == names[i + 1..];
        assert log + [] == log;
        if !Hidden(name) {
          if !ValidTransactionId(name) {
            return Err(BadName);
          }
          if seen + 1 > MAX_RECOVERY_TRANSACTIONS {
            return Err(TooManyTransactions);
          }
          seen := seen + 1;
          var documents := DocumentsAt(disk, FromCheckpoint(name));
          if documents.None? || !Bound(env, documents.value.0, documents.value.1) {
            return Err(BadDocuments);
          }
          if Open(documents.value.1.status) {
            ghost var d, before := disk, log;
            ghost var run := RollbackRun(env, target, d, FromCheckpoint(name));
            var rolledBack := Rollback(FromCheckpoint(name));
            if rolledBack.Err? {
              PaidLast(d, before, run.writes, goal);
              return Err(rolledBack.error);
            }
            recovered := recovered + 1;
            Paid(d, before, run.writes, RecoverFrom(env, target, disk, names[i + 1..], seen, recovered).writes, goal);
          }
        }
      }
      assert names[|names|..] == [] && log + [] == log;
      return Ok(recovered);
    }

    // --------------------------------------------------------------- apply

    /** The next write of a run that an input/output error may interrupt after `fault` writes. */
    method PutNext(w: Write, n: nat, fault: Option<nat>, ghost d: Disk, ghost before: seq<Write>, ghost run: Run,
                   ghost rest: Run)
      returns (failed: bool)
      requires Remaining(run, n, Run([w] + rest.writes, rest.result)) && Performed(d, before, run.writes[..n])
      modifies this`disk, this`log
      ensures Remaining(run, n + 1, rest) && Performed(d, before, run.writes[..n + 1])
      ensures disk == Perform(old(disk), w)
      ensures failed <==> fault == Some(n + 1)
      ensures failed ==> Faulted(run, fault) == Run(run.writes[..n + 1], Err(IoError))
    {
      RemainingHead(run, n, w, rest);
      ExecAppend(d, run.writes[..n], w);
      assert run.writes[..n + 1] == run.writes[..n] + [w];
      disk := Perform(disk, w);
      log := log + [w];
      failed := fault == Some(n + 1);
    }

    /** Back up, create the record, then rename and mark file by file. */
    method ActivateBootBundle(plan: Plan, files: seq<BootFile>, fault: Option<nat>)
      returns (result: Result<Unit, Fault>)
      modifies this`disk, this`log
      ensures Performed(old(disk), old(log), Faulted(ActivationRun(old(disk), plan, files), fault).writes)
      ensures result == Faulted(ActivationRun(old(disk), plan, files), fault).result
    {
      hide SaveRun, InstallWrites, RecordWith, Exec, Performed, Faulted, Remaining, Then, BackupName;
      ghost var d, before := disk, log;
      ghost var run := ActivationRun(disk, plan, files);
      Idle();
      assert run.writes[..0] == [];
      StartsWhole(run, fault);
      if fault == Some(0) {
        return Err(IoError);
      }
      if plan.id !in disk.checkpoints || !disk.checkpoints[plan.id].record.NoRecord? {
        RunStops(run, 0, run, fault);
        return Err(RecordExists);
      }
      ghost var boot, saved := disk.boot, disk.checkpoints[plan.id].backups;
      ghost var tail := Done([TearRecord(plan.id), PutRecord(plan.id, RecordWith(plan, boot, files, 0, false))]
                             + InstallWrites(plan, boot, files, 0));
      var n: nat := 0;
      var entries: seq<Entry> := [];
      ActivationParts(disk, plan, files);
      RecordEntries(plan, boot, files, 0, false);
      for i := 0 to |files|
        invariant n <= |run.writes| && Performed(d, before, run.writes[..n])
        invariant fault.None? || fault.value > n
        invariant Remaining(run, n, Then(SaveRun(plan.id, boot, saved, files, i), tail))
        invariant disk.boot == boot && plan.id in disk.checkpoints
        invariant forall j | i <= j :: BackupName(j) in disk.checkpoints[plan.id].backups <==> BackupName(j) in saved
        invariant entries == RecordWith(plan, boot, files, 0, false).entries[..i]
      {
        SaveStep(plan.id, boot, saved, files, i, tail);
        EntryAt(plan, boot, files, 0, i);
        var destination := files[i].destination;
        var backup: Option<string> := None;
        match At(disk.boot, destination) {
          case Absent =>
          case Special | Directory =>
            RunStops(run, n, Then(SaveRun(plan.id, boot, saved, files, i), tail), fault);
            return Err(NotReplaceable);
          case Regular(bytes) =>
            if |bytes| > MAX_BOOT_ARTIFACT_BYTES {
              RunStops(run, n, Then(SaveRun(plan.id, boot, saved, files, i), tail), fault);
              return Err(NotReplaceable);
            }
            var name := BackupName(i);
            if name in disk.checkpoints[plan.id].backups {
              RunStops(run, n, Then(SaveRun(plan.id, boot, saved, files, i), tail), fault);
              return Err(BackupFailed);
            }
            ghost var rest := Then(SaveRun(plan.id, boot, saved, files, i + 1), tail);
            BackupNamesLater(i);
            var failed := PutNext(PutBackup(plan.id, name, []), n, fault, d, before, run,
              Run([PutBackup(plan.id, name, bytes)] + rest.writes, rest.result));
            n := n + 1;
            if failed {
              return Err(IoError);
            }
            failed := PutNext(PutBackup(plan.id, name, bytes), n, fault, d, before, run, rest);
            n := n + 1;
            if failed {
              return Err(IoError);
            }
            backup := Some(name);
        }
        entries := entries + [Entry(destination, backup, false)];
      }
      SaveEnds(plan.id, boot, saved, files, tail);
      var record := Record(BOOT_BUNDLE_SCHEMA, plan.bootSha, false, entries);
      result := InstallFiles(plan, files, record, n, fault, d, before, run, boot);
    }

    method InstallFiles(plan: Plan, files: seq<BootFile>, initial: Record, written: nat, fault: Option<nat>,
                        ghost d: Disk, ghost before: seq<Write>, ghost run: Run, ghost boot: map<string, Node>)
      returns (result: Result<Unit, Fault>)
      requires written <= |run.writes| && Performed(d, before, run.writes[..written])
      requires fault.None? || fault.value > written
      requires initial == RecordWith(plan, boot, files, 0, false)
      requires Remaining(run, written, Done([TearRecord(plan.id), PutRecord(plan.id, initial)]
                                            + InstallWrites(plan, boot, files, 0)))
      modifies this`disk, this`log
      ensures Performed(d, before, Faulted(run, fault).writes) && result == Faulted(run, fault).result
    {
      hide RecordWith, Exec, InstallWrites, Faulted, Performed, Perform, Remaining;
      var n: nat := written;
      var record := initial;
      ghost var install := InstallWrites(plan, boot, files, 0);
      assert [TearRecord(plan.id), PutRecord(plan.id, initial)] + install
        == [TearRecord(plan.id)] + ([PutRecord(plan.id, initial)] + install);
      var failed := PutNext(TearRecord(plan.id), n, fault, d, before, run,
        Done([PutRecord(plan.id, initial)] + install));
      n := n + 1;
      if failed {
        return Err(IoError);
      }
      failed := PutNext(PutRecord(plan.id, initial), n, fault, d, before, run, Done(install));
      n := n + 1;
      if failed {
        return Err(IoError);
      }
      for index := 0 to |files|
        invariant n <= |run.writes| && Performed(d, before, run.writes[..n])
        invariant fault.None? || fault.value > n
        invariant Remaining(run, n, Done(InstallWrites(plan, boot, files, index)))
        invariant record == RecordWith(plan, boot, files, index, false)
      {
        var destination, bytes := files[index].destination, files[index].bytes;
        ghost var rest := InstallWrites(plan, boot, files, index + 1);
        MarkEntry(plan, boot, files, index);
        var marked := record.(entries := record.entries[index := record.entries[index].(installed := true)]);
        InstallStep(plan, boot, files, index);
        failed := PutNext(PutBoot(destination, Regular(bytes)), n, fault, d, before, run,
          Done([PutRecord(plan.id, marked)] + rest));
        n := n + 1;
        if failed {
          return Err(IoError);
        }
        record := marked;
        failed := PutNext(PutRecord(plan.id, record), n, fault, d, before, run, Done(rest));
        n := n + 1;
        if failed {
          return Err(IoError);
        }
      }
      record := record.(complete := true);
      CompleteRecord(plan, boot, files);
      InstallEnds(plan, boot, files);
      failed := PutNext(PutRecord(plan.id, record), n, fault, d, before, run, Done([]));
      n := n + 1;
      if failed {
        return Err(IoError);
      }
      RunStops(run, n, Done([]), fault);
      return Ok(Unit);
    }

    method PutAfter(ghost d: Disk, ghost before: seq<Write>, ghost writes: seq<Write>, w: Write)
      requires Performed(d, before, writes)
      modifies this`disk, this`log
      ensures Performed(d, before, writes + [w])
    {
      ExecAppend(d, writes, w);
      disk := Perform(disk, w);
      log := log + [w];
    }

    /** Checkpoint copy first, then the runtime copy. */
    method PutCopies(id: string, journal: Journal, ghost d: Disk, ghost before: seq<Write>, ghost writes: seq<Write>)
      requires Performed(d, before, writes)
      modifies this`disk, this`log
      ensures Performed(d, before, writes + BothCopies(id, journal))
    {
      assert JournalWrites(FromRuntime, id, true, journal) == BothCopies(id, journal);
      RewriteJournalCopies(FromRuntime, id, true, journal);
      ExecConcat(d, writes, BothCopies(id, journal));
      assert before + writes + BothCopies(id, journal) == before + (writes + BothCopies(id, journal));
    }

    method InstallPackages(id: string, packages: seq<string>, ghost d: Disk, ghost before: seq<Write>,
                           ghost writes: seq<Write>)
      requires Performed(d, before, writes)
      modifies this`disk, this`log
      ensures Performed(d, before, writes + AddReceipts(id, packages))
    {
      hide Performed;
      assert writes + AddReceipts(id, packages[..0]) == writes;
      for i := 0 to |packages|
        invariant Performed(d, before, writes + AddReceipts(id, packages[..i]))
      {
        assert writes + AddReceipts(id, packages[..i + 1])
          == writes + AddReceipts(id, packages[..i]) + [AddReceipt(id, packages[i])];
        PutAfter(d, before, writes + AddReceipts(id, packages[..i]), AddReceipt(id, packages[i]));
      }
      assert packages[..|packages|] == packages;
    }

    /** Announce, install, journal the receipts. */
    method ProvisionHardware(id: string, initial: Journal, inputs: HardwareInputs,
                             ghost d: Disk, ghost before: seq<Write>, ghost writes: seq<Write>)
      returns (result: Result<Unit, Fault>, journal: Journal)
      requires Performed(d, before, writes)
      modifies this`disk, this`log
      ensures Performed(d, before, writes + ProvisionRun(id, initial, inputs).writes)
      ensures result == ProvisionRun(id, initial, inputs).result
      ensures result.Ok? ==> inputs.verified.Some? && journal == AnnouncedJournal(initial, inputs.verified.value)
        .(packages := Ordered(InstallOrder(inputs.index, inputs.verified.value)))
    {
      hide Agreeing, Ordered, Performed, Intents, Side;
      journal := initial;
      assert writes + [] == writes;
      if inputs.verified.None? {
        return Err(HardwareRefused), journal;
      }
      var plans := inputs.verified.value;
      var checked := ValidateHardwarePackageSet(plans);
      if checked.Err? {
        return Err(HardwareRefused), journal;
      }
      var binary, source := PartitionHardwarePlans(inputs.index, plans);
      var expected := ExpectedPackages(plans);
      ghost var first := writes;
      if expected != [] {
        journal := journal.(packages := expected, mutations := journal.mutations + [Hardware]);
        PutCopies(id, journal, d, before, first);
        first := first + BothCopies(id, journal);
      }
      var packages := Names(Intents(binary)) + Names(Intents(source));
      InstallPackages(id, packages, d, before, first);
      journal := journal.(packages := Ordered(packages));
      PutCopies(id, journal, d, before, first + AddReceipts(id, packages));
      assert first + AddReceipts(id, packages) + BothCopies(id, journal)
        == writes + ProvisionRun(id, initial, inputs).writes;
      return Ok(Unit), journal;
    }

    method ActivateAfter(plan: Plan, files: seq<BootFile>, fault: Option<nat>, ghost activation: Run,
                         ghost d: Disk, ghost before: seq<Write>, ghost writes: seq<Write>)
      returns (result: Result<Unit, Fault>)
      requires Performed(d, before, writes) && activation == Faulted(ActivationRun(Exec(d, writes), plan, files), fault)
      modifies this`disk, this`log
      ensures Performed(d, before, writes + activation.writes)
      ensures result == activation.result
    {
      hide ActivationRun, Faulted;
      result := ActivateBootBundle(plan, files, fault);
      ExecConcat(d, writes, activation.writes);
      assert before + writes + activation.writes == before + (writes + activation.writes);
    }

    method InspectStore(ghost d: Disk, ghost before: seq<Write>, ghost writes: seq<Write>)
      returns (active: Option<Digest>)
      requires Performed(d, before, writes)
      ensures active == InspectActive(Exec(d, writes).store)
    {
      return InspectActive(disk.store);
    }

    method Apply(root: map<string, Bytes>, hardware: Option<HardwareInputs>, fault: Option<nat>)
      returns (result: Result<Unit, Fault>)
      modifies this`disk, this`log
      ensures Performed(old(disk), old(log), ApplyRun(env, target, old(disk), root, hardware, fault).writes)
      ensures result == ApplyRun(env, target, old(disk), root, hardware, fault).result
    {
      hide ApplyChecks, FilesOf, ActivationRun, Faulted, ProvisionRun, Exec, Performed, Bound,
        AnnouncedJournal, InstallOrder, ApplyRun, NewCheckpoint, BothCopies;
      var checks := ApplyChecks(env, disk, root);
      Idle();
      ChecksNeedRuntime(env, target, disk, root, hardware, fault);
      if checks.Err? {
        return Err(checks.error);
      }
      var bundle, r := checks.value, disk.runtime.value;
      var plan := r.plan;
      var journal := r.journal.(status := Applying, target := Some(target), previous := None,
                                intended := plan.generationSha);
      var active := InspectActive(disk.store);
      if active.Some? {
        var encoded := EncodeGenerationDigest(active.value);
        journal := journal.(previous := Some(encoded));
      }
      assert journal == ApplyingJournal(target, disk.store, plan, r.journal);
      ghost var d, before := disk, log;
      ghost var applying := journal;
      var create := CreateCheckpoint(plan.id, NewCheckpoint(r, journal));
      PutAfter(d, before, [], create);
      assert [] + [create] == [create];
      PutCopies(plan.id, journal, d, before, [create]);
      ghost var w1 := [create] + BothCopies(plan.id, journal);
      assert w1 + [] == w1;
      if plan.hardwareSha.Some? != hardware.Some? {
        ApplyStopsAtHardware(env, target, d, root, hardware, fault);
        return Err(if hardware.Some? then HardwareInputsUnexpected else HardwareInputsMissing);
      }
      if hardware.Some? {
        var provisioned;
        provisioned, journal := ProvisionHardware(plan.id, journal, hardware.value, d, before, w1);
        if provisioned.Err? {
          ApplyStopsAtHardware(env, target, d, root, hardware, fault);
          return Err(provisioned.error);
        }
      }
      result := PublishAndActivate(root, hardware, fault, journal, bundle, r, d, before);
    }

    /** Publication, its journal, activation and the final journal. */
    method PublishAndActivate(root: map<string, Bytes>, hardware: Option<HardwareInputs>, fault: Option<nat>,
                              provisioned: Journal, bundle: Bundle, r: Runtime, ghost d: Disk, ghost before: seq<Write>)
      returns (result: Result<Unit, Fault>)
      requires ApplyChecks(env, d, root) == Ok(bundle) && d.runtime == Some(r)
      requires var applying := ApplyingJournal(target, d.store, r.plan, r.journal);
        && HardwareRun(r.plan, applying, hardware).result.Ok?
        && provisioned == ProvisionedJournal(r.plan, applying, hardware)
        && Performed(d, before, [CreateCheckpoint(r.plan.id, NewCheckpoint(r, applying))]
             + BothCopies(r.plan.id, applying) + HardwareRun(r.plan, applying, hardware).writes)
      modifies this`disk, this`log
      ensures Performed(d, before, ApplyRun(env, target, d, root, hardware, fault).writes)
      ensures result == ApplyRun(env, target, d, root, hardware, fault).result
    {
      hide ApplyChecks, FilesOf, ActivationRun, Faulted, HardwareRun, Exec, Performed, ApplyRun, ApplyingJournal,
        ProvisionedJournal, NewCheckpoint, PublishedJournal, AppliedJournal, Perform, BothCopies;
      var plan := r.plan;
      ghost var applying := ApplyingJournal(target, d.store, plan, r.journal);
      ghost var create := CreateCheckpoint(plan.id, NewCheckpoint(r, applying));
      ghost var stage := HardwareRun(plan, applying, hardware).writes;
      ghost var w2 := [create] + BothCopies(plan.id, applying) + stage;
      BeforePublication(d, create, applying, plan, hardware);
      var parent := env.parentOf(r.generation);
      var active := InspectStore(d, before, w2);
      PutAfter(d, before, w2, OpenStore);
      if parent != Some(active) {
        ApplyStopsAtPublication(env, target, d, root, hardware, fault);
        return Err(PublicationFailed);
      }
      var publish := Publish(env.sha(r.generation), active);
      PutAfter(d, before, w2 + [OpenStore], publish);
      ghost var w3 := w2 + [OpenStore] + [publish];
      var journal := PublishedJournal(provisioned);
      PutCopies(plan.id, journal, d, before, w3);
      ghost var w4 := w3 + BothCopies(plan.id, journal);
      ActivationSeesCreation(d, create, applying, stage, publish, plan, journal, FilesOf(bundle));
      ghost var activation := Faulted(ActivationRun(Perform(d, create), plan, FilesOf(bundle)), fault);
      var activated := ActivateAfter(plan, FilesOf(bundle), fault, activation, d, before, w4);
      var last := if activated.Ok? then AppliedJournal(journal) else journal.(status := ApplyFailed);
      PutCopies(plan.id, last, d, before, w4 + activation.writes);
      ApplyFinishes(env, target, d, root, hardware, fault);
      return activated;
    }
  }

  // ----------------------------------------------------------------- unfolding the activation

  /** After `n` of its writes, `rest` is what remains of `run`. */
  ghost predicate Remaining(run: Run, n: nat, rest: Run) {
    n <= |run.writes| && run.writes[n..] == rest.writes && run.result == rest.result
  }

  lemma {:induction false} StartsWhole(run: Run, fault: Option<nat>)
    ensures Remaining(run, 0, run)
    ensures fault == Some(0) ==> Faulted(run, fault) == Failed(IoError)
  {
    assert run.writes[0..] == run.writes && run.writes[..0] == [];
  }

  lemma {:induction false} RunStops(run: Run, n: nat, rest: Run, fault: Option<nat>)
    requires Remaining(run, n, rest) && rest.writes == []
    requires fault.None? || fault.value > n
    ensures Faulted(run, fault) == Run(run.writes[..n], rest.result) && n <= |run.writes|
  {
    RunEnds(run, n, fault);
  }

  lemma ActivationParts(d: Disk, plan: Plan, files: seq<BootFile>)
    requires plan.id in d.checkpoints && d.checkpoints[plan.id].record.NoRecord?
    ensures ActivationRun(d, plan, files) ==
      Then(SaveRun(plan.id, d.boot, d.checkpoints[plan.id].backups, files, 0),
           Done([TearRecord(plan.id), PutRecord(plan.id, RecordWith(plan, d.boot, files, 0, false))]
                + InstallWrites(plan, d.boot, files, 0)))
  {
    hide SaveRun, InstallWrites, RecordWith;
  }

  lemma {:induction false} RemainingHead(run: Run, n: nat, w: Write, rest: Run)
    requires Remaining(run, n, Run([w] + rest.writes, rest.result))
    ensures n < |run.writes| && run.writes[n] == w && Remaining(run, n + 1, rest)
  {
    assert run.writes[n] == run.writes[n..][0];
    assert run.writes[n + 1..] == run.writes[n..][1..];
  }

  /** With nothing remaining and the fault not reached, the run ends as it would without one. */
  lemma {:induction false} RunEnds(run: Run, n: nat, fault: Option<nat>)
    requires n <= |run.writes| && run.writes[n..] == []
    requires fault.None? || fault.value > n
    ensures Faulted(run, fault) == run && run.writes[..n] == run.writes
  {
    assert |run.writes[n..]| == |run.writes| - n;
  }

  lemma InstallStep(plan: Plan, boot: map<string, Node>, files: seq<BootFile>, index: nat)
    requires index < |files|
    ensures InstallWrites(plan, boot, files, index)
      == [PutBoot(files[index].destination, Regular(files[index].bytes))]
         + ([PutRecord(plan.id, RecordWith(plan, boot, files, index + 1, false))]
            + InstallWrites(plan, boot, files, index + 1))
  {
    hide RecordWith;
  }

  lemma InstallEnds(plan: Plan, boot: map<string, Node>, files: seq<BootFile>)
    ensures InstallWrites(plan, boot, files, |files|)
      == [PutRecord(plan.id, RecordWith(plan, boot, files, |files|, true))] + []
  {
    hide RecordWith;
  }

  lemma {:induction false} SaveStep(id: string, boot: map<string, Node>, backups: map<string, Bytes>,
                                    files: seq<BootFile>, i: nat, tail: Run)
    requires i < |files|
    ensures var whole := Then(SaveRun(id, boot, backups, files, i), tail);
      var rest := Then(SaveRun(id, boot, backups, files, i + 1), tail);
      match At(boot, files[i].destination)
      case Absent => whole == rest
      case Special | Directory => whole == Failed(NotReplaceable)
      case Regular(bytes) =>
        var name := BackupName(i);
        if |bytes| > MAX_BOOT_ARTIFACT_BYTES then whole == Failed(NotReplaceable)
        else if name in backups then whole == Failed(BackupFailed)
        else whole == Run([PutBackup(id, name, [])] + ([PutBackup(id, name, bytes)] + rest.writes), rest.result)
  {
    match At(boot, files[i].destination)
    case Regular(bytes) =>
      var name := BackupName(i);
      var two := Done([PutBackup(id, name, []), PutBackup(id, name, bytes)]);
      ThenIsAssociative(two, SaveRun(id, boot, backups, files, i + 1), tail);
      assert forall r: seq<Write> ::
        two.writes + r == [PutBackup(id, name, [])] + ([PutBackup(id, name, bytes)] + r);
    case _ =>
  }

  lemma {:induction false} SaveEnds(id: string, boot: map<string, Node>, backups: map<string, Bytes>,
                                    files: seq<BootFile>, tail: Run)
    ensures Then(SaveRun(id, boot, backups, files, |files|), tail) == tail
  {
    assert [] + tail.writes == tail.writes;
  }

  lemma {:induction false} BackupNamesLater(i: nat)
    ensures forall j: nat | i + 1 <= j :: BackupName(j) != BackupName(i)
  {
    forall j: nat | i + 1 <= j
      ensures BackupName(j) != BackupName(i)
    {
      if BackupName(j) == BackupName(i) {
        BackupNameIsInjective(j, i);
      }
    }
  }

  lemma EntryAt(plan: Plan, boot: map<string, Node>, files: seq<BootFile>, marked: nat, i: nat)
    requires i < |files|
    ensures var entries := RecordWith(plan, boot, files, marked, false).entries;
      |entries| == |files| && entries[..i + 1] == entries[..i] + [EntryFor(boot, files, i, i < marked)]
  {
  }

  lemma RecordEntries(plan: Plan, boot: map<string, Node>, files: seq<BootFile>, marked: nat, complete: bool)
    ensures var r := RecordWith(plan, boot, files, marked, complete);
      |r.entries| == |files| && r == Record(BOOT_BUNDLE_SCHEMA, plan.bootSha, complete, r.entries[..|files|])
  {
  }

  /** Marking the next entry in place gives the record with one mark more. */
  lemma {:induction false} MarkEntry(plan: Plan, boot: map<string, Node>, files: seq<BootFile>, index: nat)
    requires index < |files|
    ensures var r := RecordWith(plan, boot, files, index, false);
      index < |r.entries| &&
      r.(entries := r.entries[index := r.entries[index].(installed := true)])
        == RecordWith(plan, boot, files, index + 1, false)
  {
    var r := RecordWith(plan, boot, files, index, false);
    var marked, next := r.entries[index := r.entries[index].(installed := true)],
      RecordWith(plan, boot, files, index + 1, false).entries;
    forall j | 0 <= j < |files|
      ensures marked[j] == next[j]
    {
      assert r.entries[j] == EntryFor(boot, files, j, j < index) && next[j] == EntryFor(boot, files, j, j < index + 1);
    }
    assert marked == next;
  }

  lemma CompleteRecord(plan: Plan, boot: map<string, Node>, files: seq<BootFile>)
    ensures RecordWith(plan, boot, files, |files|, false).(complete := true)
      == RecordWith(plan, boot, files, |files|, true)
  {
  }

  // ----------------------------------------------------------------- stages do not read each other's writes

  lemma {:induction false} HardwareUndoLeaves(d: Disk, plan: Plan, journal: Journal)
    ensures var after := Exec(d, HardwareUndo(d, plan.id, journal));
      after.store == d.store && BootUndo(after, plan) == BootUndo(d, plan)
  {
    if Hardware in journal.mutations && plan.id in d.checkpoints {
      DropsLeave(d, plan, d.checkpoints[plan.id].receipts, journal.packages);
    }
  }

  lemma {:induction false} DropsLeave(d: Disk, plan: Plan, receipts: set<string>, packages: seq<string>)
    requires plan.id in d.checkpoints
    ensures var after := Exec(d, DropReceipts(plan.id, receipts, packages));
      && plan.id in after.checkpoints && after.store == d.store && after.boot == d.boot
      && after.checkpoints[plan.id].record == d.checkpoints[plan.id].record
      && after.checkpoints[plan.id].backups == d.checkpoints[plan.id].backups
    decreases packages
  {
    if packages != [] {
      DropsLeave(Perform(d, DropReceipt(plan.id, packages[0])), plan, receipts - {packages[0]}, packages[1..]);
      DropsLeave(d, plan, receipts, packages[1..]);
    }
  }

  lemma {:induction false} NoEntries(boot: map<string, Node>, backups: map<string, Bytes>, drop: Run)
    ensures Then(EntriesUndo(boot, backups, []), drop) == drop
  {
    assert [] + drop.writes == drop.writes;
  }

  /** One turn of the restore loop, as the specification unfolds it. */
  lemma {:induction false} EntryStep(boot: map<string, Node>, backups: map<string, Bytes>, entries: seq<Entry>,
                                     entry: Entry, drop: Run)
    ensures var undo := EntryUndo(boot, backups, entry);
      var whole := Then(EntriesUndo(boot, backups, entries + [entry]), drop);
      if !entry.installed then whole == Then(EntriesUndo(boot, backups, entries), drop)
      else
        var rest := Then(EntriesUndo(AfterUndo(boot, undo), backups, entries), drop);
        if undo.result.Err? then whole == undo && undo.writes == []
        else if undo.writes == [] then (whole == rest && AfterUndo(boot, undo) == boot)
        else (
          undo.writes == [undo.writes[0]] && undo.writes[0].PutBoot?
          && AfterUndo(boot, undo) == boot[undo.writes[0].destination := undo.writes[0].node]
          && whole == Run([undo.writes[0]] + rest.writes, rest.result))
  {
    var undo := EntryUndo(boot, backups, entry);
    assert (entries + [entry])[..|entries|] == entries;
    ThenIsAssociative(undo, EntriesUndo(AfterUndo(boot, undo), backups, entries), drop);
    assert forall r: Run :: [] + r.writes == r.writes;
  }

  ghost predicate LeavesStore(writes: seq<Write>) {
    forall w | w in writes :: w.PutBoot? || w.DropRecord? || w.DropReceipt?
  }

  lemma {:induction false} StoreStays(d: Disk, writes: seq<Write>)
    requires LeavesStore(writes)
    ensures Exec(d, writes).store == d.store
    decreases writes
  {
    if writes != [] {
      assert writes[0] in writes;
      StoreStays(Perform(d, writes[0]), writes[1..]);
    }
  }

  lemma {:induction false} EntriesLeaveStore(boot: map<string, Node>, backups: map<string, Bytes>, entries: seq<Entry>)
    ensures LeavesStore(EntriesUndo(boot, backups, entries).writes)
    decreases entries
  {
    if entries != [] {
      var last, rest := entries[|entries| - 1], entries[..|entries| - 1];
      EntriesLeaveStore(boot, backups, rest);
      EntriesLeaveStore(AfterUndo(boot, EntryUndo(boot, backups, last)), backups, rest);
    }
  }

  lemma {:induction false} BootUndoLeaves(d: Disk, plan: Plan, journal: Journal)
    ensures Exec(Exec(d, HardwareUndo(d, plan.id, journal)), BootUndo(d, plan).writes).store == d.store
  {
    HardwareUndoLeaves(d, plan, journal);
    if plan.id in d.checkpoints && d.checkpoints[plan.id].record.Whole? {
      EntriesLeaveStore(d.boot, d.checkpoints[plan.id].backups, d.checkpoints[plan.id].record.record.entries);
    }
    StoreStays(Exec(d, HardwareUndo(d, plan.id, journal)), BootUndo(d, plan).writes);
  }

  lemma ExecNothing(d: Disk)
    ensures Exec(d, []) == d
  {
  }

  lemma {:induction false} ThreeStages(d: Disk, before: seq<Write>, a: seq<Write>, b: seq<Write>, c: seq<Write>)
    ensures Exec(Exec(d, a + b), c) == Exec(d, a + (b + c))
    ensures before + (a + b) + c == before + (a + (b + c))
  {
    ExecConcat(d, a + b, c);
    Associative(a, b, c);
    Associative(before, a + b, c);
  }

  lemma Associative(a: seq<Write>, b: seq<Write>, c: seq<Write>)
    ensures a + b + c == a + (b + c)
  {
  }

  lemma {:induction false} FourStages(d: Disk, before: seq<Write>, a: seq<Write>, b: seq<Write>, c: seq<Write>,
                                      e: seq<Write>)
    ensures Exec(Exec(d, a + (b + c)), e) == Exec(d, a + (b + (c + e)))
    ensures before + (a + (b + c)) + e == before + (a + (b + (c + e)))
  {
    ThreeStages(d, before, a, b + c, e);
    Associative(b, c, e);
  }

  /** The markers added after the hardware and boot stages. */
  function StagesMarked(mutations: seq<Mutation>): seq<Mutation> {
    var afterHardware := AddMarker(mutations, Hardware, HardwareUndone);
    if Mutation.BootBundle in mutations && BootBundleUndone !in afterHardware
    then afterHardware + [BootBundleUndone] else afterHardware
  }

  lemma MarkedInTurn(durable: Journal, journal: Journal, target: string)
    requires var marked := StagesMarked(durable.mutations);
      journal == durable.(status := RolledBack, target := Some(target), published := false,
        mutations := if GenerationUndone in marked then marked else marked + [GenerationUndone])
    ensures journal == UndoneJournal(durable, target)
  {
  }

  lemma CorinthUndoReads(store: Store, plan: Plan, journal: Journal, changed: Journal)
    requires changed == journal.(mutations := changed.mutations)
    ensures CorinthUndo(store, plan, changed) == CorinthUndo(store, plan, journal)
  {
    hide Decode;
  }

  // ----------------------------------------------------------------- unfolding apply

  lemma ChecksNeedRuntime(env: Env, target: string, d: Disk, root: map<string, Bytes>,
                          hardware: Option<HardwareInputs>, fault: Option<nat>)
    ensures ApplyChecks(env, d, root).Ok? ==> d.runtime.Some?
    ensures ApplyChecks(env, d, root).Err? ==>
      ApplyRun(env, target, d, root, hardware, fault) == Failed(ApplyChecks(env, d, root).error)
  {
    hide Bound, HardwareFileOk, ReadBootBundle, FilesOf, ActivationRun;
  }

  lemma ApplyStopsAtHardware(env: Env, target: string, d: Disk, root: map<string, Bytes>,
                             hardware: Option<HardwareInputs>, fault: Option<nat>)
    requires ApplyChecks(env, d, root).Ok? && d.runtime.Some?
    requires var r := d.runtime.value;
      HardwareRun(r.plan, ApplyingJournal(target, d.store, r.plan, r.journal), hardware).result.Err?
    ensures var r := d.runtime.value;
      var applying := ApplyingJournal(target, d.store, r.plan, r.journal);
      var stage := HardwareRun(r.plan, applying, hardware);
      ApplyRun(env, target, d, root, hardware, fault)
        == Run([CreateCheckpoint(r.plan.id, NewCheckpoint(r, applying))] + BothCopies(r.plan.id, applying)
               + stage.writes, stage.result)
  {
    hide ApplyChecks, HardwareRun, ApplyingJournal, NewCheckpoint, FilesOf, ActivationRun;
  }

  lemma {:induction false} ApplyStopsAtPublication(env: Env, target: string, d: Disk, root: map<string, Bytes>,
                                hardware: Option<HardwareInputs>, fault: Option<nat>)
    requires ApplyChecks(env, d, root).Ok? && d.runtime.Some?
    requires var r := d.runtime.value;
      HardwareRun(r.plan, ApplyingJournal(target, d.store, r.plan, r.journal), hardware).result.Ok?
      && env.parentOf(r.generation) != Some(InspectActive(d.store))
    ensures var r := d.runtime.value;
      var applying := ApplyingJournal(target, d.store, r.plan, r.journal);
      ApplyRun(env, target, d, root, hardware, fault)
        == Run([CreateCheckpoint(r.plan.id, NewCheckpoint(r, applying))] + BothCopies(r.plan.id, applying)
               + HardwareRun(r.plan, applying, hardware).writes + [OpenStore], Err(PublicationFailed))
  {
    hide ApplyChecks, HardwareRun, ApplyingJournal, NewCheckpoint, FilesOf, ActivationRun, BothCopies;
    var r := d.runtime.value;
    var applying := ApplyingJournal(target, d.store, r.plan, r.journal);
    var w1 := [CreateCheckpoint(r.plan.id, NewCheckpoint(r, applying))] + BothCopies(r.plan.id, applying);
    var w2 := HardwareRun(r.plan, applying, hardware).writes;
    assert w1 + (w2 + [OpenStore]) == w1 + w2 + [OpenStore];
  }

  lemma {:induction false} ApplyFinishes(env: Env, target: string, d: Disk, root: map<string, Bytes>,
                      hardware: Option<HardwareInputs>, fault: Option<nat>)
    requires ApplyChecks(env, d, root).Ok? && d.runtime.Some?
    requires var r := d.runtime.value;
      HardwareRun(r.plan, ApplyingJournal(target, d.store, r.plan, r.journal), hardware).result.Ok?
      && env.parentOf(r.generation) == Some(InspectActive(d.store))
    ensures var r := d.runtime.value;
      var applying := ApplyingJournal(target, d.store, r.plan, r.journal);
      var create := CreateCheckpoint(r.plan.id, NewCheckpoint(r, applying));
      var published := PublishedJournal(ProvisionedJournal(r.plan, applying, hardware));
      var activation := Faulted(ActivationRun(Perform(d, create), r.plan, FilesOf(ApplyChecks(env, d, root).value)),
        fault);
      ApplyRun(env, target, d, root, hardware, fault)
        == Run([create] + BothCopies(r.plan.id, applying) + HardwareRun(r.plan, applying, hardware).writes
               + [OpenStore] + [Publish(env.sha(r.generation), InspectActive(d.store))]
               + BothCopies(r.plan.id, published) + activation.writes
               + BothCopies(r.plan.id, if activation.result.Ok? then AppliedJournal(published)
                                       else published.(status := ApplyFailed)),
               activation.result)
  {
    hide ApplyChecks, HardwareRun, ApplyingJournal, NewCheckpoint, FilesOf, ActivationRun, BothCopies, Faulted,
      PublishedJournal, ProvisionedJournal, AppliedJournal, Perform;
    var r := d.runtime.value;
    var applying := ApplyingJournal(target, d.store, r.plan, r.journal);
    var create := CreateCheckpoint(r.plan.id, NewCheckpoint(r, applying));
    var published := PublishedJournal(ProvisionedJournal(r.plan, applying, hardware));
    var activation := Faulted(ActivationRun(Perform(d, create), r.plan, FilesOf(ApplyChecks(env, d, root).value)),
      fault);
    var publish := Publish(env.sha(r.generation), InspectActive(d.store));
    var w1, w2 := [create] + BothCopies(r.plan.id, applying), HardwareRun(r.plan, applying, hardware).writes;
    var w4 := BothCopies(r.plan.id, published);
    var w5 := BothCopies(r.plan.id, if activation.result.Ok? then AppliedJournal(published)
                                    else published.(status := ApplyFailed));
    FinishIs(r.plan.id, published, activation);
    assert PublishRun(env, d.store, r.generation) == Done([OpenStore, publish]);
    Regroup(w1, w2, OpenStore, publish, w4, activation.writes, w5);
    assert ApplyRun(env, target, d, root, hardware, fault)
      == Run(w1 + (w2 + ([OpenStore, publish] + (w4 + (activation.writes + w5)))), activation.result);
  }

  lemma {:induction false} FinishIs(id: string, journal: Journal, activation: Run)
    ensures FinishRun(id, journal, activation)
      == Run(activation.writes + BothCopies(id, if activation.result.Ok? then AppliedJournal(journal)
                                                else journal.(status := ApplyFailed)),
             activation.result)
  {
    assert activation.result.Ok? ==> activation.result.value.Unit?;
  }

  lemma {:induction false} Regroup(a: seq<Write>, b: seq<Write>, x: Write, y: Write, c: seq<Write>, e: seq<Write>,
                                   f: seq<Write>)
    ensures a + (b + ([x, y] + (c + (e + f)))) == a + b + [x] + [y] + c + e + f
  {
    assert [x, y] + (c + (e + f)) == [x] + [y] + c + e + f;
    assert a + (b + ([x] + [y] + c + e + f)) == a + b + [x] + [y] + c + e + f;
  }

  lemma {:induction false} BeforePublication(d: Disk, create: Write, applying: Journal, plan: Plan,
                                             hardware: Option<HardwareInputs>)
    requires create.CreateCheckpoint? && create.id == plan.id
    ensures var stage := HardwareRun(plan, applying, hardware).writes;
      && BeforeActivation(stage)
      && Exec(d, [create] + BothCopies(plan.id, applying) + stage).store == d.store
  {
    hide HardwareRun;
    var stage := HardwareRun(plan, applying, hardware).writes;
    HardwareRunIsBeforeActivation(plan, applying, hardware);
    var rest := BothCopies(plan.id, applying) + stage;
    assert [create] + BothCopies(plan.id, applying) + stage == [create] + rest && ([create] + rest)[1..] == rest;
    BeforeActivationLeaves(Perform(d, create), plan.id, rest);
  }

  lemma {:induction false} ActivationSeesCreation(d: Disk, create: Write, applying: Journal, stage: seq<Write>,
                                                  publish: Write, plan: Plan,
                               published: Journal, files: seq<BootFile>)
    requires create.CreateCheckpoint? && create.id == plan.id && publish.Publish? && BeforeActivation(stage)
    ensures var after := Exec(d, [create] + BothCopies(plan.id, applying) + stage + [OpenStore] + [publish]
                                 + BothCopies(plan.id, published));
      ActivationRun(after, plan, files) == ActivationRun(Perform(d, create), plan, files)
  {
    hide RecordWith, InstallWrites, SaveRun;
    var rest := BothCopies(plan.id, applying) + stage + [OpenStore] + [publish] + BothCopies(plan.id, published);
    assert [create] + BothCopies(plan.id, applying) + stage + [OpenStore] + [publish] + BothCopies(plan.id, published)
      == [create] + rest;
    assert ([create] + rest)[1..] == rest;
    BeforeActivationLeaves(Perform(d, create), plan.id, rest);
  }
}
