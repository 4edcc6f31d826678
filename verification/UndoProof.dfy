/** Rollback, verification and recovery keep the invariant after each of their writes. */
module UndoProof {
  import opened Wrappers
  import opened DigestCodec
  import opened Documents
  import opened BootBundle
  import opened TargetDisk
  import opened Operations
  import opened CrashInvariant

  function Ckpt(s: Scene, d: Disk): Checkpoint
    requires s.plan.id in d.checkpoints
  {
    d.checkpoints[s.plan.id]
  }

  lemma CoreParts(env: Env, s: Scene, k: int, d: Disk)
    requires Core(env, s, k, d)
    ensures s.plan.id in d.checkpoints
    ensures CheckpointHolds(env, s, Ckpt(s, d)) && StoreHolds(s, d.store, Ckpt(s, d).journal.status)
    ensures Ckpt(s, d).record.Whole? ==> |Ckpt(s, d).record.record.entries| == |s.files|
  {
  }

  /** One write of a run that keeps the exact invariant. */
  lemma {:induction false} AlongOne(env: Env, s: Scene, reading: Reading, d: Disk, w: Write)
    requires Holds(env, s, reading, d) && Holds(env, s, reading, Perform(d, w))
    ensures Along(env, s, reading, d, [w])
    ensures Exec(d, [w]) == Perform(d, w)
  {
    hide Holds;
    assert [w][1..] == [];
    assert Along(env, s, reading, Perform(d, w), []);
  }

  // ----------------------------------------------------------------- single writes

  lemma DropReceiptKeeps(env: Env, s: Scene, k: int, d: Disk, p: string)
    requires Core(env, s, k, d)
    ensures Core(env, s, k, Perform(d, DropReceipt(s.plan.id, p)))
  {
  }

  lemma {:induction false} RestoreEntryKeeps(env: Env, s: Scene, k: int, d: Disk, i: nat)
    requires Setting(s) && Core(env, s, k, d)
    requires Ckpt(s, d).record.Whole? && i < |s.files|
    requires Ckpt(s, d).record.record.entries[i].installed
    ensures Core(env, s, k, Perform(d, PutBoot(s.files[i].destination, Old(s, i))))
    ensures At(Perform(d, PutBoot(s.files[i].destination, Old(s, i))).boot, s.files[i].destination) == Old(s, i)
  {
    var next := Perform(d, PutBoot(s.files[i].destination, Old(s, i)));
    var c := Ckpt(s, d);
    forall j | 0 <= j < |s.files|
      ensures EntryHolds(s, k, next.boot, c.backups, c.record.record.entries[j], j)
    {
      assert EntryHolds(s, k, d.boot, c.backups, c.record.record.entries[j], j);
      if j != i {
        assert s.files[i].destination != s.files[j].destination;
      }
    }
    assert OthersUntouched(s, next.boot) by {
      forall path | !IsDestination(s, path) ensures At(next.boot, path) == At(s.pre.boot, path) {
        assert path != s.files[i].destination;
        assert At(d.boot, path) == At(s.pre.boot, path);
      }
    }
  }

  ghost predicate Restored(s: Scene, d: Disk, from: nat)
    requires s.plan.id in d.checkpoints && Ckpt(s, d).record.Whole?
    requires |Ckpt(s, d).record.record.entries| == |s.files|
  {
    forall i | from <= i < |s.files| && Ckpt(s, d).record.record.entries[i].installed ::
      At(d.boot, s.files[i].destination) == Old(s, i)
  }

  lemma {:induction false} DropRecordKeeps(env: Env, s: Scene, k: int, d: Disk)
    requires Core(env, s, k, d) && Ckpt(s, d).record.Whole?
    requires Restored(s, d, 0)
    ensures Core(env, s, k, Perform(d, DropRecord(s.plan.id)))
  {
    var c := Ckpt(s, d);
    forall i | 0 <= i < |s.files|
      ensures At(d.boot, s.files[i].destination) == Unmarked(s, k, i)
    {
      assert EntryHolds(s, k, d.boot, c.backups, c.record.record.entries[i], i);
    }
  }

  lemma RestoreGenerationKeeps(env: Env, s: Scene, k: int, d: Disk)
    requires Core(env, s, k, d)
    ensures Core(env, s, k, Perform(d, RestoreGeneration(s.pre.store.active)))
  {
  }

  /** Replacing the durable journal by a later one that fits the disk. */
  lemma PutJournalKeeps(env: Env, s: Scene, k: int, d: Disk, j: Journal)
    requires Core(env, s, k, d) && JournalHolds(env, s, j)
    requires Rank(Ckpt(s, d).journal) <= Rank(j)
    requires var c := Ckpt(s, d).(journal := j);
      ReceiptsHold(c) && BootHolds(s, k, d.boot, c) && StoreHolds(s, d.store, j.status)
    ensures Core(env, s, k, Perform(d, PutJournal(s.plan.id, j)))
  {
  }

  lemma PutRuntimeKeeps(env: Env, s: Scene, k: int, d: Disk)
    requires Core(env, s, k, d)
    ensures Core(env, s, k, Perform(d, PutRuntime(Ckpt(s, d).journal)))
  {
  }

  // ----------------------------------------------------------------- hardware

  function Set(packages: seq<string>): set<string> {
    set p | p in packages
  }

  function WithReceipts(d: Disk, id: string, receipts: set<string>): Disk {
    Updated(d, id, (c: Checkpoint) => c.(receipts := receipts))
  }

  /** The loop removes every listed package that is installed, and may have been begun before. */
  lemma {:induction false} DropReceiptsKeeps(env: Env, s: Scene, k: int, d: Disk, packages: seq<string>)
    requires Core(env, s, k, d)
    ensures var writes := DropReceipts(s.plan.id, Ckpt(s, d).receipts, packages);
      && Along(env, s, Exactly(k), d, writes)
      && Exec(d, writes) == WithReceipts(d, s.plan.id, Ckpt(s, d).receipts - Set(packages))
      && Core(env, s, k, Exec(d, writes))
    decreases packages
  {
    hide CheckpointHolds, BootHolds, StoreHolds, RuntimeHolds;
    var receipts := Ckpt(s, d).receipts;
    if packages == [] {
      assert receipts - Set(packages) == receipts;
    } else {
      assert Set(packages) == {packages[0]} + Set(packages[1..]);
      if packages[0] in receipts {
        var w := DropReceipt(s.plan.id, packages[0]);
        DropReceiptKeeps(env, s, k, d, packages[0]);
        DropReceiptsKeeps(env, s, k, Perform(d, w), packages[1..]);
        var rest := DropReceipts(s.plan.id, receipts - {packages[0]}, packages[1..]);
        assert ([w] + rest)[1..] == rest;
        assert receipts - {packages[0]} - Set(packages[1..]) == receipts - Set(packages);
      } else {
        DropReceiptsKeeps(env, s, k, d, packages[1..]);
        assert receipts - Set(packages[1..]) == receipts - Set(packages);
      }
    }
  }

  // ----------------------------------------------------------------- boot files

  /** Undoing one marked entry either writes the old content or finds it already absent. */
  lemma {:induction false} EntryUndoRestores(env: Env, s: Scene, k: int, d: Disk, i: nat)
    requires Setting(s) && Core(env, s, k, d)
    requires Ckpt(s, d).record.Whole? && i < |s.files|
    requires Ckpt(s, d).record.record.entries[i].installed
    ensures var undo := EntryUndo(d.boot, Ckpt(s, d).backups, Ckpt(s, d).record.record.entries[i]);
      && undo.result.Ok?
      && (undo.writes == [PutBoot(s.files[i].destination, Old(s, i))] ||
          (undo.writes == [] && At(d.boot, s.files[i].destination) == Old(s, i)))
  {
    var c := Ckpt(s, d);
    assert EntryHolds(s, k, d.boot, c.backups, c.record.record.entries[i], i);
  }

  lemma {:induction false} EntriesUndoKeeps(env: Env, s: Scene, k: int, d: Disk, n: nat)
    requires Setting(s) && Core(env, s, k, d) && Ckpt(s, d).record.Whole?
    requires n <= |s.files| && Restored(s, d, n)
    ensures var entries := Ckpt(s, d).record.record.entries;
      var undo := EntriesUndo(d.boot, Ckpt(s, d).backups, entries[..n]);
      var after := Exec(d, undo.writes);
      && undo.result.Ok?
      && Along(env, s, Exactly(k), d, undo.writes)
      && after == d.(boot := after.boot) && Core(env, s, k, after)
      && Restored(s, after, 0)
    decreases n
  {
    hide Core, Setting, RecordHolds;
    CoreParts(env, s, k, d);
    var c, entries := Ckpt(s, d), Ckpt(s, d).record.record.entries;
    if n > 0 {
      var i := n - 1;
      assert entries[..n][..i] == entries[..i] && entries[..n][i] == entries[i];
      if !entries[i].installed {
        EntriesUndoKeeps(env, s, k, d, i);
      } else {
        var undo := EntryUndo(d.boot, c.backups, entries[i]);
        EntryUndoRestores(env, s, k, d, i);
        var rest := EntriesUndo(AfterUndo(d.boot, undo), c.backups, entries[..i]);
        if undo.writes == [] {
          EntriesUndoKeeps(env, s, k, d, i);
          assert undo.writes + rest.writes == rest.writes;
        } else {
          var w := PutBoot(s.files[i].destination, Old(s, i));
          RestoreEntryKeeps(env, s, k, d, i);
          var next := Perform(d, w);
          RestoredStays(env, s, k, d, i);
          EntriesUndoKeeps(env, s, k, next, i);
          assert ([w] + rest.writes)[1..] == rest.writes;
        }
      }
    }
  }

  lemma {:induction false} RestoredStays(env: Env, s: Scene, k: int, d: Disk, i: nat)
    requires Setting(s) && Core(env, s, k, d) && Ckpt(s, d).record.Whole?
    requires i < |s.files| && Restored(s, d, i + 1)
    ensures Restored(s, Perform(d, PutBoot(s.files[i].destination, Old(s, i))), i)
  {
    var next := Perform(d, PutBoot(s.files[i].destination, Old(s, i)));
    forall j | i <= j < |s.files| && Ckpt(s, next).record.record.entries[j].installed
      ensures At(next.boot, s.files[j].destination) == Old(s, j)
    {
      if j != i {
        assert s.files[i].destination != s.files[j].destination;
      }
    }
  }

  lemma {:induction false} RecordIsAccepted(env: Env, s: Scene, k: int, d: Disk)
    requires Setting(s) && Core(env, s, k, d) && Ckpt(s, d).record.Whole?
    ensures RecordMatches(Ckpt(s, d).record.record, s.plan)
  {
    var c := Ckpt(s, d);
    var record := c.record.record;
    forall e | e in record.entries
      ensures IsBootDestination(e.destination) && (e.backup.Some? ==> BACKUP_PREFIX <= e.backup.value)
    {
      var i :| 0 <= i < |record.entries| && record.entries[i] == e;
      assert EntryHolds(s, k, d.boot, c.backups, e, i);
    }
  }

  function WithRecord(d: Disk, id: string, record: RecordFile): Disk {
    Updated(d, id, (c: Checkpoint) => c.(record := record))
  }

  /**
   * Undoing the boot files: refused exactly when the record is torn; otherwise every
   * marked destination is restored and the record is gone.
   */
  lemma {:induction false} BootUndoKeeps(env: Env, s: Scene, k: int, d: Disk)
    requires Setting(s) && Core(env, s, k, d)
    ensures var undo := BootUndo(d, s.plan);
      var after := Exec(d, undo.writes);
      && (undo.result.Ok? <==> !Ckpt(s, d).record.Torn?)
      && (undo.result.Err? ==> undo.writes == [])
      && Along(env, s, Exactly(k), d, undo.writes)
      && Core(env, s, k, after)
      && (undo.result.Ok? ==> after == WithRecord(d, s.plan.id, NoRecord).(boot := after.boot))
  {
    hide Core, Setting;
    CoreParts(env, s, k, d);
    var c := Ckpt(s, d);
    if c.record.Whole? {
      RecordIsAccepted(env, s, k, d);
      var entries := c.record.record.entries;
      assert entries[..|s.files|] == entries;
      EntriesUndoKeeps(env, s, k, d, |s.files|);
      var undo := EntriesUndo(d.boot, c.backups, entries);
      var restored := Exec(d, undo.writes);
      assert Ckpt(s, restored) == c;
      DropRecordKeeps(env, s, k, restored);
      AlongOne(env, s, Exactly(k), restored, DropRecord(s.plan.id));
      AlongConcat(env, s, Exactly(k), d, undo.writes, [DropRecord(s.plan.id)]);
      ExecConcat(d, undo.writes, [DropRecord(s.plan.id)]);
    }
  }

  // ----------------------------------------------------------------- generation

  lemma {:induction false} PreviousDecodes(env: Env, s: Scene, k: int, d: Disk)
    requires Setting(s) && Core(env, s, k, d)
    ensures Decode(s.plan.generationSha) == Ok(s.digest)
    ensures DecodedPrevious(Ckpt(s, d).journal) == Ok(s.pre.store.active)
  {
    DecodeOfEncode(s.digest);
    if s.pre.store.active.Some? {
      DecodeOfEncode(s.pre.store.active.value);
    }
  }

  /** The byte comparison of the authorities agrees with the journaled text. */
  lemma CorinthUndoWrites(s: Scene, store: Store, journal: Journal)
    requires StoreHolds(s, store, journal.status) && journal.status != Prepared
    requires Decode(s.plan.generationSha) == Ok(s.digest)
    requires DecodedPrevious(journal) == Ok(s.pre.store.active)
    ensures CorinthUndo(store, s.plan, journal) == Done(
      if store.active == s.pre.store.active then [] else [RestoreGeneration(s.pre.store.active)])
  {
    hide Decode, DecodedPrevious;
  }

  /** The generation authority always returns to the one found at the start. */
  lemma {:induction false} CorinthUndoKeeps(env: Env, s: Scene, k: int, d: Disk)
    requires Setting(s) && Core(env, s, k, d)
    ensures var undo := CorinthUndo(d.store, s.plan, Ckpt(s, d).journal);
      && undo.result.Ok?
      && Along(env, s, Exactly(k), d, undo.writes)
      && Core(env, s, k, Exec(d, undo.writes))
      && Exec(d, undo.writes) == d.(store := d.store.(active := s.pre.store.active))
  {
    hide Core, Setting, CorinthUndo;
    CoreParts(env, s, k, d);
    PreviousDecodes(env, s, k, d);
    CorinthUndoWrites(s, d.store, Ckpt(s, d).journal);
    if d.store.active != s.pre.store.active {
      RestoreGenerationKeeps(env, s, k, d);
      AlongOne(env, s, Exactly(k), d, RestoreGeneration(s.pre.store.active));
    }
  }

  // ----------------------------------------------------------------- the whole rollback

  /** The copies an operation on this installation can be given. */
  predicate GivenCopy(s: Scene, source: Source) {
    source == FromRuntime || source == FromCheckpoint(s.plan.id)
  }

  predicate CopyPresent(s: Scene, d: Disk, source: Source) {
    GivenCopy(s, source) && (source == FromRuntime ==> d.runtime.Some?)
  }

  /** However stale the given copy is, rollback acts on the checkpoint journal. */
  lemma {:induction false} RollbackDecidesFromCheckpoint(env: Env, s: Scene, k: int, d: Disk, source: Source)
    requires Setting(s) && Core(env, s, k, d) && GivenCopy(s, source)
    ensures RollbackRun(env, s.target, d, source) ==
      if CopyPresent(s, d, source) then UndoRun(s.target, d, source, s.plan, Ckpt(s, d).journal, true)
      else Failed(BadDocuments)
  {
    hide Bound, WellShaped, UndoRun, HardwareFileOk, StoreHolds, BootHolds;
    WellShapedIsBound(env, s.plan, Ckpt(s, d).journal);
    if d.runtime.Some? {
      WellShapedIsBound(env, s.plan, d.runtime.value.journal);
    }
  }

  /** The outcome of a complete rollback of the installation. */
  ghost predicate IsUndone(env: Env, s: Scene, k: int, before: Disk, after: Disk)
    requires s.plan.id in before.checkpoints
  {
    && Core(env, s, k, after)
    && Ckpt(s, after) == Ckpt(s, before).(
         journal := UndoneJournal(Ckpt(s, before).journal, s.target), record := NoRecord, receipts := {})
    && after.store == before.store.(active := s.pre.store.active)
    && OldExceptInFlight(s, k, after.boot)
  }

  lemma {:induction false} HardwareUndoKeeps(env: Env, s: Scene, k: int, d: Disk)
    requires Core(env, s, k, d)
    ensures var writes := HardwareUndo(d, s.plan.id, Ckpt(s, d).journal);
      && Along(env, s, Exactly(k), d, writes)
      && Core(env, s, k, Exec(d, writes))
      && Exec(d, writes) == WithReceipts(d, s.plan.id, {})
  {
    var c := Ckpt(s, d);
    if Hardware in c.journal.mutations {
      DropReceiptsKeeps(env, s, k, d, c.journal.packages);
      assert c.receipts - Set(c.journal.packages) == {};
    } else {
      assert c.receipts == {};
      assert d.checkpoints == d.checkpoints[s.plan.id := c.(receipts := {})];
    }
  }

  /** The journal rollback writes last fits the disk its earlier writes left. */
  lemma {:induction false} UndoneJournalKeeps(env: Env, s: Scene, k: int, d: Disk, source: Source)
    requires Setting(s) && Core(env, s, k, d) && GivenCopy(s, source)
    requires Ckpt(s, d).journal.status != RolledBack
    requires Ckpt(s, d).record.NoRecord? && Ckpt(s, d).receipts == {} && d.store.active == s.pre.store.active
    ensures var journal := UndoneJournal(Ckpt(s, d).journal, s.target);
      var writes := JournalWrites(source, s.plan.id, true, journal);
      && Along(env, s, Exactly(k), d, writes)
      && IsUndone(env, s, k, d, Exec(d, writes))
  {
    hide WellShaped;
    var journal := UndoneJournal(Ckpt(s, d).journal, s.target);
    UndoneIsWellShaped(env, s.plan, Ckpt(s, d).journal, s.target);
    assert JournalHolds(env, s, journal);
    PutJournalKeeps(env, s, k, d, journal);
    var one := PutJournal(s.plan.id, journal);
    var next := Perform(d, one);
    AlongOne(env, s, Exactly(k), d, one);
    if source == FromRuntime {
      PutRuntimeKeeps(env, s, k, next);
      AlongOne(env, s, Exactly(k), next, PutRuntime(journal));
      AlongConcat(env, s, Exactly(k), d, [one], [PutRuntime(journal)]);
      ExecConcat(d, [one], [PutRuntime(journal)]);
    } else {
      assert [one] + [] == [one];
    }
  }

  /**
   * Rollback from any disk of the invariant keeps it after each write. It succeeds
   * exactly when its documents are there, the installation is not yet rolled back and
   * the boot record is not torn; then packages, generation and marked boot files are undone.
   */
  lemma {:induction false} RollbackKeeps(env: Env, s: Scene, k: int, d: Disk, source: Source)
    requires Setting(s) && Core(env, s, k, d) && GivenCopy(s, source)
    ensures var run := RollbackRun(env, s.target, d, source);
      && Along(env, s, Exactly(k), d, run.writes)
      && (run.result.Ok? <==>
            CopyPresent(s, d, source) && Ckpt(s, d).journal.status != RolledBack && !Ckpt(s, d).record.Torn?)
      && (run.result.Ok? ==> IsUndone(env, s, k, d, Exec(d, run.writes)))
  {
    hide Core, Setting, BootUndo, CorinthUndo, HardwareUndo, JournalWrites, Undone, IsUndone;
    CoreParts(env, s, k, d);
    RollbackDecidesFromCheckpoint(env, s, k, d, source);
    var c := Ckpt(s, d);
    if CopyPresent(s, d, source) && c.journal.status != RolledBack {
      var hardware := HardwareUndo(d, s.plan.id, c.journal);
      HardwareUndoKeeps(env, s, k, d);
      var d1 := Exec(d, hardware);
      BootUndoIgnoresReceipts(s, d);
      BootUndoKeeps(env, s, k, d1);
      var boot := BootUndo(d, s.plan);
      var d2 := Exec(d1, boot.writes);
      AlongConcat(env, s, Exactly(k), d, hardware, boot.writes);
      ExecConcat(d, hardware, boot.writes);
      if boot.result.Ok? {
        CorinthUndoKeeps(env, s, k, d2);
        var corinth := CorinthUndo(d.store, s.plan, c.journal);
        var d3 := Exec(d2, corinth.writes);
        var last := JournalWrites(source, s.plan.id, true, UndoneJournal(c.journal, s.target));
        UndoneJournalKeeps(env, s, k, d3, source);
        AlongConcat(env, s, Exactly(k), d2, corinth.writes, last);
        ExecConcat(d2, corinth.writes, last);
        AlongConcat(env, s, Exactly(k), d1, boot.writes, corinth.writes + last);
        ExecConcat(d1, boot.writes, corinth.writes + last);
        AlongConcat(env, s, Exactly(k), d, hardware, boot.writes + (corinth.writes + last));
        ExecConcat(d, hardware, boot.writes + (corinth.writes + last));
        UndoneCarries(env, s, k, d, d3, Exec(d3, last));
      }
    }
  }

  lemma BootUndoIgnoresReceipts(s: Scene, d: Disk)
    requires s.plan.id in d.checkpoints
    ensures BootUndo(WithReceipts(d, s.plan.id, {}), s.plan) == BootUndo(d, s.plan)
  {
  }

  lemma UndoneCarries(env: Env, s: Scene, k: int, d: Disk, d3: Disk, after: Disk)
    requires s.plan.id in d.checkpoints && s.plan.id in d3.checkpoints
    requires IsUndone(env, s, k, d3, after)
    requires Ckpt(s, d3) == Ckpt(s, d).(record := NoRecord, receipts := {})
    requires d3.store == d.store.(active := s.pre.store.active)
    ensures IsUndone(env, s, k, d, after)
  {
    hide Core;
  }

  // ----------------------------------------------------------------- running rollback again

  /** The writes a rollback is made of. */
  ghost predicate UndoWrite(id: string, journal: Journal, target: string, w: Write) {
    match w
    case PutJournal(i, j) => i == id && j == UndoneJournal(journal, target)
    case PutRuntime(_) => true
    case DropReceipt(i, _) => i == id
    case DropRecord(i) => i == id
    case RestoreGeneration(_) => true
    case PutBoot(_, _) => true
    case _ => false
  }

  ghost predicate UndoWrites(id: string, journal: Journal, target: string, writes: seq<Write>) {
    forall i | 0 <= i < |writes| :: UndoWrite(id, journal, target, writes[i])
  }

  lemma {:induction false} DropReceiptsAreUndo(id: string, journal: Journal, target: string, receipts: set<string>,
                                               packages: seq<string>)
    ensures UndoWrites(id, journal, target, DropReceipts(id, receipts, packages))
    decreases packages
  {
    if packages != [] {
      DropReceiptsAreUndo(id, journal, target, receipts - {packages[0]}, packages[1..]);
      DropReceiptsAreUndo(id, journal, target, receipts, packages[1..]);
    }
  }

  lemma {:induction false} EntriesUndoAreUndo(id: string, journal: Journal, target: string, boot: map<string, Node>,
                                              backups: map<string, Bytes>, entries: seq<Entry>)
    ensures UndoWrites(id, journal, target, EntriesUndo(boot, backups, entries).writes)
    decreases entries
  {
    if entries != [] {
      var last, rest := entries[|entries| - 1], entries[..|entries| - 1];
      EntriesUndoAreUndo(id, journal, target, boot, backups, rest);
      var undo := EntryUndo(boot, backups, last);
      EntriesUndoAreUndo(id, journal, target, AfterUndo(boot, undo), backups, rest);
    }
  }

  lemma LastWritesAreUndo(d: Disk, s: Scene, source: Source, journal: Journal)
    requires GivenCopy(s, source) && s.plan.id in d.checkpoints
    ensures UndoWrites(s.plan.id, journal, s.target, CorinthUndo(d.store, s.plan, journal).writes)
    ensures UndoWrites(s.plan.id, journal, s.target,
      JournalWrites(source, s.plan.id, true, UndoneJournal(journal, s.target)))
    ensures UndoWrites(s.plan.id, journal, s.target, [DropRecord(s.plan.id)])
  {
    hide UndoneJournal, Decode;
  }

  lemma {:induction false} UndoRunIsUndo(d: Disk, s: Scene, source: Source, journal: Journal)
    requires GivenCopy(s, source) && s.plan.id in d.checkpoints
    ensures UndoWrites(s.plan.id, journal, s.target, UndoRun(s.target, d, source, s.plan, journal, true).writes)
  {
    hide UndoneJournal, UndoWrite, DropReceipts, EntriesUndo;
    DropReceiptsAreUndo(s.plan.id, journal, s.target, d.checkpoints[s.plan.id].receipts, journal.packages);
    var c := d.checkpoints[s.plan.id];
    if c.record.Whole? {
      EntriesUndoAreUndo(s.plan.id, journal, s.target, d.boot, c.backups, c.record.record.entries);
    }
    LastWritesAreUndo(d, s, source, journal);
    assert UndoWrites(s.plan.id, journal, s.target, BootUndo(d, s.plan).writes);
    assert UndoWrites(s.plan.id, journal, s.target, HardwareUndo(d, s.plan.id, journal));
    hide CorinthUndo, JournalWrites, BootUndo, HardwareUndo;
  }

  /** What an interrupted rollback cannot have changed. */
  ghost predicate PartlyUndone(s: Scene, before: Disk, after: Disk)
    requires s.plan.id in before.checkpoints
  {
    && s.plan.id in after.checkpoints
    && (Ckpt(s, after).journal == Ckpt(s, before).journal
        || Ckpt(s, after).journal == UndoneJournal(Ckpt(s, before).journal, s.target))
    && (Ckpt(s, after).record == Ckpt(s, before).record || Ckpt(s, after).record == NoRecord)
    && Ckpt(s, after).(journal := Ckpt(s, before).journal, record := NoRecord, receipts := {})
       == Ckpt(s, before).(record := NoRecord, receipts := {})
    && after.store.(active := None) == before.store.(active := None)
  }

  lemma UndoWriteChanges(s: Scene, before: Disk, d: Disk, w: Write)
    requires s.plan.id in before.checkpoints && PartlyUndone(s, before, d)
    requires UndoWrite(s.plan.id, Ckpt(s, before).journal, s.target, w)
    ensures PartlyUndone(s, before, Perform(d, w))
  {
    hide UndoneJournal;
  }

  lemma {:induction false} UndoWritesChange(s: Scene, before: Disk, d: Disk, writes: seq<Write>)
    requires s.plan.id in before.checkpoints && PartlyUndone(s, before, d)
    requires UndoWrites(s.plan.id, Ckpt(s, before).journal, s.target, writes)
    ensures PartlyUndone(s, before, Exec(d, writes))
    decreases writes
  {
    hide UndoneJournal, UndoWrite, PartlyUndone, Perform;
    if writes != [] {
      UndoWriteChanges(s, before, d, writes[0]);
      UndoWritesChange(s, before, Perform(d, writes[0]), writes[1..]);
    }
  }

  /** The disk after an interrupted rollback. */
  lemma {:induction false} CrashedRollback(env: Env, s: Scene, k: int, d: Disk, source: Source, cut: nat)
    requires Setting(s) && Core(env, s, k, d) && CopyPresent(s, d, source)
    requires cut <= |RollbackRun(env, s.target, d, source).writes|
    ensures var crashed := Exec(d, RollbackRun(env, s.target, d, source).writes[..cut]);
      Core(env, s, k, crashed) && PartlyUndone(s, d, crashed) && (crashed.runtime.Some? <==> d.runtime.Some?)
  {
    hide Core, RollbackRun, UndoRun, UndoneJournal, UndoWrite, Setting;
    CoreParts(env, s, k, d);
    var writes := RollbackRun(env, s.target, d, source).writes;
    RollbackKeeps(env, s, k, d, source);
    AlongPrefix(env, s, Exactly(k), d, writes, cut);
    RollbackDecidesFromCheckpoint(env, s, k, d, source);
    UndoRunIsUndo(d, s, source, Ckpt(s, d).journal);
    UndoWritesChange(s, d, d, writes[..cut]);
    RuntimeStays(d, writes[..cut]);
  }

  /**
   * An interrupted rollback, run again from any copy, ends where the uninterrupted one
   * would have ended: same checkpoint, same store, same boot tree.
   */
  lemma {:induction false} InterruptedRollbackConverges(env: Env, s: Scene, k: int, d: Disk, source: Source, cut: nat,
                                                        again: Source)
    requires Setting(s) && Core(env, s, k, d)
    requires RollbackRun(env, s.target, d, source).result.Ok? && GivenCopy(s, source)
    requires cut <= |RollbackRun(env, s.target, d, source).writes| && CopyPresent(s, d, again)
    ensures var writes := RollbackRun(env, s.target, d, source).writes;
      var crashed := Exec(d, writes[..cut]);
      var rerun := RollbackRun(env, s.target, crashed, again);
      && s.plan.id in crashed.checkpoints
      && (rerun.result.Err? ==> Ckpt(s, crashed).journal.status == RolledBack && rerun.writes == [])
      && s.plan.id in Exec(crashed, rerun.writes).checkpoints && s.plan.id in Exec(d, writes).checkpoints
      && Ckpt(s, Exec(crashed, rerun.writes)) == Ckpt(s, Exec(d, writes))
      && Exec(crashed, rerun.writes).store == Exec(d, writes).store
      && forall path :: At(Exec(crashed, rerun.writes).boot, path) == At(Exec(d, writes).boot, path)
  {
    hide Core, RollbackRun, UndoRun, UndoneJournal, Setting, OldExceptInFlight, CheckpointHolds, StoreHolds, At;
    CoreParts(env, s, k, d);
    var writes := RollbackRun(env, s.target, d, source).writes;
    var crashed := Exec(d, writes[..cut]);
    RollbackKeeps(env, s, k, d, source);
    CrashedRollback(env, s, k, d, source, cut);
    CoreParts(env, s, k, crashed);
    RollbackKeeps(env, s, k, crashed, again);
    RollbackDecidesFromCheckpoint(env, s, k, crashed, again);
    SettledAlike(env, s, k, d, crashed, again, Exec(d, writes));
  }

  lemma {:induction false} RuntimeStays(d: Disk, writes: seq<Write>)
    ensures Exec(d, writes).runtime.Some? <==> d.runtime.Some?
    decreases writes
  {
    if writes != [] {
      RuntimeStays(Perform(d, writes[0]), writes[1..]);
    }
  }

  lemma {:induction false} SettledAlike(env: Env, s: Scene, k: int, d: Disk, crashed: Disk, again: Source, final: Disk)
    requires Core(env, s, k, d) && Core(env, s, k, crashed) && PartlyUndone(s, d, crashed)
    requires Ckpt(s, d).journal.status != RolledBack
    requires IsUndone(env, s, k, d, final)
    requires var rerun := RollbackRun(env, s.target, crashed, again);
      (rerun.result.Ok? <==> Ckpt(s, crashed).journal.status != RolledBack && !Ckpt(s, crashed).record.Torn?) &&
      (rerun.result.Ok? ==> IsUndone(env, s, k, crashed, Exec(crashed, rerun.writes))) &&
      rerun == UndoRun(s.target, crashed, again, s.plan, Ckpt(s, crashed).journal, true)
    requires !Ckpt(s, d).record.Torn?
    ensures var rerun := RollbackRun(env, s.target, crashed, again);
      && (rerun.result.Err? ==> Ckpt(s, crashed).journal.status == RolledBack && rerun.writes == [])
      && s.plan.id in Exec(crashed, rerun.writes).checkpoints && s.plan.id in final.checkpoints
      && Ckpt(s, Exec(crashed, rerun.writes)) == Ckpt(s, final)
      && Exec(crashed, rerun.writes).store == final.store
      && forall path :: At(Exec(crashed, rerun.writes).boot, path) == At(final.boot, path)
  {
    hide RollbackRun, WellShaped, Undone;
    var settled := Exec(crashed, RollbackRun(env, s.target, crashed, again).writes);
    assert OldExceptInFlight(s, k, settled.boot);
    forall path
      ensures At(settled.boot, path) == At(final.boot, path)
    {
      if IsDestination(s, path) {
        var i :| 0 <= i < |s.files| && s.files[i].destination == path;
        assert At(settled.boot, path) == Unmarked(s, k, i) == At(final.boot, path);
      }
    }
  }

  // ----------------------------------------------------------------- verify and recover

  /** However stale the given copy is, verify acts on the checkpoint journal. */
  lemma {:induction false} VerifyDecidesFromCheckpoint(env: Env, s: Scene, k: int, d: Disk, source: Source)
    requires Setting(s) && Core(env, s, k, d) && GivenCopy(s, source)
    ensures var journal := Ckpt(s, d).journal;
      VerifyRun(env, s.target, d, source) ==
      if !CopyPresent(s, d, source) then Failed(BadDocuments)
      else if journal.status != Applied then Failed(NotApplied)
      else if !InstalledBundleVerifies(env, d.boot, s.plan) then Failed(VerificationFailed)
      else Done(JournalWrites(source, s.plan.id, true, journal.(status := Verified)))
  {
    hide Bound, WellShaped, HardwareFileOk, StoreHolds, BootHolds, InstalledBundleVerifies;
    WellShapedIsBound(env, s.plan, Ckpt(s, d).journal);
    if d.runtime.Some? {
      WellShapedIsBound(env, s.plan, d.runtime.value.journal);
    }
  }

  /** Writing one journal to both copies. */
  lemma {:induction false} BothCopiesKeep(env: Env, s: Scene, k: int, d: Disk, j: Journal)
    requires Core(env, s, k, d) && JournalHolds(env, s, j)
    requires Rank(Ckpt(s, d).journal) <= Rank(j)
    requires var c := Ckpt(s, d).(journal := j);
      ReceiptsHold(c) && BootHolds(s, k, d.boot, c) && StoreHolds(s, d.store, j.status)
    ensures var after := Exec(d, BothCopies(s.plan.id, j));
      && Along(env, s, Exactly(k), d, BothCopies(s.plan.id, j))
      && Core(env, s, k, after)
      && after == Perform(Perform(d, PutJournal(s.plan.id, j)), PutRuntime(j))
  {
    hide Core, WellShaped;
    CoreParts(env, s, k, d);
    var first, second := PutJournal(s.plan.id, j), PutRuntime(j);
    PutJournalKeeps(env, s, k, d, j);
    AlongOne(env, s, Exactly(k), d, first);
    PutRuntimeKeeps(env, s, k, Perform(d, first));
    AlongOne(env, s, Exactly(k), Perform(d, first), second);
    AlongConcat(env, s, Exactly(k), d, [first], [second]);
    ExecConcat(d, [first], [second]);
    assert [first] + [second] == BothCopies(s.plan.id, j);
  }

  lemma VerifiedHolds(env: Env, s: Scene, k: int, d: Disk)
    requires Core(env, s, k, d) && Ckpt(s, d).journal.status == Applied
    ensures var j := Ckpt(s, d).journal.(status := Verified);
      && JournalHolds(env, s, j) && Rank(Ckpt(s, d).journal) <= Rank(j)
      && ReceiptsHold(Ckpt(s, d).(journal := j)) && BootHolds(s, k, d.boot, Ckpt(s, d).(journal := j))
      && StoreHolds(s, d.store, j.status)
  {
    hide RecordHolds, OldExceptInFlight;
  }

  lemma {:induction false} VerifyKeeps(env: Env, s: Scene, k: int, d: Disk, source: Source)
    requires Setting(s) && Core(env, s, k, d) && GivenCopy(s, source)
    ensures Along(env, s, Exactly(k), d, VerifyRun(env, s.target, d, source).writes)
  {
    hide VerifyRun, InstalledBundleVerifies, CheckpointHolds, BootHolds, StoreHolds, WellShaped;
    VerifyDecidesFromCheckpoint(env, s, k, d, source);
    if VerifyRun(env, s.target, d, source).writes != [] {
      var verified := Ckpt(s, d).journal.(status := Verified);
      VerifiedHolds(env, s, k, d);
      BothCopiesKeep(env, s, k, d, verified);
      if source == FromRuntime {
        assert JournalWrites(source, s.plan.id, true, verified) == BothCopies(s.plan.id, verified);
      } else {
        PutJournalKeeps(env, s, k, d, verified);
        AlongOne(env, s, Exactly(k), d, PutJournal(s.plan.id, verified));
        assert [PutJournal(s.plan.id, verified)] + [] == [PutJournal(s.plan.id, verified)];
      }
    }
  }

  lemma OpenIsThis(env: Env, s: Scene, k: int, d: Disk, n: string)
    requires Core(env, s, k, d) && AllClosed(s.pre.checkpoints)
    ensures n in d.checkpoints && d.checkpoints[n].journal.status !in {Verified, RolledBack} ==> n == s.plan.id
  {
    hide CheckpointHolds, BootHolds, StoreHolds, RuntimeHolds;
  }

  /** `recover` only ever rolls this installation back, in whatever order the directory is listed. */
  lemma {:induction false} RecoverKeeps(env: Env, s: Scene, k: int, d: Disk, names: seq<string>, seen: nat,
                                        recovered: nat)
    requires Setting(s) && Core(env, s, k, d) && AllClosed(s.pre.checkpoints)
    ensures Along(env, s, Exactly(k), d, RecoverFrom(env, s.target, d, names, seen, recovered).writes)
    decreases names
  {
    hide Bound, RollbackRun, Core, Setting, AllClosed;
    if names != [] && names[0] in d.checkpoints {
      RecoverKeeps(env, s, k, d, names[1..], seen, recovered);
      RecoverKeeps(env, s, k, d, names[1..], seen + 1, recovered);
      if d.checkpoints[names[0]].journal.status !in {Verified, RolledBack} {
        OpenIsThis(env, s, k, d, names[0]);
        var run := RollbackRun(env, s.target, d, FromCheckpoint(names[0]));
        RollbackKeeps(env, s, k, d, FromCheckpoint(names[0]));
        AlongPrefix(env, s, Exactly(k), d, run.writes, |run.writes|);
        assert run.writes[..|run.writes|] == run.writes;
        RecoverKeeps(env, s, k, Exec(d, run.writes), names[1..], seen + 1, recovered + 1);
        AlongConcat(env, s, Exactly(k), d, run.writes,
          RecoverFrom(env, s.target, Exec(d, run.writes), names[1..], seen + 1, recovered + 1).writes);
      }
    } else if names != [] {
      RecoverKeeps(env, s, k, d, names[1..], seen, recovered);
    }
  }
}
