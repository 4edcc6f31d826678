/** What a rollback has already undone when the generation authority refuses it. */
module RefusedRollback {
  import opened Wrappers
  import opened DigestCodec
  import opened Documents
  import opened BootBundle
  import opened TargetDisk
  import opened Operations
  import opened UndoProof

  // ----------------------------------------------------------------- what undoing the entries leaves

  /** What an entry says was there before. */
  function Target(backups: map<string, Bytes>, entry: Entry): Node {
    if entry.backup.None? then Absent
    else if entry.backup.value in backups then Regular(backups[entry.backup.value])
    else Absent
  }

  /** The tree with every marked destination put back; of two entries for one destination the first decides. */
  function RestoredAt(boot: map<string, Node>, backups: map<string, Bytes>, entries: seq<Entry>, path: string): Node {
    if entries == [] then At(boot, path)
    else if entries[0].installed && entries[0].destination == path then Target(backups, entries[0])
    else RestoredAt(boot, backups, entries[1..], path)
  }

  lemma {:induction false} RestoredLast(boot: map<string, Node>, next: map<string, Node>, backups: map<string, Bytes>,
                                        entries: seq<Entry>, last: Entry, path: string)
    requires At(next, path) ==
      if last.installed && last.destination == path then Target(backups, last) else At(boot, path)
    ensures RestoredAt(next, backups, entries, path) == RestoredAt(boot, backups, entries + [last], path)
  {
    if entries == [] {
      assert ([] + [last])[1..] == [];
    } else {
      assert (entries + [last])[1..] == entries[1..] + [last];
      RestoredLast(boot, next, backups, entries[1..], last, path);
    }
  }

  /** The loop from the last entry to the first leaves exactly that tree, and changes nothing else. */
  lemma {:induction false} EntriesUndoEffect(d: Disk, backups: map<string, Bytes>, entries: seq<Entry>)
    requires EntriesUndo(d.boot, backups, entries).result.Ok?
    ensures var after := Exec(d, EntriesUndo(d.boot, backups, entries).writes);
      && after == d.(boot := after.boot)
      && forall path :: At(after.boot, path) == RestoredAt(d.boot, backups, entries, path)
    decreases entries
  {
    if entries != [] {
      var last, rest := entries[|entries| - 1], entries[..|entries| - 1];
      assert entries == rest + [last];
      var undo := EntryUndo(d.boot, backups, last);
      var boot := if last.installed then AfterUndo(d.boot, undo) else d.boot;
      var next := d.(boot := boot);
      EntriesUndoEffect(next, backups, rest);
      var more := EntriesUndo(boot, backups, rest).writes;
      if last.installed {
        ExecConcat(d, undo.writes, more);
        assert undo.writes != [] ==> undo.writes == [undo.writes[0]] && undo.writes[1..] == [];
        assert Exec(d, undo.writes) == next;
      }
      forall path
        ensures RestoredAt(boot, backups, rest, path) == RestoredAt(d.boot, backups, entries, path)
      {
        RestoredLast(d.boot, boot, backups, rest, last, path);
      }
    }
  }

  /** Each marked entry can be undone by itself. */
  ghost predicate Undoable(boot: map<string, Node>, backups: map<string, Bytes>, entries: seq<Entry>) {
    forall e | e in entries && e.installed :: EntryUndo(boot, backups, e).result.Ok?
  }

  lemma {:induction false} EntriesUndoSucceeds(boot: map<string, Node>, backups: map<string, Bytes>,
                                               entries: seq<Entry>)
    requires Undoable(boot, backups, entries)
    ensures EntriesUndo(boot, backups, entries).result.Ok?
    decreases entries
  {
    if entries != [] {
      var last, rest := entries[|entries| - 1], entries[..|entries| - 1];
      assert last in entries && forall e | e in rest :: e in entries;
      EntriesUndoSucceeds(boot, backups, rest);
      if last.installed {
        var next := AfterUndo(boot, EntryUndo(boot, backups, last));
        forall e | e in rest && e.installed
          ensures EntryUndo(next, backups, e).result.Ok?
        {
          assert EntryUndo(boot, backups, e).result.Ok?;
        }
        EntriesUndoSucceeds(next, backups, rest);
      }
    }
  }

  /** Entries for distinct destinations: each marked one decides its own. */
  lemma {:induction false} RestoredAtMarked(boot: map<string, Node>, backups: map<string, Bytes>, entries: seq<Entry>,
                                            i: nat)
    requires i < |entries| && entries[i].installed
    requires forall j | 0 <= j < i :: entries[j].destination != entries[i].destination
    ensures RestoredAt(boot, backups, entries, entries[i].destination) == Target(backups, entries[i])
    decreases i
  {
    if i > 0 {
      assert entries[0].destination != entries[i].destination;
      forall j | 0 <= j < i - 1
        ensures entries[1..][j].destination != entries[1..][i - 1].destination
      {
        assert entries[j + 1].destination != entries[i].destination;
      }
      RestoredAtMarked(boot, backups, entries[1..], i - 1);
    }
  }

  lemma {:induction false} RestoredAtUnmarked(boot: map<string, Node>, backups: map<string, Bytes>,
                                              entries: seq<Entry>, path: string)
    requires forall e | e in entries && e.installed :: e.destination != path
    ensures RestoredAt(boot, backups, entries, path) == At(boot, path)
  {
    if entries != [] {
      assert entries[0] in entries;
      RestoredAtUnmarked(boot, backups, entries[1..], path);
    }
  }

  // ----------------------------------------------------------------- when the entries can be undone

  /** A backup that can be read back. */
  predicate BackupThere(backups: map<string, Bytes>, entry: Entry) {
    entry.backup.Some? ==> entry.backup.value in backups && |backups[entry.backup.value]| <= 33554432
  }

  /** A rename cannot replace a directory; a removal removes regular files only. */
  predicate GivesWay(node: Node, entry: Entry) {
    if entry.backup.Some? then node != Directory else node == Absent || node.Regular?
  }

  /** The entries whose destination no later marked entry names: those met first by the loop. */
  predicate MetFirst(entries: seq<Entry>, i: nat)
    requires i < |entries|
  {
    forall j | i < j < |entries| && entries[j].installed :: entries[j].destination != entries[i].destination
  }

  /** Every marked entry has its backup, and what the loop meets first at each destination gives way. */
  ghost predicate CanBeUndone(boot: map<string, Node>, backups: map<string, Bytes>, entries: seq<Entry>) {
    forall i | 0 <= i < |entries| && entries[i].installed ::
      BackupThere(backups, entries[i])
      && (MetFirst(entries, i) ==> GivesWay(At(boot, entries[i].destination), entries[i]))
  }

  lemma {:induction false} EntryUndoSucceeds(boot: map<string, Node>, backups: map<string, Bytes>, entry: Entry)
    ensures var undo := EntryUndo(boot, backups, entry);
      && (undo.result.Ok? <==> BackupThere(backups, entry) && GivesWay(At(boot, entry.destination), entry))
      && (undo.result.Ok? ==>
            && (At(AfterUndo(boot, undo), entry.destination) == Absent
                || At(AfterUndo(boot, undo), entry.destination).Regular?)
            && forall path | path != entry.destination :: At(AfterUndo(boot, undo), path) == At(boot, path))
  {
  }

  /** Undoing the entries of any record succeeds exactly when they can be undone. */
  lemma {:induction false} EntriesUndoSucceedsExactlyWhen(boot: map<string, Node>, backups: map<string, Bytes>,
                                                          entries: seq<Entry>)
    ensures EntriesUndo(boot, backups, entries).result.Ok? <==> CanBeUndone(boot, backups, entries)
    decreases entries
  {
    hide EntryUndo, BackupThere, GivesWay;
    if entries != [] {
      var n := |entries| - 1;
      var last, rest := entries[n], entries[..n];
      var undo := EntryUndo(boot, backups, last);
      EntryUndoSucceeds(boot, backups, last);
      assert MetFirst(entries, n);
      if !last.installed {
        EntriesUndoSucceedsExactlyWhen(boot, backups, rest);
        OneMore(boot, boot, backups, rest, last);
      } else if undo.result.Ok? {
        var next := AfterUndo(boot, undo);
        EntriesUndoSucceedsExactlyWhen(next, backups, rest);
        OneMore(boot, next, backups, rest, last);
      }
      assert rest + [last] == entries;
    }
  }

  /** One more entry at the end, undone first. */
  lemma {:induction false} OneMore(boot: map<string, Node>, next: map<string, Node>, backups: map<string, Bytes>,
                                   rest: seq<Entry>, last: Entry)
    requires last.installed ==> BackupThere(backups, last) && GivesWay(At(boot, last.destination), last)
    requires last.installed ==> At(next, last.destination) == Absent || At(next, last.destination).Regular?
    requires forall path | !last.installed || path != last.destination :: At(next, path) == At(boot, path)
    ensures CanBeUndone(boot, backups, rest + [last]) <==> CanBeUndone(next, backups, rest)
  {
    hide BackupThere;
    var entries := rest + [last];
    var n := |rest|;
    assert entries[n] == last && MetFirst(entries, n);
    forall i | 0 <= i < n && rest[i].installed
      ensures entries[i] == rest[i]
      ensures MetFirst(entries, i) <==>
        MetFirst(rest, i) && !(last.installed && last.destination == rest[i].destination)
      ensures (MetFirst(entries, i) ==> GivesWay(At(boot, rest[i].destination), rest[i]))
        <==> (MetFirst(rest, i) ==> GivesWay(At(next, rest[i].destination), rest[i]))
    {
      MetFirstOneMore(rest, last, i);
    }
  }

  lemma {:induction false} MetFirstOneMore(rest: seq<Entry>, last: Entry, i: nat)
    requires i < |rest|
    ensures MetFirst(rest + [last], i) <==>
      MetFirst(rest, i) && !(last.installed && last.destination == rest[i].destination)
  {
    var entries := rest + [last];
    assert entries[|rest|] == last;
    assert forall j | 0 <= j < |rest| :: entries[j] == rest[j];
  }

  /**
   * The boot files of a transaction can be put back exactly when there is no record, or
   * the record is whole, of this bundle, names only boot destinations and backups of its
   * own, and its entries can be undone.
   */
  lemma {:induction false} BootUndoSucceedsExactlyWhen(d: Disk, plan: Plan)
    requires plan.id in d.checkpoints
    ensures var c := d.checkpoints[plan.id];
      BootUndo(d, plan).result.Ok? <==>
        match c.record
        case NoRecord => true
        case Torn => false
        case Whole(r) =>
          && r.schema == 1 && r.manifestSha == plan.bootSha
          && (forall e | e in r.entries ::
                IsBootDestination(e.destination) && (e.backup.Some? ==> "boot-backup/" <= e.backup.value))
          && CanBeUndone(d.boot, c.backups, r.entries)
  {
    hide EntriesUndo, CanBeUndone;
    var c := d.checkpoints[plan.id];
    if c.record.Whole? {
      EntriesUndoSucceedsExactlyWhen(d.boot, c.backups, c.record.record.entries);
    }
  }

  // ----------------------------------------------------------------- the refusal

  /** Rollback of this checkpoint gets past its documents and its boot files. */
  ghost predicate ReachesGeneration(env: Env, target: string, d: Disk, name: string) {
    && name in d.checkpoints && d.checkpoints[name].plan.id == name
    && var c := d.checkpoints[name];
       && Bound(env, c.plan, c.journal) && HardwareFileOk(env, c.hardwarePlan, c.plan.hardwareSha)
       && c.journal.status != RolledBack && c.journal.target == Some(target)
       && BootUndo(d, c.plan).result.Ok?
  }

  /** The generation authority is neither the one to return to nor one that can be taken back. */
  predicate AuthorityLost(store: Store, previous: Option<Digest>, intended: Digest) {
    store.present && store.active != previous && (store.active != Some(intended) || intended !in store.parents)
  }

  lemma {:induction false} StagesOfRollback(env: Env, target: string, d: Disk, name: string)
    requires ReachesGeneration(env, target, d, name)
    ensures var c := d.checkpoints[name];
      var corinth := CorinthUndo(d.store, c.plan, c.journal);
      var run := RollbackRun(env, target, d, FromCheckpoint(name));
      && (corinth.result.Ok? <==> run.result.Ok?)
      && (corinth.result.Err? ==> run == Run(
            HardwareUndo(d, name, c.journal) + (BootUndo(d, c.plan).writes + corinth.writes), corinth.result))
      && (corinth.result.Ok? ==> run == Done(
            HardwareUndo(d, name, c.journal) + (BootUndo(d, c.plan).writes
              + (corinth.writes + [PutJournal(name, UndoneJournal(c.journal, target))]))))
  {
    hide Bound, HardwareFileOk, BootUndo, HardwareUndo, UndoneJournal, CorinthUndo;
    assert JournalWrites(FromCheckpoint(name), name, true, UndoneJournal(d.checkpoints[name].journal, target))
      == [PutJournal(name, UndoneJournal(d.checkpoints[name].journal, target))];
  }

  /**
   * A rollback whose documents are accepted and whose boot files can be put back is
   * refused by the generation authority exactly when another generation is active, and
   * succeeds exactly when there is nothing to take back or the parent is the journaled one.
   */
  lemma {:induction false} RefusedExactlyWhen(env: Env, target: string, d: Disk, name: string,
                                              previous: Option<Digest>, intended: Digest)
    requires ReachesGeneration(env, target, d, name)
    requires Decode(d.checkpoints[name].plan.generationSha) == Ok(intended)
    requires DecodedPrevious(d.checkpoints[name].journal) == Ok(previous)
    ensures var run := RollbackRun(env, target, d, FromCheckpoint(name));
      && (run.result == Err(AuthorityDiffers) <==> AuthorityLost(d.store, previous, intended))
      && (run.result.Ok? <==> CanReturn(d.store, intended, previous))
  {
    hide HardwareFileOk, BootUndo, HardwareUndo, UndoneJournal, Decode, DecodedPrevious, RollbackRun;
    StagesOfRollback(env, target, d, name);
  }

  /** No store where none is needed, or one that is back already or whose active generation has this parent. */
  predicate CanReturn(store: Store, intended: Digest, previous: Option<Digest>) {
    || (!store.present && previous.None?)
    || (store.present && store.active == previous)
    || (store.present && store.active == Some(intended)
        && intended in store.parents && store.parents[intended] == previous)
  }

  /** A generation digest as the journal writes it: well formed, and not the reserved one. */
  predicate Names(text: string, digest: Digest) {
    text == Encode(digest) && digest != NO_GENERATION
  }

  /**
   * Taking back the generation succeeds exactly when nothing was ever intended on this
   * target, or both digests are readable and the store is where they say or can go there.
   */
  lemma {:induction false} GenerationUndoSucceedsExactlyWhen(store: Store, plan: Plan, journal: Journal)
    ensures CorinthUndo(store, plan, journal).result.Ok? <==>
      || (journal.status == Prepared && journal.target.None?)
      || exists intended: Digest, previous: Option<Digest> ::
           && Names(plan.generationSha, intended)
           && (if previous.Some? then journal.previous.Some? && Names(journal.previous.value, previous.value)
               else journal.previous.None?)
           && CanReturn(store, intended, previous)
  {
    hide Encode, DecodedBytes;
    DecodeNames(plan.generationSha);
    if journal.previous.Some? {
      DecodeNames(journal.previous.value);
    }
  }

  /**
   * The store is only ever sent back to the parent it records, also when that is not the
   * one the journal names; only then is the refusal more than a refusal.
   */
  lemma {:induction false} TakesBackToRecordedParent(d: Disk, plan: Plan, journal: Journal, intended: Digest,
                                                     previous: Option<Digest>)
    requires Names(plan.generationSha, intended) && journal.target.Some? && d.store.present
    requires if previous.Some? then journal.previous.Some? && Names(journal.previous.value, previous.value)
             else journal.previous.None?
    requires d.store.active != previous
    ensures var undo := CorinthUndo(d.store, plan, journal);
      if d.store.active == Some(intended) && intended in d.store.parents then
        && Exec(d, undo.writes) == d.(store := d.store.(active := d.store.parents[intended]))
        && (undo.result == Ok(Unit) <==> d.store.parents[intended] == previous)
        && (undo.result == Err(UnexpectedParent) <==> d.store.parents[intended] != previous)
      else undo == Run([], Err(AuthorityDiffers))
  {
    hide Encode, Decode;
    DecodeNames(plan.generationSha);
    if journal.previous.Some? {
      DecodeNames(journal.previous.value);
    }
    assert forall w: Write :: [w][1..] == [];
  }

  lemma {:induction false} DecodeNames(text: string)
    ensures Decode(text).Ok? ==> Names(text, Decode(text).value)
    ensures forall digest | Names(text, digest) :: Decode(text) == Ok(digest)
  {
    DecodeAccepts(text);
    forall digest | Names(text, digest)
      ensures Decode(text) == Ok(digest)
    {
      DecodeOfEncode(digest);
    }
    if ValidDigest(text) && DecodedBytes(text) != NO_GENERATION {
      EncodeOfDecode(text);
    }
  }

  // ----------------------------------------------------------------- what a refused rollback leaves

  /** The packages of the journal that are still installed when the rollback begins. */
  ghost predicate PackagesToRemove(c: Checkpoint) {
    Hardware in c.journal.mutations && exists p | p in c.journal.packages :: p in c.receipts
  }

  /** The checkpoint and the tree after the hardware and boot stages of a rollback. */
  ghost predicate FirstStagesDone(name: string, d: Disk, after: Disk)
    requires name in d.checkpoints
  {
    var c := d.checkpoints[name];
    && after.checkpoints == d.checkpoints[name := c.(
         receipts := if Hardware in c.journal.mutations then c.receipts - Set(c.journal.packages) else c.receipts,
         record := NoRecord)]
    && after.store == d.store && after.runtime == d.runtime
    && forall path :: At(after.boot, path) ==
         if c.record.Whole? then RestoredAt(d.boot, c.backups, c.record.record.entries, path) else At(d.boot, path)
  }

  lemma {:induction false} DropReceiptsEffect(d: Disk, id: string, receipts: set<string>, packages: seq<string>)
    requires id in d.checkpoints && d.checkpoints[id].receipts == receipts
    ensures Exec(d, DropReceipts(id, receipts, packages)) == WithReceipts(d, id, receipts - Set(packages))
    decreases packages
  {
    if packages == [] {
      assert receipts - Set(packages) == receipts;
      assert d.checkpoints[id := d.checkpoints[id].(receipts := receipts)] == d.checkpoints;
    } else {
      assert Set(packages) == {packages[0]} + Set(packages[1..]);
      if packages[0] in receipts {
        DropReceiptsEffect(Perform(d, DropReceipt(id, packages[0])), id, receipts - {packages[0]}, packages[1..]);
        assert receipts - {packages[0]} - Set(packages[1..]) == receipts - Set(packages);
      } else {
        DropReceiptsEffect(d, id, receipts, packages[1..]);
        assert receipts - Set(packages[1..]) == receipts - Set(packages);
      }
    }
  }

  lemma {:induction false} FirstStagesEffect(d: Disk, name: string)
    requires name in d.checkpoints && d.checkpoints[name].plan.id == name
    requires BootUndo(d, d.checkpoints[name].plan).result.Ok?
    ensures var c := d.checkpoints[name];
      FirstStagesDone(name, d, Exec(d, HardwareUndo(d, name, c.journal) + BootUndo(d, c.plan).writes))
  {
    hide RecordMatches, EntriesUndo;
    var c := d.checkpoints[name];
    var first, second := HardwareUndo(d, name, c.journal), BootUndo(d, c.plan).writes;
    var d1 := Exec(d, first);
    ExecConcat(d, first, second);
    DropReceiptsEffect(d, name, c.receipts, c.journal.packages);
    assert d.checkpoints[name := c] == d.checkpoints;
    if c.record.Whole? {
      var undo := EntriesUndo(d.boot, c.backups, c.record.record.entries);
      EntriesUndoEffect(d1, c.backups, c.record.record.entries);
      ExecAppend(d1, undo.writes, DropRecord(name));
    }
  }

  /**
   * A refused rollback is not without effect. It has changed the disk if and only if a
   * journaled package was installed or the transaction had a boot record, and it leaves
   * no journaled package, no record, and every marked destination as the transaction had
   * found it; the journal still says what it said before.
   */
  lemma {:induction false} RefusedRollbackHasUndone(env: Env, target: string, d: Disk, name: string)
    requires ReachesGeneration(env, target, d, name)
    requires RollbackRun(env, target, d, FromCheckpoint(name)).result == Err(AuthorityDiffers)
    ensures var c := d.checkpoints[name];
      var after := Exec(d, RollbackRun(env, target, d, FromCheckpoint(name)).writes);
      && FirstStagesDone(name, d, after)
      && (after != d <==> PackagesToRemove(c) || c.record.Whole?)
  {
    hide Bound, HardwareFileOk, BootUndo, HardwareUndo, RollbackRun, RestoredAt, Decode, DecodedPrevious;
    StagesOfRollback(env, target, d, name);
    FirstStagesEffect(d, name);
    var c := d.checkpoints[name];
    var corinth := CorinthUndo(d.store, c.plan, c.journal);
    assert corinth.writes == [];
    assert BootUndo(d, c.plan).writes + [] == BootUndo(d, c.plan).writes;
    var after := Exec(d, RollbackRun(env, target, d, FromCheckpoint(name)).writes);
    if PackagesToRemove(c) {
      var p :| p in c.journal.packages && p in c.receipts;
      assert p !in after.checkpoints[name].receipts;
    } else if !c.record.Whole? {
      NothingToUndo(d, name);
    }
  }

  /** What a rollback that succeeds leaves. */
  lemma {:induction false} AcceptedRollbackUndoes(env: Env, target: string, d: Disk, name: string,
                                                  previous: Option<Digest>)
    returns (middle: Disk)
    requires ReachesGeneration(env, target, d, name)
    requires DecodedPrevious(d.checkpoints[name].journal) == Ok(previous)
    requires RollbackRun(env, target, d, FromCheckpoint(name)).result.Ok?
    ensures name in d.checkpoints && FirstStagesDone(name, d, middle)
    ensures var c := d.checkpoints[name];
      var after := Exec(d, RollbackRun(env, target, d, FromCheckpoint(name)).writes);
      && after.boot == middle.boot
      && after.store == d.store.(active := if d.store.present then previous else d.store.active)
      && name in after.checkpoints && after.checkpoints == d.checkpoints[name := after.checkpoints[name]]
      && after.checkpoints[name].journal == UndoneJournal(c.journal, target)
  {
    hide Bound, HardwareFileOk, BootUndo, HardwareUndo, Decode, DecodedPrevious, UndoneJournal, RollbackRun,
      RestoredAt, CorinthUndo;
    FirstStagesEffect(d, name);
    StagesOfRollback(env, target, d, name);
    var c := d.checkpoints[name];
    var hardware, boot := HardwareUndo(d, name, c.journal), BootUndo(d, c.plan).writes;
    var corinth := CorinthUndo(d.store, c.plan, c.journal).writes;
    var last := PutJournal(name, UndoneJournal(c.journal, target));
    Associative(hardware, boot, corinth + [last]);
    middle := Exec(d, hardware + boot);
    ExecConcat(d, hardware + boot, corinth + [last]);
    ExecAppend(middle, corinth, last);
    CorinthEffect(middle, c.plan, c.journal, previous);
  }

  lemma Associative(a: seq<Write>, b: seq<Write>, c: seq<Write>)
    ensures a + (b + c) == a + b + c
  {
  }

  lemma {:induction false} CorinthEffect(d: Disk, plan: Plan, journal: Journal, previous: Option<Digest>)
    requires CorinthUndo(d.store, plan, journal).result.Ok? && DecodedPrevious(journal) == Ok(previous)
    requires journal.target.Some?
    ensures Exec(d, CorinthUndo(d.store, plan, journal).writes)
      == d.(store := d.store.(active := if d.store.present then previous else d.store.active))
  {
    hide Decode, DecodedPrevious;
    assert [RestoreGeneration(previous)][1..] == [];
  }

  lemma {:induction false} NothingToUndo(d: Disk, name: string)
    requires name in d.checkpoints && !PackagesToRemove(d.checkpoints[name]) && d.checkpoints[name].plan.id == name
    requires !d.checkpoints[name].record.Whole?
    ensures var c := d.checkpoints[name];
      HardwareUndo(d, name, c.journal) == [] && BootUndo(d, c.plan).writes == []
  {
    var c := d.checkpoints[name];
    if Hardware in c.journal.mutations {
      NoneInstalled(name, c.receipts, c.journal.packages);
    }
  }

  lemma {:induction false} NoneInstalled(id: string, receipts: set<string>, packages: seq<string>)
    requires forall p | p in packages :: p !in receipts
    ensures DropReceipts(id, receipts, packages) == []
  {
    if packages != [] {
      assert packages[0] in packages;
      NoneInstalled(id, receipts, packages[1..]);
    }
  }
}
