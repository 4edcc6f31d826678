/**
 * The invariant of one installation: what holds of the disk after every write of
 * every operation, whatever was interrupted before.
 */
module CrashInvariant {
  import opened Wrappers
  import opened DigestCodec
  import opened Documents
  import opened BootBundle
  import opened TargetDisk
  import opened Operations

  /** One installation: its plan and files, and the disk it found. */
  datatype Scene = Scene(target: string, plan: Plan, digest: Digest, files: seq<BootFile>, pre: Disk)

  ghost predicate SaneStore(store: Store) {
    store.active.Some? ==> store.present && store.active.value != NO_GENERATION
  }

  ghost predicate DistinctFiles(files: seq<BootFile>) {
    && (forall i | 0 <= i < |files| :: IsBootDestination(files[i].destination))
    && (forall i, j | 0 <= i < j < |files| :: files[i].destination != files[j].destination)
  }

  /** A directory entry the scan of `recover` passes over: its name begins with a dot. */
  predicate DotFile(name: string) {
    "." <= name
  }

  lemma DotFileIs(name: string)
    ensures DotFile(name) <==> name != "" && name[0] == '.'
  {
    assert name != "" && name[0] == '.' ==> name == "." + name[1..];
  }

  /** Every earlier transaction of the target is verified or rolled back. */
  ghost predicate AllClosed(checkpoints: map<string, Checkpoint>) {
    forall n | n in checkpoints :: checkpoints[n].journal.status in {Verified, RolledBack}
  }

  ghost predicate Setting(s: Scene) {
    && ValidPlan(s.plan)
    && s.plan.generationSha == Encode(s.digest) && s.digest != NO_GENERATION
    && s.plan.id !in s.pre.checkpoints
    && SaneStore(s.pre.store)
    && DistinctFiles(s.files)
  }

  ghost function Old(s: Scene, i: nat): Node
    requires i < |s.files|
  {
    At(s.pre.boot, s.files[i].destination)
  }

  /** What an unmarked destination holds: its old content, unless it is the one in flight. */
  ghost function Unmarked(s: Scene, inFlight: int, i: nat): Node
    requires i < |s.files|
  {
    if i == inFlight then Regular(s.files[i].bytes) else Old(s, i)
  }

  ghost predicate IsDestination(s: Scene, path: string) {
    exists i | 0 <= i < |s.files| :: s.files[i].destination == path
  }

  ghost predicate OthersUntouched(s: Scene, boot: map<string, Node>) {
    forall path | !IsDestination(s, path) :: At(boot, path) == At(s.pre.boot, path)
  }

  /** The boot tree is the old one, except that the destination in flight holds its new file. */
  ghost predicate OldExceptInFlight(s: Scene, inFlight: int, boot: map<string, Node>) {
    && OthersUntouched(s, boot)
    && forall i | 0 <= i < |s.files| :: At(boot, s.files[i].destination) == Unmarked(s, inFlight, i)
  }

  ghost predicate BackupHolds(s: Scene, backups: map<string, Bytes>, entry: Entry, i: nat)
    requires i < |s.files|
  {
    match Old(s, i)
    case Absent => entry.backup == None
    case Regular(bytes) =>
      && entry.backup == Some(BackupName(i))
      && BackupName(i) in backups && backups[BackupName(i)] == bytes
      && |bytes| <= MAX_BOOT_ARTIFACT_BYTES
    case _ => false
  }

  ghost predicate EntryHolds(s: Scene, inFlight: int, boot: map<string, Node>, backups: map<string, Bytes>,
                             entry: Entry, i: nat)
    requires i < |s.files|
  {
    && entry.destination == s.files[i].destination
    && BackupHolds(s, backups, entry, i)
    && var node := At(boot, entry.destination);
       if entry.installed then i != inFlight && (node == Regular(s.files[i].bytes) || node == Old(s, i))
       else node == Unmarked(s, inFlight, i)
  }

  /** A whole record describes the tree: marked entries are new or already restored, the others unmarked. */
  ghost predicate RecordHolds(s: Scene, inFlight: int, boot: map<string, Node>, backups: map<string, Bytes>,
                              r: Record) {
    && r.schema == BOOT_BUNDLE_SCHEMA && r.manifestSha == s.plan.bootSha
    && |r.entries| == |s.files|
    && OthersUntouched(s, boot)
    && forall i | 0 <= i < |s.files| :: EntryHolds(s, inFlight, boot, backups, r.entries[i], i)
  }

  ghost predicate BootHolds(s: Scene, inFlight: int, boot: map<string, Node>, c: Checkpoint) {
    && -1 <= inFlight < |s.files|
    && match c.record
       case NoRecord => OldExceptInFlight(s, inFlight, boot) && (c.journal.status == Applying ==> inFlight == -1)
       case Torn =>
         OldExceptInFlight(s, -1, boot) && inFlight == -1 && c.journal.status in {CorinthPublished, ApplyFailed}
       case Whole(r) => c.journal.published && RecordHolds(s, inFlight, boot, c.backups, r)
  }

  /** The generation authority is the old one or the published one, and the published one can be undone. */
  ghost predicate StoreHolds(s: Scene, store: Store, status: Status) {
    var previous := s.pre.store.active;
    && (previous.Some? ==> store.present)
    && (store.active == previous ||
        (store.active == Some(s.digest) && store.present
         && s.digest in store.parents && store.parents[s.digest] == previous))
    && (status == RolledBack ==> store.active == previous)
  }

  /** Write-ahead: only journaled packages can be installed. */
  ghost predicate ReceiptsHold(c: Checkpoint) {
    && (forall p | p in c.receipts :: p in c.journal.packages)
    && (c.journal.status == RolledBack ==> c.receipts == {})
  }

  function Rank(journal: Journal): nat {
    match journal.status
    case Prepared => 0
    case Applying => if journal.mutations == [] then 1 else 2
    case CorinthPublished => 3
    case ApplyFailed => 4
    case Applied => 4
    case Verified => 5
    case RolledBack => 6
  }

  /** The runtime copy is of this plan and never ahead of the checkpoint. */
  ghost predicate RuntimeHolds(env: Env, s: Scene, runtime: Option<Runtime>, durable: Journal) {
    runtime.Some? ==>
      && runtime.value.plan == s.plan
      && WellShaped(env, s.plan, runtime.value.journal)
      && Rank(runtime.value.journal) <= Rank(durable)
  }

  ghost predicate JournalHolds(env: Env, s: Scene, journal: Journal) {
    && WellShaped(env, s.plan, journal)
    && journal.status != Prepared
    && journal.target == Some(s.target)
    && journal.previous == EncodedActive(s.pre.store)
  }

  ghost predicate CheckpointHolds(env: Env, s: Scene, c: Checkpoint) {
    && c.plan == s.plan
    && Encode(env.sha(c.generation)) == s.plan.generationSha
    && HardwareFileOk(env, c.hardwarePlan, s.plan.hardwareSha)
    && JournalHolds(env, s, c.journal)
    && ReceiptsHold(c)
  }

  /** The invariant, with the index of the entry renamed but not marked, or -1. */
  ghost predicate Core(env: Env, s: Scene, inFlight: int, d: Disk) {
    && s.plan.id in d.checkpoints
    && d.checkpoints == s.pre.checkpoints[s.plan.id := d.checkpoints[s.plan.id]]
    && CheckpointHolds(env, s, d.checkpoints[s.plan.id])
    && BootHolds(s, inFlight, d.boot, d.checkpoints[s.plan.id])
    && StoreHolds(s, d.store, d.checkpoints[s.plan.id].journal.status)
    && RuntimeHolds(env, s, d.runtime, d.checkpoints[s.plan.id].journal)
  }

  /** `next` is the journal `apply` writes after `last`. */
  ghost predicate Successor(last: Journal, next: Journal) {
    match next.status
    case Applying => last.status == Prepared
      || (last.status == Applying && next.mutations == last.mutations + [Hardware])
    case CorinthPublished => last.status == Applying && next.mutations == last.mutations + [Generation]
    case ApplyFailed => last.status == CorinthPublished && next.mutations == last.mutations
    case Applied => last.status == CorinthPublished && next.mutations == last.mutations + [Mutation.BootBundle]
    case _ => false
  }

  /** During `apply` the runtime copy is the checkpoint journal or the one just before it. */
  ghost predicate InStep(s: Scene, d: Disk) {
    s.plan.id in d.checkpoints && d.runtime.Some? ==>
      var durable, runtime := d.checkpoints[s.plan.id].journal, d.runtime.value.journal;
      runtime == durable || Successor(runtime, durable)
  }

  /** Which reading of the invariant a run keeps. */
  datatype Reading = Exactly(inFlight: int) | InApply | Somewhere

  ghost predicate Holds(env: Env, s: Scene, reading: Reading, d: Disk) {
    match reading
    case Exactly(inFlight) => Core(env, s, inFlight, d)
    case InApply => InStep(s, d) && exists k :: Core(env, s, k, d)
    case Somewhere => exists k :: Core(env, s, k, d)
  }

  /** The invariant holds now and after each of the writes. */
  ghost predicate Along(env: Env, s: Scene, reading: Reading, d: Disk, writes: seq<Write>)
    decreases writes
  {
    Holds(env, s, reading, d) && (writes != [] ==> Along(env, s, reading, Perform(d, writes[0]), writes[1..]))
  }

  lemma {:induction false} AlongConcat(env: Env, s: Scene, reading: Reading, d: Disk, left: seq<Write>,
                                       right: seq<Write>)
    requires Along(env, s, reading, d, left) && Along(env, s, reading, Exec(d, left), right)
    ensures Along(env, s, reading, d, left + right)
    decreases left
  {
    hide Holds;
    if left == [] {
      assert left + right == right;
    } else {
      AlongConcat(env, s, reading, Perform(d, left[0]), left[1..], right);
      assert (left + right)[1..] == left[1..] + right;
    }
  }

  /** A crash after any number of the writes leaves a disk that satisfies the invariant. */
  lemma {:induction false} AlongPrefix(env: Env, s: Scene, reading: Reading, d: Disk, writes: seq<Write>, cut: nat)
    requires Along(env, s, reading, d, writes) && cut <= |writes|
    ensures Holds(env, s, reading, Exec(d, writes[..cut]))
    ensures Along(env, s, reading, d, writes[..cut])
    decreases writes
  {
    if cut > 0 {
      AlongPrefix(env, s, reading, Perform(d, writes[0]), writes[1..], cut - 1);
      assert writes[..cut][1..] == writes[1..][..cut - 1];
    }
  }

  lemma {:induction false} AlongWeakens(env: Env, s: Scene, inFlight: int, d: Disk, writes: seq<Write>)
    requires Along(env, s, Exactly(inFlight), d, writes)
    ensures Along(env, s, Somewhere, d, writes)
    decreases writes
  {
    if writes != [] {
      AlongWeakens(env, s, inFlight, Perform(d, writes[0]), writes[1..]);
    }
  }
}
