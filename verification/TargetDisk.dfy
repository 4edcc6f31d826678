/**
 * The durable state an installation works on, and the atomic writes that change
 * it. A crash leaves the disk as some prefix of a run's writes left it.
 */
module TargetDisk {
  import opened Wrappers
  import opened DigestCodec
  import opened Documents
  import opened BootBundle

  /** One entry of `boot-mutation.json`: where a file goes, its backup, and whether it was marked installed. */
  datatype Entry = Entry(destination: string, backup: Option<string>, installed: bool)

  datatype Record = Record(schema: nat, manifestSha: string, complete: bool, entries: seq<Entry>)

  /** The first write of the record creates the file and then fills it: in between it is unreadable. */
  datatype RecordFile = NoRecord | Torn | Whole(record: Record)

  /** The generation store: publishing needs the parent to be active, rolling back restores it. */
  datatype Store = Store(present: bool, active: Option<Digest>, parents: map<Digest, Option<Digest>>)

  /** One transaction directory on the target. A package is installed iff its receipt exists. */
  datatype Checkpoint = Checkpoint(
    plan: Plan, journal: Journal, generation: Bytes, hardwarePlan: Option<Bytes>,
    record: RecordFile, backups: map<string, Bytes>, receipts: set<string>)

  /** The copy of the documents on the installation medium; it may be lost at a restart. */
  datatype Runtime = Runtime(plan: Plan, journal: Journal, generation: Bytes, hardwarePlan: Option<Bytes>)

  datatype Disk = Disk(
    boot: map<string, Node>, store: Store, checkpoints: map<string, Checkpoint>, runtime: Option<Runtime>)

  datatype Write =
    | CreateCheckpoint(id: string, checkpoint: Checkpoint)
    | PutJournal(id: string, journal: Journal)
    | PutRuntime(journal: Journal)
    | AddReceipt(id: string, package: string)
    | DropReceipt(id: string, package: string)
    | OpenStore
    | Publish(digest: Digest, parent: Option<Digest>)
    | RestoreGeneration(parent: Option<Digest>)
    | PutBackup(id: string, name: string, bytes: Bytes)
    | TearRecord(id: string)
    | PutRecord(id: string, record: Record)
    | DropRecord(id: string)
    | PutBoot(destination: string, node: Node)

  function Updated(d: Disk, id: string, change: Checkpoint -> Checkpoint): Disk {
    if id in d.checkpoints then d.(checkpoints := d.checkpoints[id := change(d.checkpoints[id])]) else d
  }

  function Perform(d: Disk, w: Write): Disk {
    match w
    case CreateCheckpoint(id, c) => d.(checkpoints := d.checkpoints[id := c])
    case PutJournal(id, j) => Updated(d, id, (c: Checkpoint) => c.(journal := j))
    case PutRuntime(j) => if d.runtime.Some? then d.(runtime := Some(d.runtime.value.(journal := j))) else d
    case AddReceipt(id, p) => Updated(d, id, (c: Checkpoint) => c.(receipts := c.receipts + {p}))
    case DropReceipt(id, p) => Updated(d, id, (c: Checkpoint) => c.(receipts := c.receipts - {p}))
    case OpenStore => d.(store := d.store.(present := true))
    case Publish(digest, parent) =>
      d.(store := d.store.(active := Some(digest), parents := d.store.parents[digest := parent]))
    case RestoreGeneration(parent) => d.(store := d.store.(active := parent))
    case PutBackup(id, name, bytes) => Updated(d, id, (c: Checkpoint) => c.(backups := c.backups[name := bytes]))
    case TearRecord(id) => Updated(d, id, (c: Checkpoint) => c.(record := Torn))
    case PutRecord(id, r) => Updated(d, id, (c: Checkpoint) => c.(record := Whole(r)))
    case DropRecord(id) => Updated(d, id, (c: Checkpoint) => c.(record := NoRecord))
    case PutBoot(path, node) => d.(boot := d.boot[path := node])
  }

  function Exec(d: Disk, writes: seq<Write>): Disk
    decreases writes
  {
    if writes == [] then d else Exec(Perform(d, writes[0]), writes[1..])
  }

  lemma {:induction false} ExecConcat(d: Disk, left: seq<Write>, right: seq<Write>)
    ensures Exec(d, left + right) == Exec(Exec(d, left), right)
    decreases left
  {
    if left == [] {
      assert left + right == right;
    } else {
      ExecConcat(Perform(d, left[0]), left[1..], right);
      assert (left + right)[1..] == left[1..] + right;
    }
  }

  lemma {:induction false} ExecAppend(d: Disk, writes: seq<Write>, w: Write)
    ensures Exec(d, writes + [w]) == Perform(Exec(d, writes), w)
  {
    ExecConcat(d, writes, [w]);
  }

  datatype Fault =
    | BadDocuments | NotPrepared | BadGeneration | BadHardwarePlan | BadBundle | CheckpointExists
    | HardwareInputsMissing | HardwareInputsUnexpected | HardwareRefused
    | PublicationFailed | RecordExists | NotReplaceable | BackupFailed | IoError
    | PlanMismatch | NotApplied | VerificationFailed
    | NotRollbackable | TargetMismatch | BadRecord | RestoreFailed
    | UnreadableDigest | StoreMissing | AuthorityDiffers | UnexpectedParent
    | BadName | TooManyTransactions

  /** The writes an operation performs when nothing interrupts it, and how it ends. */
  datatype Run = Run(writes: seq<Write>, result: Result<Unit, Fault>)

  function Done(writes: seq<Write>): Run {
    Run(writes, Ok(Unit))
  }

  function Failed(fault: Fault): Run {
    Run([], Err(fault))
  }

  /** `second` runs only if `first` succeeded. */
  function Then(first: Run, second: Run): Run {
    if first.result.Err? then first else Run(first.writes + second.writes, second.result)
  }

  lemma {:induction false} ThenIsAssociative(a: Run, b: Run, c: Run)
    ensures Then(Then(a, b), c) == Then(a, Then(b, c))
  {
    if a.result.Ok? && b.result.Ok? {
      assert a.writes + b.writes + c.writes == a.writes + (b.writes + c.writes);
    }
  }
}
