/**
 * What each installer operation writes, in order, and how it ends, as a function
 * of the disk it starts from (src/installer.rs).
 */
module Operations {
  import opened Wrappers
  import opened Text
  import opened DigestCodec
  import opened Documents
  import opened BootBundle
  import opened Hardware
  import opened TargetDisk

  const MAX_RECOVERY_TRANSACTIONS: nat := 128
  const BACKUP_PREFIX := "boot-backup/"

  /** Which copy of the documents an operation is given. */
  datatype Source = FromRuntime | FromCheckpoint(name: string)

  /** What `apply` is given for a hardware plan: the plans after signature verification, and the signed index. */
  datatype HardwareInputs = HardwareInputs(verified: Option<seq<VerifiedPlan>>, index: seq<Intent>)

  function DocumentsAt(d: Disk, source: Source): Option<(Plan, Journal)> {
    match source
    case FromRuntime => if d.runtime.Some? then Some((d.runtime.value.plan, d.runtime.value.journal)) else None
    case FromCheckpoint(name) =>
      if name in d.checkpoints then Some((d.checkpoints[name].plan, d.checkpoints[name].journal)) else None
  }

  /** The durable journal if the target holds a checkpoint of this plan, else the given one. */
  function Authoritative(env: Env, d: Disk, plan: Plan, journal: Journal): Result<(Journal, bool), Fault> {
    if plan.id !in d.checkpoints then Ok((journal, false))
    else
      var c := d.checkpoints[plan.id];
      if !Bound(env, c.plan, c.journal) then Err(BadDocuments)
      else if !HardwareFileOk(env, c.hardwarePlan, c.plan.hardwareSha) then Err(BadHardwarePlan)
      else if c.plan != plan then Err(PlanMismatch)
      else Ok((c.journal, true))
  }

  /** The checkpoint copy first, then the given copy unless it is the same file. */
  function JournalWrites(source: Source, id: string, durable: bool, journal: Journal): seq<Write> {
    (if durable then [PutJournal(id, journal)] else []) +
    match source
    case FromRuntime => [PutRuntime(journal)]
    case FromCheckpoint(name) => if durable && name == id then [] else [PutJournal(name, journal)]
  }

  // ----------------------------------------------------------------- verify

  function VerifyRun(env: Env, target: string, d: Disk, source: Source): Run {
    match DocumentsAt(d, source)
    case None => Failed(BadDocuments)
    case Some((plan, given)) =>
      if !Bound(env, plan, given) then Failed(BadDocuments)
      else match Authoritative(env, d, plan, given)
        case Err(fault) => Failed(fault)
        case Ok((journal, durable)) =>
          if journal.status != Applied || journal.target != Some(target) then Failed(NotApplied)
          else if !InstalledBundleVerifies(env, d.boot, plan) then Failed(VerificationFailed)
          else Done(JournalWrites(source, plan.id, durable, journal.(status := Verified)))
  }

  // ----------------------------------------------------------------- rollback

  function DropReceipts(id: string, receipts: set<string>, packages: seq<string>): seq<Write> {
    if packages == [] then []
    else if packages[0] in receipts then
      [DropReceipt(id, packages[0])] + DropReceipts(id, receipts - {packages[0]}, packages[1..])
    else DropReceipts(id, receipts, packages[1..])
  }

  function HardwareUndo(d: Disk, id: string, journal: Journal): seq<Write> {
    if Hardware in journal.mutations && id in d.checkpoints
    then DropReceipts(id, d.checkpoints[id].receipts, journal.packages)
    else []
  }

  function EntryUndo(boot: map<string, Node>, backups: map<string, Bytes>, entry: Entry): Run {
    match entry.backup
    case Some(name) =>
      if name !in backups || |backups[name]| > MAX_BOOT_ARTIFACT_BYTES || At(boot, entry.destination).Directory?
      then Failed(RestoreFailed)
      else Done([PutBoot(entry.destination, Regular(backups[name]))])
    case None =>
      match At(boot, entry.destination)
      case Absent => Done([])
      case Special | Directory => Failed(RestoreFailed)
      case Regular(_) => Done([PutBoot(entry.destination, Absent)])
  }

  function AfterUndo(boot: map<string, Node>, undo: Run): map<string, Node> {
    if |undo.writes| == 1 && undo.writes[0].PutBoot?
    then boot[undo.writes[0].destination := undo.writes[0].node] else boot
  }

  /** Installed entries are undone from the last to the first. */
  function EntriesUndo(boot: map<string, Node>, backups: map<string, Bytes>, entries: seq<Entry>): Run
    decreases entries
  {
    if entries == [] then Done([])
    else
      var last, rest := entries[|entries| - 1], entries[..|entries| - 1];
      if !last.installed then EntriesUndo(boot, backups, rest)
      else
        var undo := EntryUndo(boot, backups, last);
        Then(undo, EntriesUndo(AfterUndo(boot, undo), backups, rest))
  }

  predicate RecordMatches(record: Record, plan: Plan) {
    && record.schema == BOOT_BUNDLE_SCHEMA
    && record.manifestSha == plan.bootSha
    && forall e | e in record.entries ::
         IsBootDestination(e.destination) && (e.backup.Some? ==> BACKUP_PREFIX <= e.backup.value)
  }

  function BootUndo(d: Disk, plan: Plan): Run {
    if plan.id !in d.checkpoints then Done([])
    else match d.checkpoints[plan.id].record
      case NoRecord => Done([])
      case Torn => Failed(BadRecord)
      case Whole(record) =>
        if !RecordMatches(record, plan) then Failed(BadRecord)
        else Then(EntriesUndo(d.boot, d.checkpoints[plan.id].backups, record.entries), Done([DropRecord(plan.id)]))
  }

  function DecodedPrevious(journal: Journal): Result<Option<Digest>, DigestError> {
    match journal.previous
    case None => Ok(None)
    case Some(text) =>
      match Decode(text)
      case Err(error) => Err(error)
      case Ok(digest) => Ok(Some(digest))
  }

  function CorinthUndo(store: Store, plan: Plan, journal: Journal): Run {
    if journal.status == Prepared && journal.target.None? then Done([])
    else if Decode(plan.generationSha).Err? || DecodedPrevious(journal).Err? then Failed(UnreadableDigest)
    else
      var intended, previous := Decode(plan.generationSha).value, DecodedPrevious(journal).value;
      if !store.present then (if previous.None? then Done([]) else Failed(StoreMissing))
      else if store.active == previous then Done([])
      else if store.active != Some(intended) then Failed(AuthorityDiffers)
      else if intended !in store.parents then Failed(AuthorityDiffers)
      else if store.parents[intended] != previous then
        Run([RestoreGeneration(store.parents[intended])], Err(UnexpectedParent))
      else Done([RestoreGeneration(previous)])
  }

  function UndoRun(target: string, d: Disk, source: Source, plan: Plan, journal: Journal, durable: bool): Run {
    if journal.status == RolledBack then Failed(NotRollbackable)
    else if journal.target.Some? && journal.target.value != target then Failed(TargetMismatch)
    else
      Then(Done(HardwareUndo(d, plan.id, journal)),
      Then(BootUndo(d, plan),
      Then(CorinthUndo(d.store, plan, journal),
           Done(JournalWrites(source, plan.id, durable, UndoneJournal(journal, target))))))
  }

  function RollbackRun(env: Env, target: string, d: Disk, source: Source): Run {
    match DocumentsAt(d, source)
    case None => Failed(BadDocuments)
    case Some((plan, given)) =>
      if !Bound(env, plan, given) then Failed(BadDocuments)
      else match Authoritative(env, d, plan, given)
        case Err(fault) => Failed(fault)
        case Ok((journal, durable)) => UndoRun(target, d, source, plan, journal, durable)
  }

  // ----------------------------------------------------------------- recover

  datatype Recovery = Recovery(writes: seq<Write>, result: Result<nat, Fault>)

  predicate Hidden(name: string) {
    name != [] && name[0] == '.'
  }

  /** The scan over the directory listing, from the entry on where `seen` were counted before. */
  function RecoverFrom(env: Env, target: string, d: Disk, names: seq<string>, seen: nat, recovered: nat): Recovery
    decreases names
  {
    if names == [] then Recovery([], Ok(recovered))
    else if Hidden(names[0]) then RecoverFrom(env, target, d, names[1..], seen, recovered)
    else if !ValidTransactionId(names[0]) then Recovery([], Err(BadName))
    else if seen + 1 > MAX_RECOVERY_TRANSACTIONS then Recovery([], Err(TooManyTransactions))
    else if names[0] !in d.checkpoints
         || !Bound(env, d.checkpoints[names[0]].plan, d.checkpoints[names[0]].journal) then
      Recovery([], Err(BadDocuments))
    else if !Open(d.checkpoints[names[0]].journal.status) then
      RecoverFrom(env, target, d, names[1..], seen + 1, recovered)
    else
      var run := RollbackRun(env, target, d, FromCheckpoint(names[0]));
      if run.result.Err? then Recovery(run.writes, Err(run.result.error))
      else
        var more := RecoverFrom(env, target, Exec(d, run.writes), names[1..], seen + 1, recovered + 1);
        Recovery(run.writes + more.writes, more.result)
  }

  function RecoverRun(env: Env, target: string, d: Disk, names: seq<string>): Recovery {
    RecoverFrom(env, target, d, names, 0, 0)
  }

  // ----------------------------------------------------------------- boot activation

  function BackupName(index: nat): string {
    BACKUP_PREFIX + "file-" + Decimal(index)
  }

  /** Backing up, from file `index` on; a backup file is created empty and then filled. */
  function SaveRun(id: string, boot: map<string, Node>, backups: map<string, Bytes>, files: seq<BootFile>,
                   index: nat): Run
    decreases |files| - index
  {
    if index >= |files| then Done([])
    else match At(boot, files[index].destination)
      case Absent => SaveRun(id, boot, backups, files, index + 1)
      case Special | Directory => Failed(NotReplaceable)
      case Regular(bytes) =>
        if |bytes| > MAX_BOOT_ARTIFACT_BYTES then Failed(NotReplaceable)
        else if BackupName(index) in backups then Failed(BackupFailed)
        else Then(Done([PutBackup(id, BackupName(index), []), PutBackup(id, BackupName(index), bytes)]),
                  SaveRun(id, boot, backups, files, index + 1))
  }

  function EntryFor(boot: map<string, Node>, files: seq<BootFile>, index: nat, installed: bool): Entry
    requires index < |files|
  {
    Entry(files[index].destination,
          if At(boot, files[index].destination).Regular? then Some(BackupName(index)) else None,
          installed)
  }

  /** The record when the first `marked` files are marked installed; `boot` is the tree before activation. */
  function RecordWith(plan: Plan, boot: map<string, Node>, files: seq<BootFile>, marked: nat, complete: bool): Record {
    Record(BOOT_BUNDLE_SCHEMA, plan.bootSha, complete,
           seq(|files|, i requires 0 <= i < |files| => EntryFor(boot, files, i, i < marked)))
  }

  /** From file `index` on: rename it into place, then mark it in the record. */
  function InstallWrites(plan: Plan, boot: map<string, Node>, files: seq<BootFile>, index: nat): seq<Write>
    decreases |files| - index
  {
    if index >= |files| then [PutRecord(plan.id, RecordWith(plan, boot, files, |files|, true))]
    else
      [PutBoot(files[index].destination, Regular(files[index].bytes)),
       PutRecord(plan.id, RecordWith(plan, boot, files, index + 1, false))]
      + InstallWrites(plan, boot, files, index + 1)
  }

  function ActivationRun(d: Disk, plan: Plan, files: seq<BootFile>): Run {
    if plan.id !in d.checkpoints || !d.checkpoints[plan.id].record.NoRecord? then Failed(RecordExists)
    else
      Then(SaveRun(plan.id, d.boot, d.checkpoints[plan.id].backups, files, 0),
           Done([TearRecord(plan.id), PutRecord(plan.id, RecordWith(plan, d.boot, files, 0, false))]
                + InstallWrites(plan, d.boot, files, 0)))
  }

  /** An input/output error after some number of writes; the caller goes on with the error. */
  function Faulted(run: Run, fault: Option<nat>): Run {
    if fault.Some? && fault.value <= |run.writes| then Run(run.writes[..fault.value], Err(IoError)) else run
  }

  // ----------------------------------------------------------------- apply

  function BothCopies(id: string, journal: Journal): seq<Write> {
    [PutJournal(id, journal), PutRuntime(journal)]
  }

  function InspectActive(store: Store): Option<Digest> {
    if store.present then store.active else None
  }

  function EncodedActive(store: Store): Option<string> {
    match InspectActive(store)
    case None => None
    case Some(digest) => Some(Encode(digest))
  }

  /** The refusals of `apply` that come before any write, or the bundle to activate. */
  function ApplyChecks(env: Env, d: Disk, bundleRoot: map<string, Bytes>): Result<Bundle, Fault> {
    match d.runtime
    case None => Err(BadDocuments)
    case Some(r) =>
      if !Bound(env, r.plan, r.journal) then Err(BadDocuments)
      else if r.journal.status != Prepared then Err(NotPrepared)
      else if Digested(env, r.generation) != r.plan.generationSha then Err(BadGeneration)
      else if !HardwareFileOk(env, r.hardwarePlan, r.plan.hardwareSha) then Err(BadHardwarePlan)
      else if env.parentOf(r.generation).None? then Err(BadGeneration)
      else match ReadBootBundle(env, bundleRoot)
        case Err(_) => Err(BadBundle)
        case Ok(bundle) =>
          if Digested(env, bundle.manifest) != r.plan.bootSha then Err(BadBundle)
          else if r.plan.id in d.checkpoints then Err(CheckpointExists)
          else Ok(bundle)
  }

  function ApplyingJournal(target: string, store: Store, plan: Plan, prepared: Journal): Journal {
    prepared.(status := Applying, target := Some(target), previous := EncodedActive(store),
              intended := plan.generationSha)
  }

  function AnnouncedJournal(journal: Journal, plans: seq<VerifiedPlan>): Journal {
    if ExpectedPackages(plans) == [] then journal
    else journal.(packages := ExpectedPackages(plans), mutations := journal.mutations + [Hardware])
  }

  function AddReceipts(id: string, packages: seq<string>): seq<Write> {
    seq(|packages|, i requires 0 <= i < |packages| => AddReceipt(id, packages[i]))
  }

  /** Announce the packages, install them, then journal the receipts. */
  function ProvisionRun(id: string, journal: Journal, inputs: HardwareInputs): Run {
    match inputs.verified
    case None => Failed(HardwareRefused)
    case Some(plans) =>
      if !Agreeing(Intents(plans)) then Failed(HardwareRefused)
      else
        var announced := AnnouncedJournal(journal, plans);
        var order := InstallOrder(inputs.index, plans);
        Done((if ExpectedPackages(plans) == [] then [] else BothCopies(id, announced))
             + AddReceipts(id, order)
             + BothCopies(id, announced.(packages := Ordered(order))))
  }

  function HardwareRun(plan: Plan, journal: Journal, hardware: Option<HardwareInputs>): Run {
    match hardware
    case None => if plan.hardwareSha.Some? then Failed(HardwareInputsMissing) else Done([])
    case Some(inputs) =>
      if plan.hardwareSha.Some? then ProvisionRun(plan.id, journal, inputs) else Failed(HardwareInputsUnexpected)
  }

  /** The in-memory journal after the hardware stage succeeded. */
  function ProvisionedJournal(plan: Plan, journal: Journal, hardware: Option<HardwareInputs>): Journal {
    if plan.hardwareSha.Some? && hardware.Some? && hardware.value.verified.Some? then
      var plans := hardware.value.verified.value;
      AnnouncedJournal(journal, plans).(packages := Ordered(InstallOrder(hardware.value.index, plans)))
    else journal
  }

  function PublishRun(env: Env, store: Store, generation: Bytes): Run {
    if env.parentOf(generation) != Some(InspectActive(store)) then Run([OpenStore], Err(PublicationFailed))
    else Done([OpenStore, Publish(env.sha(generation), InspectActive(store))])
  }

  function PublishedJournal(journal: Journal): Journal {
    journal.(status := CorinthPublished, published := true, mutations := journal.mutations + [Generation])
  }

  function AppliedJournal(journal: Journal): Journal {
    journal.(status := Applied, mutations := journal.mutations + [Mutation.BootBundle])
  }

  /** The last stage: activate, then journal success or failure. */
  function FinishRun(id: string, journal: Journal, activation: Run): Run {
    if activation.result.Ok? then Done(activation.writes + BothCopies(id, AppliedJournal(journal)))
    else Run(activation.writes + BothCopies(id, journal.(status := ApplyFailed)), activation.result)
  }

  function NewCheckpoint(runtime: Runtime, journal: Journal): Checkpoint {
    Checkpoint(runtime.plan, journal, runtime.generation,
               if runtime.plan.hardwareSha.Some? then runtime.hardwarePlan else None,
               NoRecord, map[], {})
  }

  function ApplyRun(env: Env, target: string, d: Disk, bundleRoot: map<string, Bytes>,
                    hardware: Option<HardwareInputs>, fault: Option<nat>): Run
  {
    match ApplyChecks(env, d, bundleRoot)
    case Err(error) => Failed(error)
    case Ok(bundle) =>
      var r := d.runtime.value;
      var applying := ApplyingJournal(target, d.store, r.plan, r.journal);
      var provisioned := ProvisionedJournal(r.plan, applying, hardware);
      var published := PublishedJournal(provisioned);
      var checkpoint := NewCheckpoint(r, applying);
      var created := Perform(d, CreateCheckpoint(r.plan.id, checkpoint));
      Then(Done([CreateCheckpoint(r.plan.id, checkpoint)] + BothCopies(r.plan.id, applying)),
      Then(HardwareRun(r.plan, applying, hardware),
      Then(PublishRun(env, d.store, r.generation),
      Then(Done(BothCopies(r.plan.id, published)),
           FinishRun(r.plan.id, published, Faulted(ActivationRun(created, r.plan, FilesOf(bundle)), fault))))))
  }
}
