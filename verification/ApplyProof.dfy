/** Apply keeps the invariant, and its two journal copies in step, after every write. */
module ApplyProof {
  import opened Wrappers
  import opened Text
  import opened DigestCodec
  import opened Documents
  import opened BootBundle
  import opened Hardware
  import opened TargetDisk
  import opened Operations
  import opened CrashInvariant
  import opened UndoProof
  import opened ActivationProof

  /** What the installer takes for granted: an intact store and a non-zero digest. */
  ghost predicate Installable(env: Env, d: Disk) {
    && SaneStore(d.store)
    && (d.runtime.Some? ==> env.sha(d.runtime.value.generation) != NO_GENERATION)
  }

  /** Signed hardware plans carry well-formed package names. */
  ghost predicate SaneHardware(hardware: Option<HardwareInputs>) {
    hardware.Some? && hardware.value.verified.Some? ==>
      forall x | x in Intents(hardware.value.verified.value) :: ValidPackageName(x.name)
  }

  /** The installation an accepted `apply` begins. */
  ghost function SceneOf(env: Env, target: string, d: Disk, bundle: Bundle): Scene
    requires d.runtime.Some?
  {
    Scene(target, d.runtime.value.plan, env.sha(d.runtime.value.generation), FilesOf(bundle), d)
  }

  lemma {:induction false} SceneIsSet(env: Env, target: string, d: Disk, root: map<string, Bytes>)
    requires Installable(env, d) && ApplyChecks(env, d, root).Ok?
    ensures Setting(SceneOf(env, target, d, ApplyChecks(env, d, root).value))
  {
    var bundle := ApplyChecks(env, d, root).value;
    FilesOfDestinations(bundle);
  }

  // ----------------------------------------------------------------- the two copies

  /** Both copies hold `j`; nothing of the activation is on disk yet. */
  ghost predicate Stage(env: Env, s: Scene, d: Disk, j: Journal) {
    && Core(env, s, -1, d)
    && Ckpt(s, d).journal == j
    && d.runtime.Some? && d.runtime.value.journal == j
    && Ckpt(s, d).record.NoRecord? && Ckpt(s, d).backups == map[]
    && d.boot == s.pre.boot
  }

  ghost predicate Synced(s: Scene, d: Disk) {
    s.plan.id in d.checkpoints && d.runtime.Some? && d.runtime.value.journal == Ckpt(s, d).journal
  }

  /** Writing the next journal to both copies keeps them in step throughout. */
  lemma {:induction false} AdvanceKeeps(env: Env, s: Scene, k: int, d: Disk, j: Journal)
    requires Core(env, s, k, d) && Synced(s, d)
    requires JournalHolds(env, s, j) && Rank(Ckpt(s, d).journal) <= Rank(j)
    requires j == Ckpt(s, d).journal || Successor(Ckpt(s, d).journal, j)
    requires var c := Ckpt(s, d).(journal := j);
      ReceiptsHold(c) && BootHolds(s, k, d.boot, c) && StoreHolds(s, d.store, j.status)
    ensures var after := Exec(d, BothCopies(s.plan.id, j));
      && Along(env, s, InApply, d, BothCopies(s.plan.id, j))
      && Core(env, s, k, after) && Synced(s, after)
      && after == Perform(Perform(d, PutJournal(s.plan.id, j)), PutRuntime(j))
  {
    hide WellShaped, Core, JournalHolds, Successor, BootHolds;
    BothCopiesKeep(env, s, k, d, j);
    CoreParts(env, s, k, d);
    var d1 := Perform(d, PutJournal(s.plan.id, j));
    var d2 := Perform(d1, PutRuntime(j));
    PutJournalKeeps(env, s, k, d, j);
    assert InStep(s, d) && InStep(s, d1) && InStep(s, d2);
    AlongOne(env, s, InApply, d, PutJournal(s.plan.id, j));
    AlongOne(env, s, InApply, d1, PutRuntime(j));
    AlongConcat(env, s, InApply, d, [PutJournal(s.plan.id, j)], [PutRuntime(j)]);
    assert [PutJournal(s.plan.id, j)] + [PutRuntime(j)] == BothCopies(s.plan.id, j);
  }

  ghost predicate LeavesJournals(writes: seq<Write>) {
    forall w | w in writes :: !w.PutJournal? && !w.PutRuntime? && !w.CreateCheckpoint?
  }

  /** Writes that touch no journal keep the copies in step. */
  lemma {:induction false} SyncedAlong(env: Env, s: Scene, d: Disk, writes: seq<Write>)
    requires Along(env, s, Somewhere, d, writes) && LeavesJournals(writes) && Synced(s, d)
    ensures Along(env, s, InApply, d, writes) && Synced(s, Exec(d, writes))
    decreases writes
  {
    hide Core;
    if writes != [] {
      assert writes[0] in writes;
      SyncedAlong(env, s, Perform(d, writes[0]), writes[1..]);
    }
  }

  // ----------------------------------------------------------------- the stages

  lemma {:induction false} CreationHolds(env: Env, s: Scene)
    requires Setting(s) && s.pre.runtime.Some?
    requires var r := s.pre.runtime.value;
      Bound(env, r.plan, r.journal) && r.plan == s.plan && r.journal.status == Prepared
      && HardwareFileOk(env, r.hardwarePlan, s.plan.hardwareSha)
      && Encode(env.sha(r.generation)) == s.plan.generationSha
    ensures var r := s.pre.runtime.value;
      var j := ApplyingJournal(s.target, s.pre.store, s.plan, r.journal);
      var created := Perform(s.pre, CreateCheckpoint(s.plan.id, NewCheckpoint(r, j)));
      && JournalHolds(env, s, j)
      && Core(env, s, -1, created) && InStep(s, created)
      && Along(env, s, InApply, created, BothCopies(s.plan.id, j))
      && Stage(env, s, Exec(created, BothCopies(s.plan.id, j)), j)
      && Exec(created, BothCopies(s.plan.id, j)).store == s.pre.store
  {
    var r := s.pre.runtime.value;
    var j := ApplyingJournal(s.target, s.pre.store, s.plan, r.journal);
    var c := NewCheckpoint(r, j);
    var created := Perform(s.pre, CreateCheckpoint(s.plan.id, c));
    if s.pre.store.active.Some? {
      EncodeIsValid(s.pre.store.active.value);
    }
    CreatedIsCore(env, s, j);
    CopiesOfCreated(env, s, j);
  }

  lemma {:induction false} CreatedIsCore(env: Env, s: Scene, j: Journal)
    requires Setting(s) && s.pre.runtime.Some?
    requires var r := s.pre.runtime.value;
      Bound(env, r.plan, r.journal) && r.plan == s.plan && r.journal.status == Prepared
      && HardwareFileOk(env, r.hardwarePlan, s.plan.hardwareSha)
      && Encode(env.sha(r.generation)) == s.plan.generationSha
      && j == ApplyingJournal(s.target, s.pre.store, s.plan, r.journal)
    requires s.pre.store.active.Some? ==> ValidDigest(Encode(s.pre.store.active.value))
    ensures var created := Perform(s.pre, CreateCheckpoint(s.plan.id, NewCheckpoint(s.pre.runtime.value, j)));
      JournalHolds(env, s, j) && Core(env, s, -1, created) && InStep(s, created)
  {
    hide Encode;
    assert WellShaped(env, s.plan, s.pre.runtime.value.journal);
    assert JournalHolds(env, s, j);
  }

  lemma {:induction false} CopiesOfCreated(env: Env, s: Scene, j: Journal)
    requires s.pre.runtime.Some?
    requires JournalHolds(env, s, j) && j.status == Applying
    requires s.pre.runtime.value.journal.status == Prepared
    requires var created := Perform(s.pre, CreateCheckpoint(s.plan.id, NewCheckpoint(s.pre.runtime.value, j)));
      Core(env, s, -1, created) && InStep(s, created)
    ensures var created := Perform(s.pre, CreateCheckpoint(s.plan.id, NewCheckpoint(s.pre.runtime.value, j)));
      var after := Exec(created, BothCopies(s.plan.id, j));
      Along(env, s, InApply, created, BothCopies(s.plan.id, j)) && Stage(env, s, after, j) && after.store == s.pre.store
  {
    hide WellShaped, Core, JournalHolds;
    var created := Perform(s.pre, CreateCheckpoint(s.plan.id, NewCheckpoint(s.pre.runtime.value, j)));
    var first, second := PutJournal(s.plan.id, j), PutRuntime(j);
    var d1 := Perform(created, first);
    assert d1 == created;
    PutRuntimeKeeps(env, s, -1, d1);
    AlongOne(env, s, InApply, created, first);
    AlongOne(env, s, InApply, d1, second);
    AlongConcat(env, s, InApply, created, [first], [second]);
    ExecConcat(created, [first], [second]);
    assert [first] + [second] == BothCopies(s.plan.id, j);
  }

  lemma AddReceiptKeeps(env: Env, s: Scene, d: Disk, j: Journal, p: string)
    requires Stage(env, s, d, j) && p in j.packages && j.status != RolledBack
    ensures Stage(env, s, Perform(d, AddReceipt(s.plan.id, p)), j)
  {
  }

  /** Every installed package was journaled before: the invariant holds between any two installations. */
  lemma {:induction false} AddReceiptsKeep(env: Env, s: Scene, d: Disk, j: Journal, packages: seq<string>)
    requires Stage(env, s, d, j) && j.status != RolledBack
    requires forall p | p in packages :: p in j.packages
    ensures var writes := AddReceipts(s.plan.id, packages);
      Along(env, s, InApply, d, writes) && Stage(env, s, Exec(d, writes), j)
      && Exec(d, writes).store == d.store
      && (Ckpt(s, Exec(d, writes)).receipts == Ckpt(s, d).receipts + Set(packages))
    decreases packages
  {
    hide Core;
    CoreParts(env, s, -1, d);
    assert Holds(env, s, InApply, d) by { HoldsInStep(env, s, d, j); }
    if packages == [] {
      assert Ckpt(s, d).receipts == Ckpt(s, d).receipts + Set(packages);
    } else {
      var w := AddReceipt(s.plan.id, packages[0]);
      AddReceiptKeeps(env, s, d, j, packages[0]);
      AddReceiptsKeep(env, s, Perform(d, w), j, packages[1..]);
      var writes := AddReceipts(s.plan.id, packages);
      assert writes[0] == w && writes[1..] == AddReceipts(s.plan.id, packages[1..]);
      assert Ckpt(s, d).receipts + {packages[0]} + Set(packages[1..]) == Ckpt(s, d).receipts + Set(packages);
    }
  }

  lemma HoldsInStep(env: Env, s: Scene, d: Disk, j: Journal)
    requires Stage(env, s, d, j)
    ensures Holds(env, s, InApply, d) && Synced(s, d)
  {
  }

  lemma {:induction false} AnnouncedHolds(env: Env, s: Scene, j: Journal, plans: seq<VerifiedPlan>)
    requires JournalHolds(env, s, j) && j.status == Applying && j.mutations == [] && j.packages == []
    requires forall x | x in Intents(plans) :: ValidPackageName(x.name)
    ensures var announced := AnnouncedJournal(j, plans);
      && JournalHolds(env, s, announced) && announced.status == Applying
      && announced.packages == ExpectedPackages(plans)
      && (announced == j || Successor(j, announced))
      && Rank(j) <= Rank(announced)
  {
    var names := Names(Intents(plans));
    OrderedIsAscending(names);
    forall p | p in ExpectedPackages(plans)
      ensures ValidPackageName(p)
    {
      NamesMembers(Intents(plans), p);
    }
  }

  lemma {:induction false} AnnounceKeeps(env: Env, s: Scene, d: Disk, j: Journal, announced: Journal)
    requires Stage(env, s, d, j) && j.status == Applying && Ckpt(s, d).receipts == {}
    requires JournalHolds(env, s, announced) && announced.status == Applying
    requires announced == j || Successor(j, announced)
    requires Rank(j) <= Rank(announced)
    ensures var after := Exec(d, BothCopies(s.plan.id, announced));
      && Along(env, s, InApply, d, BothCopies(s.plan.id, announced))
      && Stage(env, s, after, announced) && after.store == d.store && Ckpt(s, after).receipts == {}
  {
    hide WellShaped, OldExceptInFlight, RuntimeHolds, StoreHolds;
    AdvanceKeeps(env, s, -1, d, announced);
  }

  lemma {:induction false} AgainKeeps(env: Env, s: Scene, d: Disk, j: Journal)
    requires Stage(env, s, d, j)
    ensures var after := Exec(d, BothCopies(s.plan.id, j));
      Along(env, s, InApply, d, BothCopies(s.plan.id, j)) && after == d
  {
    hide WellShaped, OldExceptInFlight, RuntimeHolds, StoreHolds, HardwareFileOk;
    assert Ckpt(s, d).(journal := j) == Ckpt(s, d);
    AdvanceKeeps(env, s, -1, d, j);
  }

  /** The journal and disk after the hardware stage, if it was not refused. */
  ghost predicate Provisioned(env: Env, s: Scene, d: Disk, j: Journal) {
    && Stage(env, s, d, j) && j.status == Applying
    && Ckpt(s, d).receipts == Set(j.packages)
    && d.store == s.pre.store
  }

  /** The write-ahead list and the receipts agree, whatever the partition. */
  lemma {:induction false} HardwareRunKeeps(env: Env, s: Scene, d: Disk, j: Journal, hardware: Option<HardwareInputs>)
    requires Stage(env, s, d, j) && j.status == Applying && j.mutations == [] && j.packages == []
    requires Ckpt(s, d).receipts == {} && d.store == s.pre.store && SaneHardware(hardware)
    ensures var run := HardwareRun(s.plan, j, hardware);
      && Along(env, s, InApply, d, run.writes)
      && (run.result.Ok? ==> Provisioned(env, s, Exec(d, run.writes), ProvisionedJournal(s.plan, j, hardware)))
  {
    hide Core, Agreeing, JournalHolds, Holds, Successor, Ordered, InstallOrder, ExpectedPackages, AddReceipts,
      WellShaped;
    HoldsInStep(env, s, d, j);
    CoreParts(env, s, -1, d);
    var run := HardwareRun(s.plan, j, hardware);
    assert Set([]) == {};
    if hardware.Some? && s.plan.hardwareSha.Some? && run.result.Ok? {
      var plans, index := hardware.value.verified.value, hardware.value.index;
      var announced, order := AnnouncedJournal(j, plans), InstallOrder(index, plans);
      AnnouncedHolds(env, s, j, plans);
      ReceiptsMatchAnnouncement(index, plans);
      assert announced.(packages := Ordered(order)) == announced;
      var first := if ExpectedPackages(plans) == [] then [] else BothCopies(s.plan.id, announced);
      AnnounceKeeps(env, s, d, j, announced);
      var d1 := Exec(d, first);
      assert Stage(env, s, d1, announced);
      var adds := AddReceipts(s.plan.id, order);
      AddReceiptsKeep(env, s, d1, announced, order);
      var d2 := Exec(d1, adds);
      AgainKeeps(env, s, d2, announced);
      var last := BothCopies(s.plan.id, announced);
      AlongConcat(env, s, InApply, d1, adds, last);
      ExecConcat(d1, adds, last);
      AlongConcat(env, s, InApply, d, first, adds + last);
      ExecConcat(d, first, adds + last);
      assert first + (adds + last) == first + adds + last;
      assert {} + Set(order) == Set(announced.packages);
    }
  }

  // ----------------------------------------------------------------- publication

  ghost predicate Published(s: Scene, d: Disk) {
    d.store == Store(true, Some(s.digest), s.pre.store.parents[s.digest := s.pre.store.active])
  }

  lemma {:induction false} PublishRunKeeps(env: Env, s: Scene, d: Disk, j: Journal, generation: Bytes)
    requires Setting(s) && Provisioned(env, s, d, j) && s.digest == env.sha(generation)
    ensures var run := PublishRun(env, s.pre.store, generation);
      var after := Exec(d, run.writes);
      && Along(env, s, InApply, d, run.writes)
      && (run.result.Ok? ==> Stage(env, s, after, j) && Published(s, after) && after == d.(store := after.store))
  {
    hide CheckpointHolds, OldExceptInFlight, RuntimeHolds, OthersUntouched;
    var d1 := Perform(d, OpenStore);
    assert Stage(env, s, d1, j);
    HoldsInStep(env, s, d, j);
    HoldsInStep(env, s, d1, j);
    AlongOne(env, s, InApply, d, OpenStore);
    if PublishRun(env, s.pre.store, generation).result.Ok? {
      var w := Publish(s.digest, s.pre.store.active);
      var d2 := Perform(d1, w);
      assert Stage(env, s, d2, j);
      HoldsInStep(env, s, d2, j);
      AlongOne(env, s, InApply, d1, w);
      AlongConcat(env, s, InApply, d, [OpenStore], [w]);
      ExecConcat(d, [OpenStore], [w]);
      assert [OpenStore] + [w] == [OpenStore, w];
    }
  }

  lemma {:induction false} PublishedHolds(env: Env, s: Scene, j: Journal)
    requires JournalHolds(env, s, j) && j.status == Applying
    ensures JournalHolds(env, s, PublishedJournal(j)) && Successor(j, PublishedJournal(j))
    ensures JournalHolds(env, s, AppliedJournal(PublishedJournal(j)))
    ensures JournalHolds(env, s, PublishedJournal(j).(status := ApplyFailed))
    ensures Successor(PublishedJournal(j), AppliedJournal(PublishedJournal(j)))
    ensures Successor(PublishedJournal(j), PublishedJournal(j).(status := ApplyFailed))
  {
    assert [] + [Generation] == [Generation];
    assert [Hardware] + [Generation] == [Hardware, Generation];
    assert [Generation] + [Mutation.BootBundle] == [Generation, Mutation.BootBundle];
    assert [Hardware, Generation] + [Mutation.BootBundle] == [Hardware, Generation, Mutation.BootBundle];
  }

  lemma {:induction false} PublishedJournalKeeps(env: Env, s: Scene, d: Disk, j: Journal)
    requires Stage(env, s, d, j) && j.status == Applying && Published(s, d)
    ensures var published := PublishedJournal(j);
      var after := Exec(d, BothCopies(s.plan.id, published));
      && Along(env, s, InApply, d, BothCopies(s.plan.id, published))
      && ReadyToActivate(env, s, after) && Stage(env, s, after, published)
      && after.store == d.store && Ckpt(s, after).receipts == Ckpt(s, d).receipts
  {
    hide WellShaped, OldExceptInFlight, RuntimeHolds, HardwareFileOk;
    PublishedHolds(env, s, j);
    AdvanceKeeps(env, s, -1, d, PublishedJournal(j));
  }

  // ----------------------------------------------------------------- activation and its journal

  lemma {:induction false} SaveLeavesJournals(id: string, boot: map<string, Node>, files: seq<BootFile>, index: nat)
    ensures LeavesJournals(SaveRun(id, boot, map[], files, index).writes)
    decreases |files| - index
  {
    if index < |files| {
      SaveLeavesJournals(id, boot, files, index + 1);
    }
  }

  lemma {:induction false} InstallLeavesJournals(plan: Plan, boot: map<string, Node>, files: seq<BootFile>, index: nat)
    ensures LeavesJournals(InstallWrites(plan, boot, files, index))
    decreases |files| - index
  {
    hide RecordWith;
    if index < |files| {
      InstallLeavesJournals(plan, boot, files, index + 1);
    }
  }

  lemma {:induction false} ActivationLeavesJournals(s: Scene, d: Disk)
    requires s.plan.id in d.checkpoints && Ckpt(s, d).backups == map[]
    ensures LeavesJournals(ActivationRun(d, s.plan, s.files).writes)
  {
    hide RecordWith;
    SaveLeavesJournals(s.plan.id, d.boot, s.files, 0);
    InstallLeavesJournals(s.plan, d.boot, s.files, 0);
  }

  /** Wherever activation stops with an error, the failure can be journaled. */
  lemma {:induction false} FailureKeeps(env: Env, s: Scene, k: int, d: Disk, j: Journal)
    requires Core(env, s, k, d) && Synced(s, d) && Ckpt(s, d).journal == PublishedJournal(j)
    requires JournalHolds(env, s, j) && j.status == Applying
    ensures Along(env, s, InApply, d, BothCopies(s.plan.id, PublishedJournal(j).(status := ApplyFailed)))
  {
    hide WellShaped, OldExceptInFlight, RecordHolds, RuntimeHolds, HardwareFileOk;
    PublishedHolds(env, s, j);
    AdvanceKeeps(env, s, k, d, PublishedJournal(j).(status := ApplyFailed));
  }

  /** The disk after a successful apply. */
  ghost predicate AppliedDisk(env: Env, s: Scene, d: Disk) {
    && Core(env, s, -1, d)
    && Ckpt(s, d).journal.status == Applied && Synced(s, d)
    && InstalledBelow(s, d.boot, |s.files|)
    && Ckpt(s, d).record == Whole(RecordWith(s.plan, s.pre.boot, s.files, |s.files|, true))
    && SavedBelow(s, Ckpt(s, d).backups, |s.files|)
    && Published(s, d)
    && Ckpt(s, d).receipts == Set(Ckpt(s, d).journal.packages)
  }

  lemma {:induction false} SuccessKeeps(env: Env, s: Scene, d: Disk, j: Journal)
    requires Progress(env, s, d, |s.files|, |s.files|, true) && Synced(s, d)
    requires Ckpt(s, d).journal == PublishedJournal(j)
    requires JournalHolds(env, s, j) && j.status == Applying
    requires Published(s, d) && Ckpt(s, d).receipts == Set(j.packages)
    ensures var writes := BothCopies(s.plan.id, AppliedJournal(PublishedJournal(j)));
      Along(env, s, InApply, d, writes) && AppliedDisk(env, s, Exec(d, writes))
  {
    hide WellShaped, OldExceptInFlight, RecordHolds, RuntimeHolds, HardwareFileOk, RecordWith, InstalledBelow,
      SavedBelow;
    ProgressIsCore(env, s, d, |s.files|, |s.files|, true);
    PublishedHolds(env, s, j);
    AdvanceKeeps(env, s, -1, d, AppliedJournal(PublishedJournal(j)));
  }

  /** The store and the receipts are not touched by activation. */
  ghost predicate LeavesAuthorities(writes: seq<Write>) {
    forall w | w in writes :: w.PutBackup? || w.TearRecord? || w.PutRecord? || w.PutBoot?
  }

  lemma {:induction false} AuthoritiesStay(s: Scene, d: Disk, writes: seq<Write>)
    requires s.plan.id in d.checkpoints && LeavesAuthorities(writes)
    ensures var after := Exec(d, writes);
      s.plan.id in after.checkpoints && after.store == d.store
      && Ckpt(s, after).receipts == Ckpt(s, d).receipts && Ckpt(s, after).journal == Ckpt(s, d).journal
    decreases writes
  {
    if writes != [] {
      assert writes[0] in writes;
      AuthoritiesStay(s, Perform(d, writes[0]), writes[1..]);
    }
  }

  lemma {:induction false} ActivationWriteKinds(id: string, plan: Plan, boot: map<string, Node>, files: seq<BootFile>,
                                                index: nat)
    ensures LeavesAuthorities(SaveRun(id, boot, map[], files, index).writes)
    ensures LeavesAuthorities(InstallWrites(plan, boot, files, index))
    decreases |files| - index
  {
    hide RecordWith;
    if index < |files| {
      ActivationWriteKinds(id, plan, boot, files, index + 1);
    }
  }

  /** Activation with or without an input/output error, then the journal of its outcome. */
  lemma {:induction false} FinishKeeps(env: Env, s: Scene, d: Disk, j: Journal, fault: Option<nat>)
    requires Setting(s) && ReadyToActivate(env, s, d) && Synced(s, d)
    requires Ckpt(s, d).journal == PublishedJournal(j) && JournalHolds(env, s, j) && j.status == Applying
    requires Published(s, d) && Ckpt(s, d).receipts == Set(j.packages)
    ensures var run := FinishRun(s.plan.id, PublishedJournal(j), Faulted(ActivationRun(d, s.plan, s.files), fault));
      && Along(env, s, InApply, d, run.writes)
      && (run.result.Ok? ==> AppliedDisk(env, s, Exec(d, run.writes)))
  {
    hide Core, Setting, Holds, JournalHolds, Progress, SaveRun, InstallWrites, PublishedJournal, AppliedJournal;
    CoreParts(env, s, -1, d);
    var whole := ActivationRun(d, s.plan, s.files);
    ActivationKeeps(env, s, d);
    ActivationLeavesJournals(s, d);
    ActivationWriteKinds(s.plan.id, s.plan, d.boot, s.files, 0);
    var run := Faulted(whole, fault);
    var cut := |run.writes|;
    assert run.writes == whole.writes[..cut];
    AlongPrefix(env, s, Somewhere, d, whole.writes, cut);
    assert LeavesJournals(run.writes) && LeavesAuthorities(run.writes);
    SyncedAlong(env, s, d, run.writes);
    AuthoritiesStay(s, d, run.writes);
    var d1 := Exec(d, run.writes);
    var last := if run.result.Ok? then AppliedJournal(PublishedJournal(j))
      else PublishedJournal(j).(status := ApplyFailed);
    if run.result.Ok? {
      assert run.writes == whole.writes;
      SuccessKeeps(env, s, d1, j);
    } else {
      var k := SomewhereIndex(env, s, d1);
      FailureKeeps(env, s, k, d1, j);
    }
    AlongConcat(env, s, InApply, d, run.writes, BothCopies(s.plan.id, last));
    ExecConcat(d, run.writes, BothCopies(s.plan.id, last));
  }

  lemma {:induction false} SomewhereIndex(env: Env, s: Scene, d: Disk) returns (k: int)
    requires Holds(env, s, Somewhere, d)
    ensures Core(env, s, k, d)
  {
    hide Core;
    k :| Core(env, s, k, d);
  }

  // ----------------------------------------------------------------- the whole apply

  /** Publication, its journal, and what follows. */
  function PublicationRun(env: Env, s: Scene, j: Journal, generation: Bytes, created: Disk, fault: Option<nat>): Run {
    Then(PublishRun(env, s.pre.store, generation),
    Then(Done(BothCopies(s.plan.id, PublishedJournal(j))),
         FinishRun(s.plan.id, PublishedJournal(j), Faulted(ActivationRun(created, s.plan, s.files), fault))))
  }

  /** The checkpoint has just been created. */
  ghost predicate JustCreated(s: Scene, created: Disk) {
    s.plan.id in created.checkpoints && Ckpt(s, created).record.NoRecord? && Ckpt(s, created).backups == map[]
    && created.boot == s.pre.boot
  }

  lemma {:induction false} PublicationKeeps(env: Env, s: Scene, d: Disk, j: Journal, generation: Bytes, created: Disk,
                                            fault: Option<nat>)
    requires Setting(s) && Provisioned(env, s, d, j) && s.digest == env.sha(generation) && JustCreated(s, created)
    ensures var run := PublicationRun(env, s, j, generation, created, fault);
      && Along(env, s, InApply, d, run.writes)
      && (run.result.Ok? ==> AppliedDisk(env, s, Exec(d, run.writes)))
  {
    hide Core, Setting, JournalHolds, Holds, PublishRun, FinishRun, ActivationRun, Successor, Stage, PublishedJournal,
      BothCopies, AppliedDisk, Published;
    assert Stage(env, s, d, j) && s.plan.id in d.checkpoints by { ProvisionedStage(env, s, d, j); }
    StageJournalHolds(env, s, d, j);
    PublishRunKeeps(env, s, d, j, generation);
    var publish := PublishRun(env, s.pre.store, generation);
    if publish.result.Ok? {
      var d1 := Exec(d, publish.writes);
      PublishedJournalKeeps(env, s, d1, j);
      var copies := BothCopies(s.plan.id, PublishedJournal(j));
      var d2 := Exec(d1, copies);
      SameActivation(env, s, created, d2);
      ReadySynced(env, s, d2, PublishedJournal(j));
      PublishedSame(s, d1, d2);
      FinishKeeps(env, s, d2, j, fault);
      var finish := FinishRun(s.plan.id, PublishedJournal(j), Faulted(ActivationRun(created, s.plan, s.files), fault));
      AlongConcat(env, s, InApply, d1, copies, finish.writes);
      ExecConcat(d1, copies, finish.writes);
      AlongConcat(env, s, InApply, d, publish.writes, copies + finish.writes);
      ExecConcat(d, publish.writes, copies + finish.writes);
    }
  }

  lemma ProvisionedStage(env: Env, s: Scene, d: Disk, j: Journal)
    requires Provisioned(env, s, d, j)
    ensures Stage(env, s, d, j) && s.plan.id in d.checkpoints
  {
  }

  lemma PublishedSame(s: Scene, d: Disk, next: Disk)
    requires Published(s, d) && next.store == d.store
    ensures Published(s, next)
  {
  }

  /** The hardware stage, then publication and the rest. */
  lemma {:induction false} StagesKeep(env: Env, s: Scene, d: Disk, j: Journal, hardware: Option<HardwareInputs>,
                                      generation: Bytes,
                   created: Disk, fault: Option<nat>)
    requires Setting(s) && Stage(env, s, d, j) && j.status == Applying && j.mutations == [] && j.packages == []
    requires Ckpt(s, d).receipts == {} && d.store == s.pre.store && SaneHardware(hardware)
    requires s.digest == env.sha(generation) && JustCreated(s, created)
    ensures var run := Then(HardwareRun(s.plan, j, hardware),
        PublicationRun(env, s, ProvisionedJournal(s.plan, j, hardware), generation, created, fault));
      && Along(env, s, InApply, d, run.writes)
      && (run.result.Ok? ==> AppliedDisk(env, s, Exec(d, run.writes)))
  {
    hide Setting, Stage, Holds, HardwareRun, PublicationRun, ProvisionedJournal, AppliedDisk, Provisioned;
    HardwareRunKeeps(env, s, d, j, hardware);
    var first := HardwareRun(s.plan, j, hardware);
    if first.result.Ok? {
      var d1 := Exec(d, first.writes);
      var provisioned := ProvisionedJournal(s.plan, j, hardware);
      PublicationKeeps(env, s, d1, provisioned, generation, created, fault);
      var rest := PublicationRun(env, s, provisioned, generation, created, fault);
      AlongConcat(env, s, InApply, d, first.writes, rest.writes);
      ExecConcat(d, first.writes, rest.writes);
    }
  }

  /** An accepted apply is the creation of the checkpoint followed by these stages. */
  lemma {:induction false} ApplyStages(env: Env, target: string, d: Disk, root: map<string, Bytes>,
                    hardware: Option<HardwareInputs>, fault: Option<nat>)
    requires ApplyChecks(env, d, root).Ok?
    ensures var s := SceneOf(env, target, d, ApplyChecks(env, d, root).value);
      var r := d.runtime.value;
      var j := ApplyingJournal(target, d.store, s.plan, r.journal);
      var create := CreateCheckpoint(s.plan.id, NewCheckpoint(r, j));
      var stages := Then(HardwareRun(s.plan, j, hardware),
        PublicationRun(env, s, ProvisionedJournal(s.plan, j, hardware), r.generation, Perform(d, create), fault));
      ApplyRun(env, target, d, root, hardware, fault)
        == Run([create] + (BothCopies(s.plan.id, j) + stages.writes), stages.result)
  {
    hide ApplyingJournal, NewCheckpoint, Bound, HardwareFileOk, ReadBootBundle, HardwareRun, PublishRun, FinishRun,
      ActivationRun, FilesOf,
      ProvisionedJournal, PublishedJournal, BothCopies, Faulted, Perform;
    var s := SceneOf(env, target, d, ApplyChecks(env, d, root).value);
    var r := d.runtime.value;
    var j := ApplyingJournal(target, d.store, s.plan, r.journal);
    var create := CreateCheckpoint(s.plan.id, NewCheckpoint(r, j));
    var stages := Then(HardwareRun(s.plan, j, hardware),
      PublicationRun(env, s, ProvisionedJournal(s.plan, j, hardware), r.generation, Perform(d, create), fault));
    assert [create] + BothCopies(s.plan.id, j) + stages.writes == [create] + (BothCopies(s.plan.id, j) + stages.writes);
  }

  /**
   * The first write of an accepted apply creates the checkpoint; from then on the
   * invariant holds, with the two journal copies in step, after every write.
   */
  lemma {:induction false} ApplyKeeps(env: Env, target: string, d: Disk, root: map<string, Bytes>,
                   hardware: Option<HardwareInputs>, fault: Option<nat>)
    requires Installable(env, d) && SaneHardware(hardware) && ApplyChecks(env, d, root).Ok?
    ensures var s := SceneOf(env, target, d, ApplyChecks(env, d, root).value);
      var run := ApplyRun(env, target, d, root, hardware, fault);
      && run.writes != []
      && Along(env, s, InApply, Perform(d, run.writes[0]), run.writes[1..])
      && (run.result.Ok? ==> AppliedDisk(env, s, Exec(d, run.writes)))
  {
    hide Core, Setting, Stage, Holds, HardwareRun, PublicationRun, ApplyRun, ApplyingJournal, ProvisionedJournal,
      NewCheckpoint, BothCopies, AppliedDisk, Bound, FilesOf, InStep;
    var s := SceneOf(env, target, d, ApplyChecks(env, d, root).value);
    SceneIsSet(env, target, d, root);
    var r := d.runtime.value;
    var j := ApplyingJournal(target, d.store, s.plan, r.journal);
    var create := CreateCheckpoint(s.plan.id, NewCheckpoint(r, j));
    var created := Perform(d, create);
    CreationHolds(env, s);
    NewlyCreated(s, j);
    var copies := BothCopies(s.plan.id, j);
    var d1 := Exec(created, copies);
    CreatedFacts(env, s, j, d1);
    StagesKeep(env, s, d1, j, hardware, r.generation, created, fault);
    var stages := Then(HardwareRun(s.plan, j, hardware),
      PublicationRun(env, s, ProvisionedJournal(s.plan, j, hardware), r.generation, created, fault));
    AlongConcat(env, s, InApply, created, copies, stages.writes);
    ExecConcat(created, copies, stages.writes);
    ApplyStages(env, target, d, root, hardware, fault);
    assert ([create] + (copies + stages.writes))[1..] == copies + stages.writes;
  }

  lemma NewlyCreated(s: Scene, j: Journal)
    requires s.pre.runtime.Some?
    ensures JustCreated(s, Perform(s.pre, CreateCheckpoint(s.plan.id, NewCheckpoint(s.pre.runtime.value, j))))
  {
  }

  lemma CreatedFacts(env: Env, s: Scene, j: Journal, d: Disk)
    requires s.pre.runtime.Some? && s.pre.runtime.value.journal.status == Prepared
    requires Bound(env, s.pre.runtime.value.plan, s.pre.runtime.value.journal)
    requires j == ApplyingJournal(s.target, s.pre.store, s.plan, s.pre.runtime.value.journal)
    requires Stage(env, s, d, j)
    ensures j.status == Applying && j.mutations == [] && j.packages == [] && Ckpt(s, d).receipts == {}
  {
    hide Encode;
  }

  lemma StageJournalHolds(env: Env, s: Scene, d: Disk, j: Journal)
    requires Stage(env, s, d, j)
    ensures JournalHolds(env, s, j)
  {
  }

  lemma SameActivation(env: Env, s: Scene, d0: Disk, d4: Disk)
    requires s.plan.id in d0.checkpoints && Ckpt(s, d0).record.NoRecord? && Ckpt(s, d0).backups == map[]
    requires d0.boot == s.pre.boot && ReadyToActivate(env, s, d4)
    ensures ActivationRun(d0, s.plan, s.files) == ActivationRun(d4, s.plan, s.files)
  {
  }

  lemma ReadySynced(env: Env, s: Scene, d: Disk, j: Journal)
    requires Stage(env, s, d, j)
    ensures Synced(s, d) && Ckpt(s, d).journal == j
  {
  }
}
