/** Two transactions on one target, one after the other. */
module Superseded {
  import opened Wrappers
  import opened DigestCodec
  import opened Documents
  import opened BootBundle
  import opened TargetDisk
  import opened Operations
  import opened CrashInvariant
  import opened UndoProof
  import opened ActivationProof
  import opened ApplyProof
  import opened CrashSafety
  import opened CrashTheorems
  import opened RefusedRollback

  /** What a target needs to carry: a prepared installation and the inputs of an apply that succeeds. */
  ghost predicate Succeeds(env: Env, target: string, d: Disk, root: map<string, Bytes>,
                           hardware: Option<HardwareInputs>) {
    && Start(env, d) && SaneHardware(hardware)
    && ApplyRun(env, target, d, root, hardware, None).result.Ok? && ApplyChecks(env, d, root).Ok?
  }

  /** An installation applied and verified without interruption. */
  function Installed(env: Env, target: string, d: Disk, root: map<string, Bytes>,
                     hardware: Option<HardwareInputs>): Disk {
    var applied := Exec(d, ApplyRun(env, target, d, root, hardware, None).writes);
    Exec(applied, VerifyRun(env, target, applied, FromRuntime).writes)
  }

  /** An installation that stands: applied, with its record and backups complete. */
  ghost predicate Standing(env: Env, s: Scene, d: Disk) {
    && Core(env, s, -1, d)
    && Ckpt(s, d).journal.status in {Applied, Verified}
    && Ckpt(s, d).record == Whole(RecordWith(s.plan, s.pre.boot, s.files, |s.files|, true))
    && SavedBelow(s, Ckpt(s, d).backups, |s.files|)
    && InstalledBelow(s, d.boot, |s.files|)
    && Published(s, d)
  }

  lemma AppliedStands(env: Env, s: Scene, d: Disk)
    requires AppliedDisk(env, s, d)
    ensures Standing(env, s, d) && Ckpt(s, d).journal.status == Applied
  {
    hide Core, SavedBelow, InstalledBelow, RecordWith;
  }

  lemma {:induction false} InstalledIsVerified(env: Env, target: string, d: Disk, root: map<string, Bytes>,
                                               hardware: Option<HardwareInputs>)
    requires Succeeds(env, target, d, root, hardware)
    ensures var s := SceneOf(env, target, d, ApplyChecks(env, d, root).value);
      var after := Installed(env, target, d, root, hardware);
      Setting(s) && Standing(env, s, after) && Ckpt(s, after).journal.status == Verified
  {
    hide Core, ApplyRun, ApplyChecks, FilesOf, Setting, VerifyRun, WellShaped, CheckpointHolds, BootHolds, StoreHolds,
      InstalledBundleVerifies, InstalledBelow, SavedBelow, RecordWith;
    var s := SceneOf(env, target, d, ApplyChecks(env, d, root).value);
    SceneIsSet(env, target, d, root);
    ApplyKeeps(env, target, d, root, hardware, None);
    var applied := Exec(d, ApplyRun(env, target, d, root, hardware, None).writes);
    SuccessfulApplyVerifies(env, target, d, root, hardware, None, applied.boot);
    assert applied.(boot := applied.boot) == applied;
    VerifyDecidesFromCheckpoint(env, s, -1, applied, FromRuntime);
    CoreParts(env, s, -1, applied);
    VerifiedHolds(env, s, -1, applied);
    var verified := Ckpt(s, applied).journal.(status := Verified);
    BothCopiesKeep(env, s, -1, applied, verified);
    assert JournalWrites(FromRuntime, s.plan.id, true, verified) == BothCopies(s.plan.id, verified);
  }

  predicate Removable(node: Node) {
    node.Regular? || node.Absent?
  }

  /** The first transaction as a later rollback finds it: its own files, under whatever was installed since. */
  ghost predicate UnderLater(env: Env, s: Scene, before: Disk, d: Disk) {
    && Standing(env, s, before)
    && s.plan.id in d.checkpoints && Ckpt(s, d) == Ckpt(s, before)
    && forall i | 0 <= i < |s.files| :: Removable(At(d.boot, s.files[i].destination))
  }

  lemma {:induction false} RecordEntriesAre(s: Scene, i: nat)
    requires i < |s.files|
    ensures RecordWith(s.plan, s.pre.boot, s.files, |s.files|, true).entries[i]
      == EntryFor(s.pre.boot, s.files, i, true)
    ensures |RecordWith(s.plan, s.pre.boot, s.files, |s.files|, true).entries| == |s.files|
  {
  }

  lemma {:induction false} EntryCanBeUndone(s: Scene, boot: map<string, Node>, backups: map<string, Bytes>, i: nat)
    requires SavedBelow(s, backups, |s.files|) && i < |s.files|
    requires Removable(At(boot, s.files[i].destination))
    ensures var entry := EntryFor(s.pre.boot, s.files, i, true);
      EntryUndo(boot, backups, entry).result.Ok? && RefusedRollback.Target(backups, entry) == Old(s, i)
  {
    hide BackupName;
    assert Saved(s, backups, i);
  }

  /** Its boot files can be put back, and would be as they were before it. */
  lemma {:induction false} FirstCanBeUndone(env: Env, s: Scene, before: Disk, d: Disk)
    requires Setting(s) && UnderLater(env, s, before, d)
    ensures BootUndo(d, s.plan).result.Ok?
    ensures forall i | 0 <= i < |s.files| ::
      RestoredAt(d.boot, Ckpt(s, d).backups, Ckpt(s, d).record.record.entries, s.files[i].destination) == Old(s, i)
  {
    hide Core, RecordWith, EntriesUndo, EntryUndo, SavedBelow, InstalledBelow, RestoredAt, RefusedRollback.Target;
    var c := Ckpt(s, d);
    var entries := c.record.record.entries;
    CoreParts(env, s, -1, before);
    RecordIsAccepted(env, s, -1, before);
    forall i | 0 <= i < |s.files|
      ensures |entries| == |s.files| && entries[i] == EntryFor(s.pre.boot, s.files, i, true)
      ensures EntryUndo(d.boot, c.backups, entries[i]).result.Ok?
      ensures RefusedRollback.Target(c.backups, entries[i]) == Old(s, i)
    {
      RecordEntriesAre(s, i);
      EntryCanBeUndone(s, d.boot, c.backups, i);
    }
    EntriesUndoSucceeds(d.boot, c.backups, entries);
    forall i | 0 <= i < |s.files|
      ensures RestoredAt(d.boot, c.backups, entries, s.files[i].destination) == Old(s, i)
    {
      RestoredAtMarked(d.boot, c.backups, entries, i);
    }
  }

  lemma {:induction false} FirstReachesGeneration(env: Env, s: Scene, before: Disk, d: Disk)
    requires Setting(s) && UnderLater(env, s, before, d)
    ensures ReachesGeneration(env, s.target, d, s.plan.id)
    ensures Decode(Ckpt(s, d).plan.generationSha) == Ok(s.digest)
    ensures DecodedPrevious(Ckpt(s, d).journal) == Ok(s.pre.store.active)
  {
    hide Bound, WellShaped, HardwareFileOk, RecordWith, SavedBelow, InstalledBelow, BootHolds, StoreHolds, BootUndo,
      RestoredAt;
    FirstCanBeUndone(env, s, before, d);
    PreviousDecodes(env, s, -1, before);
    WellShapedIsBound(env, s.plan, Ckpt(s, before).journal);
  }

  /** The two scenes of a target where a second transaction was applied over a verified first one. */
  ghost predicate Stacked(env: Env, target: string, d0: Disk, root: map<string, Bytes>,
                          hardware: Option<HardwareInputs>,
                          second: Runtime, root2: map<string, Bytes>, hardware2: Option<HardwareInputs>)
  {
    && Succeeds(env, target, d0, root, hardware)
    && Succeeds(env, target, Installed(env, target, d0, root, hardware).(runtime := Some(second)), root2, hardware2)
  }

  function Twice(env: Env, target: string, d0: Disk, root: map<string, Bytes>, hardware: Option<HardwareInputs>,
                 second: Runtime, root2: map<string, Bytes>, hardware2: Option<HardwareInputs>): Disk
  {
    var between := Installed(env, target, d0, root, hardware).(runtime := Some(second));
    Exec(between, ApplyRun(env, target, between, root2, hardware2, None).writes)
  }

  lemma {:induction false} FirstIsUnderSecond(env: Env, s: Scene, s2: Scene, before: Disk, d: Disk)
    requires Standing(env, s, before) && AppliedDisk(env, s2, d)
    requires Setting(s) && Setting(s2) && s2.pre.checkpoints == before.checkpoints && s2.pre.boot == before.boot
    requires s2.pre.store == before.store && s2.digest != s.digest
    ensures s.plan.id != s2.plan.id && UnderLater(env, s, before, d)
    ensures d.store.present && d.store.active == Some(s2.digest)
    ensures d.checkpoints == before.checkpoints[s2.plan.id := Ckpt(s2, d)] && Ckpt(s2, d).journal.status == Applied
  {
    hide CheckpointHolds, BootHolds, RuntimeHolds, RecordWith, SavedBelow;
    forall i | 0 <= i < |s.files|
      ensures At(d.boot, s.files[i].destination).Regular?
    {
      var path := s.files[i].destination;
      assert At(before.boot, path) == Regular(s.files[i].bytes);
      if IsDestination(s2, path) {
        var j :| 0 <= j < |s2.files| && s2.files[j].destination == path;
        assert At(d.boot, path) == Regular(s2.files[j].bytes);
      }
    }
  }

  /** The same, told of the two scenes. */
  lemma {:induction false} LaterIsOverwritten(env: Env, s: Scene, s2: Scene, before: Disk, d: Disk)
    requires Setting(s) && UnderLater(env, s, before, d) && s2.digest != s.digest && s.plan.id != s2.plan.id
    requires d.store.present && d.store.active == Some(s2.digest)
    ensures var run := RollbackRun(env, s.target, d, FromCheckpoint(s.plan.id));
      var after := Exec(d, run.writes);
      && (run.result == Err(AuthorityDiffers) <==> s.pre.store.active != Some(s2.digest))
      && (run.result == Err(AuthorityDiffers) ==>
            && s.plan.id in after.checkpoints && after.checkpoints.Keys == d.checkpoints.Keys
            && Ckpt(s, after).journal == Ckpt(s, d).journal && Ckpt(s, after).receipts == {}
            && (forall n | n in d.checkpoints && n != s.plan.id :: after.checkpoints[n] == d.checkpoints[n])
            && after.store == d.store
            && forall i | 0 <= i < |s.files| :: At(after.boot, s.files[i].destination) == Old(s, i))
  {
    hide Core, Setting, RollbackRun, RestoredAt, ReachesGeneration, Bound, UnderLater, Standing;
    UnderLaterFacts(env, s, before, d);
    FirstReachesGeneration(env, s, before, d);
    RefusedExactlyWhen(env, s.target, d, s.plan.id, s.pre.store.active, s.digest);
    if RollbackRun(env, s.target, d, FromCheckpoint(s.plan.id)).result == Err(AuthorityDiffers) {
      RefusedRollbackHasUndone(env, s.target, d, s.plan.id);
      FirstCanBeUndone(env, s, before, d);
    }
  }

  /**
   * Rolling back a superseded transaction. Let a first transaction be applied and verified
   * and a second one, of another generation, be applied over it. Rollback of the first is
   * refused by the generation authority, unless the second went back to the generation
   * before the first. When it is refused, the first one's backups already lie over the boot
   * files of the second, whose journal says, and goes on saying, that it is applied.
   */
  lemma {:induction false} SupersededRollbackOverwritesLater(env: Env, target: string, d0: Disk,
      root: map<string, Bytes>, hardware: Option<HardwareInputs>,
      second: Runtime, root2: map<string, Bytes>, hardware2: Option<HardwareInputs>)
    requires Stacked(env, target, d0, root, hardware, second, root2, hardware2)
    requires env.sha(second.generation) != env.sha(d0.runtime.value.generation)
    ensures var id, d := d0.runtime.value.plan.id, Twice(env, target, d0, root, hardware, second, root2, hardware2);
      var run := RollbackRun(env, target, d, FromCheckpoint(id));
      var after := Exec(d, run.writes);
      && (run.result == Err(AuthorityDiffers) <==> d0.store.active != Some(env.sha(second.generation)))
      && (run.result == Err(AuthorityDiffers) ==>
            && id in after.checkpoints && second.plan.id in after.checkpoints && id != second.plan.id
            && after.checkpoints[id].journal.status == Verified && after.checkpoints[id].receipts == {}
            && after.checkpoints[second.plan.id].journal.status == Applied
            && after.store.active == Some(env.sha(second.generation))
            && forall i | 0 <= i < |FilesOf(ApplyChecks(env, d0, root).value)| ::
                 At(after.boot, DESTINATIONS[i]) == At(d0.boot, DESTINATIONS[i]))
  {
    hide Core, ApplyRun, ApplyChecks, FilesOf, Setting, VerifyRun, Installable, WellShaped, RollbackRun,
      AppliedDisk, UnderLater, Standing, Start;
    var first := ApplyChecks(env, d0, root).value;
    RuntimesThere(env, target, d0, root, hardware, second, root2, hardware2);
    var s := SceneOf(env, target, d0, first);
    InstalledIsVerified(env, target, d0, root, hardware);
    var before := Installed(env, target, d0, root, hardware);
    var between := before.(runtime := Some(second));
    var s2 := SceneOf(env, target, between, ApplyChecks(env, between, root2).value);
    SceneIsSet(env, target, between, root2);
    ApplyKeeps(env, target, between, root2, hardware2, None);
    var d := Twice(env, target, d0, root, hardware, second, root2, hardware2);
    FirstIsUnderSecond(env, s, s2, before, d);
    LaterIsOverwritten(env, s, s2, before, d);
    FilesOfDestinations(first);
  }

  lemma RuntimesThere(env: Env, target: string, d0: Disk, root: map<string, Bytes>, hardware: Option<HardwareInputs>,
                      second: Runtime, root2: map<string, Bytes>, hardware2: Option<HardwareInputs>)
    requires Stacked(env, target, d0, root, hardware, second, root2, hardware2)
    ensures d0.runtime.Some? && Installable(env, d0)
    ensures Installable(env, Installed(env, target, d0, root, hardware).(runtime := Some(second)))
  {
    hide ApplyRun, ApplyChecks, VerifyRun, WellShaped;
  }

  lemma {:induction false} UnderLaterFacts(env: Env, s: Scene, before: Disk, d: Disk)
    requires UnderLater(env, s, before, d)
    ensures s.plan.id in d.checkpoints && s.plan.id in before.checkpoints && Ckpt(s, d) == Ckpt(s, before)
    ensures Ckpt(s, d).record.Whole? && Ckpt(s, d).journal.target == Some(s.target)
    ensures var c := Ckpt(s, d);
      (if Hardware in c.journal.mutations then c.receipts - Set(c.journal.packages) else c.receipts) == {}
  {
    hide RecordWith, SavedBelow, InstalledBelow, BootHolds, StoreHolds, RuntimeHolds;
  }
}
