/**
 * What the installer demands before it changes anything, in terms of the documents and
 * the disk: the journals it loads, the applies it begins, the rollbacks it allows.
 */
module Admission {
  import opened Wrappers
  import opened DigestCodec
  import opened Documents
  import opened BootBundle
  import opened TargetDisk
  import opened Operations
  import opened VerifyTheorems
  import opened Layout

  // ----------------------------------------------------------------- documents

  /** Lower-case hexadecimal text of this length. */
  predicate LowerHex(text: string, length: nat) {
    |text| == length && forall c | c in text :: '0' <= c <= '9' || 'a' <= c <= 'f'
  }

  lemma LowerHexIs(text: string)
    ensures LowerHex(text, 32) <==> ValidTransactionId(text)
    ensures LowerHex(text, 64) <==> ValidDigest(text)
  {
    assert forall i | 0 <= i < |text| :: text[i] in text;
  }

  predicate PackageText(name: string) {
    name != "" && forall c | c in name :: 'a' <= c <= 'z' || '0' <= c <= '9' || c == '-' || c == '_'
  }

  lemma PackageTextIs(name: string)
    ensures PackageText(name) <==> ValidPackageName(name)
  {
    assert forall i | 0 <= i < |name| :: name[i] in name;
  }

  /** How often the journal carries each of the six mutation names. */
  function Times(journal: Journal, mutation: Mutation): nat {
    multiset(journal.mutations)[mutation]
  }

  /** The plan by itself. */
  predicate GoodPlan(plan: Plan) {
    && LowerHex(plan.id, 32) && plan.schema == 1 && plan.distribution == "ArachOS"
    && LowerHex(plan.generationSha, 64) && LowerHex(plan.bootSha, 64)
    && match plan.hardwareSha
       case None => plan.operations == [CorinthInstall, GraniteActivate, CosmicVerify]
       case Some(digest) =>
         LowerHex(digest, 64)
         && plan.operations == [CorinthInstall, HardwareProvision, GraniteActivate, CosmicVerify]
  }

  /**
   * What the journal's status says about its other fields: a target unless prepared, a
   * published generation between publication and rollback, and the stages it may list.
   */
  predicate GoodStatus(journal: Journal) {
    var j := journal;
    && (j.target.None? <==> j.status == Prepared)
    && (j.published <==> j.status in {CorinthPublished, ApplyFailed, Applied, Verified})
    && (j.status == Prepared ==> j.previous.None? && j.packages == [] && j.mutations == [])
    && (forall p | p in j.packages :: PackageText(p))
    && (j.status == Applying || j.published ==> Times(j, Hardware) <= 1 && Times(j, HardwareUndone) == 0)
    && (j.published ==>
          && Times(j, Generation) == 1 && Times(j, GenerationUndone) == 0
          && Times(j, Mutation.BootBundle) <= 1 && Times(j, BootBundleUndone) == 0)
    && (j.status == RolledBack ==>
          && Times(j, GenerationUndone) == 1 && Times(j, Generation) <= 1
          && Times(j, BootBundleUndone) == Times(j, Mutation.BootBundle)
          && Times(j, HardwareUndone) == Times(j, Hardware))
  }

  /** A plan and a journal are loaded exactly when they are well formed and bound to each other. */
  lemma {:induction false} LoadedDocumentsAre(env: Env, plan: Plan, journal: Journal)
    ensures Bound(env, plan, journal) <==>
      && GoodPlan(plan) && GoodStatus(journal)
      && journal.schema == 1 && journal.id == plan.id
      && journal.planSha == env.planDigest(plan)
      && journal.intended == plan.generationSha
      && (journal.previous.Some? ==> LowerHex(journal.previous.value, 64))
      && (forall m | m in journal.mutations :: !m.Unknown?)
  {
    LowerHexIs(plan.id);
    LowerHexIs(journal.id);
    LowerHexIs(plan.generationSha);
    LowerHexIs(plan.bootSha);
    if plan.hardwareSha.Some? {
      LowerHexIs(plan.hardwareSha.value);
    }
    if journal.previous.Some? {
      LowerHexIs(journal.previous.value);
    }
    OperationsAre();
    assert forall p :: PackageText(p) <==> ValidPackageName(p) by {
      forall p ensures PackageText(p) <==> ValidPackageName(p) { PackageTextIs(p); }
    }
    StatusIs(journal);
  }

  lemma OperationsAre()
    ensures OperationsFor(false) == [CorinthInstall, GraniteActivate, CosmicVerify]
    ensures OperationsFor(true) == [CorinthInstall, HardwareProvision, GraniteActivate, CosmicVerify]
  {
  }

  lemma {:induction false} StatusIs(journal: Journal)
    ensures CoherentTransition(journal) <==> GoodStatus(journal)
  {
    hide ValidPackageName, PackageText;
    assert forall p | p in journal.packages :: PackageText(p) <==> ValidPackageName(p) by {
      forall p | p in journal.packages ensures PackageText(p) <==> ValidPackageName(p) { PackageTextIs(p); }
    }
  }

  /** A hardware plan file beside a plan that names one. */
  predicate GoodHardwareFile(env: Env, file: Option<Bytes>, expected: Option<string>) {
    expected.Some? ==>
      file.Some? && env.hardwarePlanParses(file.value) && Encode(env.sha(file.value)) == expected.value
  }

  lemma {:induction false} HardwareFileIs(env: Env, file: Option<Bytes>, expected: Option<string>)
    ensures HardwareFileOk(env, file, expected) <==> GoodHardwareFile(env, file, expected)
  {
    if file.Some? {
      EncodeIsValid(env.sha(file.value));
    }
  }

  // ----------------------------------------------------------------- apply

  /** The runtime documents from which an apply may begin on this target. */
  predicate ApplyAllowed(env: Env, d: Disk, root: map<string, Bytes>) {
    d.runtime.Some? &&
    var r := d.runtime.value;
    && Bound(env, r.plan, r.journal) && r.journal.status == Prepared
    && Encode(env.sha(r.generation)) == r.plan.generationSha && env.parentOf(r.generation).Some?
    && GoodHardwareFile(env, r.hardwarePlan, r.plan.hardwareSha)
    && ReadBootBundle(env, root).Ok? && Encode(env.sha(root["manifest.json"])) == r.plan.bootSha
    && r.plan.id !in d.checkpoints
  }

  /** The digest text of the active generation, if the store is there and has one. */
  function ActiveText(store: Store): Option<string> {
    if store.present && store.active.Some? then Some(Encode(store.active.value)) else None
  }

  /**
   * An apply writes at all exactly when it is allowed, whatever hardware inputs it is given
   * and whatever fails later; and its first write puts the documents, the generation image
   * and the hardware plan on the target, with the journal of what is about to happen.
   */
  lemma {:induction false} ApplyBeginsExactlyWhenAllowed(env: Env, target: string, d: Disk, root: map<string, Bytes>,
                                                         hardware: Option<HardwareInputs>, fault: Option<nat>)
    ensures ReadBootBundle(env, root).Ok? ==> "manifest.json" in root
    ensures var writes := ApplyRun(env, target, d, root, hardware, fault).writes;
      && (writes != [] <==> ApplyAllowed(env, d, root))
      && (writes != [] ==>
            var r := d.runtime.value;
            writes[0] == CreateCheckpoint(r.plan.id, Checkpoint(
              r.plan,
              Journal(1, r.plan.id, env.planDigest(r.plan), Applying, Some(target), ActiveText(d.store),
                      r.plan.generationSha, false, [], []),
              r.generation, if r.plan.hardwareSha.Some? then r.hardwarePlan else None,
              NoRecord, map[], {})))
  {
    hide Bound, ActivationRun, FilesOf, Faulted, HardwareRun, PublishRun, FinishRun, ReadBootBundle, ProvisionedJournal;
    ReadsExactlyWholeBundles(env, root);
    if d.runtime.Some? {
      var r := d.runtime.value;
      HardwareFileIs(env, r.hardwarePlan, r.plan.hardwareSha);
      LoadedDocumentsAre(env, r.plan, r.journal);
    }
  }

  // ----------------------------------------------------------------- rollback

  /** What the deciding journal says of a rollback on this target. */
  predicate RollbackAllowed(env: Env, target: string, d: Disk, source: Source) {
    Accepted(env, d, source) &&
    var (plan, given) := DocumentsAt(d, source).value;
    var journal := Deciding(d, plan, given);
    journal.status != RolledBack && (journal.target == None || journal.target == Some(target))
  }

  /**
   * On any disk and from either copy, a rollback that is not allowed fails and writes
   * nothing; of an accepted transaction that is because it is rolled back already or
   * because it belongs to another target.
   */
  lemma {:induction false} RollbackOnlyWhenAllowed(env: Env, target: string, d: Disk, source: Source)
    ensures var run := RollbackRun(env, target, d, source);
      && (!RollbackAllowed(env, target, d, source) ==> run.result.Err? && run.writes == [])
      && (run.result == Err(TargetMismatch) <==>
            Accepted(env, d, source) &&
            var (plan, given) := DocumentsAt(d, source).value;
            var journal := Deciding(d, plan, given);
            journal.status != RolledBack && journal.target.Some? && journal.target != Some(target))
      && (run.result == Err(NotRollbackable) <==>
            Accepted(env, d, source) &&
            var (plan, given) := DocumentsAt(d, source).value;
            Deciding(d, plan, given).status == RolledBack)
  {
    hide Bound, HardwareFileOk, HardwareUndo, JournalWrites, UndoneJournal, Decode, EntriesUndo, DecodedPrevious;
    EntriesFaults(d, source);
  }

  /**
   * Rollback succeeds exactly when it is allowed, its boot files can be put back and its
   * generation can be taken back; each of the last two conditions is spelled out by
   * `BootUndoSucceedsExactlyWhen` and `GenerationUndoSucceedsExactlyWhen`.
   */
  lemma {:induction false} RollbackSucceedsExactlyWhen(env: Env, target: string, d: Disk, source: Source)
    ensures RollbackRun(env, target, d, source).result.Ok? <==>
      && RollbackAllowed(env, target, d, source)
      && var (plan, given) := DocumentsAt(d, source).value;
         && (plan.id in d.checkpoints ==> BootUndo(d, plan).result.Ok?)
         && CorinthUndo(d.store, plan, Deciding(d, plan, given)).result.Ok?
  {
    hide Bound, HardwareFileOk, HardwareUndo, JournalWrites, UndoneJournal, Decode, EntriesUndo, DecodedPrevious,
      CorinthUndo;
  }

  /** Undoing boot entries fails in one way only. */
  lemma {:induction false} EntriesFault(boot: map<string, Node>, backups: map<string, Bytes>, entries: seq<Entry>)
    ensures EntriesUndo(boot, backups, entries).result.Err? ==>
      EntriesUndo(boot, backups, entries).result == Err(RestoreFailed)
    decreases entries
  {
    if entries != [] {
      var last, rest := entries[|entries| - 1], entries[..|entries| - 1];
      EntriesFault(boot, backups, rest);
      EntriesFault(AfterUndo(boot, EntryUndo(boot, backups, last)), backups, rest);
    }
  }

  lemma {:induction false} EntriesFaults(d: Disk, source: Source)
    ensures forall name | name in d.checkpoints && d.checkpoints[name].record.Whole? ::
      var c := d.checkpoints[name];
      var undo := EntriesUndo(d.boot, c.backups, c.record.record.entries);
      undo.result.Err? ==> undo.result == Err(RestoreFailed)
  {
    forall name | name in d.checkpoints && d.checkpoints[name].record.Whole?
      ensures var c := d.checkpoints[name];
        var undo := EntriesUndo(d.boot, c.backups, c.record.record.entries);
        undo.result.Err? ==> undo.result == Err(RestoreFailed)
    {
      EntriesFault(d.boot, d.checkpoints[name].backups, d.checkpoints[name].record.record.entries);
    }
  }
}
