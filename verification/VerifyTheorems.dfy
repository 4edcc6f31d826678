/** What `verify` means to its caller, on any disk and from either copy of the documents. */
module VerifyTheorems {
  import opened Wrappers
  import opened Documents
  import opened BootBundle
  import opened TargetDisk
  import opened Operations

  /** The journal that decides: the checkpoint's if the target holds one, else the given one. */
  function Deciding(d: Disk, plan: Plan, given: Journal): Journal {
    if plan.id in d.checkpoints then d.checkpoints[plan.id].journal else given
  }

  /** The documents are accepted, and the target's own copy agrees with them. */
  predicate Accepted(env: Env, d: Disk, source: Source) {
    DocumentsAt(d, source).Some? &&
    var (plan, given) := DocumentsAt(d, source).value;
    && Bound(env, plan, given)
    && (plan.id in d.checkpoints ==>
          var c := d.checkpoints[plan.id];
          c.plan == plan && Bound(env, c.plan, c.journal) && HardwareFileOk(env, c.hardwarePlan, plan.hardwareSha))
  }

  /** Only journals differ. */
  ghost predicate OnlyJournals(before: Disk, after: Disk) {
    && after.boot == before.boot && after.store == before.store
    && after.checkpoints.Keys == before.checkpoints.Keys
    && (forall n | n in before.checkpoints ::
          after.checkpoints[n] == before.checkpoints[n].(journal := after.checkpoints[n].journal))
    && (after.runtime.Some? <==> before.runtime.Some?)
    && (after.runtime.Some? ==>
          after.runtime.value == before.runtime.value.(journal := after.runtime.value.journal))
  }

  /** When verification marks the transaction. */
  predicate Verifiable(env: Env, target: string, d: Disk, source: Source) {
    Accepted(env, d, source) &&
    var (plan, given) := DocumentsAt(d, source).value;
    && Deciding(d, plan, given).status == Applied
    && Deciding(d, plan, given).target == Some(target)
    && InstalledBundleVerifies(env, d.boot, plan)
  }

  lemma {:induction false} VerifyRunIs(env: Env, target: string, d: Disk, source: Source)
    ensures var run := VerifyRun(env, target, d, source);
      if Verifiable(env, target, d, source) then
        var (plan, given) := DocumentsAt(d, source).value;
        run == Done(JournalWrites(source, plan.id, plan.id in d.checkpoints,
          Deciding(d, plan, given).(status := Verified)))
      else run.result.Err? && run.writes == []
  {
    hide Bound, HardwareFileOk, InstalledBundleVerifies, JournalWrites;
  }

  /** One journal in every copy the operation knows of. */
  lemma {:induction false} JournalsWritten(d: Disk, source: Source, plan: Plan, given: Journal, journal: Journal)
    requires DocumentsAt(d, source) == Some((plan, given))
    requires plan.id in d.checkpoints ==> d.checkpoints[plan.id].plan == plan
    ensures var after := Exec(d, JournalWrites(source, plan.id, plan.id in d.checkpoints, journal));
      && OnlyJournals(d, after)
      && DocumentsAt(after, source) == Some((plan, journal))
      && (plan.id in d.checkpoints ==> after.checkpoints[plan.id].journal == journal)
  {
    var first := if plan.id in d.checkpoints then [PutJournal(plan.id, journal)] else [];
    var second := match source
      case FromRuntime => [PutRuntime(journal)]
      case FromCheckpoint(name) => if plan.id in d.checkpoints
        && name == plan.id then [] else [PutJournal(name, journal)];
    ExecConcat(d, first, second);
    assert forall w: Write :: [w][1..] == [];
  }

  /**
   * Verification succeeds exactly when the documents are accepted, the deciding journal is
   * applied for this target and the installed bundle re-hashes to the plan. It then says
   * verified in every copy, changes nothing else, and would refuse to do so again; if it
   * fails it changes nothing.
   */
  lemma {:induction false} VerifyMarksWhatIsInstalled(env: Env, target: string, d: Disk, source: Source)
    ensures var run := VerifyRun(env, target, d, source);
      var after := Exec(d, run.writes);
      && (run.result.Ok? <==> Verifiable(env, target, d, source))
      && (run.result.Err? ==> after == d)
      && (run.result.Ok? ==>
            var (plan, given) := DocumentsAt(d, source).value;
            var verified := Deciding(d, plan, given).(status := Verified);
            && OnlyJournals(d, after)
            && DocumentsAt(after, source) == Some((plan, verified))
            && (plan.id in d.checkpoints ==> after.checkpoints[plan.id].journal == verified)
            && VerifyRun(env, target, after, source) == Failed(NotApplied))
  {
    hide HardwareFileOk, InstalledBundleVerifies, VerifyRun, JournalWrites, Exec;
    VerifyRunIs(env, target, d, source);
    ExecEmpty(d);
    if Verifiable(env, target, d, source) {
      var (plan, given) := DocumentsAt(d, source).value;
      var verified := Deciding(d, plan, given).(status := Verified);
      JournalsWritten(d, source, plan, given, verified);
      var after := Exec(d, VerifyRun(env, target, d, source).writes);
      assert Bound(env, plan, verified);
      AlreadyVerified(env, target, after, source, plan, verified);
    }
  }

  lemma ExecEmpty(d: Disk)
    ensures Exec(d, []) == d
  {
  }

  lemma {:induction false} AlreadyVerified(env: Env, target: string, d: Disk, source: Source, plan: Plan,
                                           verified: Journal)
    requires DocumentsAt(d, source) == Some((plan, verified)) && Bound(env, plan, verified)
    requires verified.status == Verified
    requires plan.id in d.checkpoints ==>
      var c := d.checkpoints[plan.id];
      c.journal == verified && c.plan == plan && HardwareFileOk(env, c.hardwarePlan, plan.hardwareSha)
    ensures VerifyRun(env, target, d, source) == Failed(NotApplied)
  {
    hide Bound, HardwareFileOk, InstalledBundleVerifies;
  }
}
