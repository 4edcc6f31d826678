/** Which boot file is in flight after every number of writes of an apply, faults included. */
module ApplyCuts {
  import opened Wrappers
  import opened DigestCodec
  import opened Documents
  import opened BootBundle
  import opened TargetDisk
  import opened Operations
  import opened CrashInvariant
  import opened UndoProof
  import opened ActivationProof
  import opened ApplyProof
  import opened ActivationCuts

  function ApplyingIn(target: string, d: Disk): Journal
    requires d.runtime.Some?
  {
    ApplyingJournal(target, d.store, d.runtime.value.plan, d.runtime.value.journal)
  }

  /** The hardware and publication stages succeed. */
  predicate ReachesActivation(env: Env, target: string, d: Disk, hardware: Option<HardwareInputs>)
    requires d.runtime.Some?
  {
    && HardwareRun(d.runtime.value.plan, ApplyingIn(target, d), hardware).result.Ok?
    && PublishRun(env, d.store, d.runtime.value.generation).result.Ok?
  }

  function PublishedIn(target: string, d: Disk, hardware: Option<HardwareInputs>): Journal
    requires d.runtime.Some?
  {
    PublishedJournal(ProvisionedJournal(d.runtime.value.plan, ApplyingIn(target, d), hardware))
  }

  function Creation(target: string, d: Disk): Write
    requires d.runtime.Some?
  {
    CreateCheckpoint(d.runtime.value.plan.id, NewCheckpoint(d.runtime.value, ApplyingIn(target, d)))
  }

  /** All writes of an apply up to activation. */
  function Front(env: Env, target: string, d: Disk, hardware: Option<HardwareInputs>): seq<Write>
    requires d.runtime.Some?
  {
    var id := d.runtime.value.plan.id;
    [Creation(target, d)]
    + (BothCopies(id, ApplyingIn(target, d))
    + (HardwareRun(d.runtime.value.plan, ApplyingIn(target, d), hardware).writes
    + (PublishRun(env, d.store, d.runtime.value.generation).writes
    + BothCopies(id, PublishedIn(target, d, hardware)))))
  }

  /** What an accepted apply activates, with its fault. */
  function ActivationIn(target: string, d: Disk, bundle: Bundle, fault: Option<nat>): Run
    requires d.runtime.Some?
  {
    Faulted(ActivationRun(Perform(d, Creation(target, d)), d.runtime.value.plan, FilesOf(bundle)), fault)
  }

  /** How many of the first `cut` writes of an accepted apply are writes of its activation. */
  function Within(env: Env, target: string, d: Disk, root: map<string, Bytes>,
                  hardware: Option<HardwareInputs>, fault: Option<nat>, cut: nat): nat
    requires d.runtime.Some? && ApplyChecks(env, d, root).Ok?
  {
    var before := |Front(env, target, d, hardware)|;
    var activation := |ActivationIn(target, d, ApplyChecks(env, d, root).value, fault).writes|;
    if !ReachesActivation(env, target, d, hardware) || cut <= before then 0
    else if cut - before <= activation then cut - before
    else activation
  }

  /** The index of the entry in flight after `cut` writes of an apply, or -1. */
  function ApplyInFlight(env: Env, target: string, d: Disk, root: map<string, Bytes>,
                         hardware: Option<HardwareInputs>, fault: Option<nat>, cut: nat): int
  {
    if d.runtime.None? || ApplyChecks(env, d, root).Err? then -1
    else
      ActivationInFlight(d.runtime.value.plan.id, d.boot, FilesOf(ApplyChecks(env, d, root).value),
                         Within(env, target, d, root, hardware, fault, cut))
  }

  // ----------------------------------------------------------------- up to activation

  /** Where the in-flight file equals the old one, nothing is in flight. */
  lemma {:induction false} QuietBeforeRecord(env: Env, s: Scene, k: int, d: Disk)
    requires Core(env, s, k, d) && Ckpt(s, d).record.NoRecord? && d.boot == s.pre.boot
    ensures Core(env, s, -1, d)
  {
    hide CheckpointHolds, StoreHolds, RuntimeHolds;
    forall i | 0 <= i < |s.files|
      ensures At(d.boot, s.files[i].destination) == Unmarked(s, -1, i)
    {
    }
  }

  /** Any cut before activation: the boot tree is the old one and there is no record. */
  lemma {:induction false} CutBeforeActivation(env: Env, target: string, d: Disk, root: map<string, Bytes>,
                                               hardware: Option<HardwareInputs>, fault: Option<nat>, cut: nat)
    requires Installable(env, d) && SaneHardware(hardware) && ApplyChecks(env, d, root).Ok? && d.runtime.Some?
    requires var writes := ApplyRun(env, target, d, root, hardware, fault).writes;
      0 < cut <= |writes| && BeforeActivation(writes[..cut][1..]) && writes[0] == Creation(target, d)
    ensures var s := SceneOf(env, target, d, ApplyChecks(env, d, root).value);
      var crashed := Exec(d, ApplyRun(env, target, d, root, hardware, fault).writes[..cut]);
      Core(env, s, -1, crashed) && s.plan.id in crashed.checkpoints && Ckpt(s, crashed).record.NoRecord?
      && crashed.boot == d.boot
  {
    hide Core, Setting, ApplyRun, ApplyChecks, FilesOf, Along, NewCheckpoint, ApplyingIn;
    var s := SceneOf(env, target, d, ApplyChecks(env, d, root).value);
    var writes := ApplyRun(env, target, d, root, hardware, fault).writes;
    var created := Perform(d, writes[0]);
    ApplyKeeps(env, target, d, root, hardware, fault);
    AlongPrefix(env, s, InApply, created, writes[1..], cut - 1);
    assert writes[..cut][1..] == writes[1..][..cut - 1];
    CreatedIsFresh(target, d);
    BeforeActivationLeaves(created, s.plan.id, writes[..cut][1..]);
    var crashed := Exec(d, writes[..cut]);
    assert crashed == Exec(created, writes[..cut][1..]);
    var k := SomeIndex(env, s, crashed);
    QuietBeforeRecord(env, s, k, crashed);
  }

  lemma CreatedIsFresh(target: string, d: Disk)
    requires d.runtime.Some?
    ensures var created := Perform(d, Creation(target, d));
      var id := d.runtime.value.plan.id;
      id in created.checkpoints && created.checkpoints[id].record.NoRecord? && created.boot == d.boot
  {
    hide ApplyingIn;
  }

  lemma {:induction false} SomeIndex(env: Env, s: Scene, d: Disk) returns (k: int)
    requires Holds(env, s, InApply, d)
    ensures Core(env, s, k, d)
  {
    hide Core;
    k :| Core(env, s, k, d);
  }

  // ----------------------------------------------------------------- activation and after

  /** The stages up to the journal of the publication lead to a disk that is ready to activate. */
  lemma {:induction false} PublicationIsReady(env: Env, s: Scene, d: Disk, j: Journal, generation: Bytes)
    requires Setting(s) && Provisioned(env, s, d, j) && s.digest == env.sha(generation)
    requires PublishRun(env, s.pre.store, generation).result.Ok?
    ensures var ready := Exec(d, PublishRun(env, s.pre.store, generation).writes
      + BothCopies(s.plan.id, PublishedJournal(j)));
      && ReadyToActivate(env, s, ready) && Stage(env, s, ready, PublishedJournal(j))
      && JournalHolds(env, s, j) && j.status == Applying && ready.store.active == Some(s.digest)
  {
    hide Core, Setting, JournalHolds, Holds, PublishRun, Successor, Stage, PublishedJournal, BothCopies;
    assert Stage(env, s, d, j) && s.plan.id in d.checkpoints by { ProvisionedStage(env, s, d, j); }
    StageJournalHolds(env, s, d, j);
    PublishRunKeeps(env, s, d, j, generation);
    var publish := PublishRun(env, s.pre.store, generation);
    PublishedJournalKeeps(env, s, Exec(d, publish.writes), j);
    ExecConcat(d, publish.writes, BothCopies(s.plan.id, PublishedJournal(j)));
  }

  lemma {:induction false} FrontIsReady(env: Env, target: string, d: Disk, root: map<string, Bytes>,
                                        hardware: Option<HardwareInputs>)
    requires Installable(env, d) && SaneHardware(hardware) && ApplyChecks(env, d, root).Ok? && d.runtime.Some?
    requires ReachesActivation(env, target, d, hardware)
    ensures var s := SceneOf(env, target, d, ApplyChecks(env, d, root).value);
      var ready := Exec(d, Front(env, target, d, hardware));
      var j := ProvisionedJournal(s.plan, ApplyingIn(target, d), hardware);
      && Setting(s) && ReadyToActivate(env, s, ready) && Stage(env, s, ready, PublishedJournal(j))
      && JournalHolds(env, s, j) && j.status == Applying && ready.store.active == Some(s.digest)
  {
    hide Core, Setting, JournalHolds, Stage, Holds, HardwareRun, PublishRun, ProvisionedJournal, NewCheckpoint, Along,
      BothCopies, Bound, FilesOf, ApplyingJournal, PublishedJournal, Provisioned, ReadyToActivate, Encode;
    var s := SceneOf(env, target, d, ApplyChecks(env, d, root).value);
    SceneIsSet(env, target, d, root);
    var r, j := d.runtime.value, ApplyingIn(target, d);
    var created := Perform(d, Creation(target, d));
    CreationHolds(env, s);
    var copies := BothCopies(s.plan.id, j);
    var d1 := Exec(created, copies);
    CreatedFacts(env, s, j, d1);
    HardwareRunKeeps(env, s, d1, j, hardware);
    var stage := HardwareRun(s.plan, j, hardware).writes;
    var provisioned := ProvisionedJournal(s.plan, j, hardware);
    var d2 := Exec(d1, stage);
    PublicationIsReady(env, s, d2, provisioned, r.generation);
    var last := PublishRun(env, d.store, r.generation).writes + BothCopies(s.plan.id, PublishedJournal(provisioned));
    ExecConcat(d1, stage, last);
    ExecConcat(created, copies, stage + last);
    assert Front(env, target, d, hardware)[1..] == copies + (stage + last);
  }

  /** The journal written after activation, whatever became of it. */
  function LastJournal(published: Journal, activation: Run): Journal {
    if activation.result.Ok? then AppliedJournal(published) else published.(status := ApplyFailed)
  }

  lemma {:induction false} ApplySplits(env: Env, target: string, d: Disk, root: map<string, Bytes>,
                                       hardware: Option<HardwareInputs>, fault: Option<nat>)
    requires ApplyChecks(env, d, root).Ok? && d.runtime.Some?
    ensures var run := ApplyRun(env, target, d, root, hardware, fault);
      && run.writes != [] && run.writes[0] == Creation(target, d)
      && (ReachesActivation(env, target, d, hardware) ==>
            var activation := ActivationIn(target, d, ApplyChecks(env, d, root).value, fault);
            var last := LastJournal(PublishedIn(target, d, hardware), activation);
            && run.writes == Front(env, target, d, hardware)
                 + (activation.writes + BothCopies(d.runtime.value.plan.id, last))
            && (run.result.Ok? <==> activation.result.Ok?))
      && (!ReachesActivation(env, target, d, hardware) ==> BeforeActivation(run.writes[1..]) && run.result.Err?)
  {
    hide ApplyChecks, FilesOf, ActivationRun, Faulted, ProvisionedJournal, PublishedJournal, AppliedJournal,
      HardwareRun, ApplyingJournal, NewCheckpoint;
    HardwareRunIsBeforeActivation(d.runtime.value.plan, ApplyingIn(target, d), hardware);
    var run := ApplyRun(env, target, d, root, hardware, fault);
    var id := d.runtime.value.plan.id;
    var copies := BothCopies(id, ApplyingIn(target, d));
    var stage := HardwareRun(d.runtime.value.plan, ApplyingIn(target, d), hardware);
    var publish := PublishRun(env, d.store, d.runtime.value.generation);
    var published := BothCopies(id, PublishedIn(target, d, hardware));
    var activation := ActivationIn(target, d, ApplyChecks(env, d, root).value, fault);
    var finish := activation.writes + BothCopies(id, LastJournal(PublishedIn(target, d, hardware), activation));
    if ReachesActivation(env, target, d, hardware) {
      assert run.writes == [Creation(target, d)] + copies + (stage.writes + (publish.writes + (published + finish)));
      Nest([Creation(target, d)], copies, stage.writes, publish.writes, published, finish);
    } else if stage.result.Err? {
      assert run.writes[1..] == copies + stage.writes;
    } else {
      assert run.writes[1..] == copies + (stage.writes + publish.writes);
    }
  }

  lemma {:induction false} Nest(a: seq<Write>, b: seq<Write>, c: seq<Write>, e: seq<Write>, f: seq<Write>,
                                g: seq<Write>)
    ensures a + b + (c + (e + (f + g))) == a + (b + (c + (e + f))) + g
  {
    assert e + (f + g) == (e + f) + g;
    assert c + ((e + f) + g) == (c + (e + f)) + g;
    assert a + b + ((c + (e + f)) + g) == a + (b + (c + (e + f))) + g;
  }

  /** The last journal can be written over whatever activation left. */
  lemma {:induction false} LastJournalKeeps(env: Env, s: Scene, k: int, d: Disk, j: Journal, activation: Run)
    requires Core(env, s, k, d) && Ckpt(s, d).journal == PublishedJournal(j)
    requires JournalHolds(env, s, j) && j.status == Applying
    requires activation.result.Ok? ==> Ckpt(s, d).record.Whole?
    ensures Along(env, s, Exactly(k), d, BothCopies(s.plan.id, LastJournal(PublishedJournal(j), activation)))
  {
    hide WellShaped, OldExceptInFlight, RecordHolds, RuntimeHolds, HardwareFileOk, Along;
    PublishedHolds(env, s, j);
    BothCopiesKeep(env, s, k, d, LastJournal(PublishedJournal(j), activation));
  }

  // ----------------------------------------------------------------- every cut of apply

  /** What is known of the disk after `within` writes of activation and whatever was journaled since. */
  ghost predicate CutAt(env: Env, s: Scene, within: nat, d: Disk) {
    && Core(env, s, ActivationInFlight(s.plan.id, s.pre.boot, s.files, within), d)
    && s.plan.id in d.checkpoints
    && RecordAt(SaveRun(s.plan.id, s.pre.boot, map[], s.files, 0), within, Ckpt(s, d).record)
  }

  lemma {:induction false} JournalsKeepCut(env: Env, s: Scene, within: nat, d: Disk, j: Journal, activation: Run,
                                           n: nat)
    requires CutAt(env, s, within, d) && Ckpt(s, d).journal == PublishedJournal(j) && n <= 2
    requires JournalHolds(env, s, j) && j.status == Applying
    requires activation.result.Ok? ==> Ckpt(s, d).record.Whole?
    ensures var after := Exec(d, BothCopies(s.plan.id, LastJournal(PublishedJournal(j), activation))[..n]);
      CutAt(env, s, within, after) && after.store == d.store
  {
    hide Core, JournalHolds, LastJournal, PublishedJournal, SaveRun, ActivationInFlight, Along;
    var k := ActivationInFlight(s.plan.id, s.pre.boot, s.files, within);
    var copies := BothCopies(s.plan.id, LastJournal(PublishedJournal(j), activation));
    LastJournalKeeps(env, s, k, d, j, activation);
    AlongPrefix(env, s, Exactly(k), d, copies, n);
    RecordsStay(s, d, copies[..n]);
  }

  lemma {:induction false} RecordsStay(s: Scene, d: Disk, writes: seq<Write>)
    requires s.plan.id in d.checkpoints && forall w | w in writes :: w.PutJournal? || w.PutRuntime?
    ensures s.plan.id in Exec(d, writes).checkpoints && Ckpt(s, Exec(d, writes)).record == Ckpt(s, d).record
    ensures Exec(d, writes).store == d.store
    decreases writes
  {
    if writes != [] {
      assert writes[0] in writes;
      RecordsStay(s, Perform(d, writes[0]), writes[1..]);
    }
  }

  /** A cut behind the front, as a cut of the activation followed by some of the last journal writes. */
  lemma {:induction false} CutBehindFront(env: Env, s: Scene, ready: Disk, j: Journal, fault: Option<nat>, behind: nat)
    requires Setting(s) && ReadyToActivate(env, s, ready) && Stage(env, s, ready, PublishedJournal(j))
    requires JournalHolds(env, s, j) && j.status == Applying
    requires var activation := Faulted(ActivationRun(ready, s.plan, s.files), fault);
      behind <= |activation.writes| + 2
    ensures var activation := Faulted(ActivationRun(ready, s.plan, s.files), fault);
      var writes := activation.writes + BothCopies(s.plan.id, LastJournal(PublishedJournal(j), activation));
      var crashed := Exec(ready, writes[..behind]);
      CutAt(env, s, if behind <= |activation.writes| then behind else |activation.writes|, crashed)
      && crashed.store == ready.store
  {
    hide Core, Setting, JournalHolds, LastJournal, PublishedJournal, SaveRun, ActivationInFlight, Along, ActivationRun,
      ReadyToActivate;
    var whole := ActivationRun(ready, s.plan, s.files);
    var activation := Faulted(whole, fault);
    var last := BothCopies(s.plan.id, LastJournal(PublishedJournal(j), activation));
    var writes := activation.writes + last;
    var within := if behind <= |activation.writes| then behind else |activation.writes|;
    assert activation.writes == whole.writes[..|activation.writes|];
    assert activation.writes[..within] == whole.writes[..within];
    ActivationAtCut(env, s, ready, within);
    var d1 := Exec(ready, activation.writes[..within]);
    assert CutAt(env, s, within, d1);
    JournalUntouched(env, s, ready, j, within);
    if behind <= |activation.writes| {
      assert writes[..behind] == activation.writes[..behind];
    } else {
      var n := behind - |activation.writes|;
      assert writes[..behind] == activation.writes[..within] + last[..n];
      ExecConcat(ready, activation.writes[..within], last[..n]);
      ActivationEnds(env, s, ready, fault);
      JournalsKeepCut(env, s, within, d1, j, activation, n);
    }
  }

  lemma {:induction false} JournalUntouched(env: Env, s: Scene, ready: Disk, j: Journal, within: nat)
    requires ReadyToActivate(env, s, ready) && Stage(env, s, ready, PublishedJournal(j))
    requires within <= |ActivationRun(ready, s.plan, s.files).writes|
    ensures var d := Exec(ready, ActivationRun(ready, s.plan, s.files).writes[..within]);
      s.plan.id in d.checkpoints && Ckpt(s, d).journal == PublishedJournal(j) && d.store == ready.store
  {
    hide Core, SaveRun, InstallWrites, RecordWith, PublishedJournal;
    CoreParts(env, s, -1, ready);
    var writes := ActivationRun(ready, s.plan, s.files).writes;
    ActivationWriteKinds(s.plan.id, s.plan, s.pre.boot, s.files, 0);
    assert LeavesAuthorities(writes);
    AuthoritiesStay(s, ready, writes[..within]);
  }

  /** A successful activation has got past its record. */
  lemma {:induction false} ActivationEnds(env: Env, s: Scene, ready: Disk, fault: Option<nat>)
    requires ReadyToActivate(env, s, ready)
    ensures var activation := Faulted(ActivationRun(ready, s.plan, s.files), fault);
      var save := SaveRun(s.plan.id, s.pre.boot, map[], s.files, 0);
      activation.result.Ok? ==> save.result.Ok? && |activation.writes| > |save.writes| + 2
  {
    hide ReadyToActivate, SaveRun, RecordWith, SaveLog, ActivationRun;
    ActivationShape(env, s, ready);
    InstallLength(s, 0);
  }

  lemma {:induction false} ApplyCutInFront(env: Env, target: string, d: Disk, root: map<string, Bytes>,
                                           hardware: Option<HardwareInputs>, fault: Option<nat>, cut: nat)
    requires Installable(env, d) && SaneHardware(hardware) && ApplyChecks(env, d, root).Ok? && d.runtime.Some?
    requires 0 < cut <= |ApplyRun(env, target, d, root, hardware, fault).writes|
    requires ReachesActivation(env, target, d, hardware) ==> cut <= |Front(env, target, d, hardware)|
    ensures var s := SceneOf(env, target, d, ApplyChecks(env, d, root).value);
      CutAt(env, s, 0, Exec(d, ApplyRun(env, target, d, root, hardware, fault).writes[..cut]))
  {
    hide Core, Setting, ApplyChecks, ApplyRun, FilesOf, LastJournal, SaveRun, ActivationRun, ReachesActivation,
      NewCheckpoint, Faulted, ApplyingIn, ProvisionedJournal, BothCopies, Front;
    ApplySplits(env, target, d, root, hardware, fault);
    var writes, front := ApplyRun(env, target, d, root, hardware, fault).writes, Front(env, target, d, hardware);
    FrontIsBefore(env, target, d, hardware);
    assert ReachesActivation(env, target, d, hardware) ==> writes[..cut][1..] == front[1..][..cut - 1];
    assert !ReachesActivation(env, target, d, hardware) ==> writes[..cut][1..] == writes[1..][..cut - 1];
    CutBeforeActivation(env, target, d, root, hardware, fault, cut);
  }

  lemma {:induction false} ApplyCutBehindFront(env: Env, target: string, d: Disk, root: map<string, Bytes>,
                                               hardware: Option<HardwareInputs>, fault: Option<nat>, cut: nat)
    requires Installable(env, d) && SaneHardware(hardware) && ApplyChecks(env, d, root).Ok? && d.runtime.Some?
    requires ReachesActivation(env, target, d, hardware)
    requires |Front(env, target, d, hardware)| < cut <= |ApplyRun(env, target, d, root, hardware, fault).writes|
    ensures var s := SceneOf(env, target, d, ApplyChecks(env, d, root).value);
      var crashed := Exec(d, ApplyRun(env, target, d, root, hardware, fault).writes[..cut]);
      && CutAt(env, s, Within(env, target, d, root, hardware, fault, cut), crashed)
      && crashed.store.active == Some(s.digest)
  {
    hide CutAt, Front, Core, Setting, ApplyChecks, ApplyRun, FilesOf, JournalHolds, LastJournal, PublishedJournal,
      ActivationRun, ReachesActivation, ReadyToActivate, NewCheckpoint, Faulted, ApplyingIn, Stage,
      ProvisionedJournal, BothCopies;
    ApplySplits(env, target, d, root, hardware, fault);
    var s := SceneOf(env, target, d, ApplyChecks(env, d, root).value);
    var front := Front(env, target, d, hardware);
    FrontIsReady(env, target, d, root, hardware);
    var ready := Exec(d, front);
    CreatedIsFresh(target, d);
    BackupsFresh(target, d);
    SameActivation(env, s, Perform(d, Creation(target, d)), ready);
    var activation := ActivationIn(target, d, ApplyChecks(env, d, root).value, fault);
    var last := BothCopies(s.plan.id, LastJournal(PublishedIn(target, d, hardware), activation));
    CutOfConcat(d, front, activation.writes + last, cut);
    CopiesAreTwo(s.plan.id, LastJournal(PublishedIn(target, d, hardware), activation));
    CutBehindFront(env, s, ready, ProvisionedJournal(s.plan, ApplyingIn(target, d), hardware), fault, cut - |front|);
  }

  lemma {:induction false} CutOfConcat(d: Disk, front: seq<Write>, behind: seq<Write>, cut: nat)
    requires |front| <= cut <= |front + behind|
    ensures Exec(d, (front + behind)[..cut]) == Exec(Exec(d, front), behind[..cut - |front|])
  {
    assert (front + behind)[..cut] == front + behind[..cut - |front|];
    ExecConcat(d, front, behind[..cut - |front|]);
  }

  /**
   * After every number of writes of an accepted apply, with or without a fault: exactly
   * which entry is in flight, and whether the record is absent, torn or whole.
   */
  lemma {:induction false} ApplyAtCut(env: Env, target: string, d: Disk, root: map<string, Bytes>,
                                      hardware: Option<HardwareInputs>, fault: Option<nat>, cut: nat)
    requires Installable(env, d) && SaneHardware(hardware) && ApplyChecks(env, d, root).Ok? && d.runtime.Some?
    requires 0 < cut <= |ApplyRun(env, target, d, root, hardware, fault).writes|
    ensures var s := SceneOf(env, target, d, ApplyChecks(env, d, root).value);
      var crashed := Exec(d, ApplyRun(env, target, d, root, hardware, fault).writes[..cut]);
      && CutAt(env, s, Within(env, target, d, root, hardware, fault, cut), crashed)
      && Core(env, s, ApplyInFlight(env, target, d, root, hardware, fault, cut), crashed)
      && (Within(env, target, d, root, hardware, fault, cut) > 0 ==> crashed.store.active == Some(s.digest))
  {
    hide Front, Core, Setting, ApplyChecks, ApplyRun, FilesOf, SaveRun, ActivationRun, ReachesActivation, ApplyingIn;
    if !ReachesActivation(env, target, d, hardware) || cut <= |Front(env, target, d, hardware)| {
      ApplyCutInFront(env, target, d, root, hardware, fault, cut);
    } else {
      ApplyCutBehindFront(env, target, d, root, hardware, fault, cut);
    }
  }

  lemma CopiesAreTwo(id: string, journal: Journal)
    ensures |BothCopies(id, journal)| == 2
  {
  }

  lemma BackupsFresh(target: string, d: Disk)
    requires d.runtime.Some?
    ensures var created := Perform(d, Creation(target, d));
      created.checkpoints[d.runtime.value.plan.id].backups == map[]
  {
    hide ApplyingIn;
  }

  lemma {:induction false} FrontIsBefore(env: Env, target: string, d: Disk, hardware: Option<HardwareInputs>)
    requires d.runtime.Some?
    ensures BeforeActivation(Front(env, target, d, hardware)[1..])
  {
    hide ApplyingIn, HardwareRun, PublishedJournal, ProvisionedJournal;
    HardwareRunIsBeforeActivation(d.runtime.value.plan, ApplyingIn(target, d), hardware);
    var id := d.runtime.value.plan.id;
    assert Front(env, target, d, hardware)[1..] == BothCopies(id, ApplyingIn(target, d))
      + (HardwareRun(d.runtime.value.plan, ApplyingIn(target, d), hardware).writes
      + (PublishRun(env, d.store, d.runtime.value.generation).writes
        + BothCopies(id, PublishedIn(target, d, hardware))));
  }

  // ----------------------------------------------------------------- how an apply ends

  lemma {:induction false} BothCopiesSay(d: Disk, id: string, writes: seq<Write>, journal: Journal)
    requires id in Exec(d, writes).checkpoints && d.runtime.Some?
    ensures var after := Exec(d, writes + BothCopies(id, journal));
      && id in after.checkpoints && after.checkpoints[id].journal == journal
      && after.runtime.Some? && after.runtime.value.journal == journal
  {
    RuntimeStays(d, writes);
    ExecConcat(d, writes, BothCopies(id, journal));
    assert BothCopies(id, journal) == [PutJournal(id, journal)] + [PutRuntime(journal)];
    ExecAppend(Exec(d, writes), [PutJournal(id, journal)], PutRuntime(journal));
    assert [PutJournal(id, journal)][1..] == [];
  }

  lemma {:induction false} EndsBeforeActivation(env: Env, target: string, d: Disk, root: map<string, Bytes>,
                                                hardware: Option<HardwareInputs>, fault: Option<nat>)
    requires Installable(env, d) && SaneHardware(hardware) && ApplyChecks(env, d, root).Ok? && d.runtime.Some?
    requires !ReachesActivation(env, target, d, hardware)
    ensures var after := Exec(d, ApplyRun(env, target, d, root, hardware, fault).writes);
      var id := d.runtime.value.plan.id;
      && id in after.checkpoints && after.checkpoints[id].journal.status == Applying
      && after.runtime.Some? && after.runtime.value.journal == after.checkpoints[id].journal
  {
    hide Core, Setting, JournalHolds, Stage, Holds, HardwareRun, ProvisionedJournal, NewCheckpoint, Along,
      BothCopies, Bound, FilesOf, ApplyingJournal, Provisioned, Encode, ApplyChecks, ApplyRun;
    var s := SceneOf(env, target, d, ApplyChecks(env, d, root).value);
    SceneIsSet(env, target, d, root);
    AcceptedForScene(env, target, d, root);
    var r, j := d.runtime.value, ApplyingIn(target, d);
    var created, copies := Perform(d, Creation(target, d)), BothCopies(s.plan.id, j);
    CreationHolds(env, s);
    var d1 := Exec(created, copies);
    CreatedFacts(env, s, j, d1);
    HardwareRunKeeps(env, s, d1, j, hardware);
    ApplyStages(env, target, d, root, hardware, fault);
    var stage := HardwareRun(s.plan, j, hardware);
    if stage.result.Err? {
      RefusedHardwareWritesNothing(s.plan, j, hardware);
      assert ([Creation(target, d)] + (copies + []))[1..] == copies;
      StageSays(env, s, d1, j);
    } else {
      var d2 := Exec(d1, stage.writes);
      var provisioned := ProvisionedJournal(s.plan, j, hardware);
      ProvisionedSays(env, s, d2, provisioned);
      ExecConcat(d1, stage.writes, [OpenStore]);
      ExecConcat(created, copies, stage.writes + [OpenStore]);
      assert ([Creation(target, d)] + (copies + (stage.writes + [OpenStore])))[1..]
        == copies + (stage.writes + [OpenStore]);
      ExecAppend(d1, stage.writes, OpenStore);
    }
  }

  lemma AcceptedForScene(env: Env, target: string, d: Disk, root: map<string, Bytes>)
    requires ApplyChecks(env, d, root).Ok? && d.runtime.Some?
    ensures var r := d.runtime.value;
      && Bound(env, r.plan, r.journal) && r.journal.status == Prepared
      && HardwareFileOk(env, r.hardwarePlan, r.plan.hardwareSha)
      && Encode(env.sha(r.generation)) == r.plan.generationSha
  {
    hide Bound, HardwareFileOk, ReadBootBundle;
  }

  lemma RefusedHardwareWritesNothing(plan: Plan, journal: Journal, hardware: Option<HardwareInputs>)
    ensures HardwareRun(plan, journal, hardware).result.Err? ==> HardwareRun(plan, journal, hardware).writes == []
  {
  }

  lemma StageSays(env: Env, s: Scene, d: Disk, j: Journal)
    requires Stage(env, s, d, j)
    ensures s.plan.id in d.checkpoints && d.checkpoints[s.plan.id].journal == j
    ensures d.runtime.Some? && d.runtime.value.journal == j
  {
  }

  lemma ProvisionedSays(env: Env, s: Scene, d: Disk, j: Journal)
    requires Provisioned(env, s, d, j)
    ensures s.plan.id in d.checkpoints && d.checkpoints[s.plan.id].journal == j && j.status == Applying
    ensures d.runtime.Some? && d.runtime.value.journal == j
  {
  }

  /**
   * How an accepted apply ends, said by both copies of the journal alike: applied when it
   * succeeded, failed when it got as far as activating, and otherwise still applying.
   */
  lemma {:induction false} ApplyEndsAs(env: Env, target: string, d: Disk, root: map<string, Bytes>,
                                       hardware: Option<HardwareInputs>, fault: Option<nat>)
    requires Installable(env, d) && SaneHardware(hardware) && ApplyChecks(env, d, root).Ok? && d.runtime.Some?
    ensures var run, id := ApplyRun(env, target, d, root, hardware, fault), d.runtime.value.plan.id;
      var after := Exec(d, run.writes);
      && id in after.checkpoints && after.runtime.Some?
      && after.runtime.value.journal == after.checkpoints[id].journal
      && after.checkpoints[id].journal.status ==
           (if run.result.Ok? then Applied else if ReachesActivation(env, target, d,
             hardware) then ApplyFailed else Applying)
  {
    hide Core, ApplyChecks, ApplyRun, FilesOf, ReachesActivation, Front, ActivationIn, BothCopies, ApplyingIn,
      PublishedIn, SaveRun, ActivationInFlight, Within;
    if !ReachesActivation(env, target, d, hardware) {
      ApplySplits(env, target, d, root, hardware, fault);
      EndsBeforeActivation(env, target, d, root, hardware, fault);
    } else {
      ApplySplits(env, target, d, root, hardware, fault);
      var id, front := d.runtime.value.plan.id, Front(env, target, d, hardware);
      var activation := ActivationIn(target, d, ApplyChecks(env, d, root).value, fault);
      var last := LastJournal(PublishedIn(target, d, hardware), activation);
      var writes := ApplyRun(env, target, d, root, hardware, fault).writes;
      var cut := |front + activation.writes|;
      CopiesAreTwo(id, last);
      assert writes == front + activation.writes + BothCopies(id, last);
      assert writes[..cut] == front + activation.writes;
      FrontStarts(env, target, d, hardware);
      ApplyAtCut(env, target, d, root, hardware, fault, cut);
      BothCopiesSay(d, id, front + activation.writes, last);
    }
  }

  lemma FrontStarts(env: Env, target: string, d: Disk, hardware: Option<HardwareInputs>)
    requires d.runtime.Some?
    ensures |Front(env, target, d, hardware)| > 0
  {
    hide HardwareRun, ApplyingIn;
  }
}
