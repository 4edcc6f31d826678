/** Recovery with two open transactions, the second applied over the first. */
module StackedRecovery {
  import opened Wrappers
  import opened DigestCodec
  import opened Documents
  import opened BootBundle
  import opened TargetDisk
  import opened Operations
  import opened CrashInvariant
  import opened UndoProof
  import opened ActivationProof
  import opened ApplyProof
  import opened RecoveryTheorems
  import opened RefusedRollback
  import opened Superseded

  // ----------------------------------------------------------------- a scan that meets two open transactions

  /** `first` is listed before `second`. */
  predicate ListedBefore(names: seq<string>, first: string, second: string) {
    exists i, j | 0 <= i < j < |names| :: names[i] == first && names[j] == second
  }

  lemma {:induction false} ListedInSomeOrder(names: seq<string>, a: string, b: string)
    requires RecoveryTheorems.Distinct(names) && a in names && b in names && a != b
    ensures ListedBefore(names, a, b) <==> !ListedBefore(names, b, a)
  {
    var i :| 0 <= i < |names| && names[i] == a;
    var j :| 0 <= j < |names| && names[j] == b;
    assert i < j ==> ListedBefore(names, a, b);
    assert j < i ==> ListedBefore(names, b, a);
  }

  /** Every listed entry can be loaded, and none but these is open. */
  ghost predicate OnlyOpen(env: Env, d: Disk, names: seq<string>, open: set<string>) {
    forall n | n in names && !DotFile(n) ::
      Loadable(env, d, n) && (d.checkpoints[n].journal.status !in {Verified, RolledBack} <==> n in open)
  }

  /** `rest` is what is listed behind `n`. */
  predicate Behind(names: seq<string>, n: string, rest: seq<string>) {
    |rest| < |names| && names[|names| - |rest| - 1] == n && names[|names| - |rest|..] == rest
  }

  lemma {:induction false} BehindTail(names: seq<string>, n: string, rest: seq<string>)
    requires names != [] && Behind(names[1..], n, rest)
    ensures Behind(names, n, rest)
  {
    assert names[|names| - |rest|..] == names[1..][|names| - 1 - |rest|..];
  }

  lemma BehindHead(names: seq<string>)
    requires names != []
    ensures Behind(names, names[0], names[1..])
  {
  }

  /** The scan ends at the first open entry that cannot be rolled back, and goes on behind it otherwise. */
  lemma {:induction false} ScanToOpen(env: Env, target: string, d: Disk, names: seq<string>, seen: nat, recovered: nat,
                                      open: set<string>) returns (n: string, rest: seq<string>, before: nat)
    requires OnlyOpen(env, d, names, open) && RecoveryTheorems.Distinct(names) && seen + Visible(names) <= 128
    requires open != {} && forall m | m in open :: m in names && !DotFile(m)
    ensures n in open && Behind(names, n, rest)
    ensures forall m | m in open && m != n :: m in rest
    ensures before + Visible(rest) <= 128
    ensures var run := RollbackRun(env, target, d, FromCheckpoint(n));
      var scan := RecoverFrom(env, target, d, names, seen, recovered);
      var more := RecoverFrom(env, target, Exec(d, run.writes), rest, before, recovered + 1);
      if run.result.Ok? then scan == Recovery(run.writes + more.writes, more.result) else scan.result.Err?
    decreases names
  {
    hide Loadable, RollbackRun, RecoverFrom, OnlyOpen, RecoveryTheorems.Distinct,
      Behind;
    var m :| m in open;
    var head, tail := names[0], names[1..];
    assert names == [head] + tail;
    OpenHeadAndTail(env, d, names, open);
    ScanHead(env, target, d, names, seen, recovered);
    if head in open {
      n, rest, before := head, tail, seen + 1;
      BehindHead(names);
    } else {
      n, rest, before := ScanToOpen(env, target, d, tail, if DotFile(head) then seen else seen + 1, recovered, open);
      BehindTail(names, n, rest);
    }
  }

  lemma {:induction false} OpenHeadAndTail(env: Env, d: Disk, names: seq<string>, open: set<string>)
    requires OnlyOpen(env, d, names, open) && RecoveryTheorems.Distinct(names) && names != []
    ensures OnlyOpen(env, d, names[1..], open) && RecoveryTheorems.Distinct(names[1..])
    ensures !DotFile(names[0]) ==>
      names[0] in d.checkpoints && Loadable(env, d, names[0])
      && (d.checkpoints[names[0]].journal.status !in {Verified, RolledBack} <==> names[0] in open)
  {
    hide Bound, ValidTransactionId;
  }

  /** Rolling one back leaves the others as they were. */
  lemma {:induction false} OthersStayOpen(env: Env, target: string, d: Disk, names: seq<string>, rest: seq<string>,
                                          open: set<string>, n: string)
    requires OnlyOpen(env, d, names, open) && n in d.checkpoints && d.checkpoints[n].plan.id == n
    requires n !in rest && forall m | m in rest :: m in names
    ensures OnlyOpen(env, Exec(d, RollbackRun(env, target, d, FromCheckpoint(n)).writes), rest, open - {n})
  {
    hide Bound, RollbackRun, ValidTransactionId, UndoneJournal;
    RollbackTouchesOne(env, target, d, n);
    var next := Exec(d, RollbackRun(env, target, d, FromCheckpoint(n)).writes);
    forall m | m in rest && !DotFile(m)
      ensures Loadable(env, next, m)
        && (next.checkpoints[m].journal.status !in {Verified, RolledBack} <==> m in open - {n})
    {
      assert Loadable(env, d, m) && next.checkpoints[m] == d.checkpoints[m];
    }
  }

  /**
   * With exactly two open transactions listed, recovery is one rollback after the other, in the order of the
   * listing.
   */
  lemma {:induction false} ScanOfTwo(env: Env, target: string, d: Disk, names: seq<string>, a: string, b: string)
    requires OnlyOpen(env, d, names, {a, b}) && RecoveryTheorems.Distinct(names) && Visible(names) <= 128
    requires ListedBefore(names, a, b) && !DotFile(a) && !DotFile(b)
    requires a in d.checkpoints && d.checkpoints[a].plan.id == a && b in d.checkpoints && d.checkpoints[b].plan.id == b
    ensures var first := RollbackRun(env, target, d, FromCheckpoint(a));
      var second := RollbackRun(env, target, Exec(d, first.writes), FromCheckpoint(b));
      var scan := RecoverRun(env, target, d, names);
      && (scan.result.Ok? <==> first.result.Ok? && second.result.Ok?)
      && (scan.result.Ok? ==> scan == Recovery(first.writes + second.writes, Ok(2)))
  {
    hide Bound, RollbackRun, Loadable, RecoverFrom, OnlyOpen, ListedBefore, Behind,
      RecoveryTheorems.Distinct;
    BothListed(names, a, b);
    var n, rest, before := ScanToOpen(env, target, d, names, 0, 0, {a, b});
    EarlierIsFirst(names, rest, n, a, b);
    var first := RollbackRun(env, target, d, FromCheckpoint(a));
    if first.result.Ok? {
      var next := Exec(d, first.writes);
      RestIsShorter(names, rest, a);
      OthersStayOpen(env, target, d, names, rest, {a, b}, a);
      assert {a, b} - {a} == {b};
      RollbackTouchesOne(env, target, d, a);
      ScanOfOne(env, target, next, rest, b, before, 1);
      var second := RollbackRun(env, target, next, FromCheckpoint(b));
      var more := RecoverFrom(env, target, next, rest, before, 1);
      assert more.result.Ok? ==> more == Recovery(second.writes, Ok(2));
    }
  }

  lemma {:induction false} ScanOfOne(env: Env, target: string, d: Disk, names: seq<string>, n: string,
                                     seen: nat, recovered: nat)
    requires OnlyOpen(env, d, names, {n}) && RecoveryTheorems.Distinct(names) && seen + Visible(names) <= 128
    requires n in names && !DotFile(n) && n in d.checkpoints && d.checkpoints[n].plan.id == n
    ensures var undo := RollbackRun(env, target, d, FromCheckpoint(n));
      var scan := RecoverFrom(env, target, d, names, seen, recovered);
      && (scan.result.Ok? <==> undo.result.Ok?)
      && (scan.result.Ok? ==> scan == Recovery(undo.writes, Ok(recovered + 1)))
  {
    hide Bound, RollbackRun, Loadable, RecoverFrom, OnlyOpen, Behind, RecoveryTheorems.Distinct;
    var m, rest, before := ScanToOpen(env, target, d, names, seen, recovered, {n});
    var undo := RollbackRun(env, target, d, FromCheckpoint(n));
    if undo.result.Ok? {
      var last := Exec(d, undo.writes);
      RestIsShorter(names, rest, n);
      OthersStayOpen(env, target, d, names, rest, {n}, n);
      assert {n} - {n} == {};
      AllClosedHere(env, last, rest);
      NothingToRecover(env, target, last, rest, before, recovered + 1);
      assert undo.writes + [] == undo.writes;
    }
  }

  lemma BothListed(names: seq<string>, a: string, b: string)
    requires RecoveryTheorems.Distinct(names) && ListedBefore(names, a, b)
    ensures a != b && a in names && b in names
  {
  }

  lemma {:induction false} EarlierIsFirst(names: seq<string>, rest: seq<string>, n: string, a: string, b: string)
    requires RecoveryTheorems.Distinct(names) && ListedBefore(names, a, b) && Behind(names, n, rest)
    requires n == a || (n == b && (a != b ==> a in rest))
    ensures n == a
  {
    var i, j :| 0 <= i < j < |names| && names[i] == a && names[j] == b;
    EarlierIsNotInRest(names, rest, i);
    assert n == b ==> |names| - |rest| - 1 == j;
  }

  lemma {:induction false} EarlierIsNotInRest(names: seq<string>, rest: seq<string>, i: nat)
    requires RecoveryTheorems.Distinct(names) && |rest| <= |names| && names[|names| - |rest|..] == rest
    requires i < |names|
    ensures i < |names| - |rest| ==> names[i] !in rest
  {
    forall k | 0 <= k < |rest| && i < |names| - |rest|
      ensures rest[k] != names[i]
    {
      assert rest[k] == names[|names| - |rest| + k];
    }
  }

  lemma {:induction false} RestIsShorter(names: seq<string>, rest: seq<string>, n: string)
    requires RecoveryTheorems.Distinct(names) && Behind(names, n, rest)
    ensures RecoveryTheorems.Distinct(rest) && n !in rest && forall m | m in rest :: m in names
  {
    var cut := |names| - |rest|;
    forall k | 0 <= k < |rest|
      ensures rest[k] == names[cut + k] && rest[k] != n
    {
    }
  }

  lemma AllClosedHere(env: Env, d: Disk, names: seq<string>)
    requires OnlyOpen(env, d, names, {})
    ensures forall n | n in names && !DotFile(n) ::
      Loadable(env, d, n) && d.checkpoints[n].journal.status in {Verified, RolledBack}
  {
  }

  // ----------------------------------------------------------------- the second applied over the first

  /** Applied, not verified, and then a second one applied over it. */
  ghost predicate OpenStack(env: Env, target: string, d0: Disk, root: map<string, Bytes>,
                            hardware: Option<HardwareInputs>,
                            second: Runtime, root2: map<string, Bytes>, hardware2: Option<HardwareInputs>)
  {
    && Succeeds(env, target, d0, root, hardware)
    && Succeeds(env, target, AppliedOnce(env, target, d0, root, hardware, second), root2, hardware2)
  }

  function AppliedOnce(env: Env, target: string, d0: Disk, root: map<string, Bytes>, hardware: Option<HardwareInputs>,
                       second: Runtime): Disk
  {
    Exec(d0, ApplyRun(env, target, d0, root, hardware, None).writes).(runtime := Some(second))
  }

  function AppliedTwice(env: Env, target: string, d0: Disk, root: map<string, Bytes>, hardware: Option<HardwareInputs>,
                        second: Runtime, root2: map<string, Bytes>, hardware2: Option<HardwareInputs>): Disk
  {
    var between := AppliedOnce(env, target, d0, root, hardware, second);
    Exec(between, ApplyRun(env, target, between, root2, hardware2, None).writes)
  }

  /** The two scenes: the second one found the first one standing. */
  ghost predicate TwoScenes(env: Env, s: Scene, s2: Scene, before: Disk, d: Disk) {
    && Setting(s) && Setting(s2) && s.target == s2.target && s.digest != s2.digest
    && Standing(env, s, before) && AppliedDisk(env, s2, d)
    && Ckpt(s, before).journal.status == Applied
    && s2.pre.checkpoints == before.checkpoints && s2.pre.boot == before.boot && s2.pre.store == before.store
  }

  /** Newer first: it is undone, and what it leaves is the first one standing as before. */
  lemma {:induction false} NewerFirst(env: Env, s: Scene, s2: Scene, before: Disk, d: Disk)
    requires TwoScenes(env, s, s2, before, d)
    ensures s.plan.id != s2.plan.id
    ensures var undo := RollbackRun(env, s.target, d, FromCheckpoint(s2.plan.id));
      var d1 := Exec(d, undo.writes);
      && undo.result.Ok? && UnderLater(env, s, before, d1)
      && d1.store.present && d1.store.active == before.store.active
      && s.digest in d1.store.parents && d1.store.parents[s.digest] == s.pre.store.active
  {
    hide CheckpointHolds, RuntimeHolds, RecordWith, SavedBelow, RollbackRun, RecordHolds, UndoneJournal;
    FirstIsUnderSecond(env, s, s2, before, d);
    RollbackKeeps(env, s2, -1, d, FromCheckpoint(s2.plan.id));
    var d1 := Exec(d, RollbackRun(env, s.target, d, FromCheckpoint(s2.plan.id)).writes);
    forall i | 0 <= i < |s.files|
      ensures At(d1.boot, s.files[i].destination).Regular?
    {
      var path := s.files[i].destination;
      assert At(before.boot, path) == Regular(s.files[i].bytes);
      if IsDestination(s2, path) {
        var j :| 0 <= j < |s2.files| && s2.files[j].destination == path;
        assert At(d1.boot, path) == Unmarked(s2, -1, j);
      }
    }
  }

  lemma {:induction false} NewerThenOlder(env: Env, s: Scene, s2: Scene, before: Disk, d: Disk)
    requires TwoScenes(env, s, s2, before, d)
    ensures var d1 := Exec(d, RollbackRun(env, s.target, d, FromCheckpoint(s2.plan.id)).writes);
      RollbackRun(env, s.target, d, FromCheckpoint(s2.plan.id)).result.Ok?
      && RollbackRun(env, s.target, d1, FromCheckpoint(s.plan.id)).result.Ok?
  {
    hide Core, Setting, RollbackRun, ReachesGeneration, UnderLater, Standing, AppliedDisk;
    NewerFirst(env, s, s2, before, d);
    var d1 := Exec(d, RollbackRun(env, s.target, d, FromCheckpoint(s2.plan.id)).writes);
    FirstReachesGeneration(env, s, before, d1);
    PublishedActive(env, s, before);
    RefusedExactlyWhen(env, s.target, d1, s.plan.id, s.pre.store.active, s.digest);
  }

  lemma PublishedActive(env: Env, s: Scene, d: Disk)
    requires Standing(env, s, d)
    ensures d.store.active == Some(s.digest)
  {
    hide Core, RecordWith, SavedBelow, InstalledBelow;
  }

  /** Older first: refused, unless the second went back to the generation before the first. */
  lemma {:induction false} OlderFirst(env: Env, s: Scene, s2: Scene, before: Disk, d: Disk)
    requires TwoScenes(env, s, s2, before, d)
    ensures var undo := RollbackRun(env, s.target, d, FromCheckpoint(s.plan.id));
      undo.result.Ok? <==> s.pre.store.active == Some(s2.digest)
  {
    hide Core, Setting, RollbackRun, ReachesGeneration, UnderLater, Standing, AppliedDisk;
    FirstIsUnderSecond(env, s, s2, before, d);
    FirstReachesGeneration(env, s, before, d);
    RefusedExactlyWhen(env, s.target, d, s.plan.id, s.pre.store.active, s.digest);
  }

  lemma {:induction false} OlderThenNewer(env: Env, s: Scene, s2: Scene, before: Disk, d: Disk)
    requires TwoScenes(env, s, s2, before, d) && s.pre.store.active == Some(s2.digest)
    ensures var d1 := Exec(d, RollbackRun(env, s.target, d, FromCheckpoint(s.plan.id)).writes);
      RollbackRun(env, s.target, d, FromCheckpoint(s.plan.id)).result.Ok?
      && RollbackRun(env, s.target, d1, FromCheckpoint(s2.plan.id)).result.Ok?
  {
    hide Core, Setting, RollbackRun, ReachesGeneration, UnderLater, Standing, AppliedDisk, FirstStagesDone,
      UndoneJournal, TwoScenes;
    TwoScenesStand(env, s, s2, before, d);
    FirstIsUnderSecond(env, s, s2, before, d);
    OlderFirst(env, s, s2, before, d);
    FirstReachesGeneration(env, s, before, d);
    var middle := AcceptedRollbackUndoes(env, s.target, d, s.plan.id, s.pre.store.active);
    var d1 := Exec(d, RollbackRun(env, s.target, d, FromCheckpoint(s.plan.id)).writes);
    SecondIsUnderFirst(env, s, s2, before, d, middle, d1);
    FirstReachesGeneration(env, s2, d, d1);
    RefusedExactlyWhen(env, s2.target, d1, s2.plan.id, s2.pre.store.active, s2.digest);
  }

  lemma TwoScenesStand(env: Env, s: Scene, s2: Scene, before: Disk, d: Disk)
    requires TwoScenes(env, s, s2, before, d)
    ensures Setting(s) && Setting(s2) && s.target == s2.target && s.digest != s2.digest
    ensures Standing(env, s, before) && AppliedDisk(env, s2, d)
    ensures s2.pre.checkpoints == before.checkpoints && s2.pre.boot == before.boot && s2.pre.store == before.store
    ensures d.store.present && d.store.active == Some(s2.digest)
    ensures s2.digest in d.store.parents && d.store.parents[s2.digest] == s2.pre.store.active
  {
    hide Core, RecordWith, SavedBelow, InstalledBelow, Setting;
  }

  lemma {:induction false} SecondIsUnderFirst(env: Env, s: Scene, s2: Scene, before: Disk, d: Disk, middle: Disk,
                                              d1: Disk)
    requires Setting(s) && UnderLater(env, s, before, d) && AppliedDisk(env, s2, d) && s.plan.id != s2.plan.id
    requires s2.pre.boot == before.boot
    requires FirstStagesDone(s.plan.id, d, middle) && d1.boot == middle.boot
    requires s.plan.id in d1.checkpoints && d1.checkpoints == d.checkpoints[s.plan.id := d1.checkpoints[s.plan.id]]
    ensures UnderLater(env, s2, d, d1)
  {
    hide Core, RecordWith, SavedBelow, RestoredAt, Standing;
    AppliedStands(env, s2, d);
    FirstCanBeUndone(env, s, before, d);
    UnderLaterFacts(env, s, before, d);
    OldIsRemovable(env, s, before);
    var c := Ckpt(s, d);
    forall j | 0 <= j < |s2.files|
      ensures Removable(At(d1.boot, s2.files[j].destination))
    {
      var path := s2.files[j].destination;
      assert At(d.boot, path) == Regular(s2.files[j].bytes);
      if IsDestination(s, path) {
        var i :| 0 <= i < |s.files| && s.files[i].destination == path;
        assert RestoredAt(d.boot, c.backups, c.record.record.entries, path) == Old(s, i);
      } else {
        EntriesAreDestinations(env, s, before, d);
        RestoredAtUnmarked(d.boot, c.backups, c.record.record.entries, path);
      }
    }
  }

  /** What an installation replaced is a regular file or nothing. */
  lemma {:induction false} OldIsRemovable(env: Env, s: Scene, d: Disk)
    requires Standing(env, s, d)
    ensures forall i | 0 <= i < |s.files| :: Removable(Old(s, i))
  {
    hide Core, RecordWith, InstalledBelow;
    CoreParts(env, s, -1, d);
    forall i | 0 <= i < |s.files|
      ensures Removable(Old(s, i))
    {
      assert Saved(s, Ckpt(s, d).backups, i);
    }
  }

  lemma {:induction false} EntriesAreDestinations(env: Env, s: Scene, before: Disk, d: Disk)
    requires UnderLater(env, s, before, d)
    ensures s.plan.id in d.checkpoints && Ckpt(s, d).record.Whole?
    ensures forall e | e in Ckpt(s, d).record.record.entries :: IsDestination(s, e.destination)
  {
    hide Core, RecordWith, SavedBelow, InstalledBelow;
    var entries := Ckpt(s, d).record.record.entries;
    forall e | e in entries
      ensures IsDestination(s, e.destination)
    {
      var i :| 0 <= i < |entries| && entries[i] == e;
      if i < |s.files| {
        RecordEntriesAre(s, i);
      }
      RecordLength(s);
    }
  }

  lemma RecordLength(s: Scene)
    ensures |RecordWith(s.plan, s.pre.boot, s.files, |s.files|, true).entries| == |s.files|
  {
  }

  /** Newer first gives back the tree and the generation from before both. */
  lemma {:induction false} NewerFirstRestores(env: Env, s: Scene, s2: Scene, before: Disk, d: Disk)
    requires TwoScenes(env, s, s2, before, d)
    ensures var d1 := Exec(d, RollbackRun(env, s.target, d, FromCheckpoint(s2.plan.id)).writes);
      var d2 := Exec(d1, RollbackRun(env, s.target, d1, FromCheckpoint(s.plan.id)).writes);
      d2.store.active == s.pre.store.active && forall path :: At(d2.boot, path) == At(s.pre.boot, path)
  {
    hide Core, Setting, RollbackRun, ReachesGeneration, UnderLater, Standing, AppliedDisk, FirstStagesDone,
      UndoneJournal;
    NewerFirst(env, s, s2, before, d);
    NewerThenOlder(env, s, s2, before, d);
    var d1 := Exec(d, RollbackRun(env, s.target, d, FromCheckpoint(s2.plan.id)).writes);
    FirstReachesGeneration(env, s, before, d1);
    var middle := AcceptedRollbackUndoes(env, s.target, d1, s.plan.id, s.pre.store.active);
    TreeRestored(env, s, s2, before, d, d1, middle);
  }

  lemma {:induction false} TreeRestored(env: Env, s: Scene, s2: Scene, before: Disk, d: Disk, d1: Disk, middle: Disk)
    requires TwoScenes(env, s, s2, before, d) && UnderLater(env, s, before, d1)
    requires d1 == Exec(d, RollbackRun(env, s.target, d, FromCheckpoint(s2.plan.id)).writes)
    requires FirstStagesDone(s.plan.id, d1, middle)
    ensures forall path :: At(middle.boot, path) == At(s.pre.boot, path)
  {
    hide CheckpointHolds, RuntimeHolds, RecordWith, SavedBelow, RollbackRun, RecordHolds, RestoredAt, UndoneJournal,
      UnderLater;
    RollbackKeeps(env, s2, -1, d, FromCheckpoint(s2.plan.id));
    FirstCanBeUndone(env, s, before, d1);
    UnderLaterFacts(env, s, before, d1);
    EntriesAreDestinations(env, s, before, d1);
    var c := Ckpt(s, d1);
    forall path
      ensures At(middle.boot, path) == At(s.pre.boot, path)
    {
      if IsDestination(s, path) {
        var i :| 0 <= i < |s.files| && s.files[i].destination == path;
        assert RestoredAt(d1.boot, c.backups, c.record.record.entries, path) == Old(s, i);
      } else {
        RestoredAtUnmarked(d1.boot, c.backups, c.record.record.entries, path);
        if IsDestination(s2, path) {
          var j :| 0 <= j < |s2.files| && s2.files[j].destination == path;
          assert At(d1.boot, path) == Unmarked(s2, -1, j);
        }
      }
    }
  }

  lemma {:induction false} ScenesOfStack(env: Env, target: string, d0: Disk, root: map<string, Bytes>,
      hardware: Option<HardwareInputs>, second: Runtime, root2: map<string, Bytes>, hardware2: Option<HardwareInputs>)
    returns (s: Scene, s2: Scene)
    requires OpenStack(env, target, d0, root, hardware, second, root2, hardware2)
    requires d0.runtime.Some? && env.sha(second.generation) != env.sha(d0.runtime.value.generation)
    ensures var before := Exec(d0, ApplyRun(env, target, d0, root, hardware, None).writes);
      TwoScenes(env, s, s2, before, AppliedTwice(env, target, d0, root, hardware, second, root2, hardware2))
    ensures s.target == target && s.plan.id == d0.runtime.value.plan.id && s2.plan.id == second.plan.id
    ensures s.pre == d0 && s2.digest == env.sha(second.generation)
  {
    hide Core, ApplyRun, ApplyChecks, FilesOf, Setting, WellShaped, AppliedDisk, Standing, SaneStore;
    s := SceneOf(env, target, d0, ApplyChecks(env, d0, root).value);
    SceneIsSet(env, target, d0, root);
    ApplyKeeps(env, target, d0, root, hardware, None);
    var before := Exec(d0, ApplyRun(env, target, d0, root, hardware, None).writes);
    AppliedStands(env, s, before);
    var between := AppliedOnce(env, target, d0, root, hardware, second);
    s2 := SceneOf(env, target, between, ApplyChecks(env, between, root2).value);
    SceneIsSet(env, target, between, root2);
    ApplyKeeps(env, target, between, root2, hardware2, None);
  }

  /** The two are open and loadable, and nothing else on the target has changed since before the first. */
  lemma {:induction false} TwoAreOpen(env: Env, s: Scene, s2: Scene, before: Disk, d: Disk, names: seq<string>)
    requires TwoScenes(env, s, s2, before, d)
    requires forall n | n in names && !DotFile(n) && n != s.plan.id && n != s2.plan.id ::
      Loadable(env, s.pre, n) && s.pre.checkpoints[n].journal.status in {Verified, RolledBack}
    ensures OnlyOpen(env, d, names, {s.plan.id, s2.plan.id}) && s.plan.id != s2.plan.id
    ensures !DotFile(s.plan.id) && !DotFile(s2.plan.id)
    ensures s.plan.id in d.checkpoints && d.checkpoints[s.plan.id].plan.id == s.plan.id
    ensures s2.plan.id in d.checkpoints && d.checkpoints[s2.plan.id].plan.id == s2.plan.id
  {
    hide Bound, WellShaped, ValidTransactionId, BootHolds, StoreHolds, RecordWith, SavedBelow, InstalledBelow, 
      HardwareFileOk;
    FirstIsUnderSecond(env, s, s2, before, d);
    ThisOneVisible(env, s, -1, before);
    ThisOneVisible(env, s2, -1, d);
    WellShapedIsBound(env, s.plan, Ckpt(s, before).journal);
    WellShapedIsBound(env, s2.plan, Ckpt(s2, d).journal);
    BoundIsNamed(env, s.plan, Ckpt(s, before).journal);
    BoundIsNamed(env, s2.plan, Ckpt(s2, d).journal);
  }

  /**
   * Recovery of two open transactions, the second applied over the first. It succeeds if
   * and only if the directory happens to be listed with the newer one before the older one,
   * or the second went back to the generation from before the first. Newer first, it gives
   * back the boot tree and the generation from before both.
   */
  lemma {:induction false} StackedRecoverySucceedsExactlyWhen(env: Env, target: string, d0: Disk,
                                                              root: map<string, Bytes>,
      hardware: Option<HardwareInputs>, second: Runtime, root2: map<string, Bytes>, hardware2: Option<HardwareInputs>,
      names: seq<string>)
    requires OpenStack(env, target, d0, root, hardware, second, root2, hardware2)
    requires d0.runtime.Some? && env.sha(second.generation) != env.sha(d0.runtime.value.generation)
    requires RecoveryTheorems.Distinct(names) && Visible(names) <= 128
    requires d0.runtime.value.plan.id in names && second.plan.id in names
    requires forall n | n in names && !DotFile(n) && n != d0.runtime.value.plan.id && n != second.plan.id ::
      Loadable(env, d0, n) && d0.checkpoints[n].journal.status in {Verified, RolledBack}
    ensures var older, newer := d0.runtime.value.plan.id, second.plan.id;
      var d := AppliedTwice(env, target, d0, root, hardware, second, root2, hardware2);
      var r := RecoverRun(env, target, d, names);
      var after := Exec(d, r.writes);
      && (r.result.Ok? <==> ListedBefore(names, newer, older) || d0.store.active == Some(env.sha(second.generation)))
      && (r.result.Ok? ==> r.result == Ok(2))
      && (ListedBefore(names, newer, older) ==>
            after.store.active == d0.store.active && forall path :: At(after.boot, path) == At(d0.boot, path))
  {
    hide Core, ApplyRun, ApplyChecks, FilesOf, Setting, WellShaped, AppliedDisk, Standing, TwoScenes, OnlyOpen,
      RollbackRun,
      RecoverFrom, OpenStack, AppliedTwice;
    var s, s2 := ScenesOfStack(env, target, d0, root, hardware, second, root2, hardware2);
    var before := Exec(d0, ApplyRun(env, target, d0, root, hardware, None).writes);
    var d := AppliedTwice(env, target, d0, root, hardware, second, root2, hardware2);
    TwoAreOpen(env, s, s2, before, d, names);
    ListedInSomeOrder(names, s2.plan.id, s.plan.id);
    if ListedBefore(names, s2.plan.id, s.plan.id) {
      NewerThenOlder(env, s, s2, before, d);
      NewerFirstRestores(env, s, s2, before, d);
      assert {s2.plan.id, s.plan.id} == {s.plan.id, s2.plan.id};
      ScanOfTwo(env, target, d, names, s2.plan.id, s.plan.id);
      var first := RollbackRun(env, target, d, FromCheckpoint(s2.plan.id));
      ExecConcat(d, first.writes, RollbackRun(env, target, Exec(d, first.writes), FromCheckpoint(s.plan.id)).writes);
    } else {
      OlderFirst(env, s, s2, before, d);
      ScanOfTwo(env, target, d, names, s.plan.id, s2.plan.id);
      if s.pre.store.active == Some(s2.digest) {
        OlderThenNewer(env, s, s2, before, d);
      }
    }
  }
}
