/**
 * The immutable install plan and the recovery journal (src/installer.rs), as
 * typed records, with the checks every reader applies to them.
 */
module Documents {
  import opened Wrappers
  import opened DigestCodec

  const TRANSACTION_SCHEMA: nat := 1
  const DISTRIBUTION := "ArachOS"

  datatype Operation = CorinthInstall | HardwareProvision | GraniteActivate | CosmicVerify

  datatype Status = Prepared | Applying | CorinthPublished | ApplyFailed | Applied | Verified | RolledBack

  /** The six mutation names the journal may carry; any other text is Unknown. */
  datatype Mutation =
    | Hardware | HardwareUndone
    | Generation | GenerationUndone
    | BootBundle | BootBundleUndone
    | Unknown(text: string)

  datatype Plan = Plan(
    schema: nat, id: string, stateSha: string, generationSha: string, bootSha: string,
    distribution: string, hardwareSha: Option<string>, operations: seq<Operation>)

  datatype Journal = Journal(
    schema: nat, id: string, planSha: string, status: Status, target: Option<string>,
    previous: Option<string>, intended: string, published: bool,
    packages: seq<string>, mutations: seq<Mutation>)

  /** The measured boot manifest: digests of the four base artifacts and of the eight services. */
  type Manifest = m: RawManifest | |m.base| == 4 && |m.cosmic| == 8
    witness RawManifest(0, ["", "", "", ""], [None, None, None, None, None, None, None, None])

  datatype RawManifest = RawManifest(schema: nat, base: seq<string>, cosmic: seq<Option<string>>)

  /** What the model does not look inside: hashing, document encodings and parsers. */
  datatype Env = Env(
    sha: Bytes -> Digest,
    planDigest: Plan -> string,
    parseManifest: Bytes -> Option<Manifest>,
    hardwarePlanParses: Bytes -> bool,
    parentOf: Bytes -> Option<Option<Digest>>)

  function OperationsFor(hasHardwarePlan: bool): seq<Operation> {
    [CorinthInstall] + (if hasHardwarePlan then [HardwareProvision] else []) + [GraniteActivate, CosmicVerify]
  }

  predicate ValidTransactionId(value: string) {
    |value| == 32 && forall i | 0 <= i < |value| :: IsHex(value[i])
  }

  predicate ValidPackageName(value: string) {
    value != "" &&
    forall i | 0 <= i < |value| ::
      'a' <= value[i] <= 'z' || '0' <= value[i] <= '9' || value[i] == '-' || value[i] == '_'
  }

  predicate ValidPackages(packages: seq<string>) {
    forall p | p in packages :: ValidPackageName(p)
  }

  function Count(journal: Journal, mutation: Mutation): nat {
    multiset(journal.mutations)[mutation]
  }

  predicate CoherentTransition(journal: Journal) {
    match journal.status
    case Prepared =>
      journal.target.None? && journal.previous.None? && !journal.published
      && journal.packages == [] && journal.mutations == []
    case Applying =>
      journal.target.Some? && !journal.published
      && Count(journal, Hardware) <= 1 && Count(journal, HardwareUndone) == 0
      && ValidPackages(journal.packages)
    case RolledBack =>
      journal.target.Some? && !journal.published
      && Count(journal, GenerationUndone) == 1
      && Count(journal, BootBundleUndone) == Count(journal, BootBundle)
      && Count(journal, Generation) <= 1
      && Count(journal, HardwareUndone) == Count(journal, Hardware)
      && ValidPackages(journal.packages)
    case _ =>
      journal.target.Some? && journal.published
      && Count(journal, Generation) == 1 && Count(journal, GenerationUndone) == 0
      && Count(journal, BootBundle) <= 1 && Count(journal, BootBundleUndone) == 0
      && Count(journal, Hardware) <= 1 && Count(journal, HardwareUndone) == 0
      && ValidPackages(journal.packages)
  }

  predicate ValidJournal(journal: Journal) {
    && journal.schema == TRANSACTION_SCHEMA
    && ValidTransactionId(journal.id)
    && ValidDigest(journal.intended)
    && (journal.previous.Some? ==> ValidDigest(journal.previous.value))
    && (forall m | m in journal.mutations :: !m.Unknown?)
    && CoherentTransition(journal)
  }

  predicate ValidPlan(plan: Plan) {
    && ValidTransactionId(plan.id)
    && plan.schema == TRANSACTION_SCHEMA
    && plan.distribution == DISTRIBUTION
    && ValidDigest(plan.generationSha)
    && ValidDigest(plan.bootSha)
    && (plan.hardwareSha.Some? ==> ValidDigest(plan.hardwareSha.value))
    && (plan.operations == OperationsFor(false) || plan.operations == OperationsFor(true))
    && (plan.hardwareSha.Some? <==> HardwareProvision in plan.operations)
  }

  /** The acceptance test of `load_bound_documents`. */
  predicate Bound(env: Env, plan: Plan, journal: Journal) {
    && ValidPlan(plan)
    && ValidJournal(journal)
    && plan.id == journal.id
    && journal.planSha == env.planDigest(plan)
    && journal.intended == plan.generationSha
  }

  predicate HardwareFileOk(env: Env, file: Option<Bytes>, expected: Option<string>) {
    expected.Some? ==>
      ValidDigest(expected.value) && file.Some? && env.hardwarePlanParses(file.value)
      && Encode(env.sha(file.value)) == expected.value
  }

  /** The statuses `recover` rolls back. */
  predicate Open(status: Status) {
    status != Verified && status != RolledBack
  }

  // ----------------------------------------------------------------- journal shape

  /** The mutation lists `apply` and `verify` ever write, per status. */
  ghost predicate ForwardMutations(status: Status, mutations: seq<Mutation>) {
    match status
    case Prepared => mutations == []
    case Applying => mutations == [] || mutations == [Hardware]
    case CorinthPublished => mutations == [Generation] || mutations == [Hardware, Generation]
    case ApplyFailed => mutations == [Generation] || mutations == [Hardware, Generation]
    case Applied => mutations == [Generation, BootBundle] || mutations == [Hardware, Generation, BootBundle]
    case Verified => mutations == [Generation, BootBundle] || mutations == [Hardware, Generation, BootBundle]
    case RolledBack => false
  }

  /** What rollback appends: one marker for each stage it undid, and always the generation marker. */
  function Undone(mutations: seq<Mutation>): seq<Mutation> {
    var afterHardware := AddMarker(mutations, Hardware, HardwareUndone);
    var afterBoot := AddMarker(afterHardware, BootBundle, BootBundleUndone);
    if GenerationUndone in afterBoot then afterBoot else afterBoot + [GenerationUndone]
  }

  function AddMarker(mutations: seq<Mutation>, done: Mutation, undone: Mutation): seq<Mutation> {
    if done in mutations && undone !in mutations then mutations + [undone] else mutations
  }

  ghost predicate ReachableMutations(status: Status, mutations: seq<Mutation>) {
    if status == RolledBack then
      exists before, from :: ForwardMutations(before, from) && mutations == Undone(from)
    else
      ForwardMutations(status, mutations)
  }

  /**
   * Every journal a run writes: stronger than `ValidJournal`, which in the
   * applying state leaves generation and boot mutations unbounded.
   */
  ghost predicate WellShaped(env: Env, plan: Plan, journal: Journal) {
    && ValidPlan(plan)
    && journal.schema == TRANSACTION_SCHEMA
    && journal.id == plan.id
    && journal.planSha == env.planDigest(plan)
    && journal.intended == plan.generationSha
    && (journal.previous.Some? ==> ValidDigest(journal.previous.value))
    && (journal.status == Prepared <==> journal.target.None?)
    && (journal.status == Prepared ==> journal.previous.None?)
    && (journal.published <==> journal.status !in {Prepared, Applying, RolledBack})
    && ValidPackages(journal.packages)
    && (journal.packages != [] ==> Hardware in journal.mutations)
    && ReachableMutations(journal.status, journal.mutations)
  }

  function Marked(mutations: seq<Mutation>, done: Mutation, undone: Mutation): nat {
    if done in mutations && undone !in mutations then 1 else 0
  }

  lemma MarkerCount(mutations: seq<Mutation>, done: Mutation, undone: Mutation, m: Mutation)
    ensures multiset(AddMarker(mutations, done, undone))[m]
      == multiset(mutations)[m] + if m == undone then Marked(mutations, done, undone) else 0
    ensures m in AddMarker(mutations, done, undone)
      <==> m in mutations || (m == undone && Marked(mutations, done, undone) == 1)
  {
  }

  /** Rollback adds each marker at most once, for a stage that has none yet, and touches nothing else. */
  lemma {:induction false} UndoneCount(mutations: seq<Mutation>, m: Mutation)
    ensures multiset(Undone(mutations))[m] == multiset(mutations)[m] + match m
      case HardwareUndone => Marked(mutations, Hardware, HardwareUndone)
      case BootBundleUndone => Marked(mutations, BootBundle, BootBundleUndone)
      case GenerationUndone => if GenerationUndone in mutations then 0 else 1
      case _ => 0
  {
    var afterHardware := AddMarker(mutations, Hardware, HardwareUndone);
    MarkerCount(mutations, Hardware, HardwareUndone, m);
    MarkerCount(mutations, Hardware, HardwareUndone, BootBundle);
    MarkerCount(mutations, Hardware, HardwareUndone, BootBundleUndone);
    MarkerCount(mutations, Hardware, HardwareUndone, GenerationUndone);
    MarkerCount(afterHardware, BootBundle, BootBundleUndone, m);
    MarkerCount(afterHardware, BootBundle, BootBundleUndone, GenerationUndone);
  }

  lemma UndoneKnows(mutations: seq<Mutation>)
    requires forall m | m in mutations :: !m.Unknown?
    ensures forall m | m in Undone(mutations) :: !m.Unknown?
  {
  }

  lemma ForwardCounts(status: Status, from: seq<Mutation>)
    requires ForwardMutations(status, from)
    ensures forall m | m in from :: !m.Unknown?
    ensures var c := multiset(from);
      c[Hardware] <= 1 && c[Generation] <= 1 && c[BootBundle] <= 1 &&
      c[HardwareUndone] == c[BootBundleUndone] == c[GenerationUndone] == 0
    ensures (status == CorinthPublished || status == ApplyFailed || status == Applied || status == Verified)
      ==> multiset(from)[Generation] == 1
  {
  }

  /** Every journal of a reachable shape is accepted by its readers. */
  lemma {:induction false} WellShapedIsBound(env: Env, plan: Plan, journal: Journal)
    requires WellShaped(env, plan, journal)
    ensures Bound(env, plan, journal)
  {
    if journal.status == RolledBack {
      var before, from :| ForwardMutations(before, from) && journal.mutations == Undone(from);
      ForwardCounts(before, from);
      UndoneKnows(from);
      forall m ensures Count(journal, m) == multiset(Undone(from))[m] {}
      UndoneCount(from, HardwareUndone);
      UndoneCount(from, Hardware);
      UndoneCount(from, BootBundleUndone);
      UndoneCount(from, BootBundle);
      UndoneCount(from, GenerationUndone);
      UndoneCount(from, Generation);
    } else {
      ForwardCounts(journal.status, journal.mutations);
    }
  }

  /** Undoing a well-shaped journal leaves a well-shaped one. */
  function UndoneJournal(journal: Journal, target: string): Journal {
    journal.(status := RolledBack, target := Some(target), published := false,
             mutations := Undone(journal.mutations))
  }

  lemma {:induction false} UndoneIsWellShaped(env: Env, plan: Plan, journal: Journal, target: string)
    requires WellShaped(env, plan, journal) && journal.status != RolledBack
    ensures WellShaped(env, plan, UndoneJournal(journal, target))
  {
    assert ForwardMutations(journal.status, journal.mutations);
    UndoneCount(journal.mutations, Hardware);
  }

  function MarkerDue(done: nat, undone: nat): nat {
    if done > 0 && undone == 0 then 1 else 0
  }

  lemma {:induction false} UndoneJournalCount(journal: Journal, target: string, m: Mutation)
    ensures Count(UndoneJournal(journal, target), m) == Count(journal, m) + match m
      case HardwareUndone => MarkerDue(Count(journal, Hardware), Count(journal, HardwareUndone))
      case BootBundleUndone => MarkerDue(Count(journal, BootBundle), Count(journal, BootBundleUndone))
      case GenerationUndone => if Count(journal, GenerationUndone) > 0 then 0 else 1
      case _ => 0
  {
    UndoneCount(journal.mutations, m);
    assert forall x :: x in journal.mutations <==> Count(journal, x) > 0;
  }

  lemma {:induction false} UndoneIsCoherentExactlyWhen(journal: Journal, target: string)
    requires CoherentTransition(journal) && journal.status != RolledBack
    ensures CoherentTransition(UndoneJournal(journal, target)) <==>
      && Count(journal, Generation) <= 1
      && Count(journal, GenerationUndone) <= 1
      && (Count(journal, BootBundle) == Count(journal, BootBundleUndone)
          || (Count(journal, BootBundle) == 1 && Count(journal, BootBundleUndone) == 0))
  {
    var undone := UndoneJournal(journal, target);
    UndoneJournalCount(journal, target, Hardware);
    UndoneJournalCount(journal, target, HardwareUndone);
    UndoneJournalCount(journal, target, BootBundle);
    UndoneJournalCount(journal, target, BootBundleUndone);
    UndoneJournalCount(journal, target, Generation);
    UndoneJournalCount(journal, target, GenerationUndone);
  }

  /**
   * What `ValidJournal` misses. Rollback of an accepted journal writes an accepted
   * journal exactly when the mutation counts are bounded, which the applying state
   * does not check.
   */
  lemma {:induction false} UndoneIsBoundExactlyWhen(env: Env, plan: Plan, journal: Journal, target: string)
    requires Bound(env, plan, journal) && journal.status != RolledBack
    ensures Bound(env, plan, UndoneJournal(journal, target)) <==>
      && Count(journal, Generation) <= 1
      && Count(journal, GenerationUndone) <= 1
      && (Count(journal, BootBundle) == Count(journal, BootBundleUndone)
          || (Count(journal, BootBundle) == 1 && Count(journal, BootBundleUndone) == 0))
  {
    UndoneKnows(journal.mutations);
    UndoneIsCoherentExactlyWhen(journal, target);
  }

  /** A journal accepted in the applying state whose rollback writes one that no reader accepts. */
  lemma {:induction false} ApplyingCheckIsTooWeak(env: Env, plan: Plan, journal: Journal, target: string)
    requires Bound(env, plan, journal) && journal.status == Applying
    requires journal.mutations == []
    ensures var doubled := journal.(mutations := [Generation, Generation]);
      Bound(env, plan, doubled) && !Bound(env, plan, UndoneJournal(doubled, target))
  {
    var doubled := journal.(mutations := [Generation, Generation]);
    assert Count(doubled, Generation) == 2;
    UndoneIsBoundExactlyWhen(env, plan, doubled, target);
  }
}
