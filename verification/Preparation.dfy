/**
 * `prepare`: the immutable plan, its first journal and the staged inputs on the
 * installation medium (src/installer.rs).
 */
module Preparation {
  import opened Wrappers
  import opened DigestCodec
  import opened Documents
  import opened BootBundle
  import opened TargetDisk
  import opened Operations
  import opened CrashInvariant
  import opened ApplyProof
  import opened CrashSafety
  import opened Layout
  import opened Admission

  /** The installer state and the inputs it names; `stateSha` is the digest of the canonical state. */
  datatype Request = Request(
    schema: nat, id: string, stateSha: string, generation: Bytes, bundleRoot: map<string, Bytes>,
    hardwarePlan: Option<Bytes>)

  /** The files beside the plan, each present or not. */
  datatype Media = Media(
    generation: Option<Bytes>, hardwarePlan: Option<Bytes>, plan: Option<Plan>, journal: Option<Journal>)

  datatype Document =
    | StagedGeneration(bytes: Bytes) | StagedHardwarePlan(bytes: Bytes)
    | PlanFile(plan: Plan) | JournalFile(journal: Journal)

  datatype Refusal = BadRequest | Exists(document: Document)

  function Checked(env: Env, request: Request): Option<Bundle> {
    if !ValidTransactionId(request.id) || request.schema != TRANSACTION_SCHEMA then None
    else if env.parentOf(request.generation).None? then None
    else if ReadBootBundle(env, request.bundleRoot).Err? then None
    else if request.hardwarePlan.Some? && !env.hardwarePlanParses(request.hardwarePlan.value) then None
    else Some(ReadBootBundle(env, request.bundleRoot).value)
  }

  function PlanFor(env: Env, request: Request, bundle: Bundle): Plan {
    Plan(TRANSACTION_SCHEMA, request.id, request.stateSha, Digested(env, request.generation),
         Digested(env, bundle.manifest), DISTRIBUTION,
         if request.hardwarePlan.Some? then Some(Digested(env, request.hardwarePlan.value)) else None,
         OperationsFor(request.hardwarePlan.Some?))
  }

  function JournalFor(env: Env, plan: Plan): Journal {
    Journal(TRANSACTION_SCHEMA, plan.id, env.planDigest(plan), Prepared, None, None, plan.generationSha, false, [], [])
  }

  /** The creations, in order; the journal comes last. */
  function DocumentsFor(env: Env, request: Request, bundle: Bundle): seq<Document> {
    var plan := PlanFor(env, request, bundle);
    [StagedGeneration(request.generation)]
    + (if request.hardwarePlan.Some? then [StagedHardwarePlan(request.hardwarePlan.value)] else [])
    + [PlanFile(plan), JournalFile(JournalFor(env, plan))]
  }

  predicate Present(media: Media, document: Document) {
    match document
    case StagedGeneration(_) => media.generation.Some?
    case StagedHardwarePlan(_) => media.hardwarePlan.Some?
    case PlanFile(_) => media.plan.Some?
    case JournalFile(_) => media.journal.Some?
  }

  function Add(media: Media, document: Document): Media {
    match document
    case StagedGeneration(bytes) => media.(generation := Some(bytes))
    case StagedHardwarePlan(bytes) => media.(hardwarePlan := Some(bytes))
    case PlanFile(plan) => media.(plan := Some(plan))
    case JournalFile(journal) => media.(journal := Some(journal))
  }

  /** What is removed when a creation fails. */
  function Discard(media: Media, failed: Document): Media {
    match failed
    case StagedGeneration(_) => media
    case StagedHardwarePlan(_) => media.(generation := None)
    case PlanFile(_) => media.(generation := None, hardwarePlan := None)
    case JournalFile(_) => media.(generation := None, hardwarePlan := None, plan := None)
  }

  function Create(media: Media, documents: seq<Document>): (Media, Result<Unit, Refusal>)
    decreases documents
  {
    if documents == [] then (media, Ok(Unit))
    else if Present(media, documents[0]) then (Discard(media, documents[0]), Err(Exists(documents[0])))
    else Create(Add(media, documents[0]), documents[1..])
  }

  function Prepare(env: Env, media: Media, request: Request): (Media, Result<Unit, Refusal>) {
    match Checked(env, request)
    case None => (media, Err(BadRequest))
    case Some(bundle) => Create(media, DocumentsFor(env, request, bundle))
  }

  /** The medium after a crash that let `n` creations through. */
  function Interrupted(media: Media, documents: seq<Document>, n: nat): Media
    decreases n
  {
    if n == 0 || documents == [] || Present(media, documents[0]) then media
    else Interrupted(Add(media, documents[0]), documents[1..], n - 1)
  }

  /** What the other operations find on the medium. */
  function RuntimeOf(media: Media): Option<Runtime> {
    if media.plan.None? || media.journal.None? || media.generation.None? then None
    else Some(Runtime(media.plan.value, media.journal.value, media.generation.value, media.hardwarePlan))
  }

  class Medium {
    var media: Media

    constructor (media: Media)
      ensures this.media == media
    {
      this.media := media;
    }

    method CreatePrivate(document: Document) returns (created: bool)
      modifies this
      ensures created <==> !Present(old(media), document)
      ensures media == if created then Add(old(media), document) else old(media)
    {
      created := !Present(media, document);
      if created {
        media := Add(media, document);
      }
    }

    /** Check everything first, then create the files one by one, removing them again on a failure. */
    method PrepareInstall(env: Env, request: Request) returns (result: Result<Unit, Refusal>)
      modifies this
      ensures (media, result) == Prepare(env, old(media), request)
    {
      hide Checked, PlanFor, JournalFor;
      var checked := Checked(env, request);
      if checked.None? {
        return Err(BadRequest);
      }
      var plan := PlanFor(env, request, checked.value);
      var journal := JournalFor(env, plan);
      ghost var was, documents := media, DocumentsFor(env, request, checked.value);
      ghost var outcome := Prepare(env, was, request);
      assert outcome == Create(was, documents);
      var document := StagedGeneration(request.generation);
      var created := CreatePrivate(document);
      if !created {
        return Err(Exists(document));
      }
      if request.hardwarePlan.Some? {
        document := StagedHardwarePlan(request.hardwarePlan.value);
        assert documents[1..][0] == document;
        created := CreatePrivate(document);
        if !created {
          media := media.(generation := None);
          return Err(Exists(document));
        }
        assert documents[1..][1..] == [PlanFile(plan), JournalFile(journal)];
      } else {
        assert documents[1..] == [PlanFile(plan), JournalFile(journal)];
      }
      assert outcome == Create(media, [PlanFile(plan), JournalFile(journal)]);
      CreateTail(media, plan, journal);
      document := PlanFile(plan);
      created := CreatePrivate(document);
      if !created {
        media := media.(generation := None, hardwarePlan := None);
        return Err(Exists(document));
      }
      document := JournalFile(journal);
      assert [PlanFile(plan), JournalFile(journal)][1..] == [document];
      created := CreatePrivate(document);
      if !created {
        media := media.(plan := None, generation := None, hardwarePlan := None);
        return Err(Exists(document));
      }
      return Ok(Unit);
    }
  }

  /** The last two creations. */
  lemma {:induction false} CreateTail(media: Media, plan: Plan, journal: Journal)
    ensures Create(media, [PlanFile(plan), JournalFile(journal)]) ==
      if media.plan.Some? then (media.(generation := None, hardwarePlan := None), Err(Exists(PlanFile(plan))))
      else if media.journal.Some? then
        (media.(generation := None, hardwarePlan := None), Err(Exists(JournalFile(journal))))
      else (media.(plan := Some(plan), journal := Some(journal)), Ok(Unit))
  {
    var last := [JournalFile(journal)];
    assert [PlanFile(plan), JournalFile(journal)][1..] == last && last[1..] == [];
    var m := Add(media, PlanFile(plan));
    assert !Present(m, last[0]) ==> Create(m, last) == Create(Add(m, last[0]), []);
  }

  /** The four ways creation ends: nothing is done, or all of it, or a failure is cleaned up. */
  lemma {:induction false} CreateCases(env: Env, media: Media, request: Request, bundle: Bundle)
    ensures var plan := PlanFor(env, request, bundle);
      var (after, result) := Create(media, DocumentsFor(env, request, bundle));
      if media.generation.Some? || (request.hardwarePlan.Some? && media.hardwarePlan.Some?) then
        result.Err? && after == media
      else if media.plan.Some? || media.journal.Some? then
        result.Err? && after == media.(hardwarePlan := None)
      else
        result.Ok? && after == Media(
          Some(request.generation), if request.hardwarePlan.Some? then request.hardwarePlan else media.hardwarePlan,
          Some(plan), Some(JournalFor(env, plan)))
  {
    hide PlanFor, JournalFor;
    var plan := PlanFor(env, request, bundle);
    var documents := DocumentsFor(env, request, bundle);
    var last := [PlanFile(plan), JournalFile(JournalFor(env, plan))];
    var first := Add(media, documents[0]);
    CreateTail(first, plan, JournalFor(env, plan));
    if media.generation.None? {
      assert Create(media, documents) == Create(first, documents[1..]);
      if request.hardwarePlan.Some? {
        var second := documents[1];
        assert documents[1..][0] == second && documents[1..][1..] == last;
        assert !Present(first, second) ==> Create(first, documents[1..]) == Create(Add(first, second), last);
        CreateTail(Add(first, second), plan, JournalFor(env, plan));
      } else {
        assert documents[1..] == last;
      }
    }
  }

  /** What `prepare` demands of its request and of the medium. */
  predicate PrepareAllowed(env: Env, media: Media, request: Request) {
    && request.schema == 1 && LowerHex(request.id, 32)
    && env.parentOf(request.generation).Some?
    && ReadBootBundle(env, request.bundleRoot).Ok?
    && (request.hardwarePlan.Some? ==>
          env.hardwarePlanParses(request.hardwarePlan.value) && media.hardwarePlan.None?)
    && media.generation.None? && media.plan.None? && media.journal.None?
  }

  /**
   * `prepare` succeeds exactly when its request and the medium allow it, and then the
   * medium holds the inputs, the plan that names each of them by digest, and a journal
   * that has done nothing yet.
   */
  lemma {:induction false} PrepareSucceedsExactlyWhen(env: Env, media: Media, request: Request)
    ensures ReadBootBundle(env, request.bundleRoot).Ok? ==> "manifest.json" in request.bundleRoot
    ensures var (after, result) := Prepare(env, media, request);
      && (result.Ok? <==> PrepareAllowed(env, media, request))
      && (result.Ok? ==>
            var plan := Plan(
              1, request.id, request.stateSha, Encode(env.sha(request.generation)),
              Encode(env.sha(request.bundleRoot["manifest.json"])), "ArachOS",
              if request.hardwarePlan.Some? then Some(Encode(env.sha(request.hardwarePlan.value))) else None,
              if request.hardwarePlan.Some?
              then [CorinthInstall, HardwareProvision, GraniteActivate, CosmicVerify]
              else [CorinthInstall, GraniteActivate, CosmicVerify]);
            after == Media(
              Some(request.generation),
              if request.hardwarePlan.Some? then request.hardwarePlan else media.hardwarePlan,
              Some(plan),
              Some(Journal(1, request.id, env.planDigest(plan), Prepared, None, None,
                           Encode(env.sha(request.generation)), false, [], []))))
  {
    hide ReadBootBundle, DocumentsFor, Encode;
    LowerHexIs(request.id);
    ReadsExactlyWholeBundles(env, request.bundleRoot);
    OperationsAre();
    if Checked(env, request).Some? {
      CreateCases(env, media, request, Checked(env, request).value);
    }
  }

  /**
   * What a successful `prepare` leaves is where the run theorems start, on any target;
   * and `apply` refuses none of its documents.
   */
  lemma {:induction false} PreparedIsReady(env: Env, media: Media, request: Request, d: Disk)
    requires Prepare(env, media, request).1.Ok?
    requires d.runtime == RuntimeOf(Prepare(env, media, request).0)
    requires request.id !in d.checkpoints && Installable(env, d)
    ensures Start(env, d)
    ensures ApplyChecks(env, d, request.bundleRoot) == Ok(Checked(env, request).value)
  {
    hide ReadBootBundle, SaneStore, AllClosed;
    var bundle := Checked(env, request).value;
    CreateCases(env, media, request, bundle);
    var r := d.runtime.value;
    EncodeIsValid(env.sha(request.generation));
    EncodeIsValid(env.sha(bundle.manifest));
    if request.hardwarePlan.Some? {
      EncodeIsValid(env.sha(request.hardwarePlan.value));
    }
    assert WellShaped(env, r.plan, r.journal);
    WellShapedIsBound(env, r.plan, r.journal);
  }

  /** The other operations accept the documents on the medium. */
  predicate Loads(env: Env, media: Media) {
    RuntimeOf(media).Some? && Bound(env, media.plan.value, media.journal.value)
  }

  /** No creation before the plan meets a file that is already there. */
  predicate ReachesPlan(media: Media, request: Request) {
    media.generation.None? && (request.hardwarePlan.Some? ==> media.hardwarePlan.None?)
  }

  /**
   * What a crash before the last creation leaves for the other operations to load. On a
   * medium without a journal, nothing. A stale journal is loaded if and only if it is bound
   * to the plan beside it: the stale plan, or the new one when the crash comes just
   * before the new journal; and a bound journal names its plan by id and digest.
   */
  lemma {:induction false} InterruptedLoadsExactlyWhen(env: Env, media: Media, request: Request, bundle: Bundle, n: nat)
    requires n < |DocumentsFor(env, request, bundle)|
    ensures var documents := DocumentsFor(env, request, bundle);
      var plan := PlanFor(env, request, bundle);
      Loads(env, Interrupted(media, documents, n)) <==>
        && media.journal.Some?
        && (if media.plan.Some? then (media.generation.Some? || n > 0)
          && Bound(env, media.plan.value, media.journal.value)
            else n == |documents| - 1 && ReachesPlan(media, request) && Bound(env, plan, media.journal.value))
  {
    hide PlanFor, JournalFor, Bound;
    var documents := DocumentsFor(env, request, bundle);
    var plan := PlanFor(env, request, bundle);
    var first := Add(media, documents[0]);
    if n > 0 && media.generation.None? {
      assert Interrupted(media, documents, n) == Interrupted(first, documents[1..], n - 1);
      if request.hardwarePlan.Some? {
        assert documents[1..][0] == documents[1]
          && documents[1..][1..] == [PlanFile(plan), JournalFile(JournalFor(env, plan))];
        if n > 1 && media.hardwarePlan.None? {
          assert Interrupted(first, documents[1..], n - 1)
            == Interrupted(Add(first, documents[1]), documents[1..][1..], n - 2);
          BeforeJournal(Add(first, documents[1]), plan, JournalFor(env, plan), n - 2);
        }
      } else {
        assert documents[1..] == [PlanFile(plan), JournalFile(JournalFor(env, plan))];
        BeforeJournal(first, plan, JournalFor(env, plan), n - 1);
      }
    }
  }

  lemma {:induction false} BeforeJournal(media: Media, plan: Plan, journal: Journal, n: nat)
    requires n <= 1
    ensures Interrupted(media, [PlanFile(plan), JournalFile(journal)], n)
      == if n == 1 && media.plan.None? then media.(plan := Some(plan)) else media
  {
    assert [PlanFile(plan), JournalFile(journal)][1..] == [JournalFile(journal)];
    assert n == 1 && media.plan.None? ==>
      Interrupted(media, [PlanFile(plan), JournalFile(journal)], n)
        == Interrupted(Add(media, PlanFile(plan)), [JournalFile(journal)], 0);
  }

  /**
   * A refused `prepare` leaves the medium as it was, with one exception: a request
   * without a hardware plan that finds the plan or the journal already there removes
   * a staged hardware plan it did not create.
   */
  lemma {:induction false} RefusedLeavesNoTraceExactlyWhen(env: Env, media: Media, request: Request)
    requires Prepare(env, media, request).1.Err?
    ensures Prepare(env, media, request).0 == media <==>
      || Checked(env, request).None?
      || media.generation.Some?
      || request.hardwarePlan.Some?
      || media.hardwarePlan.None?
  {
    hide Checked, DocumentsFor;
    if Checked(env, request).Some? {
      CreateCases(env, media, request, Checked(env, request).value);
    }
  }
}
