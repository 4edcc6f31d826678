/**
 * The hardware package set of a transaction: agreement of same-named intents
 * and the split between binary and source packages (src/installer.rs).
 */
module Hardware {
  import opened Wrappers
  import opened Text

  datatype Scope = Driver | Firmware | OtherScope(name: string)

  datatype Intent = Intent(
    name: string, version: string, scope: Scope, repository: string,
    metadataSha: string, artifactSha: string, sourceLockSha: string,
    uncompared: string)

  datatype VerifiedPlan = VerifiedPlan(packages: seq<Intent>)

  datatype Conflict = ConflictingIntents(name: string)

  predicate SameSource(left: Intent, right: Intent) {
    && left.version == right.version
    && left.scope == right.scope
    && left.repository == right.repository
    && left.metadataSha == right.metadataSha
    && left.artifactSha == right.artifactSha
    && left.sourceLockSha == right.sourceLockSha
  }

  /** All intents, plan by plan. */
  function Intents(plans: seq<VerifiedPlan>): seq<Intent> {
    if plans == [] then [] else plans[0].packages + Intents(plans[1..])
  }

  lemma {:induction false} IntentsConcat(left: seq<VerifiedPlan>, right: seq<VerifiedPlan>)
    ensures Intents(left + right) == Intents(left) + Intents(right)
  {
    if left == [] {
      assert left + right == right;
    } else {
      IntentsConcat(left[1..], right);
      assert (left + right)[0] == left[0] && (left + right)[1..] == left[1..] + right;
      Associative(left[0].packages, Intents(left[1..]), Intents(right));
    }
  }

  lemma Associative(a: seq<Intent>, b: seq<Intent>, c: seq<Intent>)
    ensures a + (b + c) == a + b + c
  {
  }

  lemma {:induction false} IntentsStep(plans: seq<VerifiedPlan>, p: nat)
    requires p < |plans|
    ensures Intents(plans[..p + 1]) == Intents(plans[..p]) + plans[p].packages
  {
    var one := [plans[p]];
    assert one[1..] == [];
    assert Intents(one) == plans[p].packages;
    IntentsConcat(plans[..p], one);
    assert plans[..p + 1] == plans[..p] + one;
  }

  lemma {:induction false} IntentsPrefix(plans: seq<VerifiedPlan>, p: nat)
    requires p <= |plans|
    ensures Intents(plans[..p]) <= Intents(plans)
  {
    hide Intents;
    IntentsConcat(plans[..p], plans[p..]);
    assert plans == plans[..p] + plans[p..];
    assert Intents(plans)[..|Intents(plans[..p])|] == Intents(plans[..p]);
  }

  /** Any two intents for one package name agree. */
  predicate Agreeing(intents: seq<Intent>) {
    forall i, j | 0 <= i < j < |intents| && intents[i].name == intents[j].name ::
      SameSource(intents[i], intents[j])
  }

  /** Two intents for one package that a set may hold together: one version, from one place, built from one thing. */
  predicate OneSource(x: Intent, y: Intent) {
    && (x.version, x.scope, x.repository) == (y.version, y.scope, y.repository)
    && (x.metadataSha, x.artifactSha, x.sourceLockSha) == (y.metadataSha, y.artifactSha, y.sourceLockSha)
  }

  lemma {:induction false} AgreeingIs(intents: seq<Intent>)
    ensures Agreeing(intents) <==>
      forall x, y | x in intents && y in intents && x.name == y.name :: OneSource(x, y)
  {
    if Agreeing(intents) {
      forall x, y | x in intents && y in intents && x.name == y.name
        ensures OneSource(x, y)
      {
        AgreeingPair(intents, x, y);
      }
    }
    forall i, j | 0 <= i < j < |intents| && intents[i].name == intents[j].name
      ensures OneSource(intents[i], intents[j]) <==> SameSource(intents[i], intents[j])
      ensures intents[i] in intents && intents[j] in intents
    {
    }
  }

  lemma {:induction false} AgreeingPair(intents: seq<Intent>, left: Intent, right: Intent)
    requires Agreeing(intents) && left in intents && right in intents && left.name == right.name
    ensures SameSource(left, right)
  {
    var i :| 0 <= i < |intents| && intents[i] == left;
    var j :| 0 <= j < |intents| && intents[j] == right;
    if i < j {
      assert SameSource(intents[i], intents[j]);
    }
  }

  ghost predicate Latest(seen: map<string, Intent>, intents: seq<Intent>) {
    && (forall i | 0 <= i < |intents| :: intents[i].name in seen && SameSource(seen[intents[i].name], intents[i]))
    && (forall n | n in seen :: exists i | 0 <= i < |intents| :: intents[i].name == n && intents[i] == seen[n])
  }

  lemma {:induction false} LatestOfOne(seen: map<string, Intent>, intents: seq<Intent>, intent: Intent)
    requires Latest(seen, intents)
    requires intent.name in seen ==> SameSource(seen[intent.name], intent)
    ensures Latest(seen[intent.name := intent], intents + [intent])
  {
    var more := intents + [intent];
    var next := seen[intent.name := intent];
    assert more[|intents|] == intent;
    forall n | n in next
      ensures exists i | 0 <= i < |more| :: more[i].name == n && more[i] == next[n]
    {
      if n != intent.name {
        var i :| 0 <= i < |intents| && intents[i].name == n && intents[i] == seen[n];
        assert more[i] == intents[i];
      }
    }
  }

  lemma LatestOfNone(plans: seq<VerifiedPlan>)
    ensures Intents(plans[..0]) == [] && Latest(map[], [])
  {
  }

  lemma LatestAgrees(seen: map<string, Intent>, intents: seq<Intent>)
    requires Latest(seen, intents)
    ensures Agreeing(intents)
  {
  }

  /** One disagreement with the latest intent of that name is a disagreement of the whole list. */
  lemma {:induction false} Disagreement(seen: map<string, Intent>, intents: seq<Intent>, intent: Intent,
                                        all: seq<Intent>)
    requires Latest(seen, intents) && intents + [intent] <= all
    requires intent.name in seen && !SameSource(seen[intent.name], intent)
    ensures !Agreeing(all) && intent in all && seen[intent.name] in all && seen[intent.name].name == intent.name
    ensures !OneSource(seen[intent.name], intent)
  {
    var i :| 0 <= i < |intents| && intents[i].name == intent.name && intents[i] == seen[intent.name];
    assert all[i] == intents[i] && all[|intents|] == intent;
  }

  /**
   * Although each insert replaces the earlier intent of that name, the loop accepts
   * exactly the sets whose same-named intents agree pairwise, over all plans.
   */
  method ValidateHardwarePackageSet(plans: seq<VerifiedPlan>) returns (result: Result<Unit, Conflict>)
    ensures result.Ok? <==> Agreeing(Intents(plans))
    ensures result.Ok? <==> forall x, y | x in Intents(plans) && y in Intents(plans) && x.name == y.name ::
      OneSource(x, y)
    ensures result.Err? ==> exists x, y | x in Intents(plans) && y in Intents(plans) ::
      x.name == result.error.name == y.name && !OneSource(x, y)
  {
    hide SameSource, Latest, Agreeing, Intents, OneSource;
    AgreeingIs(Intents(plans));
    var packages: map<string, Intent> := map[];
    ghost var all := Intents(plans);
    LatestOfNone(plans);
    ghost var done: seq<Intent> := [];
    for p := 0 to |plans|
      invariant done == Intents(plans[..p])
      invariant Latest(packages, done)
    {
      IntentsStep(plans, p);
      IntentsPrefix(plans, p + 1);
      var intents := plans[p].packages;
      ghost var before := done;
      for i := 0 to |intents|
        invariant done == before + intents[..i]
        invariant Latest(packages, done)
      {
        var intent := intents[i];
        var known := intent.name in packages;
        var previous := if known then packages[intent.name] else intent;
        if known && !SameSource(previous, intent) {
          assert intents[..i] + [intent] <= intents;
          Disagreement(packages, done, intent, all);
          return Err(ConflictingIntents(intent.name));
        }
        LatestOfOne(packages, done, intent);
        packages := packages[intent.name := intent];
        done := done + [intent];
      }
    }
    assert plans[..|plans|] == plans;
    LatestAgrees(packages, done);
    return Ok(Unit);
  }

  /** Exact binary coverage: scope driver or firmware, and an index entry equal in all seven fields. */
  predicate BinaryIntentCovers(index: seq<Intent>, intent: Intent) {
    (intent.scope.Driver? || intent.scope.Firmware?) &&
    exists package | package in index :: package.name == intent.name && SameSource(package, intent)
  }

  function Select(index: seq<Intent>, packages: seq<Intent>, binary: bool): seq<Intent> {
    if packages == [] then []
    else (if BinaryIntentCovers(index, packages[0]) == binary then [packages[0]] else [])
         + Select(index, packages[1..], binary)
  }

  /** One side of the partition; a plan with nothing on that side is dropped. */
  function Side(index: seq<Intent>, plans: seq<VerifiedPlan>, binary: bool): seq<VerifiedPlan> {
    if plans == [] then []
    else
      var kept := Select(index, plans[0].packages, binary);
      (if kept == [] then [] else [VerifiedPlan(kept)]) + Side(index, plans[1..], binary)
  }

  lemma {:induction false} SideEnds(index: seq<Intent>, plans: seq<VerifiedPlan>, binary: bool, kept: seq<VerifiedPlan>)
    requires kept + Side(index, plans[|plans|..], binary) == Side(index, plans, binary)
    ensures kept == Side(index, plans, binary)
  {
    assert plans[|plans|..] == [];
    assert kept + [] == kept;
  }

  lemma {:induction false} SideStep(index: seq<Intent>, plans: seq<VerifiedPlan>, p: nat, binary: bool,
                                    kept: seq<VerifiedPlan>)
    requires p < |plans|
    ensures var part := Select(index, plans[p].packages, binary);
      var next := if part == [] then kept else kept + [VerifiedPlan(part)];
      next + Side(index, plans[p + 1..], binary) == kept + Side(index, plans[p..], binary)
  {
    hide Select;
    assert plans[p..][0] == plans[p] && plans[p..][1..] == plans[p + 1..];
  }

  method PartitionHardwarePlans(index: seq<Intent>, plans: seq<VerifiedPlan>)
    returns (binary: seq<VerifiedPlan>, source: seq<VerifiedPlan>)
    ensures binary == Side(index, plans, true) && source == Side(index, plans, false)
  {
    hide Side, Select;
    binary, source := [], [];
    assert plans[0..] == plans;
    for p := 0 to |plans|
      invariant binary + Side(index, plans[p..], true) == Side(index, plans, true)
      invariant source + Side(index, plans[p..], false) == Side(index, plans, false)
    {
      SideStep(index, plans, p, true, binary);
      SideStep(index, plans, p, false, source);
      var binaryPart := Select(index, plans[p].packages, true);
      var sourcePart := Select(index, plans[p].packages, false);
      if binaryPart != [] {
        binary := binary + [VerifiedPlan(binaryPart)];
      }
      if sourcePart != [] {
        source := source + [VerifiedPlan(sourcePart)];
      }
    }
    SideEnds(index, plans, true, binary);
    SideEnds(index, plans, false, source);
  }

  function Names(intents: seq<Intent>): seq<string> {
    seq(|intents|, i requires 0 <= i < |intents| => intents[i].name)
  }

  lemma {:induction false} SelectMembers(index: seq<Intent>, packages: seq<Intent>, binary: bool, intent: Intent)
    ensures intent in Select(index, packages, binary)
      <==> intent in packages && BinaryIntentCovers(index, intent) == binary
  {
    if packages != [] {
      SelectMembers(index, packages[1..], binary, intent);
      assert packages == [packages[0]] + packages[1..];
    }
  }

  /** Nothing is lost and nothing is invented: an intent is on a side iff it was planned and belongs there. */
  lemma {:induction false} SideMembers(index: seq<Intent>, plans: seq<VerifiedPlan>, binary: bool, intent: Intent)
    ensures intent in Intents(Side(index, plans, binary))
      <==> intent in Intents(plans) && BinaryIntentCovers(index, intent) == binary
  {
    if plans != [] {
      var kept := Select(index, plans[0].packages, binary);
      SelectMembers(index, plans[0].packages, binary, intent);
      SideMembers(index, plans[1..], binary, intent);
      var head := if kept == [] then [] else [VerifiedPlan(kept)];
      IntentsConcat(head, Side(index, plans[1..], binary));
      assert kept != [] ==> Intents(head) == kept + Intents([]);
    }
  }

  /** The binary side: drivers and firmware for which the index holds the very same package. */
  lemma {:induction false} BinarySideIs(index: seq<Intent>, plans: seq<VerifiedPlan>, intent: Intent)
    ensures intent in Intents(Side(index, plans, true)) <==>
      && intent in Intents(plans)
      && (intent.scope == Driver || intent.scope == Firmware)
      && exists package | package in index :: package.name == intent.name && OneSource(package, intent)
    ensures intent in Intents(Side(index, plans, false)) <==>
      intent in Intents(plans) && intent !in Intents(Side(index, plans, true))
  {
    hide Intents, Side;
    SideMembers(index, plans, true, intent);
    SideMembers(index, plans, false, intent);
    forall package | package in index
      ensures OneSource(package, intent) <==> SameSource(package, intent)
    {
    }
  }

  /** Every package of the binary side is installed before every package of the source side. */
  lemma {:induction false} BinarySideComesFirst(index: seq<Intent>, plans: seq<VerifiedPlan>)
    ensures var order, binary, source :=
        InstallOrder(index, plans), Intents(Side(index, plans, true)), Intents(Side(index, plans, false));
      && |order| == |binary| + |source|
      && (forall i | 0 <= i < |binary| :: order[i] == binary[i].name)
      && (forall i | 0 <= i < |source| :: order[|binary| + i] == source[i].name)
  {
  }

  /** In an accepted set no package name is on both sides. */
  lemma {:induction false} SidesAreDisjoint(index: seq<Intent>, plans: seq<VerifiedPlan>, left: Intent, right: Intent)
    requires Agreeing(Intents(plans))
    requires left in Intents(Side(index, plans, true)) && right in Intents(Side(index, plans, false))
    ensures left.name != right.name
  {
    SideMembers(index, plans, true, left);
    SideMembers(index, plans, false, right);
    if left.name == right.name {
      AgreeingPair(Intents(plans), left, right);
    }
  }

  lemma {:induction false} NamesMembers(intents: seq<Intent>, name: string)
    ensures name in Names(intents) <==> exists x | x in intents :: x.name == name
  {
    if name in Names(intents) {
      var i :| 0 <= i < |Names(intents)| && Names(intents)[i] == name;
      assert intents[i] in intents;
    }
    if x :| x in intents && x.name == name {
      var i :| 0 <= i < |intents| && intents[i] == x;
      assert Names(intents)[i] == name;
    }
  }

  /** The package list journaled before provisioning. */
  function ExpectedPackages(plans: seq<VerifiedPlan>): seq<string> {
    Ordered(Names(Intents(plans)))
  }

  /** The names installed, in installation order: the binary side first, then the source side. */
  function InstallOrder(index: seq<Intent>, plans: seq<VerifiedPlan>): seq<string> {
    Names(Intents(Side(index, plans, true))) + Names(Intents(Side(index, plans, false)))
  }

  /** The receipts name exactly the packages announced, so the two journal entries agree. */
  lemma {:induction false} ReceiptsMatchAnnouncement(index: seq<Intent>, plans: seq<VerifiedPlan>)
    ensures Ordered(InstallOrder(index, plans)) == ExpectedPackages(plans)
    ensures forall name :: name in InstallOrder(index, plans) <==> name in ExpectedPackages(plans)
  {
    var order, names := InstallOrder(index, plans), Names(Intents(plans));
    OrderedIsAscending(order);
    OrderedIsAscending(names);
    var binary, source := Intents(Side(index, plans, true)), Intents(Side(index, plans, false));
    forall name
      ensures name in order <==> name in names
    {
      NamesMembers(Intents(plans), name);
      NamesMembers(binary, name);
      NamesMembers(source, name);
      forall x | x in Intents(plans) || x in binary || x in source
        ensures x in Intents(plans) && (x in binary || x in source)
      {
        SideMembers(index, plans, true, x);
        SideMembers(index, plans, false, x);
      }
    }
    AscendingIsUnique(Ordered(order), Ordered(names));
  }
}
