/**
 * The release channel policy: the releases of each channel and the promotion
 * chain from development to stable (scripts/verify_release_channels.py).
 */
module ReleaseChannels {
  import opened Wrappers
  import Readiness

  const DEVELOPMENT := "development"
  const TESTING := "testing"
  const STABLE := "stable"
  const MINIMUM_QUORUM: int := 2

  /** Times are an abstract total order; `fieldsOk` stands for the formats, the advisory and the release report. */
  datatype Release = Release(
    channel: string, sequence: int, version: string, publishedAt: int,
    revision: string, componentsLock: string, packageGeneration: string, image: string, signature: string,
    promotedFrom: Option<int>, soakSeconds: int, mirrorCount: int, rollbackTested: bool,
    evidenceKinds: set<string>, evidenceTimes: seq<int>, fieldsOk: bool)

  datatype Channel = Channel(
    retained: int, rollbacks: int, minimumSoak: int, requiredGates: seq<string>, requiredEvidence: set<string>)

  /** The three channels, in rank order. */
  datatype Policy = Policy(development: Channel, testing: Channel, stable: Channel)

  datatype PolicyError =
    | BadReadiness | BadChannel | BadRelease(index: nat) | DuplicateVersion(index: nat)
    | DuplicateSequences(channel: string) | NotMonotonic(channel: string) | TooMany(channel: string)
    | NoSource(release: Release) | FieldChanged(release: Release) | PublishedTooEarly(release: Release)

  predicate IsChannel(name: string) {
    name == DEVELOPMENT || name == TESTING || name == STABLE
  }

  function ChannelOf(policy: Policy, name: string): Channel {
    if name == DEVELOPMENT then policy.development else if name == TESTING then policy.testing else policy.stable
  }

  function PreviousOf(name: string): string {
    if name == STABLE then TESTING else DEVELOPMENT
  }

  /** The status of each gate of the ledger; a repeated id is refused. */
  function ReadinessStatus(gates: seq<Readiness.Gate>): Option<map<string, Readiness.Status>> {
    if gates == [] then Some(map[])
    else
      var rest, gate := ReadinessStatus(gates[..|gates| - 1]), gates[|gates| - 1];
      if rest.None? || gate.id in rest.value then None else Some(rest.value[gate.id := gate.status])
  }

  predicate ChannelAccepted(channel: Channel, readiness: map<string, Readiness.Status>) {
    && channel.retained >= 2
    && 1 <= channel.rollbacks < channel.retained
    && channel.minimumSoak >= 0
    && Readiness.Distinct(channel.requiredGates)
    && forall gate | gate in channel.requiredGates :: gate in readiness
  }

  predicate GatesQualified(channel: Channel, readiness: map<string, Readiness.Status>) {
    forall gate | gate in channel.requiredGates :: gate in readiness && readiness[gate].Qualified?
  }

  predicate ReleaseAccepted(policy: Policy, readiness: map<string, Readiness.Status>, release: Release) {
    && IsChannel(release.channel)
    && release.sequence > 0
    && release.fieldsOk
    && release.soakSeconds >= ChannelOf(policy, release.channel).minimumSoak
    && release.mirrorCount >= MINIMUM_QUORUM
    && release.rollbackTested
    && GatesQualified(ChannelOf(policy, release.channel), readiness)
    && ChannelOf(policy, release.channel).requiredEvidence <= release.evidenceKinds
    && (forall time | time in release.evidenceTimes :: time <= release.publishedAt)
    && (if release.channel == DEVELOPMENT then release.promotedFrom.None?
        else release.promotedFrom.Some? && release.promotedFrom.value > 0)
  }

  function OfChannel(releases: seq<Release>, name: string): seq<Release> {
    if releases == [] then []
    else OfChannel(releases[..|releases| - 1], name)
         + (if releases[|releases| - 1].channel == name then [releases[|releases| - 1]] else [])
  }

  predicate DistinctSequences(records: seq<Release>) {
    forall i, j | 0 <= i < j < |records| :: records[i].sequence != records[j].sequence
  }

  predicate DistinctVersions(releases: seq<Release>) {
    forall i, j | 0 <= i < j < |releases| && releases[i].channel == releases[j].channel ::
      releases[i].version != releases[j].version
  }

  /** The five immutable fields. */
  predicate SameBuild(left: Release, right: Release) {
    && left.revision == right.revision
    && left.componentsLock == right.componentsLock
    && left.packageGeneration == right.packageGeneration
    && left.image == right.image
    && left.signature == right.signature
  }

  predicate Promotes(source: Release, release: Release) {
    && release.promotedFrom == Some(source.sequence)
    && SameBuild(release, source)
    && source.publishedAt <= release.publishedAt
  }

  predicate Promoted(releases: seq<Release>, release: Release) {
    exists source | source in releases :: source.channel == PreviousOf(release.channel) && Promotes(source, release)
  }

  /** What the policy demands of the channel `name`, whatever order the releases are listed in. */
  predicate ChannelHolds(policy: Policy, releases: seq<Release>, name: string) {
    DistinctSequences(OfChannel(releases, name)) && |OfChannel(releases, name)| <= ChannelOf(policy, name).retained
  }

  predicate ChannelsAccepted(policy: Policy, gates: seq<Readiness.Gate>) {
    ReadinessStatus(gates).Some? &&
    var readiness := ReadinessStatus(gates).value;
    && ChannelAccepted(policy.development, readiness)
    && ChannelAccepted(policy.testing, readiness)
    && ChannelAccepted(policy.stable, readiness)
    && policy.testing.requiredGates != [] && policy.stable.requiredGates != []
  }

  predicate Acceptable(policy: Policy, gates: seq<Readiness.Gate>, releases: seq<Release>) {
    && ChannelsAccepted(policy, gates)
    && (forall r | r in releases :: ReleaseAccepted(policy, ReadinessStatus(gates).value, r))
    && DistinctVersions(releases)
    && ChannelHolds(policy, releases, DEVELOPMENT)
    && ChannelHolds(policy, releases, TESTING)
    && ChannelHolds(policy, releases, STABLE)
    && (forall r | r in releases && r.channel != DEVELOPMENT :: Promoted(releases, r))
  }

  // ----------------------------------------------------------------- sorting

  predicate Ascending(records: seq<Release>) {
    forall i, j | 0 <= i < j < |records| :: records[i].sequence <= records[j].sequence
  }

  predicate StrictlyAscending(records: seq<Release>) {
    forall i, j | 0 <= i < j < |records| :: records[i].sequence < records[j].sequence
  }

  function Insert(record: Release, records: seq<Release>): seq<Release> {
    if records == [] || record.sequence < records[0].sequence then [record] + records
    else [records[0]] + Insert(record, records[1..])
  }

  /** The stable sort by sequence. */
  function Sorted(records: seq<Release>): seq<Release> {
    if records == [] then [] else Insert(records[|records| - 1], Sorted(records[..|records| - 1]))
  }

  lemma {:induction false} InsertHolds(record: Release, records: seq<Release>)
    ensures multiset(Insert(record, records)) == multiset(records) + multiset{record}
    ensures forall r :: r in Insert(record, records) <==> r == record || r in records
  {
    if records != [] && records[0].sequence <= record.sequence {
      InsertHolds(record, records[1..]);
      assert records == [records[0]] + records[1..];
    }
  }

  lemma {:induction false} InsertAscends(record: Release, records: seq<Release>)
    requires Ascending(records)
    ensures Ascending(Insert(record, records))
  {
    if records != [] && records[0].sequence <= record.sequence {
      var rest := Insert(record, records[1..]);
      InsertAscends(record, records[1..]);
      InsertHolds(record, records[1..]);
      forall i | 0 <= i < |rest|
        ensures records[0].sequence <= rest[i].sequence
      {
        assert rest[i] in rest;
      }
    }
  }

  /** Sorting reorders the records and does nothing else. */
  lemma {:induction false} SortedKeeps(records: seq<Release>)
    ensures Ascending(Sorted(records))
    ensures multiset(Sorted(records)) == multiset(records)
    decreases records
  {
    if records != [] {
      SortedKeeps(records[..|records| - 1]);
      InsertHolds(records[|records| - 1], Sorted(records[..|records| - 1]));
      InsertAscends(records[|records| - 1], Sorted(records[..|records| - 1]));
      assert records == records[..|records| - 1] + [records[|records| - 1]];
    }
  }

  function Sequences(records: seq<Release>): seq<int> {
    seq(|records|, i requires 0 <= i < |records| => records[i].sequence)
  }

  function Values(numbers: seq<int>): set<int> {
    set n | n in numbers
  }

  predicate NoRepeats(numbers: seq<int>) {
    forall i, j | 0 <= i < j < |numbers| :: numbers[i] != numbers[j]
  }

  /** Counting distinct values is how the program looks for a repeat. */
  lemma {:induction false} CountsRepeats(numbers: seq<int>)
    ensures |Values(numbers)| <= |numbers|
    ensures |Values(numbers)| == |numbers| <==> NoRepeats(numbers)
  {
    if numbers != [] {
      var last, rest := numbers[|numbers| - 1], numbers[..|numbers| - 1];
      CountsRepeats(rest);
      assert numbers == rest + [last];
      assert Values(numbers) == Values(rest) + {last};
      if last in rest {
        var i :| 0 <= i < |rest| && rest[i] == last;
        assert numbers[i] == numbers[|rest|];
        assert Values(numbers) == Values(rest);
      } else {
        assert forall i, j | 0 <= i < j < |numbers| && NoRepeats(rest) :: numbers[i] != numbers[j];
        assert NoRepeats(numbers) ==> NoRepeats(rest);
      }
    }
  }

  lemma {:induction false} LengthOfMultiset(left: seq<Release>, right: seq<Release>)
    requires multiset(left) == multiset(right)
    ensures |left| == |right|
    ensures forall r :: r in left <==> r in right
  {
    assert |multiset(left)| == |left| && |multiset(right)| == |right|;
    assert forall r :: r in left <==> r in multiset(left);
    assert forall r :: r in right <==> r in multiset(right);
  }

  lemma {:induction false} DistinctIsCounted(records: seq<Release>)
    ensures DistinctSequences(records) <==> |Values(Sequences(records))| == |records|
  {
    CountsRepeats(Sequences(records));
    assert NoRepeats(Sequences(records)) == DistinctSequences(records) by {
      assert forall i | 0 <= i < |records| :: Sequences(records)[i] == records[i].sequence;
    }
  }

  /** Distinctness of sequences is a matter of the records, not of their order. */
  lemma {:induction false} SortedIsDistinct(records: seq<Release>)
    ensures |Sorted(records)| == |records|
    ensures DistinctSequences(Sorted(records)) <==> DistinctSequences(records)
    ensures forall r :: r in Sorted(records) <==> r in records
  {
    var sorted := Sorted(records);
    SortedKeeps(records);
    LengthOfMultiset(sorted, records);
    DistinctIsCounted(records);
    DistinctIsCounted(sorted);
    ValuesAre(records);
    ValuesAre(sorted);
    assert Values(Sequences(sorted)) == Values(Sequences(records));
  }

  lemma {:induction false} ValuesAre(records: seq<Release>)
    ensures forall n :: n in Values(Sequences(records)) <==> exists r :: r in records && r.sequence == n
  {
    forall n
      ensures n in Values(Sequences(records)) <==> exists r :: r in records && r.sequence == n
    {
      if n in Values(Sequences(records)) {
        var i :| 0 <= i < |records| && Sequences(records)[i] == n;
        assert records[i] in records;
      }
      if r :| r in records && r.sequence == n {
        var i :| 0 <= i < |records| && records[i] == r;
        assert Sequences(records)[i] == n;
      }
    }
  }

  lemma DistinctAscends(records: seq<Release>)
    requires Ascending(records) && DistinctSequences(records)
    ensures StrictlyAscending(records)
  {
  }

  // ----------------------------------------------------------------- the checks, as they run

  /**
   * One channel: sort, look for repeated sequences, test monotonicity, bound the
   * number of releases. The monotonicity test can never fire.
   */
  method CheckChannel(name: string, records: seq<Release>, retained: int)
    returns (sorted: seq<Release>, fault: Option<PolicyError>)
    ensures fault.None? <==> DistinctSequences(records) && |records| <= retained
    ensures fault.Some? ==> !fault.value.NotMonotonic?
    ensures sorted == Sorted(records)
    ensures fault.None? ==> StrictlyAscending(sorted) && multiset(sorted) == multiset(records)
  {
    sorted := Sorted(records);
    SortedKeeps(records);
    SortedIsDistinct(records);
    DistinctIsCounted(sorted);
    if |Values(Sequences(sorted))| != |sorted| {
      return sorted, Some(DuplicateSequences(name));
    }
    DistinctAscends(sorted);
    if exists i | 0 <= i < |sorted| - 1 :: sorted[i].sequence >= sorted[i + 1].sequence {
      return sorted, Some(NotMonotonic(name));
    }
    if |sorted| > retained {
      return sorted, Some(TooMany(name));
    }
    return sorted, None;
  }

  /** The later of two records with one sequence replaces the earlier. */
  function BySequence(records: seq<Release>): map<int, Release> {
    if records == [] then map[]
    else BySequence(records[..|records| - 1])[records[|records| - 1].sequence := records[|records| - 1]]
  }

  lemma {:induction false} BySequenceFinds(records: seq<Release>, n: int)
    ensures n in BySequence(records) ==> BySequence(records)[n] in records && BySequence(records)[n].sequence == n
    ensures forall r | r in records :: r.sequence in BySequence(records)
    decreases records
  {
    if records != [] {
      BySequenceFinds(records[..|records| - 1], n);
      assert records == records[..|records| - 1] + [records[|records| - 1]];
    }
  }

  lemma {:induction false} DistinctPair(records: seq<Release>, left: Release, right: Release)
    requires DistinctSequences(records) && left in records && right in records && left.sequence == right.sequence
    ensures left == right
  {
    var i :| 0 <= i < |records| && records[i] == left;
    var j :| 0 <= j < |records| && records[j] == right;
  }

  predicate HasSource(previous: seq<Release>, release: Release) {
    exists source | source in previous :: Promotes(source, release)
  }

  lemma {:induction false} OnlySource(previous: seq<Release>, source: Release, release: Release)
    requires DistinctSequences(previous) && source in previous && release.promotedFrom == Some(source.sequence)
    ensures HasSource(previous, release) <==> Promotes(source, release)
  {
    if other :| other in previous && Promotes(other, release) {
      DistinctPair(previous, other, source);
    }
  }

  /** Every release of a channel against the record of the previous channel that it names. */
  method CheckPromotions(records: seq<Release>, previous: seq<Release>) returns (fault: Option<PolicyError>)
    requires DistinctSequences(previous)
    requires forall r | r in records :: r.promotedFrom.Some?
    ensures fault.None? <==> forall r | r in records :: HasSource(previous, r)
    ensures fault.Some? ==> !fault.value.NotMonotonic?
  {
    var bySequence := BySequence(previous);
    for i := 0 to |records|
      invariant forall k | 0 <= k < i :: HasSource(previous, records[k])
    {
      var release := records[i];
      assert release in records;
      var wanted := release.promotedFrom.value;
      BySequenceFinds(previous, wanted);
      if wanted !in bySequence {
        return Some(NoSource(release));
      }
      var source := bySequence[wanted];
      OnlySource(previous, source, release);
      if !SameBuild(release, source) {
        return Some(FieldChanged(release));
      }
      if release.publishedAt < source.publishedAt {
        return Some(PublishedTooEarly(release));
      }
    }
    return None;
  }

  // ----------------------------------------------------------------- the whole policy

  lemma {:induction false} OfChannelMembers(releases: seq<Release>, name: string, release: Release)
    ensures release in OfChannel(releases, name) <==> release in releases && release.channel == name
    decreases releases
  {
    if releases != [] {
      OfChannelMembers(releases[..|releases| - 1], name, release);
      assert releases == releases[..|releases| - 1] + [releases[|releases| - 1]];
    }
  }

  lemma {:induction false} OfChannelStep(releases: seq<Release>, i: nat, name: string)
    requires i < |releases|
    ensures OfChannel(releases[..i + 1], name)
      == OfChannel(releases[..i], name) + (if releases[i].channel == name then [releases[i]] else [])
  {
    assert releases[..i + 1][..i] == releases[..i];
  }

  /** The channels in the order their first release is listed, and the lists and counts filled so far. */
  datatype Gathering = Gathering(order: seq<string>, byChannel: map<string, seq<Release>>, counts: map<string, nat>)

  ghost predicate Gathered(releases: seq<Release>, g: Gathering) {
    && (forall c :: c in g.order <==> c in g.byChannel)
    && Readiness.Distinct(g.order)
    && (forall c :: c in g.byChannel <==> OfChannel(releases, c) != [])
    && (forall c | c in g.byChannel :: g.byChannel[c] == OfChannel(releases, c))
    && (forall c :: c in g.counts <==> c in g.byChannel)
    && (forall c | c in g.counts :: g.counts[c] == |OfChannel(releases, c)|)
  }

  ghost predicate SeenVersions(releases: seq<Release>, seen: set<(string, string)>) {
    && (forall i | 0 <= i < |releases| :: (releases[i].channel, releases[i].version) in seen)
    && (forall v | v in seen :: exists i | 0 <= i < |releases| :: (releases[i].channel, releases[i].version) == v)
  }

  function Append(g: Gathering, release: Release): Gathering {
    var c := release.channel;
    if c in g.byChannel && c in g.counts then
      Gathering(g.order, g.byChannel[c := g.byChannel[c] + [release]], g.counts[c := g.counts[c] + 1])
    else Gathering(g.order + [c], g.byChannel[c := [release]], g.counts[c := 1])
  }

  lemma AppendOrder(g: Gathering, release: Release)
    requires Readiness.Distinct(g.order) && (forall c :: c in g.order <==> c in g.byChannel)
    requires forall c :: c in g.counts <==> c in g.byChannel
    ensures Readiness.Distinct(Append(g, release).order)
    ensures forall c :: c in Append(g, release).order <==> c in Append(g, release).byChannel
  {
  }

  lemma AppendLists(g: Gathering, release: Release)
    requires forall c :: c in g.counts <==> c in g.byChannel
    requires forall c | c in g.counts :: g.counts[c] == |g.byChannel[c]|
    ensures var next := Append(g, release);
      && (forall c :: c in next.counts <==> c in next.byChannel)
      && (forall c :: c in next.byChannel <==> c == release.channel || c in g.byChannel)
      && (forall c | c in next.byChannel ::
            next.byChannel[c] == Records(g.byChannel, c) + (if c == release.channel then [release] else []))
      && (forall c | c in next.counts :: next.counts[c] == |next.byChannel[c]|)
  {
  }

  lemma {:induction false} AppendKeeps(releases: seq<Release>, i: nat, g: Gathering)
    requires i < |releases| && Gathered(releases[..i], g)
    ensures Gathered(releases[..i + 1], Append(g, releases[i]))
  {
    hide OfChannel, Readiness.Distinct, Append;
    var release := releases[i];
    forall c
      ensures OfChannel(releases[..i + 1], c)
        == OfChannel(releases[..i], c) + (if c == release.channel then [release] else [])
    {
      OfChannelStep(releases, i, c);
    }
    AppendOrder(g, release);
    AppendLists(g, release);
  }

  lemma NothingGathered()
    ensures Gathered([], Gathering([], map[], map[])) && SeenVersions([], {}) && DistinctVersions([])
  {
  }

  lemma {:induction false} SeeOne(releases: seq<Release>, i: nat, seen: set<(string, string)>)
    requires i < |releases| && SeenVersions(releases[..i], seen) && DistinctVersions(releases[..i])
    ensures var v := (releases[i].channel, releases[i].version);
      if v in seen then !DistinctVersions(releases)
      else SeenVersions(releases[..i + 1], seen + {v}) && DistinctVersions(releases[..i + 1])
  {
    var done, more := releases[..i], releases[..i + 1];
    var v := (releases[i].channel, releases[i].version);
    if v in seen {
      var k :| 0 <= k < i && (done[k].channel, done[k].version) == v;
      assert releases[k] == done[k];
    } else {
      assert more == done + [releases[i]];
      forall w | w in seen + {v}
        ensures exists k | 0 <= k < |more| :: (more[k].channel, more[k].version) == w
      {
        if w in seen {
          var k :| 0 <= k < |done| && (done[k].channel, done[k].version) == w;
          assert more[k] == done[k];
        } else {
          assert more[i] == releases[i];
        }
      }
    }
  }

  /** The loop over the releases, in the order they are listed. */
  method GatherReleases(policy: Policy, readiness: map<string, Readiness.Status>, releases: seq<Release>)
    returns (fault: Option<PolicyError>, g: Gathering)
    ensures fault.None? <==>
      (forall r | r in releases :: ReleaseAccepted(policy, readiness, r)) && DistinctVersions(releases)
    ensures fault.None? ==> Gathered(releases, g)
    ensures fault.Some? ==> !fault.value.NotMonotonic?
  {
    hide ReleaseAccepted, Gathered, SeenVersions, DistinctVersions, Append;
    var seen: set<(string, string)> := {};
    g := Gathering([], map[], map[]);
    NothingGathered();
    assert releases[..0] == [];
    for i := 0 to |releases|
      invariant Gathered(releases[..i], g) && SeenVersions(releases[..i], seen)
      invariant forall k | 0 <= k < i :: ReleaseAccepted(policy, readiness, releases[k])
      invariant DistinctVersions(releases[..i])
    {
      var release := releases[i];
      assert release in releases;
      SeeOne(releases, i, seen);
      if (release.channel, release.version) in seen {
        return Some(DuplicateVersion(i)), g;
      }
      seen := seen + {(release.channel, release.version)};
      if !ReleaseAccepted(policy, readiness, release) {
        return Some(BadRelease(i)), g;
      }
      AppendKeeps(releases, i, g);
      g := Append(g, release);
    }
    assert releases[..|releases|] == releases;
    return None, g;
  }

  function Records(byChannel: map<string, seq<Release>>, name: string): seq<Release> {
    if name in byChannel then byChannel[name] else []
  }

  /** The lists of the first `n` channels are sorted, the others are as gathered. */
  ghost predicate SortedUpTo(releases: seq<Release>, order: seq<string>, byChannel: map<string, seq<Release>>, n: nat)
    requires n <= |order|
  {
    && (forall c :: c in order <==> c in byChannel)
    && forall c | c in byChannel ::
         byChannel[c] == (if c in order[..n] then Sorted(OfChannel(releases, c)) else OfChannel(releases, c))
  }

  lemma NothingSorted(releases: seq<Release>, g: Gathering)
    requires Gathered(releases, g)
    ensures SortedUpTo(releases, g.order, g.byChannel, 0) && Readiness.Distinct(g.order)
  {
    hide OfChannel, Sorted;
  }

  lemma {:induction false} SortOne(releases: seq<Release>, order: seq<string>, byChannel: map<string, seq<Release>>,
                                   n: nat)
    requires n < |order| && Readiness.Distinct(order) && SortedUpTo(releases, order, byChannel, n)
    ensures order[n] in byChannel && byChannel[order[n]] == OfChannel(releases, order[n])
    ensures SortedUpTo(releases, order, byChannel[order[n] := Sorted(OfChannel(releases, order[n]))], n + 1)
  {
    hide OfChannel, Sorted;
    assert order[..n + 1] == order[..n] + [order[n]];
    assert order[n] !in order[..n];
  }

  /** The loop over the channels, in order of appearance; each list is sorted in place. */
  method CheckChannels(policy: Policy, releases: seq<Release>, g: Gathering)
    returns (fault: Option<PolicyError>, byChannel: map<string, seq<Release>>)
    requires Gathered(releases, g)
    ensures fault.None? <==> forall c | c in g.order :: ChannelHolds(policy, releases, c)
    ensures fault.None? ==> SortedUpTo(releases, g.order, byChannel, |g.order|)
    ensures fault.Some? ==> !fault.value.NotMonotonic?
  {
    hide Gathered, OfChannel, Sorted, DistinctSequences, StrictlyAscending, SortedUpTo, ChannelOf, Readiness.Distinct;
    byChannel := g.byChannel;
    NothingSorted(releases, g);
    for i := 0 to |g.order|
      invariant SortedUpTo(releases, g.order, byChannel, i)
      invariant forall k | 0 <= k < i :: ChannelHolds(policy, releases, g.order[k])
    {
      SortOne(releases, g.order, byChannel, i);
      var name := g.order[i];
      var sorted, bad := CheckChannel(name, byChannel[name], ChannelOf(policy, name).retained);
      if bad.Some? {
        assert name in g.order && !ChannelHolds(policy, releases, name);
        return bad, byChannel;
      }
      byChannel := byChannel[name := sorted];
    }
    return None, byChannel;
  }

  /** One channel after the sort, whether or not any release names it. */
  lemma {:induction false} SortedChannel(policy: Policy, releases: seq<Release>, g: Gathering,
                                         byChannel: map<string, seq<Release>>, name: string)
    requires Gathered(releases, g) && SortedUpTo(releases, g.order, byChannel, |g.order|)
    requires forall c | c in g.order :: ChannelHolds(policy, releases, c)
    requires ChannelOf(policy, name).retained >= 0
    ensures ChannelHolds(policy, releases, name)
    ensures DistinctSequences(Records(byChannel, name))
    ensures forall r :: r in Records(byChannel, name) <==> r in releases && r.channel == name
  {
    hide Sorted, ChannelOf;
    assert g.order[..|g.order|] == g.order;
    SortedIsDistinct(OfChannel(releases, name));
    forall r
      ensures r in Records(byChannel, name) <==> r in releases && r.channel == name
    {
      OfChannelMembers(releases, name, r);
    }
  }

  lemma {:induction false} OutsideChannels(policy: Policy, releases: seq<Release>,
                                           readiness: map<string, Readiness.Status>, g: Gathering)
    requires Gathered(releases, g) && forall r | r in releases :: ReleaseAccepted(policy, readiness, r)
    requires ChannelHolds(policy, releases, DEVELOPMENT) && ChannelHolds(policy, releases, TESTING)
      && ChannelHolds(policy, releases, STABLE)
    ensures forall c | c in g.order :: ChannelHolds(policy, releases, c)
  {
    hide ChannelHolds, GatesQualified, ChannelOf;
    forall c | c in g.order
      ensures ChannelHolds(policy, releases, c)
    {
      var r := OfChannel(releases, c)[0];
      OfChannelMembers(releases, c, r);
      assert ReleaseAccepted(policy, readiness, r);
    }
  }

  /** Where the lists hold exactly the releases of each channel, checking against a list is checking the policy. */
  lemma SourceInList(releases: seq<Release>, previous: seq<Release>, name: string, release: Release)
    requires forall r :: r in previous <==> r in releases && r.channel == name
    requires PreviousOf(release.channel) == name
    ensures HasSource(previous, release) <==> Promoted(releases, release)
  {
  }

  method CheckPromotionChain(releases: seq<Release>, byChannel: map<string, seq<Release>>)
    returns (fault: Option<PolicyError>)
    requires forall name, r | IsChannel(name) :: r in Records(byChannel, name) <==> r in releases && r.channel == name
    requires DistinctSequences(Records(byChannel, DEVELOPMENT)) && DistinctSequences(Records(byChannel, TESTING))
    requires forall r | r in releases :: IsChannel(r.channel) && (r.channel != DEVELOPMENT ==> r.promotedFrom.Some?)
    ensures fault.None? <==> forall r | r in releases && r.channel != DEVELOPMENT :: Promoted(releases, r)
    ensures fault.Some? ==> !fault.value.NotMonotonic?
  {
    hide Promoted, HasSource, DistinctSequences, Records;
    var testing, development := Records(byChannel, TESTING), Records(byChannel, DEVELOPMENT);
    fault := CheckPromotions(testing, development);
    forall r | r in testing
      ensures HasSource(development, r) <==> Promoted(releases, r)
    {
      SourceInList(releases, development, DEVELOPMENT, r);
    }
    if fault.Some? {
      return;
    }
    var stable := Records(byChannel, STABLE);
    fault := CheckPromotions(stable, testing);
    forall r | r in stable
      ensures HasSource(testing, r) <==> Promoted(releases, r)
    {
      SourceInList(releases, testing, TESTING, r);
    }
  }

  /** Accepts exactly what the policy states, and counts the releases of each channel. */
  method Validate(policy: Policy, gates: seq<Readiness.Gate>, releases: seq<Release>)
    returns (result: Result<map<string, nat>, PolicyError>)
    ensures result.Ok? <==> Acceptable(policy, gates, releases)
    ensures result.Ok? <==> GoodPolicy(policy, gates, releases)
    ensures result.Ok? ==> forall c :: c in result.value <==> exists r :: r in releases && r.channel == c
    ensures result.Ok? ==> forall c | c in result.value :: result.value[c] == |OfChannel(releases, c)|
    ensures result.Err? ==> !result.error.NotMonotonic?
  {
    hide ReleaseAccepted, ChannelAccepted, ReadinessStatus, DistinctVersions, ChannelHolds, Promoted, Records,
      SortedUpTo, Gathered, DistinctSequences, GoodPolicy;
    AcceptableIsGood(policy, gates, releases);
    if ReadinessStatus(gates).None? {
      return Err(BadReadiness);
    }
    if !ChannelsAccepted(policy, gates) {
      return Err(BadChannel);
    }
    var readiness := ReadinessStatus(gates).value;
    RetainedIsPositive(policy, gates);
    var bad, g := GatherReleases(policy, readiness, releases);
    if bad.Some? {
      return Err(bad.value);
    }
    var byChannel;
    bad, byChannel := CheckChannels(policy, releases, g);
    if Acceptable(policy, gates, releases) {
      OutsideChannels(policy, releases, readiness, g);
    }
    if bad.Some? {
      return Err(bad.value);
    }
    forall name | IsChannel(name)
      ensures ChannelHolds(policy, releases, name) && DistinctSequences(Records(byChannel, name))
      ensures forall r :: r in Records(byChannel, name) <==> r in releases && r.channel == name
    {
      SortedChannel(policy, releases, g, byChannel, name);
    }
    AcceptedFields(policy, readiness, releases);
    bad := CheckPromotionChain(releases, byChannel);
    if bad.Some? {
      return Err(bad.value);
    }
    CountsAre(releases, g);
    return Ok(g.counts);
  }

  lemma RetainedIsPositive(policy: Policy, gates: seq<Readiness.Gate>)
    requires ChannelsAccepted(policy, gates)
    ensures forall name :: ChannelOf(policy, name).retained >= 2
  {
  }

  lemma AcceptedFields(policy: Policy, readiness: map<string, Readiness.Status>, releases: seq<Release>)
    requires forall r | r in releases :: ReleaseAccepted(policy, readiness, r)
    ensures forall r | r in releases :: IsChannel(r.channel) && (r.channel != DEVELOPMENT ==> r.promotedFrom.Some?)
  {
  }

  lemma {:induction false} CountsAre(releases: seq<Release>, g: Gathering)
    requires Gathered(releases, g)
    ensures forall c :: c in g.counts <==> exists r :: r in releases && r.channel == c
    ensures forall c | c in g.counts :: g.counts[c] == |OfChannel(releases, c)|
  {
    forall c
      ensures OfChannel(releases, c) != [] <==> exists r :: r in releases && r.channel == c
    {
      if OfChannel(releases, c) != [] {
        OfChannelMembers(releases, c, OfChannel(releases, c)[0]);
      }
      if r :| r in releases && r.channel == c {
        OfChannelMembers(releases, c, r);
      }
    }
  }

  // ----------------------------------------------------------------- the policy, rule by rule

  /** The ledger names each gate once; the three channels are configured within their limits. */
  ghost predicate GoodChannels(policy: Policy, gates: seq<Readiness.Gate>) {
    && (forall i, j | 0 <= i < j < |gates| :: gates[i].id != gates[j].id)
    && (forall c | c in {policy.development, policy.testing, policy.stable} ::
          && 2 <= c.retained && 1 <= c.rollbacks < c.retained && 0 <= c.minimumSoak
          && (forall i, j | 0 <= i < j < |c.requiredGates| :: c.requiredGates[i] != c.requiredGates[j])
          && (forall g | g in c.requiredGates :: exists i | 0 <= i < |gates| :: gates[i].id == g))
    && policy.testing.requiredGates != [] && policy.stable.requiredGates != []
  }

  /** One release by itself, against its channel and the ledger. */
  ghost predicate GoodRelease(gates: seq<Readiness.Gate>, channel: Channel, r: Release) {
    && r.sequence > 0 && r.fieldsOk && r.rollbackTested && r.mirrorCount >= 2
    && r.soakSeconds >= channel.minimumSoak
    && (forall g | g in channel.requiredGates ::
          exists i | 0 <= i < |gates| :: gates[i].id == g && gates[i].status == Readiness.Qualified)
    && (forall kind | kind in channel.requiredEvidence :: kind in r.evidenceKinds)
    && (forall time | time in r.evidenceTimes :: time <= r.publishedAt)
    && (r.channel == "development" <==> r.promotedFrom.None?)
    && (r.promotedFrom.Some? ==> r.promotedFrom.value > 0)
  }

  /** The release it was promoted from: five fields unchanged, and not published later. */
  ghost predicate GoodSource(releases: seq<Release>, r: Release) {
    exists source | source in releases ::
      && source.channel == (if r.channel == "stable" then "testing" else "development")
      && r.promotedFrom == Some(source.sequence)
      && r.revision == source.revision && r.componentsLock == source.componentsLock
      && r.packageGeneration == source.packageGeneration && r.image == source.image && r.signature == source.signature
      && source.publishedAt <= r.publishedAt
  }

  ghost predicate GoodPolicy(policy: Policy, gates: seq<Readiness.Gate>, releases: seq<Release>) {
    && GoodChannels(policy, gates)
    && (forall r | r in releases ::
          || (r.channel == "development" && GoodRelease(gates, policy.development, r))
          || (r.channel == "testing" && GoodRelease(gates, policy.testing, r))
          || (r.channel == "stable" && GoodRelease(gates, policy.stable, r)))
    && (forall i, j | 0 <= i < j < |releases| && releases[i].channel == releases[j].channel ::
          releases[i].version != releases[j].version && releases[i].sequence != releases[j].sequence)
    && |OfChannel(releases, "development")| <= policy.development.retained
    && |OfChannel(releases, "testing")| <= policy.testing.retained
    && |OfChannel(releases, "stable")| <= policy.stable.retained
    && (forall r | r in releases && r.channel != "development" :: GoodSource(releases, r))
  }

  lemma {:induction false} StatusesAreUnique(gates: seq<Readiness.Gate>)
    ensures ReadinessStatus(gates).Some? <==> forall i, j | 0 <= i < j < |gates| :: gates[i].id != gates[j].id
    decreases gates
  {
    if gates != [] {
      var n := |gates| - 1;
      var rest := gates[..n];
      StatusesAreUnique(rest);
      assert forall i | 0 <= i < n :: rest[i] == gates[i];
      if ReadinessStatus(rest).Some? {
        StatusOfGate(rest, gates[n].id);
      }
    }
  }

  lemma {:induction false} ChannelIsGood(channel: Channel, gates: seq<Readiness.Gate>)
    requires ReadinessStatus(gates).Some?
    ensures ChannelAccepted(channel, ReadinessStatus(gates).value) <==>
      && 2 <= channel.retained && 1 <= channel.rollbacks < channel.retained && 0 <= channel.minimumSoak
      && (forall i, j | 0 <= i < j < |channel.requiredGates| :: channel.requiredGates[i] != channel.requiredGates[j])
      && (forall g | g in channel.requiredGates :: exists i | 0 <= i < |gates| :: gates[i].id == g)
  {
    hide ReadinessStatus;
    forall g | g in channel.requiredGates
      ensures g in ReadinessStatus(gates).value <==> exists i | 0 <= i < |gates| :: gates[i].id == g
    {
      StatusOfGate(gates, g);
    }
  }

  lemma {:induction false} ReleaseIsGood(policy: Policy, gates: seq<Readiness.Gate>, r: Release)
    requires ReadinessStatus(gates).Some?
    ensures ReleaseAccepted(policy, ReadinessStatus(gates).value, r) <==>
      || (r.channel == "development" && GoodRelease(gates, policy.development, r))
      || (r.channel == "testing" && GoodRelease(gates, policy.testing, r))
      || (r.channel == "stable" && GoodRelease(gates, policy.stable, r))
  {
    hide ReadinessStatus;
    forall g
      ensures g in ReadinessStatus(gates).value && ReadinessStatus(gates).value[g].Qualified? <==>
        exists i | 0 <= i < |gates| :: gates[i].id == g && gates[i].status == Readiness.Qualified
    {
      StatusOfGate(gates, g);
    }
  }

  /** Two releases of one channel have distinct sequences, said of the whole list. */
  lemma {:induction false} SequencesOfChannel(releases: seq<Release>, name: string)
    ensures DistinctSequences(OfChannel(releases, name)) <==> ApartInChannel(releases, name)
    decreases releases
  {
    if releases != [] {
      var n := |releases| - 1;
      var rest, last := releases[..n], releases[n];
      SequencesOfChannel(rest, name);
      assert rest + [last] == releases;
      OneMoreInChannel(rest, last, name);
    }
  }

  /** No two releases of a channel share a sequence. */
  ghost predicate ApartInChannel(releases: seq<Release>, name: string) {
    forall i, j | 0 <= i < j < |releases| && releases[i].channel == name == releases[j].channel ::
      releases[i].sequence != releases[j].sequence
  }

  lemma {:induction false} OneMoreInChannel(rest: seq<Release>, last: Release, name: string)
    requires DistinctSequences(OfChannel(rest, name)) <==> ApartInChannel(rest, name)
    ensures DistinctSequences(OfChannel(rest + [last], name)) <==> ApartInChannel(rest + [last], name)
  {
    hide OfChannel, DistinctSequences;
    var releases, records := rest + [last], OfChannel(rest, name);
    OfChannelSnoc(rest, last, name);
    if last.channel == name {
      LastIsDistinct(records, last);
      forall r
        ensures r in records <==> r in rest && r.channel == name
      {
        OfChannelMembers(rest, name, r);
      }
    }
    ApartSnoc(rest, last, name);
  }

  lemma {:induction false} OfChannelSnoc(rest: seq<Release>, last: Release, name: string)
    ensures OfChannel(rest + [last], name)
      == if last.channel == name then OfChannel(rest, name) + [last] else OfChannel(rest, name)
  {
    assert (rest + [last])[..|rest|] == rest;
  }

  lemma {:induction false} ApartSnoc(rest: seq<Release>, last: Release, name: string)
    ensures ApartInChannel(rest + [last], name) <==>
      && ApartInChannel(rest, name)
      && (last.channel == name ==> forall r | r in rest && r.channel == name :: r.sequence != last.sequence)
  {
    var releases := rest + [last];
    assert forall i | 0 <= i < |rest| :: releases[i] == rest[i] && rest[i] in rest;
    assert releases[|rest|] == last;
  }

  lemma {:induction false} LastIsDistinct(records: seq<Release>, last: Release)
    ensures DistinctSequences(records + [last]) <==>
      DistinctSequences(records) && forall r | r in records :: r.sequence != last.sequence
  {
    var more := records + [last];
    assert more[|records|] == last;
    assert forall i | 0 <= i < |records| :: more[i] == records[i];
  }

  /** The policy accepts exactly what its rules say, one by one. */
  lemma {:induction false} AcceptableIsGood(policy: Policy, gates: seq<Readiness.Gate>, releases: seq<Release>)
    ensures Acceptable(policy, gates, releases) <==> GoodPolicy(policy, gates, releases)
  {
    hide ReadinessStatus, ChannelAccepted, ReleaseAccepted, GoodRelease, OfChannel, DistinctSequences;
    StatusesAreUnique(gates);
    if ReadinessStatus(gates).Some? {
      ChannelIsGood(policy.development, gates);
      ChannelIsGood(policy.testing, gates);
      ChannelIsGood(policy.stable, gates);
      forall r | r in releases
        ensures ReleaseAccepted(policy, ReadinessStatus(gates).value, r) <==>
          || (r.channel == "development" && GoodRelease(gates, policy.development, r))
          || (r.channel == "testing" && GoodRelease(gates, policy.testing, r))
          || (r.channel == "stable" && GoodRelease(gates, policy.stable, r))
      {
        ReleaseIsGood(policy, gates, r);
      }
    }
    SequencesOfChannel(releases, DEVELOPMENT);
    SequencesOfChannel(releases, TESTING);
    SequencesOfChannel(releases, STABLE);
    SourcesAreGood(releases);
  }

  lemma {:induction false} SourcesAreGood(releases: seq<Release>)
    ensures forall r | r in releases && IsChannel(r.channel) && r.channel != DEVELOPMENT ::
      Promoted(releases, r) <==> GoodSource(releases, r)
  {
  }

  // ----------------------------------------------------------------- the promotion chain

  /** The only release of the previous channel that a release can come from. */
  ghost predicate OnlySourceOf(releases: seq<Release>, source: Release, release: Release) {
    && source in releases && source.channel == PreviousOf(release.channel) && Promotes(source, release)
    && forall other | other in releases && other.channel == source.channel ::
         release.promotedFrom == Some(other.sequence) ==> other == source
  }

  lemma {:induction false} SourceIsUnique(policy: Policy, gates: seq<Readiness.Gate>, releases: seq<Release>,
                                          release: Release)
    returns (source: Release)
    requires Acceptable(policy, gates, releases) && release in releases && release.channel != DEVELOPMENT
    ensures OnlySourceOf(releases, source, release)
  {
    hide ReleaseAccepted, ChannelAccepted, ReadinessStatus, DistinctVersions, DistinctSequences;
    assert Promoted(releases, release);
    source :| source in releases && source.channel == PreviousOf(release.channel) && Promotes(source, release);
    forall other | other in releases && other.channel == source.channel && release.promotedFrom == Some(other.sequence)
      ensures other == source
    {
      OfChannelMembers(releases, source.channel, other);
      OfChannelMembers(releases, source.channel, source);
      DistinctPair(OfChannel(releases, source.channel), other, source);
    }
  }

  /**
   * In an accepted policy a stable release comes from exactly one testing release and
   * that from exactly one development release: one build throughout, published in turn.
   */
  lemma {:induction false} StableComesFromDevelopment(policy: Policy, gates: seq<Readiness.Gate>,
                                                      releases: seq<Release>, stable: Release)
    returns (testing: Release, development: Release)
    requires Acceptable(policy, gates, releases) && stable in releases && stable.channel == STABLE
    ensures testing.channel == TESTING && OnlySourceOf(releases, testing, stable)
    ensures development.channel == DEVELOPMENT && OnlySourceOf(releases, development, testing)
    ensures stable.revision == testing.revision == development.revision
    ensures stable.componentsLock == testing.componentsLock == development.componentsLock
    ensures stable.packageGeneration == testing.packageGeneration == development.packageGeneration
    ensures stable.image == testing.image == development.image
    ensures stable.signature == testing.signature == development.signature
    ensures development.publishedAt <= testing.publishedAt <= stable.publishedAt
    ensures development.promotedFrom.None?
  {
    hide DistinctVersions, DistinctSequences, ChannelHolds, ReadinessStatus, Promoted;
    testing := SourceIsUnique(policy, gates, releases, stable);
    development := SourceIsUnique(policy, gates, releases, testing);
    assert ReleaseAccepted(policy, ReadinessStatus(gates).value, development);
  }

  lemma {:induction false} StatusOfGate(gates: seq<Readiness.Gate>, id: string)
    requires ReadinessStatus(gates).Some?
    ensures id in ReadinessStatus(gates).value && ReadinessStatus(gates).value[id].Qualified?
      <==> Readiness.QualifiedGate(gates, id)
    ensures id in ReadinessStatus(gates).value <==> Readiness.HasGate(gates, id)
    decreases gates
  {
    if gates != [] {
      var rest := gates[..|gates| - 1];
      StatusOfGate(rest, id);
      assert forall i | 0 <= i < |rest| :: rest[i] == gates[i];
    }
  }

  /**
   * A release accepted against an accepted ledger has every gate its channel requires
   * qualified, and every gate those depend on, however far away.
   */
  lemma {:induction false} RequiredGatesAreQualifiedThroughout(policy: Policy, table: Readiness.Table,
                                                               gates: seq<Readiness.Gate>, releases: seq<Release>,
                                            release: Release, path: seq<string>)
    requires Acceptable(policy, gates, releases) && Readiness.Accepted(table, gates) && release in releases
    requires Readiness.Path(Readiness.GraphOf(gates), path)
    requires path[0] in ChannelOf(policy, release.channel).requiredGates
    ensures Readiness.QualifiedGate(gates, path[|path| - 1])
  {
    hide Readiness.Accepted, Readiness.GraphOf, ReadinessStatus, ChannelHolds, DistinctVersions, Promoted;
    assert ReleaseAccepted(policy, ReadinessStatus(gates).value, release);
    StatusOfGate(gates, path[0]);
    Readiness.QualifiedIsClosed(table, gates, path);
  }
}
