/**
 * The production readiness ledger: dependency cycles, and qualification along
 * dependencies (scripts/verify_production_readiness.py).
 */
module Readiness {
  import opened Wrappers

  type Graph = map<string, seq<string>>

  /** Every edge leads to a node. */
  predicate Closed(graph: Graph) {
    forall node, next | node in graph && next in graph[node] :: next in graph
  }

  ghost predicate Edge(graph: Graph, node: string, next: string) {
    node in graph && next in graph[node]
  }

  ghost predicate Path(graph: Graph, path: seq<string>) {
    path != [] && forall i | 0 <= i < |path| - 1 :: Edge(graph, path[i], path[i + 1])
  }

  ghost predicate Connects(graph: Graph, path: seq<string>, from: string, to: string) {
    Path(graph, path) && path[0] == from && path[|path| - 1] == to
  }

  /** A way of at least one edge back to where it began. */
  ghost predicate OnCycle(graph: Graph, node: string) {
    exists path :: |path| > 1 && Connects(graph, path, node, node)
  }

  ghost predicate Cyclic(graph: Graph) {
    exists node :: OnCycle(graph, node)
  }

  ghost function Elements(nodes: seq<string>): set<string> {
    set node | node in nodes
  }

  /** Every node comes after all the nodes it depends on. */
  ghost predicate Topological(graph: Graph, order: seq<string>) {
    && (forall i, j | 0 <= i < j < |order| :: order[i] != order[j])
    && forall i | 0 <= i < |order| :: order[i] in graph && forall next | next in graph[order[i]] :: next in order[..i]
  }

  lemma {:induction false} PathStaysBefore(graph: Graph, order: seq<string>, path: seq<string>, i: nat)
    requires Topological(graph, order) && Path(graph, path)
    requires i < |order| && path[0] == order[i] && |path| > 1
    ensures path[|path| - 1] in order[..i]
    decreases |path|
  {
    assert Edge(graph, path[0], path[1]);
    var j: nat :| j < i && order[j] == path[1];
    if |path| > 2 {
      forall k | 0 <= k < |path[1..]| - 1
        ensures Edge(graph, path[1..][k], path[1..][k + 1])
      {
        assert Edge(graph, path[k + 1], path[k + 1 + 1]);
      }
      PathStaysBefore(graph, order, path[1..], j);
    }
  }

  /** A topological order of all nodes rules out every cycle. */
  lemma {:induction false} OrderedIsAcyclic(graph: Graph, order: seq<string>)
    requires Topological(graph, order) && Elements(order) == graph.Keys
    ensures !Cyclic(graph)
  {
    forall node, path | |path| > 1 && Connects(graph, path, node, node)
      ensures false
    {
      assert Edge(graph, path[0], path[1]) && node in Elements(order);
      var i: nat :| i < |order| && order[i] == node;
      PathStaysBefore(graph, order, path, i);
      assert false;
    }
  }

  lemma PathExtended(graph: Graph, path: seq<string>, node: string)
    requires path == [] || (Path(graph, path) && Edge(graph, path[|path| - 1], node))
    ensures Path(graph, path + [node])
  {
  }

  /** Meeting a node that is still being visited closes a cycle. */
  lemma {:induction false} ClosesCycle(graph: Graph, stack: seq<string>, node: string)
    requires node in stack && Path(graph, stack) && Edge(graph, stack[|stack| - 1], node)
    ensures OnCycle(graph, node)
  {
    var i: nat :| i < |stack| && stack[i] == node;
    var path := stack[i..] + [node];
    PathExtended(graph, stack, node);
    assert path == (stack + [node])[i..];
    forall k | 0 <= k < |path| - 1
      ensures Edge(graph, path[k], path[k + 1])
    {
      assert path[k] == (stack + [node])[i + k] && path[k + 1] == (stack + [node])[i + k + 1];
    }
    assert Connects(graph, path, node, node);
  }

  lemma {:induction false} OrderExtended(graph: Graph, order: seq<string>, node: string)
    requires Topological(graph, order) && node in graph && node !in order
    requires forall next | next in graph[node] :: next in order
    ensures Topological(graph, order + [node])
    ensures Elements(order + [node]) == Elements(order) + {node}
  {
    var more := order + [node];
    forall i | 0 <= i < |more|
      ensures more[i] in graph && forall next | next in graph[more[i]] :: next in more[..i]
    {
      assert more[..i] == order[..i];
      assert order[..|order|] == order;
    }
  }

  datatype Cycle = CycleIncludes(node: string)

  class CycleDetector {
    const graph: Graph
    var visiting: set<string>
    var visited: set<string>
    ghost var order: seq<string>

    constructor (graph: Graph)
      ensures this.graph == graph && visiting == {} && visited == {} && order == []
    {
      this.graph := graph;
      visiting, visited, order := {}, {}, [];
    }

    /** `stack` is the chain of calls that led here. */
    ghost predicate Valid(stack: seq<string>)
      reads this
    {
      && Closed(graph)
      && visiting == Elements(stack) <= graph.Keys
      && (stack == [] || Path(graph, stack))
      && visited == Elements(order)
      && Topological(graph, order)
      && visiting !! visited
    }

    method Visit(node: string, ghost stack: seq<string>) returns (result: Result<Unit, Cycle>)
      requires Valid(stack) && node in graph
      requires stack != [] ==> Edge(graph, stack[|stack| - 1], node)
      modifies this
      ensures result.Ok? ==> Valid(stack) && node in visited && old(visited) <= visited
      ensures result.Err? ==> OnCycle(graph, result.error.node)
      decreases graph.Keys - visiting
    {
      if node in visiting {
        ClosesCycle(graph, stack, node);
        return Err(CycleIncludes(node));
      }
      if node in visited {
        return Ok(Unit);
      }
      visiting := visiting + {node};
      ghost var deeper := stack + [node];
      PathExtended(graph, stack, node);
      assert Elements(deeper) == Elements(stack) + {node};
      for i := 0 to |graph[node]|
        invariant Valid(deeper) && node in visiting && old(visited) <= visited
        invariant forall k | 0 <= k < i :: graph[node][k] in visited
      {
        result := Visit(graph[node][i], deeper);
        if result.Err? {
          return;
        }
      }
      visiting := visiting - {node};
      assert visiting == Elements(stack);
      OrderExtended(graph, order, node);
      visited := visited + {node};
      order := order + [node];
      return Ok(Unit);
    }
  }

  /** `ids` is the insertion order of the graph. */
  method DetectCycles(graph: Graph, ids: seq<string>) returns (result: Result<Unit, Cycle>, ghost order: seq<string>)
    requires Closed(graph) && Elements(ids) == graph.Keys
    ensures result.Ok? <==> !Cyclic(graph)
    ensures result.Ok? ==> Topological(graph, order) && Elements(order) == graph.Keys
    ensures result.Err? ==> OnCycle(graph, result.error.node)
  {
    var detector := new CycleDetector(graph);
    for i := 0 to |ids|
      invariant fresh(detector) && detector.graph == graph
      invariant detector.Valid([])
      invariant forall k | 0 <= k < i :: ids[k] in detector.visited
    {
      assert ids[i] in Elements(ids);
      var visit := detector.Visit(ids[i], []);
      if visit.Err? {
        return Err(visit.error), [];
      }
    }
    assert graph.Keys <= Elements(detector.order);
    OrderedIsAcyclic(graph, detector.order);
    return Ok(Unit), detector.order;
  }

  // ----------------------------------------------------------------- the ledger

  datatype Status = Blocked | InProgress | Qualified

  /** The fields that relate gates to one another; the rest is one bit, decided field by field. */
  datatype Gate = Gate(
    number: int, id: string, title: string, document: string, status: Status, dependsOn: seq<string>, fieldsOk: bool)

  datatype Identity = Identity(number: int, id: string, title: string, document: string)

  /** The canonical gates, numbered from 1; no id and no document appears twice. */
  type Table = table: seq<Identity> | WellNumbered(table) witness []

  predicate WellNumbered(table: seq<Identity>) {
    && (forall i | 0 <= i < |table| :: table[i].number == i + 1)
    && (forall i, j | 0 <= i < j < |table| :: table[i].id != table[j].id && table[i].document != table[j].document)
  }

  predicate Distinct(names: seq<string>) {
    forall i, j | 0 <= i < j < |names| :: names[i] != names[j]
  }

  function IdentityOf(gate: Gate): Identity {
    Identity(gate.number, gate.id, gate.title, gate.document)
  }

  predicate GateAccepted(gate: Gate, canonical: Identity) {
    IdentityOf(gate) == canonical && Distinct(gate.dependsOn) && gate.fieldsOk
  }

  function GraphOf(gates: seq<Gate>): Graph {
    if gates == [] then map[]
    else GraphOf(gates[..|gates| - 1])[gates[|gates| - 1].id := gates[|gates| - 1].dependsOn]
  }

  ghost predicate DistinctIds(gates: seq<Gate>) {
    forall i, j | 0 <= i < j < |gates| :: gates[i].id != gates[j].id
  }

  predicate HasGate(gates: seq<Gate>, id: string) {
    exists i | 0 <= i < |gates| :: gates[i].id == id
  }

  predicate QualifiedGate(gates: seq<Gate>, id: string) {
    exists i | 0 <= i < |gates| :: gates[i].id == id && gates[i].status == Qualified
  }

  predicate EdgesInside(gates: seq<Gate>, gate: Gate) {
    forall d | d in gate.dependsOn :: d != gate.id && HasGate(gates, d)
  }

  predicate PrerequisitesQualified(gates: seq<Gate>, gate: Gate) {
    gate.status == Qualified ==> forall d | d in gate.dependsOn :: QualifiedGate(gates, d)
  }

  /** What the ledger validation accepts. */
  ghost predicate Accepted(table: Table, gates: seq<Gate>) {
    && |gates| == |table|
    && (forall i | 0 <= i < |gates| :: GateAccepted(gates[i], table[i]))
    && (forall i | 0 <= i < |gates| :: EdgesInside(gates, gates[i]))
    && !Cyclic(GraphOf(gates))
    && (forall i | 0 <= i < |gates| :: PrerequisitesQualified(gates, gates[i]))
  }

  datatype LedgerError =
    | WrongCount | BadNumber(index: nat) | BadId(index: nat) | BadDocument(index: nat) | BadGate(index: nat)
    | MissingNumbers | BadDependency(index: nat) | CyclicDependencies(node: string)
    | UnqualifiedPrerequisite(index: nat)

  lemma {:induction false} GraphOfGates(gates: seq<Gate>, i: nat)
    requires DistinctIds(gates) && i < |gates|
    ensures gates[i].id in GraphOf(gates) && GraphOf(gates)[gates[i].id] == gates[i].dependsOn
    decreases gates
  {
    if i < |gates| - 1 {
      GraphOfGates(gates[..|gates| - 1], i);
    }
  }

  lemma {:induction false} GraphOfKeys(gates: seq<Gate>, id: string)
    ensures id in GraphOf(gates) <==> HasGate(gates, id)
    decreases gates
  {
    if gates != [] {
      var rest := gates[..|gates| - 1];
      GraphOfKeys(rest, id);
      assert forall i | 0 <= i < |rest| :: rest[i] == gates[i];
    }
  }

  /** The numbers 1 to `n`. */
  function UpTo(n: nat): (numbers: set<int>)
    ensures forall x :: x in numbers <==> 1 <= x <= n
  {
    if n == 0 then {} else UpTo(n - 1) + {n as int}
  }

  /** The ids and documents of the first `n` gates; their numbers are 1 to `n`. */
  ghost predicate Gathered(gates: seq<Gate>, n: nat, ids: set<string>, numbers: set<int>, documents: set<string>)
    requires n <= |gates|
  {
    && (forall x :: x in ids <==> HasGate(gates[..n], x))
    && numbers == UpTo(n)
    && (forall x :: x in documents <==> exists i | 0 <= i < n :: gates[i].document == x)
  }

  lemma {:induction false} GatherOne(gates: seq<Gate>, n: nat, ids: set<string>, numbers: set<int>,
                                     documents: set<string>)
    requires n < |gates| && Gathered(gates, n, ids, numbers, documents) && gates[n].number == n + 1
    ensures Gathered(gates, n + 1, ids + {gates[n].id}, numbers + {gates[n].number}, documents + {gates[n].document})
  {
    assert gates[..n + 1] == gates[..n] + [gates[n]];
    var more := gates[..n + 1];
    assert more[n] == gates[n];
    forall x
      ensures HasGate(more, x) <==> HasGate(gates[..n], x) || x == gates[n].id
    {
      if HasGate(gates[..n], x) {
        var i :| 0 <= i < n && gates[..n][i].id == x;
        assert more[i].id == x;
      }
    }
  }

  /** An accepted gate repeats neither number, id nor document of the ones before it. */
  lemma {:induction false} NoRepeat(table: Table, gates: seq<Gate>, n: nat, ids: set<string>, numbers: set<int>,
                                    documents: set<string>)
    requires n < |gates| == |table| && Gathered(gates, n, ids, numbers, documents)
    requires forall i | 0 <= i <= n :: GateAccepted(gates[i], table[i])
    ensures gates[n].id !in ids && gates[n].document !in documents
    ensures gates[n].number == n + 1
  {
    forall i | 0 <= i < n
      ensures gates[i].id != gates[n].id && gates[i].document != gates[n].document
    {
      assert table[i].id != table[n].id;
    }
  }

  lemma {:induction false} AcceptedIdsAreDistinct(table: Table, gates: seq<Gate>)
    requires |gates| == |table|
    requires forall i | 0 <= i < |gates| :: GateAccepted(gates[i], table[i])
    ensures DistinctIds(gates)
  {
    forall i, j | 0 <= i < j < |gates|
      ensures gates[i].id != gates[j].id
    {
      assert table[i].id != table[j].id;
    }
  }

  lemma {:induction false} EdgesInsideIsClosed(gates: seq<Gate>)
    requires DistinctIds(gates) && forall i | 0 <= i < |gates| :: EdgesInside(gates, gates[i])
    ensures Closed(GraphOf(gates))
  {
    forall node, next | node in GraphOf(gates) && next in GraphOf(gates)[node]
      ensures next in GraphOf(gates)
    {
      GraphOfKeys(gates, node);
      var i :| 0 <= i < |gates| && gates[i].id == node;
      GraphOfGates(gates, i);
      assert EdgesInside(gates, gates[i]);
      GraphOfKeys(gates, next);
    }
  }

  function Ids(gates: seq<Gate>): seq<string> {
    seq(|gates|, i requires 0 <= i < |gates| => gates[i].id)
  }

  lemma {:induction false} IdsAreKeys(gates: seq<Gate>)
    ensures Elements(Ids(gates)) == GraphOf(gates).Keys
  {
    forall id
      ensures id in Ids(gates) <==> id in GraphOf(gates)
    {
      GraphOfKeys(gates, id);
      if HasGate(gates, id) {
        var i :| 0 <= i < |gates| && gates[i].id == id;
        assert Ids(gates)[i] == id;
      }
    }
  }

  /** What an error says about the ledger. */
  ghost predicate Explains(table: Table, gates: seq<Gate>, error: LedgerError) {
    match error
    case WrongCount => |gates| != |table|
    case MissingNumbers => false
    case CyclicDependencies(node) => OnCycle(GraphOf(gates), node)
    case BadDependency(index) => index < |gates| && !EdgesInside(gates, gates[index])
    case UnqualifiedPrerequisite(index) =>
      index < |gates| && gates[index].status == Qualified
      && exists d | d in gates[index].dependsOn :: !QualifiedGate(gates, d)
    case _ =>
      error.index < |gates| == |table| && !GateAccepted(gates[error.index], table[error.index])
  }

  /**
   * Accepts exactly the ledgers that meet `Accepted`. The test for missing numbers
   * after the loop can never fire.
   */
  method ValidateLedger(table: Table, gates: seq<Gate>)
    returns (result: Result<Unit, LedgerError>, ghost order: seq<string>)
    ensures result.Ok? <==> Accepted(table, gates)
    ensures result.Err? ==> Explains(table, gates, result.error)
    ensures result.Ok? ==> Topological(GraphOf(gates), order) && Elements(order) == GraphOf(gates).Keys
  {
    hide Cyclic, OnCycle, Topological, GraphOf;
    order := [];
    if |gates| != |table| {
      return Err(WrongCount), order;
    }
    var ids, numbers, documents := {}, {}, {};
    for index := 0 to |gates|
      invariant Gathered(gates, index, ids, numbers, documents)
      invariant forall i | 0 <= i < index :: GateAccepted(gates[i], table[i])
    {
      var gate := gates[index];
      if GateAccepted(gate, table[index]) {
        NoRepeat(table, gates, index, ids, numbers, documents);
      }
      if gate.number < 1 || gate.number > |table| || gate.number in numbers {
        return Err(BadNumber(index)), order;
      }
      if gate.id in ids {
        return Err(BadId(index)), order;
      }
      if gate.document in documents {
        return Err(BadDocument(index)), order;
      }
      if !GateAccepted(gate, table[index]) {
        return Err(BadGate(index)), order;
      }
      GatherOne(gates, index, ids, numbers, documents);
      numbers, ids, documents := numbers + {gate.number}, ids + {gate.id}, documents + {gate.document};
    }
    assert gates[..|gates|] == gates;
    if numbers != UpTo(|table|) {
      return Err(MissingNumbers), order;
    }
    AcceptedIdsAreDistinct(table, gates);
    for index := 0 to |gates|
      invariant forall i | 0 <= i < index :: EdgesInside(gates, gates[i])
    {
      if exists d | d in gates[index].dependsOn :: d == gates[index].id || d !in ids {
        return Err(BadDependency(index)), order;
      }
    }
    EdgesInsideIsClosed(gates);
    IdsAreKeys(gates);
    var acyclic;
    acyclic, order := DetectCycles(GraphOf(gates), Ids(gates));
    if acyclic.Err? {
      return Err(CyclicDependencies(acyclic.error.node)), order;
    }
    for index := 0 to |gates|
      invariant forall i | 0 <= i < index :: PrerequisitesQualified(gates, gates[i])
    {
      if gates[index].status == Qualified
         && exists d | d in gates[index].dependsOn :: !QualifiedGate(gates, d) {
        return Err(UnqualifiedPrerequisite(index)), order;
      }
    }
    return Ok(Unit), order;
  }

  /** The ledger accepts exactly what its rules say, gate by gate and field by field. */
  lemma {:induction false} AcceptedIs(table: Table, gates: seq<Gate>)
    ensures Accepted(table, gates) <==>
      && |gates| == |table|
      && (forall i | 0 <= i < |gates| ::
            && gates[i].number == table[i].number && gates[i].id == table[i].id
            && gates[i].title == table[i].title && gates[i].document == table[i].document
            && gates[i].fieldsOk
            && (forall j, k | 0 <= j < k < |gates[i].dependsOn| :: gates[i].dependsOn[j] != gates[i].dependsOn[k]))
      && (forall i, d | 0 <= i < |gates| && d in gates[i].dependsOn ::
            && d != gates[i].id
            && exists j | 0 <= j < |gates| :: gates[j].id == d)
      && !Cyclic(GraphOf(gates))
      && (forall i, d | 0 <= i < |gates| && d in gates[i].dependsOn && gates[i].status == Qualified ::
            exists j | 0 <= j < |gates| :: gates[j].id == d && gates[j].status == Qualified)
  {
    hide Cyclic, GraphOf;
  }

  /** The gates that keep a production release blocked. */
  function Blocking(gates: seq<Gate>): seq<Gate> {
    if gates == [] then []
    else (if gates[0].status != Qualified then [gates[0]] else []) + Blocking(gates[1..])
  }

  function RequireProductionReady(gates: seq<Gate>): Result<Unit, seq<Gate>> {
    if Blocking(gates) == [] then Ok(Unit) else Err(Blocking(gates))
  }

  lemma {:induction false} BlockingAre(gates: seq<Gate>, gate: Gate)
    ensures gate in Blocking(gates) <==> gate in gates && gate.status != Qualified
  {
    if gates != [] {
      BlockingAre(gates[1..], gate);
      assert gates == [gates[0]] + gates[1..];
    }
  }

  // ----------------------------------------------------------------- qualification along dependencies

  lemma {:induction false} QualifiedIsOfGate(gates: seq<Gate>, i: nat)
    requires DistinctIds(gates) && i < |gates|
    ensures QualifiedGate(gates, gates[i].id) <==> gates[i].status == Qualified
  {
    if QualifiedGate(gates, gates[i].id) {
      var k :| 0 <= k < |gates| && gates[k].id == gates[i].id && gates[k].status == Qualified;
      assert k == i;
    }
  }

  lemma {:induction false} PrerequisiteIsQualified(table: Table, gates: seq<Gate>, node: string, next: string)
    requires Accepted(table, gates) && Edge(GraphOf(gates), node, next) && QualifiedGate(gates, node)
    ensures QualifiedGate(gates, next)
  {
    AcceptedIdsAreDistinct(table, gates);
    GraphOfKeys(gates, node);
    var i :| 0 <= i < |gates| && gates[i].id == node && gates[i].status == Qualified;
    GraphOfGates(gates, i);
    assert PrerequisitesQualified(gates, gates[i]);
  }

  /** The qualified gates of an accepted ledger are closed under dependencies, however long the chain. */
  lemma {:induction false} QualifiedIsClosed(table: Table, gates: seq<Gate>, path: seq<string>)
    requires Accepted(table, gates) && Path(GraphOf(gates), path) && QualifiedGate(gates, path[0])
    ensures QualifiedGate(gates, path[|path| - 1])
    decreases |path|
  {
    if |path| > 1 {
      assert Edge(GraphOf(gates), path[0], path[1]);
      PrerequisiteIsQualified(table, gates, path[0], path[1]);
      forall k | 0 <= k < |path[1..]| - 1
        ensures Edge(GraphOf(gates), path[1..][k], path[1..][k + 1])
      {
        assert Edge(GraphOf(gates), path[k + 1], path[k + 1 + 1]);
      }
      QualifiedIsClosed(table, gates, path[1..]);
    }
  }

  ghost predicate NothingDependsOn(gates: seq<Gate>, id: string) {
    forall i | 0 <= i < |gates| :: id !in gates[i].dependsOn
  }

  lemma {:induction false} ClimbToUnqualified(table: Table, gates: seq<Gate>, order: seq<string>, i: nat)
    returns (last: string)
    requires Accepted(table, gates) && Topological(GraphOf(gates), order) && Elements(order) == GraphOf(gates).Keys
    requires i < |order| && !QualifiedGate(gates, order[i])
    ensures last in order && NothingDependsOn(gates, last) && !QualifiedGate(gates, last)
    decreases |order| - i
  {
    if NothingDependsOn(gates, order[i]) {
      last := order[i];
    } else {
      AcceptedIdsAreDistinct(table, gates);
      var k :| 0 <= k < |gates| && order[i] in gates[k].dependsOn;
      GraphOfGates(gates, k);
      assert gates[k].id in Elements(order);
      var j: nat :| j < |order| && order[j] == gates[k].id;
      assert order[i] in order[..j];
      if QualifiedGate(gates, order[j]) {
        PrerequisiteIsQualified(table, gates, order[j], order[i]);
        assert false;
      }
      last := ClimbToUnqualified(table, gates, order, j);
    }
  }

  /** An accepted ledger is ready for production iff the gates that nothing depends on are qualified. */
  lemma {:induction false} ReadyExactlyWhenLastGatesAre(table: Table, gates: seq<Gate>, order: seq<string>)
    requires Accepted(table, gates) && Topological(GraphOf(gates), order) && Elements(order) == GraphOf(gates).Keys
    ensures RequireProductionReady(gates).Ok? <==>
      forall i | 0 <= i < |gates| && NothingDependsOn(gates, gates[i].id) :: gates[i].status == Qualified
  {
    hide Cyclic, Topological, GateAccepted, EdgesInside, PrerequisitesQualified, GraphOf, NothingDependsOn;
    AcceptedIdsAreDistinct(table, gates);
    if RequireProductionReady(gates).Ok? {
      forall i | 0 <= i < |gates|
        ensures gates[i].status == Qualified
      {
        BlockingAre(gates, gates[i]);
      }
    } else {
      var blocked := Blocking(gates)[0];
      BlockingAre(gates, blocked);
      var i: nat :| i < |gates| && gates[i] == blocked;
      QualifiedIsOfGate(gates, i);
      GraphOfGates(gates, i);
      assert blocked.id in Elements(order);
      var k: nat :| k < |order| && order[k] == blocked.id;
      var last := ClimbToUnqualified(table, gates, order, k);
      assert last in Elements(order);
      GraphOfKeys(gates, last);
      var j: nat :| j < |gates| && gates[j].id == last;
      QualifiedIsOfGate(gates, j);
    }
  }

  /** The table of this distribution. */
  function CanonicalGates(): seq<Identity> {
    [
      Identity(1, "cosmic-lifecycle", "Full COSMIC lifecycle", "docs/COSMIC_LIFECYCLE_GATE.md"),
      Identity(2, "linux-posix-compatibility", "Complete Linux/POSIX compatibility", "docs/LINUX_COMPAT_GATE.md"),
      Identity(3, "hardware-driver-coverage", "Production hardware and driver coverage",
        "docs/HARDWARE_COVERAGE_GATE.md"),
      Identity(4, "corinth-repository-service", "Automatic Corinth repository service",
        "docs/CORINTH_AUTO_INDEXER_GATE.md"),
      Identity(5, "package-semantics", "Broader package semantics", "docs/PACKAGE_SEMANTICS_GATE.md"),
      Identity(6, "dynamic-compatibility-workers", "Dynamic compatibility workers",
        "docs/DYNAMIC_COMPATIBILITY_WORKERS_GATE.md"),
      Identity(7, "application-compatibility-tiers", "Linux application compatibility tiers",
        "docs/APPLICATION_COMPATIBILITY_GATE.md"),
      Identity(8, "package-repository", "Complete the package repository", "docs/REPO_COMPLETENESS_GATE.md"),
      Identity(9, "installer-recovery", "Installer and recovery certification", "docs/INSTALLER_RECOVERY_GATE.md"),
      Identity(10, "desktop-services", "Desktop services", "docs/DESKTOP_SERVICES_GATE.md"),
      Identity(11, "security-qualification", "Security qualification", "docs/SECURITY_GATE.md"),
      Identity(12, "hardware-lab-release", "Hardware lab and release operations", "docs/HARDWARE_LAB_GATE.md"),
      Identity(13, "universal-route", "Universal route statement", "docs/UNIVERSAL_ROUTE_GATE.md"),
      Identity(14, "release-integrity-promotion", "Release integrity and promotion", "docs/RELEASE_INTEGRITY_GATE.md")
    ]
  }

  lemma CanonicalIdsAreDistinct(i: nat, j: nat)
    requires i < j < |CanonicalGates()|
    ensures CanonicalGates()[i].id != CanonicalGates()[j].id
  {
  }

  lemma CanonicalDocumentsAreDistinct(i: nat, j: nat)
    requires i < j < |CanonicalGates()|
    ensures CanonicalGates()[i].document != CanonicalGates()[j].document
  {
  }

  lemma CanonicalNumbers()
    ensures forall i | 0 <= i < |CanonicalGates()| :: CanonicalGates()[i].number == i + 1
  {
  }

  lemma {:induction false} CanonicalGatesAreATable()
    ensures WellNumbered(CanonicalGates())
  {
    hide CanonicalGates;
    CanonicalNumbers();
    forall i, j | 0 <= i < j < |CanonicalGates()|
      ensures CanonicalGates()[i].id != CanonicalGates()[j].id
      ensures CanonicalGates()[i].document != CanonicalGates()[j].document
    {
      CanonicalIdsAreDistinct(i, j);
      CanonicalDocumentsAreDistinct(i, j);
    }
  }
}
