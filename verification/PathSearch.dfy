/** The bounded, cycle-free assume-role search of the scalability harness
    (benchmarks/scalability/harness.py, _candidate_paths and _walk_paths).

    `Collector.WalkPaths` is the search as the harness runs it: it appends to one shared
    list while it recurses. `Walk` is the list it appends. The theorems say what that list
    is: exactly the simple trusted role chains, in lexicographic order, each once. */
module PathSearch {
  import opened Ordering

  datatype Node = Node(nodeId: string, kind: string, accountId: string)

  datatype Edge = Edge(edgeId: string, source: string, target: string, edgeType: string, action: string)

  datatype Fixture = Fixture(
    pathDepth: int,
    nodes: seq<Node>,
    permissionEdges: seq<Edge>,
    trustEdges: seq<Edge>,
    resourcePolicyEdges: seq<Edge>,
    constraintCount: nat)

  /** The lookup tables the search builds before it starts. */
  datatype Graph = Graph(
    maxDepth: int,
    kindOf: map<string, string>,
    trusted: set<(string, string)>,
    outgoing: map<string, seq<Edge>>)

  const USER := "IAMUser"
  const ROLE := "IAMRole"
  const NO_EDGES: seq<string> := []

  function IdOf(e: Edge): string { e.edgeId }

  function Ids(p: seq<Edge>): (ids: seq<string>)
    ensures |ids| == |p|
  {
    seq(|p|, i requires 0 <= i < |p| => p[i].edgeId)
  }

  // ----- the lookup tables -----

  /** The kind of every node, by id: a later entry replaces an earlier one. */
  function KindIndex(nodes: seq<Node>): map<string, string> {
    if nodes == [] then map[]
    else
      var last := nodes[|nodes|-1];
      KindIndex(nodes[..|nodes|-1])[last.nodeId := last.kind]
  }

  function TrustPairs(edges: seq<Edge>): set<(string, string)> {
    set e | e in edges :: (e.source, e.target)
  }

  function Sources(edges: seq<Edge>): set<string> {
    set e | e in edges :: e.source
  }

  function From(edges: seq<Edge>, source: string): (r: seq<Edge>)
    ensures forall e :: e in r <==> e in edges && e.source == source
  {
    if edges == [] then []
    else
      var init, last := edges[..|edges|-1], edges[|edges|-1];
      assert edges == init + [last];
      if last.source == source then From(init, source) + [last] else From(init, source)
  }

  function GraphOf(f: Fixture): Graph {
    Graph(f.pathDepth, KindIndex(f.nodes), TrustPairs(f.trustEdges),
          map s | s in Sources(f.permissionEdges) :: SortBy(From(f.permissionEdges, s), IdOf))
  }

  function UserIds(nodes: seq<Node>): (r: seq<string>)
    ensures forall s :: s in r <==> exists n :: n in nodes && n.kind == USER && n.nodeId == s
  {
    if nodes == [] then []
    else
      var init, last := nodes[..|nodes|-1], nodes[|nodes|-1];
      assert nodes == init + [last];
      if last.kind == USER then UserIds(init) + [last.nodeId] else UserIds(init)
  }

  function Self(s: string): string { s }

  method IndexKinds(nodes: seq<Node>) returns (kinds: map<string, string>)
    ensures kinds == KindIndex(nodes)
  {
    kinds := map[];
    for i := 0 to |nodes|
      invariant kinds == KindIndex(nodes[..i])
    {
      assert nodes[..i+1][..i] == nodes[..i];
      kinds := kinds[nodes[i].nodeId := nodes[i].kind];
    }
    assert nodes[..|nodes|] == nodes;
  }

  lemma FromNothing(edges: seq<Edge>, source: string)
    ensures source !in Sources(edges) ==> From(edges, source) == []
  {
    var r := From(edges, source);
    if r != [] { assert r[0] in edges; }
  }

  function Groups(edges: seq<Edge>): map<string, seq<Edge>> {
    map s | s in Sources(edges) :: From(edges, s)
  }

  lemma GroupsSnoc(edges: seq<Edge>, e: Edge)
    ensures Groups(edges + [e]) == Groups(edges)[e.source := From(edges, e.source) + [e]]
  {
    assert (edges + [e])[..|edges|] == edges;
    assert Sources(edges + [e]) == Sources(edges) + {e.source};
  }

  method GroupBySource(edges: seq<Edge>) returns (grouped: map<string, seq<Edge>>)
    ensures grouped == Groups(edges)
  {
    grouped := map[];
    for i := 0 to |edges|
      invariant grouped == Groups(edges[..i])
    {
      var e := edges[i];
      assert edges[..i+1] == edges[..i] + [e];
      GroupsSnoc(edges[..i], e);
      FromNothing(edges[..i], e.source);
      grouped := grouped[e.source := (if e.source in grouped then grouped[e.source] else []) + [e]];
    }
    assert edges[..|edges|] == edges;
  }

  /** Sorts every group by edge id, one group after another. */
  method SortGroups(grouped: map<string, seq<Edge>>) returns (sorted: map<string, seq<Edge>>)
    ensures sorted == map s | s in grouped :: SortBy(grouped[s], IdOf)
  {
    sorted := grouped;
    var todo := grouped.Keys;
    while todo != {}
      invariant todo <= grouped.Keys == sorted.Keys
      invariant forall s | s in todo :: sorted[s] == grouped[s]
      invariant forall s | s in grouped && s !in todo :: sorted[s] == SortBy(grouped[s], IdOf)
      decreases todo
    {
      var s :| s in todo;
      sorted := sorted[s := SortBy(sorted[s], IdOf)];
      todo := todo - {s};
    }
  }

  method BuildGraph(f: Fixture) returns (g: Graph)
    ensures g == GraphOf(f)
  {
    var kinds := IndexKinds(f.nodes);
    var trusted := set e | e in f.trustEdges :: (e.source, e.target);
    var grouped := GroupBySource(f.permissionEdges);
    var outgoing := SortGroups(grouped);
    g := Graph(f.pathDepth, kinds, trusted, outgoing);
  }

  // ----- the search, as a function -----

  function Out(g: Graph, node: string): seq<Edge> {
    if node in g.outgoing then g.outgoing[node] else []
  }

  /** The edge is trusted and leads somewhere new. */
  predicate Open(g: Graph, node: string, visited: set<string>, e: Edge) {
    (node, e.target) in g.trusted && e.target !in visited
  }

  /** The search follows e. */
  predicate Step(g: Graph, node: string, visited: set<string>, e: Edge) {
    Open(g, node, visited, e) && e.target in g.kindOf && g.kindOf[e.target] == ROLE
  }

  /** Looking up the target's kind fails: a trusted, new target that is not a node. */
  predicate Unknown(g: Graph, node: string, visited: set<string>, e: Edge) {
    Open(g, node, visited, e) && e.target !in g.kindOf
  }

  function ExtendAll(e: Edge, ps: seq<seq<Edge>>): (r: seq<seq<Edge>>)
    ensures |r| == |ps|
    ensures forall i | 0 <= i < |ps| :: r[i] == [e] + ps[i]
  {
    seq(|ps|, i requires 0 <= i < |ps| => [e] + ps[i])
  }

  /** What the search appends below `node`, as edge sequences starting at `node`. */
  function Walk(g: Graph, node: string, visited: set<string>, budget: int): seq<seq<Edge>>
    decreases budget, 1, 0
  {
    if budget <= 0 then [] else WalkEdges(g, node, Out(g, node), visited, budget)
  }

  function WalkEdges(g: Graph, node: string, edges: seq<Edge>, visited: set<string>, budget: int): seq<seq<Edge>>
    requires budget > 0
    decreases budget, 0, |edges|
  {
    if edges == [] then []
    else
      WalkEdge(g, node, edges[0], visited, budget) + WalkEdges(g, node, edges[1..], visited, budget)
  }

  function WalkEdge(g: Graph, node: string, e: Edge, visited: set<string>, budget: int): seq<seq<Edge>>
    requires budget > 0
    decreases budget, 0, 0
  {
    if Step(g, node, visited, e)
    then [[e]] + ExtendAll(e, Walk(g, e.target, visited + {e.target}, budget - 1))
    else []
  }

  /** The search below `node` ends in a failed lookup. */
  predicate Raises(g: Graph, node: string, visited: set<string>, budget: int)
    decreases budget, 1, 0
  {
    budget > 0 && RaisesEdges(g, node, Out(g, node), visited, budget)
  }

  predicate RaisesEdges(g: Graph, node: string, edges: seq<Edge>, visited: set<string>, budget: int)
    requires budget > 0
    decreases budget, 0, |edges|
  {
    edges != [] &&
    var e := edges[0];
    || Unknown(g, node, visited, e)
    || (Step(g, node, visited, e) && Raises(g, e.target, visited + {e.target}, budget - 1))
    || RaisesEdges(g, node, edges[1..], visited, budget)
  }

  /** The edge-id lists that a list of edge sequences is recorded as. */
  function Record(prefix: seq<string>, ps: seq<seq<Edge>>): (r: seq<seq<string>>)
    ensures |r| == |ps|
    ensures forall i | 0 <= i < |ps| :: r[i] == prefix + Ids(ps[i])
  {
    seq(|ps|, i requires 0 <= i < |ps| => prefix + Ids(ps[i]))
  }

  lemma AppendAssociative<T>(a: seq<T>, b: seq<T>, c: seq<T>)
    ensures a + (b + c) == a + b + c
  {
  }

  /** What one edge adds to the list: nothing, or the new path and everything below it. */
  function Turn(g: Graph, node: string, e: Edge, visited: set<string>, budget: int, path: seq<string>): seq<seq<string>>
  {
    if Step(g, node, visited, e) then
      var next := path + [e.edgeId];
      [next] + Record(next, Walk(g, e.target, visited + {e.target}, budget - 1))
    else []
  }

  predicate TurnRaises(g: Graph, node: string, e: Edge, visited: set<string>, budget: int) {
    Unknown(g, node, visited, e) || (Step(g, node, visited, e) && Raises(g, e.target, visited + {e.target}, budget - 1))
  }

  lemma RecordConcat(path: seq<string>, a: seq<seq<Edge>>, b: seq<seq<Edge>>)
    ensures Record(path, a + b) == Record(path, a) + Record(path, b)
  {
  }

  lemma RecordEdge(g: Graph, node: string, e: Edge, visited: set<string>, budget: int, path: seq<string>)
    requires budget > 0
    ensures Record(path, WalkEdge(g, node, e, visited, budget)) == Turn(g, node, e, visited, budget, path)
  {
    if Step(g, node, visited, e) {
      var below := Walk(g, e.target, visited + {e.target}, budget - 1);
      var longer := path + [e.edgeId];
      var l, r := Record(path, [[e]] + ExtendAll(e, below)), [longer] + Record(longer, below);
      assert |l| == |r|;
      forall i | 0 <= i < |l| ensures l[i] == r[i] {
        if i == 0 {
          assert Ids([e]) == [e.edgeId];
        } else {
          assert Ids([e] + below[i-1]) == [e.edgeId] + Ids(below[i-1]);
          assert path + ([e.edgeId] + Ids(below[i-1])) == longer + Ids(below[i-1]);
        }
      }
    }
  }

  lemma RecordTurn(g: Graph, node: string, edges: seq<Edge>, visited: set<string>, budget: int, path: seq<string>)
    requires budget > 0 && edges != []
    ensures Record(path, WalkEdges(g, node, edges, visited, budget))
         == Turn(g, node, edges[0], visited, budget, path) +
            Record(path, WalkEdges(g, node, edges[1..], visited, budget))
    ensures RaisesEdges(g, node, edges, visited, budget)
       <==> TurnRaises(g, node, edges[0], visited, budget) || RaisesEdges(g, node, edges[1..], visited, budget)
  {
    RecordConcat(path, WalkEdge(g, node, edges[0], visited, budget), WalkEdges(g, node, edges[1..], visited, budget));
    RecordEdge(g, node, edges[0], visited, budget, path);
  }

  /** The part of the list that the edges from number i on still have to add. */
  ghost function Pending(g: Graph, node: string, i: nat, visited: set<string>, budget: int,
                         path: seq<string>): seq<seq<string>>
    requires budget > 0 && i <= |Out(g, node)|
  {
    Record(path, WalkEdges(g, node, Out(g, node)[i..], visited, budget))
  }

  ghost predicate PendingRaises(g: Graph, node: string, i: nat, visited: set<string>, budget: int)
    requires budget > 0 && i <= |Out(g, node)|
  {
    RaisesEdges(g, node, Out(g, node)[i..], visited, budget)
  }

  lemma PendingTurn(g: Graph, node: string, i: nat, visited: set<string>, budget: int, path: seq<string>)
    requires budget > 0 && i < |Out(g, node)|
    ensures Pending(g, node, i, visited, budget, path)
         == Turn(g, node, Out(g, node)[i], visited, budget, path) + Pending(g, node, i + 1, visited, budget, path)
    ensures PendingRaises(g, node, i, visited, budget)
       <==> TurnRaises(g, node, Out(g, node)[i], visited, budget) || PendingRaises(g, node, i + 1, visited, budget)
  {
    RecordTurn(g, node, Out(g, node)[i..], visited, budget, path);
    assert Out(g, node)[i..][1..] == Out(g, node)[i+1..];
  }

  lemma PendingAll(g: Graph, node: string, visited: set<string>, budget: int, path: seq<string>)
    requires budget > 0
    ensures Pending(g, node, 0, visited, budget, path) == Record(path, Walk(g, node, visited, budget))
    ensures PendingRaises(g, node, 0, visited, budget) <==> Raises(g, node, visited, budget)
    ensures Pending(g, node, |Out(g, node)|, visited, budget, path) == []
    ensures !PendingRaises(g, node, |Out(g, node)|, visited, budget)
  {
    assert Out(g, node)[0..] == Out(g, node);
  }

  // ----- the search, as the harness runs it -----

  class Collector {
    var paths: seq<seq<string>>

    constructor ()
      ensures paths == []
    {
      paths := [];
    }

    /** Returns false when the lookup of a target's kind raises. */
    method WalkPaths(g: Graph, currentNode: string, currentPath: seq<string>, visited: set<string>)
      returns (ok: bool)
      modifies this
      ensures ok <==> !Raises(g, currentNode, visited, g.maxDepth - |currentPath|)
      ensures ok ==>
              paths == old(paths) + Record(currentPath, Walk(g, currentNode, visited, g.maxDepth - |currentPath|))
      decreases g.maxDepth - |currentPath|, 1
    {
      ghost var budget := g.maxDepth - |currentPath|;
      if |currentPath| >= g.maxDepth {
        assert Record(currentPath, []) == [];
        return true;
      }
      var edges := Out(g, currentNode);
      PendingAll(g, currentNode, visited, budget, currentPath);
      ghost var total := paths + Pending(g, currentNode, 0, visited, budget, currentPath);
      for i := 0 to |edges|
        invariant total == paths + Pending(g, currentNode, i, visited, budget, currentPath)
        invariant PendingRaises(g, currentNode, 0, visited, budget)
             <==> PendingRaises(g, currentNode, i, visited, budget)
      {
        PendingTurn(g, currentNode, i, visited, budget, currentPath);
        AppendAssociative(paths, Turn(g, currentNode, edges[i], visited, budget, currentPath),
                          Pending(g, currentNode, i + 1, visited, budget, currentPath));
        var fine := Visit(g, currentNode, edges[i], currentPath, visited);
        if !fine { return false; }
      }
      return true;
    }

    /** One turn of the loop over the outgoing edges. */
    method Visit(g: Graph, currentNode: string, e: Edge, currentPath: seq<string>, visited: set<string>)
      returns (ok: bool)
      requires |currentPath| < g.maxDepth
      modifies this
      ensures ok <==> !TurnRaises(g, currentNode, e, visited, g.maxDepth - |currentPath|)
      ensures ok ==> paths == old(paths) + Turn(g, currentNode, e, visited, g.maxDepth - |currentPath|, currentPath)
      decreases g.maxDepth - |currentPath|, 0
    {
      if (currentNode, e.target) !in g.trusted { return true; }
      if e.target in visited { return true; }
      if e.target !in g.kindOf { return false; }
      if g.kindOf[e.target] != ROLE { return true; }
      var nextPath := currentPath + [e.edgeId];
      paths := paths + [nextPath];
      ok := WalkPaths(g, e.target, nextPath, visited + {e.target});
    }
  }

  /** The recorded searches from each start node in turn. */
  function Candidates(g: Graph, starts: seq<string>): seq<(string, seq<Edge>)> {
    if starts == [] then []
    else
      var s := starts[|starts|-1];
      Candidates(g, starts[..|starts|-1]) + Label(s, Walk(g, s, {s}, g.maxDepth))
  }

  function Label(start: string, ps: seq<seq<Edge>>): (r: seq<(string, seq<Edge>)>)
    ensures |r| == |ps|
    ensures forall i | 0 <= i < |ps| :: r[i] == (start, ps[i])
  {
    seq(|ps|, i requires 0 <= i < |ps| => (start, ps[i]))
  }

  function PathsOf(cs: seq<(string, seq<Edge>)>): (r: seq<seq<string>>)
    ensures |r| == |cs|
    ensures forall i | 0 <= i < |cs| :: r[i] == Ids(cs[i].1)
  {
    seq(|cs|, i requires 0 <= i < |cs| => Ids(cs[i].1))
  }

  function Starts(f: Fixture): seq<string> {
    SortBy(UserIds(f.nodes), Self)
  }

  function CandidateList(f: Fixture): seq<(string, seq<Edge>)> {
    Candidates(GraphOf(f), Starts(f))
  }

  lemma CandidatesTurn(g: Graph, starts: seq<string>, s: string)
    ensures PathsOf(Candidates(g, starts + [s]))
         == PathsOf(Candidates(g, starts)) + Record([], Walk(g, s, {s}, g.maxDepth))
  {
    assert (starts + [s])[..|starts|] == starts;
    var a, b := Candidates(g, starts), Walk(g, s, {s}, g.maxDepth);
    assert Candidates(g, starts + [s]) == a + Label(s, b);
    var l, r := PathsOf(a + Label(s, b)), PathsOf(a) + Record([], b);
    assert |l| == |r|;
    forall i | 0 <= i < |l| ensures l[i] == r[i] {
      if i >= |a| { assert [] + Ids(b[i-|a|]) == Ids(b[i-|a|]); }
    }
  }

  predicate StartRaises(g: Graph, s: string) {
    Raises(g, s, {s}, g.maxDepth)
  }

  /** The search raises at one of the first i start nodes. */
  ghost predicate RaisesBefore(g: Graph, starts: seq<string>, i: nat)
    requires i <= |starts|
  {
    i > 0 && (RaisesBefore(g, starts, i - 1) || StartRaises(g, starts[i-1]))
  }

  lemma {:induction false} RaisesBeforeMeaning(g: Graph, starts: seq<string>, i: nat)
    requires i <= |starts|
    ensures RaisesBefore(g, starts, i) <==> exists k :: 0 <= k < i && StartRaises(g, starts[k])
  {
    if i > 0 { RaisesBeforeMeaning(g, starts, i - 1); }
  }

  lemma RaisesStays(g: Graph, starts: seq<string>, i: nat)
    requires i < |starts| && StartRaises(g, starts[i])
    ensures RaisesBefore(g, starts, |starts|)
  {
    RaisesBeforeMeaning(g, starts, |starts|);
  }

  ghost predicate SearchRaises(f: Fixture) {
    RaisesBefore(GraphOf(f), Starts(f), |Starts(f)|)
  }

  /** The list after the first i start nodes. */
  ghost function Found(g: Graph, starts: seq<string>, i: nat): seq<seq<string>>
    requires i <= |starts|
  {
    PathsOf(Candidates(g, starts[..i]))
  }

  lemma FoundTurn(g: Graph, starts: seq<string>, i: nat)
    requires i < |starts|
    ensures Found(g, starts, i + 1)
         == Found(g, starts, i) + Record(NO_EDGES, Walk(g, starts[i], {starts[i]}, g.maxDepth - |NO_EDGES|))
  {
    assert starts[..i+1] == starts[..i] + [starts[i]];
    CandidatesTurn(g, starts[..i], starts[i]);
  }

  method SearchFrom(g: Graph, starts: seq<string>) returns (ok: bool, paths: seq<seq<string>>)
    ensures ok <==> !RaisesBefore(g, starts, |starts|)
    ensures ok ==> paths == Found(g, starts, |starts|)
  {
    var collector := new Collector();
    for i := 0 to |starts|
      invariant collector.paths == Found(g, starts, i)
      invariant !RaisesBefore(g, starts, i)
    {
      FoundTurn(g, starts, i);
      var fine := collector.WalkPaths(g, starts[i], NO_EDGES, {starts[i]});
      if !fine {
        RaisesStays(g, starts, i);
        return false, [];
      }
    }
    return true, collector.paths;
  }

  /** Searches from every user in turn, collecting into one list. */
  method CandidatePaths(f: Fixture) returns (ok: bool, paths: seq<seq<string>>)
    ensures ok <==> !SearchRaises(f)
    ensures ok ==> paths == PathsOf(CandidateList(f))
  {
    var g := BuildGraph(f);
    ok, paths := SearchFrom(g, Starts(f));
    assert Starts(f)[..|Starts(f)|] == Starts(f);
  }

  // ----- what the list is -----

  function Stop(start: string, p: seq<Edge>, i: nat): string
    requires i <= |p|
  {
    if i == 0 then start else p[i-1].target
  }

  ghost predicate HasKind(f: Fixture, id: string, kind: string) {
    id in KindIndex(f.nodes) && KindIndex(f.nodes)[id] == kind
  }

  /** p is a chain of permission edges from `start`, each matched by a trust edge between the
      same two nodes, that enters only roles, none of them twice and none in `visited`. */
  ghost predicate RoleChain(f: Fixture, start: string, visited: set<string>, p: seq<Edge>) {
    forall i | 0 <= i < |p| ::
      && p[i] in f.permissionEdges
      && p[i].source == Stop(start, p, i)
      && (p[i].source, p[i].target) in TrustPairs(f.trustEdges)
      && HasKind(f, p[i].target, ROLE)
      && p[i].target !in visited
      && forall j | 0 <= j < i :: p[j].target != p[i].target
  }

  /** A candidate path: a nonempty role chain that never returns to its start. */
  ghost predicate CandidatePath(f: Fixture, start: string, p: seq<Edge>) {
    && p != []
    && (exists n :: n in f.nodes && n.kind == USER && n.nodeId == start)
    && RoleChain(f, start, {start}, p)
  }

  lemma OutIsFrom(f: Fixture, node: string, e: Edge)
    ensures e in Out(GraphOf(f), node) <==> e in f.permissionEdges && e.source == node
  {
    if node in Sources(f.permissionEdges) {
      SortByMembers(From(f.permissionEdges, node), IdOf, e);
    }
  }

  lemma RoleChainTail(f: Fixture, start: string, visited: set<string>, p: seq<Edge>)
    requires p != [] && RoleChain(f, start, visited, p)
    ensures RoleChain(f, p[0].target, visited + {p[0].target}, p[1..])
  {
    var e, rest := p[0], p[1..];
    forall i | 0 <= i < |rest|
      ensures rest[i] in f.permissionEdges && rest[i].source == Stop(e.target, rest, i)
           && (rest[i].source, rest[i].target) in TrustPairs(f.trustEdges)
           && HasKind(f, rest[i].target, ROLE) && rest[i].target !in visited + {e.target}
           && forall j | 0 <= j < i :: rest[j].target != rest[i].target
    {
      assert rest[i] == p[i+1];
      assert p[i+1].source == Stop(start, p, i+1);
      assert p[0].target != p[i+1].target;
      forall j | 0 <= j < i ensures rest[j].target != rest[i].target {
        assert p[j+1].target != p[i+1].target;
      }
    }
  }

  lemma RoleChainPrepend(f: Fixture, start: string, visited: set<string>, p: seq<Edge>)
    requires p != [] && p[0] in f.permissionEdges && p[0].source == start
    requires Step(GraphOf(f), start, visited, p[0])
    requires RoleChain(f, p[0].target, visited + {p[0].target}, p[1..])
    ensures RoleChain(f, start, visited, p)
  {
    var rest := p[1..];
    forall i | 0 <= i < |p|
      ensures p[i] in f.permissionEdges && p[i].source == Stop(start, p, i)
           && (p[i].source, p[i].target) in TrustPairs(f.trustEdges)
           && HasKind(f, p[i].target, ROLE) && p[i].target !in visited
           && forall j | 0 <= j < i :: p[j].target != p[i].target
    {
      if i > 0 {
        assert rest[i-1] == p[i];
        assert rest[i-1].source == Stop(p[0].target, rest, i-1);
        forall j | 0 <= j < i ensures p[j].target != p[i].target {
          if j > 0 { assert rest[j-1] == p[j]; }
        }
      }
    }
  }

  lemma RoleChainCons(f: Fixture, start: string, visited: set<string>, p: seq<Edge>)
    requires p != []
    ensures RoleChain(f, start, visited, p) <==>
            && p[0] in Out(GraphOf(f), start)
            && Step(GraphOf(f), start, visited, p[0])
            && RoleChain(f, p[0].target, visited + {p[0].target}, p[1..])
  {
    OutIsFrom(f, start, p[0]);
    if RoleChain(f, start, visited, p) { RoleChainTail(f, start, visited, p); }
    if p[0] in Out(GraphOf(f), start) && Step(GraphOf(f), start, visited, p[0])
       && RoleChain(f, p[0].target, visited + {p[0].target}, p[1..]) {
      RoleChainPrepend(f, start, visited, p);
    }
  }

  /** The same chain as the recursion sees it. */
  ghost predicate Follows(g: Graph, node: string, visited: set<string>, p: seq<Edge>)
    decreases |p|
  {
    p == [] || (p[0] in Out(g, node) && Step(g, node, visited, p[0])
                && Follows(g, p[0].target, visited + {p[0].target}, p[1..]))
  }

  lemma {:induction false} FollowsIsRoleChain(f: Fixture, node: string, visited: set<string>, p: seq<Edge>)
    ensures Follows(GraphOf(f), node, visited, p) <==> RoleChain(f, node, visited, p)
    decreases |p|
  {
    if p != [] {
      RoleChainCons(f, node, visited, p);
      FollowsIsRoleChain(f, p[0].target, visited + {p[0].target}, p[1..]);
    }
  }

  lemma {:induction false} WalkMembers(g: Graph, node: string, visited: set<string>, budget: int, p: seq<Edge>)
    ensures p in Walk(g, node, visited, budget) <==> p != [] && |p| <= budget && Follows(g, node, visited, p)
    decreases budget, 1, 0
  {
    if budget > 0 { WalkEdgesMembers(g, node, Out(g, node), visited, budget, p); }
  }

  lemma {:induction false} WalkEdgesMembers(g: Graph, node: string, edges: seq<Edge>, visited: set<string>, budget: int,
                                            p: seq<Edge>)
    requires budget > 0
    ensures p in WalkEdges(g, node, edges, visited, budget) <==>
            && p != [] && |p| <= budget && p[0] in edges
            && Step(g, node, visited, p[0])
            && Follows(g, p[0].target, visited + {p[0].target}, p[1..])
    decreases budget, 0, |edges|
  {
    if edges != [] {
      assert edges == [edges[0]] + edges[1..];
      WalkEdgesMembers(g, node, edges[1..], visited, budget, p);
      WalkEdgeMembers(g, node, edges[0], visited, budget, p);
    }
  }

  lemma {:induction false} WalkEdgeMembers(g: Graph, node: string, e: Edge, visited: set<string>, budget: int,
                                           p: seq<Edge>)
    requires budget > 0
    ensures p in WalkEdge(g, node, e, visited, budget) <==>
            && p != [] && |p| <= budget && p[0] == e
            && Step(g, node, visited, e)
            && Follows(g, e.target, visited + {e.target}, p[1..])
    decreases budget, 0, 0
  {
    ExtendMembers(e, Walk(g, e.target, visited + {e.target}, budget - 1), p);
    if p != [] {
      WalkMembers(g, e.target, visited + {e.target}, budget - 1, p[1..]);
    }
  }

  lemma ExtendMembers(e: Edge, ps: seq<seq<Edge>>, p: seq<Edge>)
    ensures p in [[e]] + ExtendAll(e, ps) <==> p != [] && p[0] == e && (p[1..] == [] || p[1..] in ps)
  {
    if p in ExtendAll(e, ps) {
      var i :| 0 <= i < |ps| && ExtendAll(e, ps)[i] == p;
      assert p[1..] == ps[i];
    }
    if p != [] && p[0] == e && p[1..] in ps {
      var i :| 0 <= i < |ps| && ps[i] == p[1..];
      assert p == [e] + ps[i] == ExtendAll(e, ps)[i];
    }
    if p != [] && p[0] == e && p[1..] == [] {
      assert p == [e];
    }
  }

  lemma {:induction false} CandidatesMembers(f: Fixture, starts: seq<string>, start: string, p: seq<Edge>)
    ensures (start, p) in Candidates(GraphOf(f), starts) <==>
            start in starts && p != [] && |p| <= f.pathDepth && RoleChain(f, start, {start}, p)
  {
    if starts != [] {
      var init, s := starts[..|starts|-1], starts[|starts|-1];
      assert starts == init + [s];
      CandidatesMembers(f, init, start, p);
      var here := Walk(GraphOf(f), s, {s}, f.pathDepth);
      WalkMembers(GraphOf(f), s, {s}, f.pathDepth, p);
      FollowsIsRoleChain(f, s, {s}, p);
      if (start, p) in Label(s, here) {
        var i :| 0 <= i < |here| && Label(s, here)[i] == (start, p);
        assert here[i] == p;
      }
      if start == s && p in here {
        var i :| 0 <= i < |here| && here[i] == p;
        assert Label(s, here)[i] == (start, p);
      }
    }
  }

  /** Nothing is missing and nothing is extra: the recorded searches are exactly the candidate
      paths within the depth bound, for every fixture. */
  lemma SearchIsExact(f: Fixture, start: string, p: seq<Edge>)
    ensures (start, p) in CandidateList(f) <==> CandidatePath(f, start, p) && |p| <= f.pathDepth
  {
    CandidatesMembers(f, Starts(f), start, p);
    SortByMembers(UserIds(f.nodes), Self, start);
  }

  /** The same, for the edge-id lists the harness keeps. */
  lemma RecordedPathsAreExact(f: Fixture, ids: seq<string>)
    ensures ids in PathsOf(CandidateList(f)) <==>
            exists start, p :: CandidatePath(f, start, p) && |p| <= f.pathDepth && Ids(p) == ids
  {
    var cs := CandidateList(f);
    if ids in PathsOf(cs) {
      var i :| 0 <= i < |cs| && PathsOf(cs)[i] == ids;
      assert cs[i] in cs;
      SearchIsExact(f, cs[i].0, cs[i].1);
    }
    if exists start, p :: CandidatePath(f, start, p) && |p| <= f.pathDepth && Ids(p) == ids {
      var start, p :| CandidatePath(f, start, p) && |p| <= f.pathDepth && Ids(p) == ids;
      SearchIsExact(f, start, p);
      var i :| 0 <= i < |cs| && cs[i] == (start, p);
      assert PathsOf(cs)[i] == ids;
    }
  }

  // ----- when the search raises -----

  function Targets(p: seq<Edge>): set<string> {
    set e | e in p :: e.target
  }

  /** A role chain within the bound that a trusted permission edge would extend to a new node
      which the fixture does not contain. */
  ghost predicate LeadsNowhere(f: Fixture, start: string, visited: set<string>, budget: int, q: seq<Edge>, e: Edge) {
    && |q| < budget
    && RoleChain(f, start, visited, q)
    && e in f.permissionEdges && e.source == Stop(start, q, |q|)
    && (e.source, e.target) in TrustPairs(f.trustEdges)
    && e.target !in visited + Targets(q)
    && e.target !in KindIndex(f.nodes)
  }

  lemma LeadsNowhereCons(f: Fixture, start: string, visited: set<string>, budget: int, q: seq<Edge>, e: Edge)
    requires q != []
    ensures LeadsNowhere(f, start, visited, budget, q, e) <==>
            && q[0] in Out(GraphOf(f), start)
            && Step(GraphOf(f), start, visited, q[0])
            && LeadsNowhere(f, q[0].target, visited + {q[0].target}, budget - 1, q[1..], e)
  {
    var d, rest := q[0], q[1..];
    RoleChainCons(f, start, visited, q);
    assert q == [d] + rest;
    assert Targets(q) == {d.target} + Targets(rest);
    assert Stop(start, q, |q|) == Stop(d.target, rest, |rest|);
    assert visited + Targets(q) == visited + {d.target} + Targets(rest);
  }

  /** The same as the recursion sees it. */
  ghost predicate DeadEnd(g: Graph, node: string, visited: set<string>, budget: int, q: seq<Edge>, e: Edge)
    decreases |q|
  {
    budget > 0 &&
    if q == [] then e in Out(g, node) && Unknown(g, node, visited, e)
    else q[0] in Out(g, node) && Step(g, node, visited, q[0])
         && DeadEnd(g, q[0].target, visited + {q[0].target}, budget - 1, q[1..], e)
  }

  lemma {:induction false} DeadEndLeadsNowhere(f: Fixture, node: string, visited: set<string>, budget: int,
                                               q: seq<Edge>, e: Edge)
    ensures DeadEnd(GraphOf(f), node, visited, budget, q, e) <==> LeadsNowhere(f, node, visited, budget, q, e)
    decreases |q|
  {
    if q == [] {
      OutIsFrom(f, node, e);
    } else {
      LeadsNowhereCons(f, node, visited, budget, q, e);
      DeadEndLeadsNowhere(f, q[0].target, visited + {q[0].target}, budget - 1, q[1..], e);
    }
  }

  lemma {:induction false} RaisesWitness(g: Graph, node: string, visited: set<string>, budget: int)
    returns (q: seq<Edge>, e: Edge)
    requires Raises(g, node, visited, budget)
    ensures DeadEnd(g, node, visited, budget, q, e)
    decreases budget
  {
    var d := RaisingEdge(g, node, Out(g, node), visited, budget);
    if Unknown(g, node, visited, d) {
      q, e := [], d;
    } else {
      q, e := RaisesWitness(g, d.target, visited + {d.target}, budget - 1);
      assert ([d] + q)[1..] == q;
      q := [d] + q;
    }
  }

  lemma {:induction false} RaisingEdge(g: Graph, node: string, edges: seq<Edge>, visited: set<string>, budget: int)
    returns (e: Edge)
    requires budget > 0 && RaisesEdges(g, node, edges, visited, budget)
    ensures e in edges && TurnRaises(g, node, e, visited, budget)
  {
    e := edges[0];
    if !TurnRaises(g, node, e, visited, budget) {
      e := RaisingEdge(g, node, edges[1..], visited, budget);
    }
  }

  lemma {:induction false} RaisesFrom(g: Graph, node: string, edges: seq<Edge>, visited: set<string>, budget: int,
                                      e: Edge)
    requires budget > 0 && e in edges && TurnRaises(g, node, e, visited, budget)
    ensures RaisesEdges(g, node, edges, visited, budget)
  {
    if edges[0] != e {
      assert e in edges[1..];
      RaisesFrom(g, node, edges[1..], visited, budget, e);
    }
  }

  lemma {:induction false} WitnessRaises(g: Graph, node: string, visited: set<string>, budget: int, q: seq<Edge>,
                                         e: Edge)
    requires DeadEnd(g, node, visited, budget, q, e)
    ensures Raises(g, node, visited, budget)
    decreases |q|
  {
    if q == [] {
      RaisesFrom(g, node, Out(g, node), visited, budget, e);
    } else {
      WitnessRaises(g, q[0].target, visited + {q[0].target}, budget - 1, q[1..], e);
      RaisesFrom(g, node, Out(g, node), visited, budget, q[0]);
    }
  }

  /** The search raises exactly when some candidate prefix leads to a node that is not there. */
  lemma SearchRaisesExactlyOnMissingNodes(f: Fixture)
    ensures SearchRaises(f) <==>
            exists s, q, e :: s in Starts(f) && LeadsNowhere(f, s, {s}, f.pathDepth, q, e)
  {
    var g, starts := GraphOf(f), Starts(f);
    RaisesBeforeMeaning(g, starts, |starts|);
    if SearchRaises(f) {
      var k :| 0 <= k < |starts| && StartRaises(g, starts[k]);
      var s := starts[k];
      var q, e := RaisesWitness(g, s, {s}, f.pathDepth);
      DeadEndLeadsNowhere(f, s, {s}, f.pathDepth, q, e);
    }
    if s, q, e :| s in starts && LeadsNowhere(f, s, {s}, f.pathDepth, q, e) {
      DeadEndLeadsNowhere(f, s, {s}, f.pathDepth, q, e);
      WitnessRaises(g, s, {s}, f.pathDepth, q, e);
      var k :| 0 <= k < |starts| && starts[k] == s;
      assert StartRaises(g, starts[k]);
    }
  }
}
