/** Order, uniqueness and size of the list that PathSearch collects, and its independence
    of the order in which the fixture lists its nodes and edges. */
module PathOrder {
  import opened Ordering
  import opened PathSearch

  /** Lexicographic order on edge-id lists: a prefix comes before its extensions. */
  predicate SeqLess(a: seq<string>, b: seq<string>) {
    b != [] && (a == [] || StrLess(a[0], b[0]) || (a[0] == b[0] && SeqLess(a[1..], b[1..])))
  }

  lemma {:induction false} SeqLessIrreflexive(a: seq<string>)
    ensures !SeqLess(a, a)
  {
    if a != [] { SeqLessIrreflexive(a[1..]); }
  }

  ghost predicate Increasing(ps: seq<seq<Edge>>) {
    forall i, j | 0 <= i < j < |ps| :: SeqLess(Ids(ps[i]), Ids(ps[j]))
  }

  /** Every edge group is sorted by edge id and holds no id twice. */
  ghost predicate StrictlyGrouped(g: Graph) {
    forall node :: StrictlySorted(Out(g, node))
  }

  ghost predicate StrictlySorted(edges: seq<Edge>) {
    forall i, j | 0 <= i < j < |edges| :: StrLess(edges[i].edgeId, edges[j].edgeId)
  }

  lemma IncreasingConcat(a: seq<seq<Edge>>, b: seq<seq<Edge>>)
    requires Increasing(a) && Increasing(b)
    requires forall p, q | p in a && q in b :: SeqLess(Ids(p), Ids(q))
    ensures Increasing(a + b)
  {
  }

  lemma IdsCons(e: Edge, p: seq<Edge>)
    ensures Ids([e] + p) == [e.edgeId] + Ids(p)
  {
  }

  lemma {:induction false} WalkIncreasing(g: Graph, node: string, visited: set<string>, budget: int)
    requires StrictlyGrouped(g)
    ensures Increasing(Walk(g, node, visited, budget))
    decreases budget, 1, 0
  {
    if budget > 0 {
      assert StrictlySorted(Out(g, node));
      WalkEdgesIncreasing(g, node, Out(g, node), visited, budget);
    }
  }

  lemma {:induction false} WalkEdgesIncreasing(g: Graph, node: string, edges: seq<Edge>, visited: set<string>,
                                               budget: int)
    requires budget > 0 && StrictlyGrouped(g) && StrictlySorted(edges)
    ensures Increasing(WalkEdges(g, node, edges, visited, budget))
    decreases budget, 0, |edges|
  {
    if edges != [] {
      var e, rest := edges[0], edges[1..];
      var a, b := WalkEdge(g, node, e, visited, budget), WalkEdges(g, node, rest, visited, budget);
      WalkEdgeIncreasing(g, node, e, visited, budget);
      WalkEdgesIncreasing(g, node, rest, visited, budget);
      forall p, q | p in a && q in b ensures SeqLess(Ids(p), Ids(q)) {
        WalkEdgeMembers(g, node, e, visited, budget, p);
        WalkEdgesMembers(g, node, rest, visited, budget, q);
        assert Ids(p)[0] == e.edgeId;
        var k :| 0 <= k < |rest| && rest[k] == q[0];
        assert rest[k] == edges[k+1];
      }
      IncreasingConcat(a, b);
    }
  }

  lemma {:induction false} WalkEdgeIncreasing(g: Graph, node: string, e: Edge, visited: set<string>, budget: int)
    requires budget > 0 && StrictlyGrouped(g)
    ensures Increasing(WalkEdge(g, node, e, visited, budget))
    decreases budget, 0, 0
  {
    var below := Walk(g, e.target, visited + {e.target}, budget - 1);
    WalkIncreasing(g, e.target, visited + {e.target}, budget - 1);
    forall p | p in below ensures p != [] {
      WalkMembers(g, e.target, visited + {e.target}, budget - 1, p);
    }
    ExtendIncreasing(e, below);
  }

  lemma PrefixLess(e: Edge, q: seq<Edge>)
    requires q != []
    ensures SeqLess(Ids([e]), Ids([e] + q))
  {
    IdsCons(e, q);
    assert Ids([e]) == [e.edgeId];
  }

  lemma ExtendLess(e: Edge, p: seq<Edge>, q: seq<Edge>)
    requires SeqLess(Ids(p), Ids(q))
    ensures SeqLess(Ids([e] + p), Ids([e] + q))
  {
    IdsCons(e, p);
    IdsCons(e, q);
    assert ([e.edgeId] + Ids(p))[1..] == Ids(p) && ([e.edgeId] + Ids(q))[1..] == Ids(q);
  }

  lemma ExtendIncreasing(e: Edge, ps: seq<seq<Edge>>)
    requires Increasing(ps) && [] !in ps
    ensures Increasing([[e]] + ExtendAll(e, ps))
  {
    var all := [[e]] + ExtendAll(e, ps);
    forall i, j | 0 <= i < j < |all| ensures SeqLess(Ids(all[i]), Ids(all[j])) {
      assert all[j] == [e] + ps[j-1] && ps[j-1] in ps;
      if i == 0 {
        PrefixLess(e, ps[j-1]);
      } else {
        assert all[i] == [e] + ps[i-1];
        ExtendLess(e, ps[i-1], ps[j-1]);
      }
    }
  }

  // ----- the whole list -----

  function NodeIdOf(n: Node): string { n.nodeId }

  /** No two nodes share an id, and no two permission edges do. */
  ghost predicate DistinctIds(f: Fixture) {
    DistinctBy(f.nodes, NodeIdOf) && DistinctBy(f.permissionEdges, IdOf)
  }

  /** First by start node, then by edge-id list. */
  ghost predicate LabelledLess(a: (string, seq<Edge>), b: (string, seq<Edge>)) {
    StrLess(a.0, b.0) || (a.0 == b.0 && SeqLess(Ids(a.1), Ids(b.1)))
  }

  ghost predicate LabelledIncreasing(cs: seq<(string, seq<Edge>)>) {
    forall i, j | 0 <= i < j < |cs| :: LabelledLess(cs[i], cs[j])
  }

  lemma {:induction false} FromDistinct(edges: seq<Edge>, source: string)
    requires DistinctBy(edges, IdOf)
    ensures DistinctBy(From(edges, source), IdOf)
  {
    if edges != [] {
      var init, last := edges[..|edges|-1], edges[|edges|-1];
      FromDistinct(init, source);
      forall e | e in From(init, source) ensures e.edgeId != last.edgeId {
        var k :| 0 <= k < |init| && init[k] == e;
        assert IdOf(edges[k]) != IdOf(edges[|edges|-1]);
      }
    }
  }

  lemma StrictGroups(f: Fixture)
    requires DistinctIds(f)
    ensures StrictlyGrouped(GraphOf(f))
  {
    forall node ensures StrictlySorted(Out(GraphOf(f), node)) {
      if node in Sources(f.permissionEdges) {
        var group := From(f.permissionEdges, node);
        FromDistinct(f.permissionEdges, node);
        SortBySorted(group, IdOf);
        DistinctTransfers(group, SortBy(group, IdOf), IdOf);
        assert Out(GraphOf(f), node) == SortBy(group, IdOf);
        var out := Out(GraphOf(f), node);
        forall i, j | 0 <= i < j < |out| ensures StrLess(out[i].edgeId, out[j].edgeId) {
          assert StrLe(IdOf(out[i]), IdOf(out[j])) && IdOf(out[i]) != IdOf(out[j]);
        }
      }
    }
  }

  lemma {:induction false} UserIdsDistinct(nodes: seq<Node>)
    requires DistinctBy(nodes, NodeIdOf)
    ensures DistinctBy(UserIds(nodes), Self)
  {
    if nodes != [] {
      var init, last := nodes[..|nodes|-1], nodes[|nodes|-1];
      UserIdsDistinct(init);
      forall s | s in UserIds(init) ensures s != last.nodeId {
        var n :| n in init && n.kind == USER && n.nodeId == s;
        var k :| 0 <= k < |init| && init[k] == n;
        assert NodeIdOf(nodes[k]) != NodeIdOf(nodes[|nodes|-1]);
      }
      var ids := UserIds(nodes);
      forall i, j | 0 <= i < j < |ids| ensures Self(ids[i]) != Self(ids[j]) {
        if j < |UserIds(init)| {
          assert Self(UserIds(init)[i]) != Self(UserIds(init)[j]);
        } else {
          assert ids[i] in UserIds(init);
        }
      }
    }
  }

  lemma StartsAscending(f: Fixture)
    requires DistinctIds(f)
    ensures Ascending(Starts(f))
  {
    UserIdsDistinct(f.nodes);
    SortBySorted(UserIds(f.nodes), Self);
    DistinctTransfers(UserIds(f.nodes), Starts(f), Self);
    var s := Starts(f);
    forall i, j | 0 <= i < j < |s| ensures StrLess(s[i], s[j]) {
      assert StrLe(Self(s[i]), Self(s[j])) && Self(s[i]) != Self(s[j]);
    }
  }

  lemma {:induction false} CandidatesIncreasing(g: Graph, starts: seq<string>)
    requires StrictlyGrouped(g) && Ascending(starts)
    ensures LabelledIncreasing(Candidates(g, starts))
    ensures forall c | c in Candidates(g, starts) :: c.0 in starts
  {
    if starts != [] {
      var init, s := starts[..|starts|-1], starts[|starts|-1];
      CandidatesIncreasing(g, init);
      WalkIncreasing(g, s, {s}, g.maxDepth);
      var a, w := Candidates(g, init), Walk(g, s, {s}, g.maxDepth);
      forall c | c in a ensures StrLess(c.0, s) {
        var k :| 0 <= k < |init| && init[k] == c.0;
        assert StrLess(starts[k], starts[|starts|-1]);
      }
      var all := a + Label(s, w);
      forall i, j | 0 <= i < j < |all| ensures LabelledLess(all[i], all[j]) {
        if j < |a| {
          assert LabelledLess(a[i], a[j]);
        } else if i < |a| {
          assert a[i] in a;
        } else {
          assert SeqLess(Ids(w[i-|a|]), Ids(w[j-|a|]));
        }
      }
    }
  }

  /** The collected list is strictly increasing in (start node, edge-id list). */
  lemma SearchIsOrdered(f: Fixture)
    requires DistinctIds(f)
    ensures LabelledIncreasing(CandidateList(f))
  {
    StrictGroups(f);
    StartsAscending(f);
    CandidatesIncreasing(GraphOf(f), Starts(f));
  }

  lemma SameIdsSamePath(f: Fixture, p: seq<Edge>, q: seq<Edge>)
    requires DistinctBy(f.permissionEdges, IdOf)
    requires forall e | e in p :: e in f.permissionEdges
    requires forall e | e in q :: e in f.permissionEdges
    requires Ids(p) == Ids(q)
    ensures p == q
  {
    forall i | 0 <= i < |p| ensures p[i] == q[i] {
      assert Ids(p)[i] == Ids(q)[i];
      assert p[i] in p && q[i] in q;
      var k :| 0 <= k < |f.permissionEdges| && f.permissionEdges[k] == p[i];
      var l :| 0 <= l < |f.permissionEdges| && f.permissionEdges[l] == q[i];
      assert IdOf(f.permissionEdges[k]) == IdOf(f.permissionEdges[l]);
    }
  }

  /** No edge-id list is recorded twice: each one also determines its start node. */
  lemma NothingIsRecordedTwice(f: Fixture, i: nat, j: nat)
    requires DistinctIds(f) && i < j < |CandidateList(f)|
    ensures PathsOf(CandidateList(f))[i] != PathsOf(CandidateList(f))[j]
  {
    var cs := CandidateList(f);
    SearchIsOrdered(f);
    assert LabelledLess(cs[i], cs[j]);
    if Ids(cs[i].1) == Ids(cs[j].1) {
      assert cs[i] in cs && cs[j] in cs;
      SearchIsExact(f, cs[i].0, cs[i].1);
      SearchIsExact(f, cs[j].0, cs[j].1);
      var p, q := cs[i].1, cs[j].1;
      SameIdsSamePath(f, p, q);
      assert p[0].source == Stop(cs[i].0, p, 0) && q[0].source == Stop(cs[j].0, q, 0);
      SeqLessIrreflexive(Ids(p));
    }
  }

  // ----- independence of the listing order -----

  lemma {:induction false} KindIndexHolds(nodes: seq<Node>, n: Node)
    requires DistinctBy(nodes, NodeIdOf) && n in nodes
    ensures n.nodeId in KindIndex(nodes) && KindIndex(nodes)[n.nodeId] == n.kind
  {
    var init, last := nodes[..|nodes|-1], nodes[|nodes|-1];
    if n != last {
      assert nodes == init + [last];
      var k :| 0 <= k < |init| && init[k] == n;
      assert NodeIdOf(nodes[k]) != NodeIdOf(nodes[|nodes|-1]);
      KindIndexHolds(init, n);
    }
  }

  lemma {:induction false} KindIndexOnly(nodes: seq<Node>, id: string)
    ensures id in KindIndex(nodes) <==> exists n :: n in nodes && n.nodeId == id
  {
    if nodes != [] {
      var init, last := nodes[..|nodes|-1], nodes[|nodes|-1];
      assert nodes == init + [last];
      KindIndexOnly(init, id);
      if n :| n in nodes && n.nodeId == id { assert n in init || n == last; }
    }
  }

  lemma KindIndexPermuted(a: seq<Node>, b: seq<Node>)
    requires multiset(a) == multiset(b) && DistinctBy(a, NodeIdOf)
    ensures KindIndex(a) == KindIndex(b)
  {
    DistinctTransfers(a, b, NodeIdOf);
    forall id ensures id in KindIndex(a) <==> id in KindIndex(b)
              ensures id in KindIndex(a) ==> KindIndex(a)[id] == KindIndex(b)[id]
    {
      KindIndexOnly(a, id);
      KindIndexOnly(b, id);
      if n :| n in a && n.nodeId == id {
        SameMembers(a, b, n);
        KindIndexHolds(a, n);
        KindIndexHolds(b, n);
      }
      if n :| n in b && n.nodeId == id { SameMembers(a, b, n); }
    }
  }

  lemma {:induction false} FromCounts(edges: seq<Edge>, source: string, e: Edge)
    ensures multiset(From(edges, source))[e] == if e.source == source then multiset(edges)[e] else 0
  {
    if edges != [] {
      var init, last := edges[..|edges|-1], edges[|edges|-1];
      assert edges == init + [last];
      FromCounts(init, source, e);
    }
  }

  lemma OutgoingPermuted(a: seq<Edge>, b: seq<Edge>, source: string)
    requires multiset(a) == multiset(b) && DistinctBy(a, IdOf)
    ensures SortBy(From(a, source), IdOf) == SortBy(From(b, source), IdOf)
  {
    forall e ensures multiset(From(a, source))[e] == multiset(From(b, source))[e] {
      FromCounts(a, source, e);
      FromCounts(b, source, e);
    }
    FromDistinct(a, source);
    SortByCanonical(From(a, source), From(b, source), IdOf);
  }

  lemma StartsPermuted(f: Fixture, g: Fixture)
    requires DistinctIds(f) && DistinctIds(g) && multiset(f.nodes) == multiset(g.nodes)
    ensures Starts(f) == Starts(g)
  {
    StartsAscending(f);
    StartsAscending(g);
    forall s ensures s in Starts(f) <==> s in Starts(g) {
      SortByMembers(UserIds(f.nodes), Self, s);
      SortByMembers(UserIds(g.nodes), Self, s);
      forall n { SameMembers(f.nodes, g.nodes, n); }
    }
    AscendingUnique(Starts(f), Starts(g));
  }

  lemma GroupsPermuted(a: seq<Edge>, b: seq<Edge>)
    requires multiset(a) == multiset(b) && DistinctBy(a, IdOf)
    ensures (map s | s in Sources(a) :: SortBy(From(a, s), IdOf))
            == (map s | s in Sources(b) :: SortBy(From(b, s), IdOf))
  {
    forall e ensures e in a <==> e in b { SameMembers(a, b, e); }
    assert Sources(a) == Sources(b);
    forall s | s in Sources(a)
      ensures SortBy(From(a, s), IdOf) == SortBy(From(b, s), IdOf)
    {
      OutgoingPermuted(a, b, s);
    }
  }

  lemma GraphPermuted(f: Fixture, g: Fixture)
    requires DistinctIds(f) && f.pathDepth == g.pathDepth
    requires multiset(f.nodes) == multiset(g.nodes)
    requires multiset(f.permissionEdges) == multiset(g.permissionEdges)
    requires TrustPairs(f.trustEdges) == TrustPairs(g.trustEdges)
    ensures GraphOf(f) == GraphOf(g)
  {
    KindIndexPermuted(f.nodes, g.nodes);
    GroupsPermuted(f.permissionEdges, g.permissionEdges);
  }

  /** Listing the nodes, permission edges or trust edges in another order, or repeating a trust
      edge, changes neither the recorded list nor its order. */
  lemma SearchIgnoresListingOrder(f: Fixture, g: Fixture)
    requires DistinctIds(f) && f.pathDepth == g.pathDepth
    requires multiset(f.nodes) == multiset(g.nodes)
    requires multiset(f.permissionEdges) == multiset(g.permissionEdges)
    requires TrustPairs(f.trustEdges) == TrustPairs(g.trustEdges)
    ensures CandidateList(f) == CandidateList(g)
    ensures SearchRaises(f) <==> SearchRaises(g)
  {
    DistinctTransfers(f.nodes, g.nodes, NodeIdOf);
    DistinctTransfers(f.permissionEdges, g.permissionEdges, IdOf);
    StartsPermuted(f, g);
    GraphPermuted(f, g);
  }

  // ----- how long the list can be -----

  function Power(b: nat, n: nat): nat {
    if n == 0 then 1 else b * Power(b, n - 1)
  }

  /** b + b^2 + ... + b^n. */
  function PowerSum(b: nat, n: int): nat {
    if n <= 0 then 0 else PowerSum(b, n - 1) + Power(b, n)
  }

  lemma {:induction false} PowerSumFactor(b: nat, n: nat)
    requires n > 0
    ensures PowerSum(b, n) == b * (1 + PowerSum(b, n - 1))
  {
    if n == 1 {
      assert Power(b, 1) == b * Power(b, 0) == b;
    } else {
      PowerSumFactor(b, n - 1);
      assert b * (1 + PowerSum(b, n - 2) + Power(b, n - 1)) == b * (1 + PowerSum(b, n - 2)) + b * Power(b, n - 1);
    }
  }

  ghost predicate DegreeAtMost(g: Graph, b: nat) {
    forall node :: |Out(g, node)| <= b
  }

  lemma {:induction false} WalkBounded(g: Graph, node: string, visited: set<string>, budget: int, b: nat)
    requires DegreeAtMost(g, b)
    ensures |Walk(g, node, visited, budget)| <= PowerSum(b, budget)
    decreases budget, 1, 0
  {
    if budget > 0 {
      var out := Out(g, node);
      WalkEdgesBounded(g, node, out, visited, budget, b);
      PowerSumFactor(b, budget);
      var per := 1 + PowerSum(b, budget - 1);
      assert |out| * per <= b * per by { MulMonotonic(|out|, b, per); }
    }
  }

  lemma MulMonotonic(x: nat, y: nat, k: nat)
    requires x <= y
    ensures x * k <= y * k
  {
  }

  lemma {:induction false} WalkEdgesBounded(g: Graph, node: string, edges: seq<Edge>, visited: set<string>, budget: int,
                                            b: nat)
    requires budget > 0 && DegreeAtMost(g, b)
    ensures |WalkEdges(g, node, edges, visited, budget)| <= |edges| * (1 + PowerSum(b, budget - 1))
    decreases budget, 0, |edges|
  {
    if edges != [] {
      var e := edges[0];
      WalkEdgesBounded(g, node, edges[1..], visited, budget, b);
      WalkBounded(g, e.target, visited + {e.target}, budget - 1, b);
      var per := 1 + PowerSum(b, budget - 1);
      assert |edges| * per == (|edges| - 1) * per + per;
    }
  }

  lemma {:induction false} CandidatesBounded(g: Graph, starts: seq<string>, b: nat)
    requires DegreeAtMost(g, b)
    ensures |Candidates(g, starts)| <= |starts| * PowerSum(b, g.maxDepth)
  {
    if starts != [] {
      var s := starts[|starts|-1];
      CandidatesBounded(g, starts[..|starts|-1], b);
      WalkBounded(g, s, {s}, g.maxDepth, b);
      var per := PowerSum(b, g.maxDepth);
      assert |starts| * per == (|starts| - 1) * per + per;
    }
  }

  /** With u users and at most b permission edges per node the list holds at most
      u * (b + b^2 + ... + b^depth) paths. */
  lemma SearchIsBounded(f: Fixture, b: nat)
    requires DegreeAtMost(GraphOf(f), b)
    ensures |CandidateList(f)| <= |UserIds(f.nodes)| * PowerSum(b, f.pathDepth)
  {
    CandidatesBounded(GraphOf(f), Starts(f), b);
  }
}
