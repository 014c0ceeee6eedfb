/** Resolution, materialisation, emission and validation put together
    (iamscope/pipeline.py, iamscope/output/scenario_json.py, iamscope/validate.py). */
module Pipeline {
  import opened Basics
  import opened Dedupe
  import opened Ordering
  import opened Models
  import opened Resolution
  import opened Dangling
  import opened Validator

  /** A digest neither collides nor is ever empty. */
  ghost predicate IsDigest(sha: Hash) {
    Injective(sha) && forall s :: sha(s) != ""
  }

  // ----- emission -----

  function NodeEntries(nodes: seq<Node>, sha: Hash): (r: seq<NodeEntry>)
    ensures |r| == |nodes| && forall i | 0 <= i < |r| :: r[i] == NodeEntry(NodeId(sha, nodes[i]), KeyOf(nodes[i]))
  {
    seq(|nodes|, i requires 0 <= i < |nodes| => NodeEntry(NodeId(sha, nodes[i]), KeyOf(nodes[i])))
  }

  function EdgeEntries(edges: seq<Edge>, sha: Hash): (r: seq<EdgeEntry>)
    ensures |r| == |edges|
    ensures forall i | 0 <= i < |r| ::
              r[i] == EdgeEntry(EdgeId(sha, edges[i]), RefKey(edges[i].src), RefKey(edges[i].dst))
  {
    seq(|edges|, i requires 0 <= i < |edges| =>
        EdgeEntry(EdgeId(sha, edges[i]), RefKey(edges[i].src), RefKey(edges[i].dst)))
  }

  function IdsOf(constraints: seq<Constraint>, sha: Hash): (r: seq<string>)
    ensures |r| == |constraints| && forall i | 0 <= i < |r| :: r[i] == ConstraintId(sha, constraints[i])
  {
    seq(|constraints|, i requires 0 <= i < |constraints| => ConstraintId(sha, constraints[i]))
  }

  function LinkEntries(links: seq<EdgeConstraint>): (r: seq<LinkEntry>)
    ensures |r| == |links| && forall i | 0 <= i < |r| :: r[i] == LinkEntry(links[i].edgeId, links[i].constraintId)
  {
    seq(|links|, i requires 0 <= i < |links| => LinkEntry(links[i].edgeId, links[i].constraintId))
  }

  function LinkEdge(l: EdgeConstraint): string { l.edgeId }
  function LinkConstraint(l: EdgeConstraint): string { l.constraintId }

  /** Sorted by (edge_id, constraint_id): a stable sort by the second key, then by the first. */
  function SortLinks(links: seq<EdgeConstraint>): seq<EdgeConstraint> {
    SortBy(SortBy(links, LinkConstraint), LinkEdge)
  }

  /** The emitted arrays, each in its canonical order. */
  function Emitted(nodes: seq<Node>, edges: seq<Edge>, constraints: seq<Constraint>, links: seq<EdgeConstraint>,
                   sha: Hash): Scenario
  {
    Scenario(
      NodeEntries(SortBy(nodes, NodeIdBy(sha)), sha),
      EdgeEntries(SortBy(edges, EdgeIdBy(sha)), sha),
      IdsOf(SortBy(constraints, ConstraintIdBy(sha)), sha),
      LinkEntries(SortLinks(links)))
  }

  ghost predicate AllHaveIds(nodes: seq<Node>, edges: seq<Edge>, constraints: seq<Constraint>) {
    && (forall n | n in nodes :: KeyHasId(KeyOf(n)))
    && (forall e | e in edges :: EdgeHasId(e))
    && (forall c | c in constraints :: ConstraintHasId(c))
  }

  ghost predicate EndpointsResolve(nodes: seq<Node>, edges: seq<Edge>) {
    EndpointKeys(edges) <= Keys(nodes)
  }

  // ----- the emitted arrays do not depend on the order of the records -----

  /** Ascending in the edge id, and among equal edge ids in the constraint id. */
  ghost predicate LinksAscend(links: seq<EdgeConstraint>) {
    forall i, j | 0 <= i < j < |links| :: LinkLe(links[i], links[j])
  }

  predicate LinkLe(l: EdgeConstraint, m: EdgeConstraint) {
    StrLess(l.edgeId, m.edgeId) || (l.edgeId == m.edgeId && StrLe(l.constraintId, m.constraintId))
  }

  lemma {:induction false} InsertAscends(x: EdgeConstraint, s: seq<EdgeConstraint>)
    requires LinksAscend(s) && forall l | l in s :: StrLe(x.constraintId, l.constraintId)
    ensures LinksAscend(Insert(x, s, LinkEdge))
  {
    if s != [] && !StrLe(x.edgeId, s[0].edgeId) {
      InsertAscends(x, s[1..]);
      StrLeTotal(x.edgeId, s[0].edgeId);
      var rest := Insert(x, s[1..], LinkEdge);
      forall j | 0 <= j < |rest| ensures LinkLe(s[0], rest[j]) {
        assert rest[j] in multiset(rest);
        assert rest[j] == x || rest[j] in s[1..];
      }
    } else if s != [] {
      forall j | 0 <= j < |s| ensures LinkLe(x, s[j]) {
        assert s[j] in s;
        if j > 0 {
          assert LinkLe(s[0], s[j]);
          StrLeRefl(s[0].edgeId);
          StrLeTransitive(x.edgeId, s[0].edgeId, s[j].edgeId);
        }
      }
    }
  }

  lemma {:induction false} StableSortAscends(s: seq<EdgeConstraint>)
    requires SortedBy(s, LinkConstraint)
    ensures LinksAscend(SortBy(s, LinkEdge))
  {
    if s != [] {
      StableSortAscends(s[1..]);
      forall l | l in SortBy(s[1..], LinkEdge) ensures StrLe(s[0].constraintId, l.constraintId) {
        SortByMembers(s[1..], LinkEdge, l);
        var i :| 0 <= i < |s[1..]| && s[1..][i] == l;
        assert StrLe(LinkConstraint(s[0]), LinkConstraint(s[i+1]));
      }
      InsertAscends(s[0], SortBy(s[1..], LinkEdge));
    }
  }

  lemma SortLinksAscends(links: seq<EdgeConstraint>)
    ensures LinksAscend(SortLinks(links)) && multiset(SortLinks(links)) == multiset(links)
  {
    SortBySorted(links, LinkConstraint);
    StableSortAscends(SortBy(links, LinkConstraint));
  }

  lemma LinkLeAntisymmetric(l: EdgeConstraint, m: EdgeConstraint)
    requires LinkLe(l, m) && LinkLe(m, l)
    ensures l.edgeId == m.edgeId && l.constraintId == m.constraintId
  {
    if l.edgeId != m.edgeId { StrLeAntisymmetric(l.edgeId, m.edgeId); }
    StrLeAntisymmetric(l.constraintId, m.constraintId);
  }

  /** The two ids of a link: all that the emitted array holds of it. */
  function LinkPair(l: EdgeConstraint): (string, string) { (l.edgeId, l.constraintId) }

  /** In an ascending list, whatever comes no later than the least link has its id pair. */
  lemma LeadingPairs(a: seq<EdgeConstraint>, b: seq<EdgeConstraint>, k: nat, i: nat)
    requires LinksAscend(a) && LinksAscend(b) && multiset(a) == multiset(b)
    requires a != [] && i <= k < |b| && b[k] == a[0]
    ensures LinkPair(b[i]) == LinkPair(a[0])
  {
    hide LinkLe;
    if i < k {
      SameMembers(a, b, b[i]);
      var j :| 0 <= j < |a| && a[j] == b[i];
      if j > 0 { LinkLeAntisymmetric(a[0], b[i]); }
    }
  }

  /** Taking out position k keeps the order and removes one occurrence of that link. */
  lemma WithoutLink(b: seq<EdgeConstraint>, k: nat)
    requires LinksAscend(b) && k < |b|
    ensures LinksAscend(b[..k] + b[k+1..])
    ensures multiset(b[..k] + b[k+1..]) == multiset(b) - multiset{b[k]}
  {
    hide LinkLe;
    assert b == b[..k] + [b[k]] + b[k+1..];
    var rest := b[..k] + b[k+1..];
    forall i, j | 0 <= i < j < |rest| ensures LinkLe(rest[i], rest[j]) {
      assert rest[i] == b[if i < k then i else i + 1] && rest[j] == b[if j < k then j else j + 1];
    }
  }

  ghost predicate SamePairs(a: seq<EdgeConstraint>, b: seq<EdgeConstraint>) {
    |a| == |b| && forall i | 0 <= i < |a| :: LinkPair(a[i]) == LinkPair(b[i])
  }

  /** Moving a link to the front, past links with its own id pair, changes no id pair. */
  lemma PairsAfterMove(a: seq<EdgeConstraint>, b: seq<EdgeConstraint>, k: nat)
    requires a != [] && k < |b|
    requires forall i | 0 <= i <= k :: LinkPair(b[i]) == LinkPair(a[0])
    requires SamePairs(a[1..], b[..k] + b[k+1..])
    ensures SamePairs(a, b)
  {
    var rest := b[..k] + b[k+1..];
    forall i | 0 <= i < |a| ensures LinkPair(a[i]) == LinkPair(b[i]) {
      if i > 0 {
        assert LinkPair(a[1..][i-1]) == LinkPair(rest[i-1]);
        assert rest[i-1] == if i <= k then b[i-1] else b[i];
      }
    }
  }

  /** Two ascending arrangements of the same links show the same id pairs, also when a pair occurs
      more than once: links with equal pairs may change places, and nothing else can. */
  lemma {:induction false} AscendingPairsAgree(a: seq<EdgeConstraint>, b: seq<EdgeConstraint>)
    requires multiset(a) == multiset(b) && LinksAscend(a) && LinksAscend(b)
    ensures SamePairs(a, b)
  {
    hide LinkLe, LinkPair;
    assert |a| == |multiset(a)| == |multiset(b)| == |b|;
    if a != [] {
      SameMembers(a, b, a[0]);
      var k :| 0 <= k < |b| && b[k] == a[0];
      forall i | 0 <= i <= k ensures LinkPair(b[i]) == LinkPair(a[0]) { LeadingPairs(a, b, k, i); }
      WithoutLink(b, k);
      assert a == [a[0]] + a[1..];
      AscendingPairsAgree(a[1..], b[..k] + b[k+1..]);
      PairsAfterMove(a, b, k);
    }
  }

  /** The emitted links are the same for every order of the links, with no condition on them. */
  lemma LinkOrderIsIgnored(links: seq<EdgeConstraint>, links': seq<EdgeConstraint>)
    requires multiset(links) == multiset(links')
    ensures LinkEntries(SortLinks(links)) == LinkEntries(SortLinks(links'))
  {
    hide SortBy, LinksAscend, LinkEntries;
    SortLinksAscends(links);
    SortLinksAscends(links');
    var a, b := SortLinks(links), SortLinks(links');
    AscendingPairsAgree(a, b);
    forall i | 0 <= i < |a| ensures LinkEntries(a)[i] == LinkEntries(b)[i] {
      assert LinkPair(a[i]) == LinkPair(b[i]);
    }
  }

  /** With unique ids of the nodes, edges and constraints, the emitted arrays are the same for every
      order of the nodes, edges, constraints and links. */
  lemma EmissionIgnoresOrder(
      nodes: seq<Node>, edges: seq<Edge>, constraints: seq<Constraint>, links: seq<EdgeConstraint>,
      nodes': seq<Node>, edges': seq<Edge>, constraints': seq<Constraint>, links': seq<EdgeConstraint>, sha: Hash)
    requires multiset(nodes) == multiset(nodes') && multiset(edges) == multiset(edges')
    requires multiset(constraints) == multiset(constraints') && multiset(links) == multiset(links')
    requires DistinctBy(nodes, NodeIdBy(sha)) && DistinctBy(edges, EdgeIdBy(sha))
    requires DistinctBy(constraints, ConstraintIdBy(sha))
    ensures Emitted(nodes, edges, constraints, links, sha) == Emitted(nodes', edges', constraints', links', sha)
  {
    hide NodeEntries, EdgeEntries, IdsOf, LinkEntries, SortLinks, SortBy, DistinctBy;
    SortByCanonical(nodes, nodes', NodeIdBy(sha));
    SortByCanonical(edges, edges', EdgeIdBy(sha));
    SortByCanonical(constraints, constraints', ConstraintIdBy(sha));
    LinkOrderIsIgnored(links, links');
  }

  method CheckNodes(nodes: seq<Node>) returns (ok: bool)
    ensures ok <==> forall n | n in nodes :: KeyHasId(KeyOf(n))
  {
    for i := 0 to |nodes|
      invariant forall j | 0 <= j < i :: KeyHasId(KeyOf(nodes[j]))
    {
      if !KeyHasId(KeyOf(nodes[i])) { return false; }
    }
    return true;
  }

  method CheckEdges(edges: seq<Edge>, keys: set<Key>) returns (ok: bool)
    ensures ok <==> (forall e | e in edges :: EdgeHasId(e)) && EndpointKeys(edges) <= keys
  {
    hide EdgeHasId;
    for i := 0 to |edges|
      invariant forall j | 0 <= j < i ::
                  EdgeHasId(edges[j]) && RefKey(edges[j].src) in keys && RefKey(edges[j].dst) in keys
    {
      var e := edges[i];
      if RefKey(e.src) !in keys || RefKey(e.dst) !in keys || !EdgeHasId(e) {
        assert e in edges;
        assert RefKey(e.src) in EndpointKeys(edges) && RefKey(e.dst) in EndpointKeys(edges);
        return false;
      }
    }
    return true;
  }

  /** emit_scenario: referential integrity first, then sorting. None stands for a ValueError. */
  method EmitScenario(nodes: seq<Node>, edges: seq<Edge>, constraints: seq<Constraint>, links: seq<EdgeConstraint>,
                      sha: Hash)
    returns (r: Option<Scenario>)
    ensures r.Some? <==> AllHaveIds(nodes, edges, constraints) && EndpointsResolve(nodes, edges)
                         && RefersTo(sha, links, edges, constraints)
    ensures r.Some? ==> r.value == Emitted(nodes, edges, constraints, links, sha)
  {
    hide KeyHasId, EdgeHasId, ConstraintHasId, EndpointKeys, EdgeId, ConstraintId, Emitted;
    var nodesOk := CheckNodes(nodes);
    if !nodesOk { return None; }
    var edgesOk := CheckEdges(edges, set n | n in nodes :: KeyOf(n));
    if !edgesOk { return None; }
    var edgeIds := set i | 0 <= i < |edges| :: EdgeId(sha, edges[i]);
    assert edgeIds == IdSet(edges, EdgeIdBy(sha));
    var ids := CollectIds(constraints, sha);
    if ids.None? { return None; }
    var linksOk := CheckReferences(links, edgeIds, ids.value);
    if !linksOk { return None; }
    return Some(Emitted(nodes, edges, constraints, links, sha));
  }

  method CheckReferences(links: seq<EdgeConstraint>, edgeIds: set<string>, constraintIds: set<string>)
    returns (ok: bool)
    ensures ok <==> forall l | l in links :: l.edgeId in edgeIds && l.constraintId in constraintIds
  {
    for i := 0 to |links|
      invariant forall j | 0 <= j < i :: links[j].edgeId in edgeIds && links[j].constraintId in constraintIds
    {
      if links[i].edgeId !in edgeIds || links[i].constraintId !in constraintIds { return false; }
    }
    return true;
  }

  // ----- what validation says about an emitted scenario -----

  ghost predicate IdList<T>(s: seq<T>, id: T -> string, ids: seq<string>) {
    |ids| == |s| && forall i | 0 <= i < |ids| :: ids[i] == id(s[i])
  }

  lemma IdListRepeats<T>(s: seq<T>, id: T -> string, ids: seq<string>)
    requires IdList(s, id, ids)
    ensures NoRepeats(ids) <==> DistinctBy(s, id)
  {
    if NoRepeats(ids) {
      forall i, j | 0 <= i < j < |s| ensures id(s[i]) != id(s[j]) { assert ids[i] != ids[j]; }
    }
    if DistinctBy(s, id) {
      forall i, j | 0 <= i < j < |ids| ensures ids[i] != ids[j] { assert id(s[i]) != id(s[j]); }
    }
  }

  lemma IdListOrder<T>(s: seq<T>, id: T -> string, ids: seq<string>)
    requires IdList(s, id, ids) && SortedBy(s, id)
    ensures NonDecreasing(ids)
  {
    forall i, j | 0 <= i < j < |ids| ensures StrLe(ids[i], ids[j]) { assert StrLe(id(s[i]), id(s[j])); }
  }

  lemma IdListSet<T>(s: seq<T>, id: T -> string, ids: seq<string>)
    requires IdList(s, id, ids)
    ensures (set k | k in ids) == IdSet(s, id)
  {
    forall k | k in IdSet(s, id) ensures k in ids {
      var i :| 0 <= i < |s| && id(s[i]) == k;
      assert ids[i] == k;
    }
  }

  lemma SortedIds<T>(items: seq<T>, id: T -> string, ids: seq<string>)
    requires IdList(SortBy(items, id), id, ids)
    ensures NonDecreasing(ids)
    ensures NoRepeats(ids) <==> DistinctBy(items, id)
  {
    hide IdList, NoRepeats, NonDecreasing, SortedBy, DistinctBy;
    var s := SortBy(items, id);
    SortBySorted(items, id);
    IdListOrder(s, id, ids);
    IdListRepeats(s, id, ids);
    if DistinctBy(s, id) { DistinctTransfers(s, items, id); }
    if DistinctBy(items, id) { DistinctTransfers(items, s, id); }
  }

  lemma SortedIdSet<T>(items: seq<T>, id: T -> string, ids: seq<string>)
    requires IdList(SortBy(items, id), id, ids)
    ensures (set k | k in ids) == IdSet(items, id)
  {
    hide IdList, SortBy, IdSet;
    var s := SortBy(items, id);
    forall x | x in items ensures x in s { SortByMembers(items, id, x); }
    IdSetSubset(items, s, id);
    forall x | x in s ensures x in items { SortByMembers(items, id, x); }
    IdSetSubset(s, items, id);
    IdListSet(s, id, ids);
  }

  lemma EmittedSorted(nodes: seq<Node>, edges: seq<Edge>, constraints: seq<Constraint>, links: seq<EdgeConstraint>,
                      sha: Hash)
    ensures SortedById(Emitted(nodes, edges, constraints, links, sha))
    ensures UniqueIds(Emitted(nodes, edges, constraints, links, sha)) <==>
            DistinctBy(nodes, NodeIdBy(sha)) && DistinctBy(edges, EdgeIdBy(sha)) &&
            DistinctBy(constraints, ConstraintIdBy(sha))
  {
    hide NoRepeats, NonDecreasing, DistinctBy, NodeId, EdgeId, ConstraintId, SortBy, SortLinks;
    var s := Emitted(nodes, edges, constraints, links, sha);
    SortedIds(nodes, NodeIdBy(sha), NodeIds(s));
    SortedIds(edges, EdgeIdBy(sha), EdgeIds(s));
    SortedIds(constraints, ConstraintIdBy(sha), s.constraintIds);
  }

  lemma LinkEntryOrigin(links: seq<EdgeConstraint>, entry: LinkEntry) returns (l: EdgeConstraint)
    requires entry in LinkEntries(SortLinks(links))
    ensures l in links && entry == LinkEntry(l.edgeId, l.constraintId)
  {
    var s := SortLinks(links);
    var i :| 0 <= i < |s| && LinkEntries(s)[i] == entry;
    l := s[i];
    SortByMembers(SortBy(links, LinkConstraint), LinkEdge, l);
    SortByMembers(links, LinkConstraint, l);
  }

  lemma EmittedLinksKnown(nodes: seq<Node>, edges: seq<Edge>, constraints: seq<Constraint>, links: seq<EdgeConstraint>,
                          sha: Hash)
    requires RefersTo(sha, links, edges, constraints)
    ensures LinksKnown(Emitted(nodes, edges, constraints, links, sha))
  {
    hide EdgeId, ConstraintId, SortBy, SortLinks, IdSet, NodeEntries;
    var s := Emitted(nodes, edges, constraints, links, sha);
    SortedIdSet(edges, EdgeIdBy(sha), EdgeIds(s));
    SortedIdSet(constraints, ConstraintIdBy(sha), s.constraintIds);
    forall entry | entry in s.links
      ensures LinkKnown(entry, set id | id in EdgeIds(s), set id | id in s.constraintIds)
    {
      var l := LinkEntryOrigin(links, entry);
    }
  }

  lemma EmittedNodeKeys(nodes: seq<Node>, edges: seq<Edge>, constraints: seq<Constraint>, links: seq<EdgeConstraint>,
                        sha: Hash)
    ensures NodeKeys(Emitted(nodes, edges, constraints, links, sha)) == Keys(nodes)
  {
    hide SortBy, NodeId;
    var s := SortBy(nodes, NodeIdBy(sha));
    KeysOfSorted(nodes, sha);
    forall k | k in Keys(s) ensures k in NodeKeys(Emitted(nodes, edges, constraints, links, sha)) {
      var n :| n in s && KeyOf(n) == k;
      var i :| 0 <= i < |s| && s[i] == n;
      assert NodeEntries(s, sha)[i].key == k;
    }
  }

  lemma EdgeEntryOrigin(edges: seq<Edge>, sha: Hash, entry: EdgeEntry) returns (e: Edge)
    requires entry in EdgeEntries(SortBy(edges, EdgeIdBy(sha)), sha)
    ensures e in edges && entry == EdgeEntry(EdgeId(sha, e), RefKey(e.src), RefKey(e.dst))
  {
    hide EdgeId;
    var s := SortBy(edges, EdgeIdBy(sha));
    var i :| 0 <= i < |s| && EdgeEntries(s, sha)[i] == entry;
    e := s[i];
    SortByMembers(edges, EdgeIdBy(sha), e);
  }

  lemma EmittedEndpoints(nodes: seq<Node>, edges: seq<Edge>, constraints: seq<Constraint>, links: seq<EdgeConstraint>,
                         sha: Hash)
    requires AllHaveIds(nodes, edges, constraints) && EndpointsResolve(nodes, edges)
    ensures EndpointsNamed(Emitted(nodes, edges, constraints, links, sha))
    ensures EndpointsKnown(Emitted(nodes, edges, constraints, links, sha))
  {
    hide SortBy, NodeEntries, SortLinks, EdgeId, KeyHasId, ConstraintHasId, NodeKeys;
    var s := Emitted(nodes, edges, constraints, links, sha);
    EmittedNodeKeys(nodes, edges, constraints, links, sha);
    forall entry | entry in s.edges
      ensures entry.src.providerId != "" && entry.dst.providerId != "" && entry.src in NodeKeys(s) &&
              entry.dst in NodeKeys(s)
    {
      var e := EdgeEntryOrigin(edges, sha, entry);
      assert EdgeHasId(e);
      assert RefKey(e.src) in EndpointKeys(edges) && RefKey(e.dst) in EndpointKeys(edges);
    }
  }

  lemma EmittedIdsNonEmpty(nodes: seq<Node>, edges: seq<Edge>, constraints: seq<Constraint>, links: seq<EdgeConstraint>,
                           sha: Hash)
    requires IsDigest(sha)
    ensures IdsNonEmpty(Emitted(nodes, edges, constraints, links, sha))
  {
    hide SortBy, SortLinks, Injective, Join, CanonicalKey, EdgeFields;
  }

  /** An emitted scenario validates exactly when its node, edge and constraint ids are unique. */
  lemma EmittedIsWellFormed(nodes: seq<Node>, edges: seq<Edge>, constraints: seq<Constraint>,
                            links: seq<EdgeConstraint>, sha: Hash)
    requires IsDigest(sha) && AllHaveIds(nodes, edges, constraints) && EndpointsResolve(nodes, edges)
    requires RefersTo(sha, links, edges, constraints)
    ensures WellFormed(Emitted(nodes, edges, constraints, links, sha)) <==>
            DistinctBy(nodes, NodeIdBy(sha)) && DistinctBy(edges, EdgeIdBy(sha)) &&
            DistinctBy(constraints, ConstraintIdBy(sha))
  {
    hide IsDigest, AllHaveIds, EndpointsResolve, RefersTo, Emitted, DistinctBy, UniqueIds, EndpointsNamed, LinksKnown,
         EndpointsKnown, IdsNonEmpty, SortedById;
    EmittedSorted(nodes, edges, constraints, links, sha);
    EmittedLinksKnown(nodes, edges, constraints, links, sha);
    EmittedEndpoints(nodes, edges, constraints, links, sha);
    EmittedIdsNonEmpty(nodes, edges, constraints, links, sha);
  }

  // ----- the pipeline -----

  lemma {:induction false} AddMissingDistinct(base: seq<Constraint>, more: seq<Constraint>, id: Constraint -> string)
    ensures DistinctBy(AddMissing(base, more, id), id) <==> DistinctBy(base, id)
  {
    if more != [] {
      AddMissingDistinct(base, more[..|more|-1], id);
      DistinctAppend(AddMissing(base, more[..|more|-1], id), more[|more|-1], id);
    }
  }

  lemma DistinctAppend<T>(s: seq<T>, x: T, id: T -> string)
    ensures DistinctBy(s + [x], id) <==> DistinctBy(s, id) && id(x) !in IdSet(s, id)
  {
    var all := s + [x];
    if DistinctBy(all, id) {
      forall i, j | 0 <= i < j < |s| ensures id(s[i]) != id(s[j]) { assert id(all[i]) != id(all[j]); }
      forall i | 0 <= i < |s| ensures id(s[i]) != id(x) { assert id(all[i]) != id(all[|s|]); }
    }
    if DistinctBy(s, id) && id(x) !in IdSet(s, id) {
      forall i, j | 0 <= i < j < |all| ensures id(all[i]) != id(all[j]) {
        assert id(s[i]) in IdSet(s, id);
      }
    }
  }

  ghost function FinalNodes(x: Inputs, sha: Hash): seq<Node> {
    Completed(ResolvedGraph(x, sha).nodes, ResolvedGraph(x, sha).edges, sha)
  }

  /** Every node key of the resolved graph and every endpoint of its edges. */
  ghost function GraphKeys(x: Inputs, sha: Hash): set<Key> {
    Keys(ResolvedGraph(x, sha).nodes) + EndpointKeys(ResolvedGraph(x, sha).edges)
  }

  /** Some id cannot be computed, in resolution, materialisation or emission. */
  ghost predicate SomeIdRaises(x: Inputs, sha: Hash) {
    || IdRaises(x, sha)
    || (exists k :: k in GraphKeys(x, sha) && !KeyHasId(k))
    || (exists c :: c in ResolvedGraph(x, sha).constraints && !ConstraintHasId(c))
  }

  ghost function FinalScenario(x: Inputs, sha: Hash): Scenario {
    var r := ResolvedGraph(x, sha);
    Emitted(FinalNodes(x, sha), r.edges, r.constraints, r.links, sha)
  }

  lemma {:induction false} KeepFirstFrom<T>(s: seq<T>, id: T -> string)
    ensures forall x | x in KeepFirst(s, id) :: x in s
  {
    if s != [] {
      assert s == s[..|s|-1] + [s[|s|-1]];
      KeepFirstFrom(s[..|s|-1], id);
    }
  }

  lemma ResolvedEdgesHaveIds(x: Inputs, sha: Hash)
    requires !IdRaises(x, sha)
    ensures forall e | e in ResolvedGraph(x, sha).edges :: EdgeHasId(e)
    ensures forall n | n in ResolvedGraph(x, sha).nodes :: KeyHasId(KeyOf(n))
  {
    hide AllNodes, Kept, Collected, BoundLinks, DriftOf, Batches, KeepFirst, AddMissing, EdgeHasId, KeyHasId;
    KeepFirstFrom(Kept(x), EdgeIdBy(sha));
    KeepFirstFrom(AllNodes(x), NodeIdBy(sha));
  }

  lemma KeysHaveIds(nodes: seq<Node>)
    ensures (forall n | n in nodes :: KeyHasId(KeyOf(n))) <==> (forall k | k in Keys(nodes) :: KeyHasId(k))
  {
    hide KeyHasId;
    forall n | n in nodes ensures KeyOf(n) in Keys(nodes) { }
  }

  /** When the pipeline raises nothing, and only then, a scenario comes out. */
  method RunPipeline(x: Inputs, sha: Hash) returns (r: Option<Scenario>)
    requires Conforming(x.cl, sha)
    ensures r.Some? <==> !SomeIdRaises(x, sha) && PolicyLinksKept(x, sha)
    ensures r.Some? ==> r.value == FinalScenario(x, sha)
  {
    hide ResolvedGraph, Emitted, Completed, KeyHasId, EdgeHasId, ConstraintHasId, EndpointKeys, Keys, PolicyLinksKept,
         Conforming, IdRaises, RefersTo, Placeholders, Mentions, SortBy;
    var resolved := Resolve(x, sha);
    if resolved.None? { return None; }
    var g := resolved.value;
    LinksResolveExactly(x, sha);
    ResolvedEdgesHaveIds(x, sha);
    KeysHaveIds(g.nodes);
    var added := MaterializeDanglingEndpoints(g.nodes, g.edges, sha);
    if added.None? { return None; }
    var nodes := g.nodes + added.value;
    assert nodes == FinalNodes(x, sha) by { CompletedIs(g.nodes, g.edges, sha); }
    CompletedKeys(g.nodes, g.edges, sha);
    KeysHaveIds(nodes);
    r := EmitScenario(nodes, g.edges, g.constraints, g.links, sha);
  }

  lemma CompletedIs(nodes: seq<Node>, edges: seq<Edge>, sha: Hash)
    ensures Completed(nodes, edges, sha) == nodes + SortBy(Placeholders(Mentions(edges), Keys(nodes)), NodeIdBy(sha))
  {
  }

  lemma ReturnedDistinct(x: Inputs, sha: Hash)
    ensures DistinctBy(ResolvedGraph(x, sha).nodes, NodeIdBy(sha)) &&
            DistinctBy(ResolvedGraph(x, sha).edges, EdgeIdBy(sha))
    ensures DistinctBy(ResolvedGraph(x, sha).constraints, ConstraintIdBy(sha)) <==>
            DistinctBy(Collected(x), ConstraintIdBy(sha))
  {
    hide AllNodes, Kept, Collected, BoundLinks, DriftOf, Batches, KeepFirst, AddMissing, DistinctBy;
    KeepFirstDistinct(AllNodes(x), NodeIdBy(sha));
    KeepFirstDistinct(Kept(x), EdgeIdBy(sha));
    AddMissingDistinct(Collected(x), DriftOf(x, sha).constraints, ConstraintIdBy(sha));
  }

  /** The scenario that the pipeline emits validates without errors exactly when no two
      different keys alias each other and no constraint id was collected twice. */
  lemma ScenarioValidExactly(x: Inputs, sha: Hash)
    requires IsDigest(sha) && Conforming(x.cl, sha) && !SomeIdRaises(x, sha) && PolicyLinksKept(x, sha)
    ensures WellFormed(FinalScenario(x, sha)) <==>
            NoAliases(GraphKeys(x, sha)) && DistinctBy(Collected(x), ConstraintIdBy(sha))
  {
    hide ResolvedGraph, Emitted, Completed, KeyHasId, EdgeHasId, ConstraintHasId, EndpointKeys, Keys, PolicyLinksKept,
         Conforming, IdRaises, RefersTo, WellFormed, DistinctBy, NoAliases;
    var r := ResolvedGraph(x, sha);
    LinksResolveExactly(x, sha);
    ReturnedDistinct(x, sha);
    ResolvedEdgesHaveIds(x, sha);
    CompletedKeys(r.nodes, r.edges, sha);
    KeysHaveIds(FinalNodes(x, sha));
    NodeIdsUniqueExactly(r.nodes, r.edges, sha);
    EmittedIsWellFormed(FinalNodes(x, sha), r.edges, r.constraints, r.links, sha);
  }

  /** A collection whose only content is one constraint, delivered twice. */
  function TwiceInputs(): Inputs {
    Inputs(
      [], [SAMPLE_CONSTRAINT, SAMPLE_CONSTRAINT], [], [], [], false, None,
      Collaborators((rs, role) => [], ns => PolicyGraph([], [], [], []), es => [], (es, cs) => [], (es, cs) => [],
                    (es, ns, cs) => [], (es, cs) => [], es => Drift([], [])))
  }

  lemma TwiceResolved(sha: Hash)
    ensures var x := TwiceInputs();
            && Batches(x) == [] && Kept(x) == [] && AllNodes(x) == [] && BoundLinks(x) == []
            && Collected(x) == [SAMPLE_CONSTRAINT, SAMPLE_CONSTRAINT]
            && ResolvedGraph(x, sha) == Resolved([], [], Collected(x), [], false)
  {
    var x := TwiceInputs();
    assert Batches(x) == [];
    assert OfferAll([]) == Budget([], false);
  }

  lemma TwiceHasIds(sha: Hash)
    ensures !SomeIdRaises(TwiceInputs(), sha) && Conforming(TwiceInputs().cl, sha) &&
            PolicyLinksKept(TwiceInputs(), sha)
  {
    TwiceResolved(sha);
    hide Kept, BoundLinks, Collected, AllNodes, Batches, ResolvedGraph;
    assert ConstraintHasId(SAMPLE_CONSTRAINT);
  }

  /** Nothing removes the repetition, so the emitted scenario does not validate. */
  lemma TwiceCollectedIsReported(sha: Hash)
    requires IsDigest(sha)
    ensures var x := TwiceInputs();
            Conforming(x.cl, sha) && !SomeIdRaises(x, sha) && PolicyLinksKept(x, sha) &&
            !WellFormed(FinalScenario(x, sha))
  {
    hide Injective, ConstraintId, EdgeId, NodeId, WellFormed, NoAliases, FinalScenario;
    var x := TwiceInputs();
    TwiceResolved(sha);
    TwiceHasIds(sha);
    assert Collected(x)[0] == Collected(x)[1];
    assert ConstraintIdBy(sha)(Collected(x)[0]) == ConstraintIdBy(sha)(Collected(x)[1]);
    ScenarioValidExactly(x, sha);
  }

  /** Collects and validates: the error list is empty exactly under those conditions. */
  method RunAndValidate(x: Inputs, sha: Hash) returns (r: Option<Scenario>, errors: seq<Error>)
    requires IsDigest(sha) && Conforming(x.cl, sha)
    ensures r.Some? <==> !SomeIdRaises(x, sha) && PolicyLinksKept(x, sha)
    ensures r.Some? ==>
            (errors == [] <==> NoAliases(GraphKeys(x, sha)) && DistinctBy(Collected(x), ConstraintIdBy(sha)))
  {
    hide *;
    r := RunPipeline(x, sha);
    errors := [];
    if r.Some? {
      ScenarioValidExactly(x, sha);
      errors := ValidateScenario(r.value);
    }
  }
}
