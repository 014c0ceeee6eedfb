/** The structural rules of the scenario validator (iamscope/validate.py, rules 2 to 10) on a
    parsed scenario whose arrays and endpoints have the expected types. */
module Validator {
  import opened Ordering
  import opened Models

  datatype NodeEntry = NodeEntry(nodeId: string, key: Key)
  datatype EdgeEntry = EdgeEntry(edgeId: string, src: Key, dst: Key)
  datatype LinkEntry = LinkEntry(edgeId: string, constraintId: string)

  datatype Scenario = Scenario(nodes: seq<NodeEntry>, edges: seq<EdgeEntry>, constraintIds: seq<string>,
                               links: seq<LinkEntry>)

  datatype Side = Src | Dst

  datatype Error =
    | Duplicate(listing: string, id: string)
    | NoProviderId(edgeId: string, side: Side)
    | NonExistentEdge(edgeId: string)
    | NonExistentConstraint(constraintId: string)
    | NonExistentNode(edgeId: string, side: Side, key: Key)
    | EmptyId(listing: string, index: nat)
    | Unsorted(listing: string)

  function NodeIds(s: Scenario): (r: seq<string>)
    ensures |r| == |s.nodes| && forall i | 0 <= i < |r| :: r[i] == s.nodes[i].nodeId
  {
    seq(|s.nodes|, i requires 0 <= i < |s.nodes| => s.nodes[i].nodeId)
  }

  function EdgeIds(s: Scenario): (r: seq<string>)
    ensures |r| == |s.edges| && forall i | 0 <= i < |r| :: r[i] == s.edges[i].edgeId
  {
    seq(|s.edges|, i requires 0 <= i < |s.edges| => s.edges[i].edgeId)
  }

  ghost predicate Repeated(ids: seq<string>, id: string) {
    exists i, j :: 0 <= i < j < |ids| && ids[i] == ids[j] == id
  }

  ghost predicate NoRepeats(ids: seq<string>) {
    forall i, j | 0 <= i < j < |ids| :: ids[i] != ids[j]
  }

  ghost predicate NonDecreasing(ids: seq<string>) {
    forall i, j | 0 <= i < j < |ids| :: StrLe(ids[i], ids[j])
  }

  function Same(s: string): string { s }

  /** _check_unique_ids: errors for the repeated ids, and the set of ids. */
  method CheckUniqueIds(ids: seq<string>, listing: string) returns (found: set<string>, errors: seq<Error>)
    ensures found == set id | id in ids
    ensures forall e :: e in errors <==> exists id :: e == Duplicate(listing, id) && Repeated(ids, id)
    ensures errors == [] <==> NoRepeats(ids)
  {
    found, errors := {}, [];
    for k := 0 to |ids|
      invariant found == set id | id in ids[..k]
      invariant forall e :: e in errors <==> exists id :: e == Duplicate(listing, id) && Repeated(ids[..k], id)
    {
      var id := ids[k];
      assert ids[..k+1] == ids[..k] + [id];
      RepeatedAppend(ids[..k], id);
      if id in found {
        errors := errors + [Duplicate(listing, id)];
      }
      found := found + {id};
    }
    assert ids[..|ids|] == ids;
    DuplicateFree(ids, listing, errors);
  }

  lemma DuplicateFree(ids: seq<string>, listing: string, errors: seq<Error>)
    requires forall e :: e in errors <==> exists id :: e == Duplicate(listing, id) && Repeated(ids, id)
    ensures errors == [] <==> NoRepeats(ids)
  {
    if errors != [] {
      assert errors[0] in errors;
      var id :| errors[0] == Duplicate(listing, id) && Repeated(ids, id);
    }
    if i, j :| 0 <= i < j < |ids| && ids[i] == ids[j] {
      assert Repeated(ids, ids[i]);
      assert Duplicate(listing, ids[i]) in errors;
    }
  }

  lemma RepeatedAppend(ids: seq<string>, x: string)
    ensures forall id :: Repeated(ids + [x], id) <==> Repeated(ids, id) || (id == x && x in ids)
  {
    forall id ensures Repeated(ids + [x], id) <==> Repeated(ids, id) || (id == x && x in ids) {
      var all := ids + [x];
      if i, j :| 0 <= i < j < |ids| && ids[i] == ids[j] == id {
        assert all[i] == all[j] == id;
      }
      if id == x && x in ids {
        var i :| 0 <= i < |ids| && ids[i] == x;
        assert all[i] == all[|ids|] == id;
      }
    }
  }

  /** What one entry contributes to the error list of a rule. */
  function NamingErrors(e: EdgeEntry): seq<Error> {
    (if e.src.providerId == "" then [NoProviderId(e.edgeId, Src)] else [])
    + (if e.dst.providerId == "" then [NoProviderId(e.edgeId, Dst)] else [])
  }

  function LinkErrors(l: LinkEntry, edgeIds: set<string>, constraintIds: set<string>): seq<Error> {
    (if l.edgeId != "" && l.edgeId !in edgeIds then [NonExistentEdge(l.edgeId)] else [])
    + (if l.constraintId != "" && l.constraintId !in constraintIds then [NonExistentConstraint(l.constraintId)] else [])
  }

  function EndpointErrors(e: EdgeEntry, nodeKeys: set<Key>): seq<Error> {
    (if e.src !in nodeKeys then [NonExistentNode(e.edgeId, Src, e.src)] else [])
    + (if e.dst !in nodeKeys then [NonExistentNode(e.edgeId, Dst, e.dst)] else [])
  }

  /** Rule 5: every endpoint names a provider id. */
  method CheckProviderIds(edges: seq<EdgeEntry>) returns (errors: seq<Error>)
    ensures forall e :: e in errors <==> exists i :: 0 <= i < |edges| && e in NamingErrors(edges[i])
    ensures errors == [] <==> forall e | e in edges :: e.src.providerId != "" && e.dst.providerId != ""
  {
    errors := [];
    for k := 0 to |edges|
      invariant forall e :: e in errors <==> exists i :: 0 <= i < k && e in NamingErrors(edges[i])
      invariant errors == [] <==>
                forall i | 0 <= i < k :: edges[i].src.providerId != "" && edges[i].dst.providerId != ""
    {
      if edges[k].src.providerId == "" { errors := errors + [NoProviderId(edges[k].edgeId, Src)]; }
      if edges[k].dst.providerId == "" { errors := errors + [NoProviderId(edges[k].edgeId, Dst)]; }
    }
  }

  predicate LinkKnown(l: LinkEntry, edgeIds: set<string>, constraintIds: set<string>) {
    (l.edgeId != "" ==> l.edgeId in edgeIds) && (l.constraintId != "" ==> l.constraintId in constraintIds)
  }

  /** Rules 6 and 7: a nonempty reference must be known. */
  method CheckLinks(links: seq<LinkEntry>, edgeIds: set<string>, constraintIds: set<string>)
    returns (errors: seq<Error>)
    ensures forall e :: e in errors <==>
            exists i :: 0 <= i < |links| && e in LinkErrors(links[i], edgeIds, constraintIds)
    ensures errors == [] <==> forall l | l in links :: LinkKnown(l, edgeIds, constraintIds)
  {
    errors := [];
    for k := 0 to |links|
      invariant forall e :: e in errors <==> exists i :: 0 <= i < k && e in LinkErrors(links[i], edgeIds, constraintIds)
      invariant errors == [] <==> forall i | 0 <= i < k :: LinkKnown(links[i], edgeIds, constraintIds)
    {
      if links[k].edgeId != "" && links[k].edgeId !in edgeIds {
        errors := errors + [NonExistentEdge(links[k].edgeId)];
      }
      if links[k].constraintId != "" && links[k].constraintId !in constraintIds {
        errors := errors + [NonExistentConstraint(links[k].constraintId)];
      }
    }
  }

  /** Rule 8b: every endpoint is a node. */
  method CheckEndpoints(edges: seq<EdgeEntry>, nodeKeys: set<Key>) returns (errors: seq<Error>)
    ensures forall e :: e in errors <==> exists i :: 0 <= i < |edges| && e in EndpointErrors(edges[i], nodeKeys)
    ensures errors == [] <==> forall e | e in edges :: e.src in nodeKeys && e.dst in nodeKeys
  {
    errors := [];
    for k := 0 to |edges|
      invariant forall e :: e in errors <==> exists i :: 0 <= i < k && e in EndpointErrors(edges[i], nodeKeys)
      invariant errors == [] <==> forall i | 0 <= i < k :: edges[i].src in nodeKeys && edges[i].dst in nodeKeys
    {
      if edges[k].src !in nodeKeys { errors := errors + [NonExistentNode(edges[k].edgeId, Src, edges[k].src)]; }
      if edges[k].dst !in nodeKeys { errors := errors + [NonExistentNode(edges[k].edgeId, Dst, edges[k].dst)]; }
    }
  }

  /** Rule 9. */
  method CheckNonEmpty(ids: seq<string>, listing: string) returns (errors: seq<Error>)
    ensures forall e :: e in errors <==> exists i :: 0 <= i < |ids| && e == EmptyId(listing, i) && ids[i] == ""
    ensures errors == [] <==> "" !in ids
  {
    errors := [];
    for k := 0 to |ids|
      invariant forall e :: e in errors <==> exists i :: 0 <= i < k && e == EmptyId(listing, i) && ids[i] == ""
      invariant errors == [] <==> forall i | 0 <= i < k :: ids[i] != ""
    {
      if ids[k] == "" { errors := errors + [EmptyId(listing, k)]; }
    }
  }

  /** Rule 10: the ids equal their sorted list. */
  method CheckSorted(ids: seq<string>, listing: string) returns (errors: seq<Error>)
    ensures errors == if NonDecreasing(ids) then [] else [Unsorted(listing)]
  {
    SortedMeansNonDecreasing(ids);
    if ids != SortBy(ids, Same) { return [Unsorted(listing)]; }
    return [];
  }

  lemma SortedMeansNonDecreasing(ids: seq<string>)
    ensures ids == SortBy(ids, Same) <==> NonDecreasing(ids)
  {
    SortBySorted(ids, Same);
    if ids == SortBy(ids, Same) {
      forall i, j | 0 <= i < j < |ids| ensures StrLe(ids[i], ids[j]) {
        assert StrLe(Same(ids[i]), Same(ids[j]));
      }
    }
    if NonDecreasing(ids) { SortedIsFixed(ids); }
  }

  lemma {:induction false} SortedIsFixed(ids: seq<string>)
    requires NonDecreasing(ids)
    ensures SortBy(ids, Same) == ids
  {
    if ids != [] {
      SortedIsFixed(ids[1..]);
      assert ids == [ids[0]] + ids[1..];
      assert ids[1..] != [] ==> StrLe(ids[0], ids[1]);
    }
  }

  // ----- the whole validator -----

  function NodeKeys(s: Scenario): set<Key> { set n | n in s.nodes :: n.key }

  ghost predicate UniqueIds(s: Scenario) {
    NoRepeats(NodeIds(s)) && NoRepeats(EdgeIds(s)) && NoRepeats(s.constraintIds)
  }

  ghost predicate EndpointsNamed(s: Scenario) {
    forall e | e in s.edges :: e.src.providerId != "" && e.dst.providerId != ""
  }

  ghost predicate LinksKnown(s: Scenario) {
    forall l | l in s.links :: LinkKnown(l, set id | id in EdgeIds(s), set id | id in s.constraintIds)
  }

  ghost predicate EndpointsKnown(s: Scenario) {
    forall e | e in s.edges :: e.src in NodeKeys(s) && e.dst in NodeKeys(s)
  }

  ghost predicate IdsNonEmpty(s: Scenario) { "" !in NodeIds(s) && "" !in EdgeIds(s) }

  ghost predicate SortedById(s: Scenario) {
    NonDecreasing(NodeIds(s)) && NonDecreasing(EdgeIds(s)) && NonDecreasing(s.constraintIds)
  }

  ghost predicate WellFormed(s: Scenario) {
    UniqueIds(s) && EndpointsNamed(s) && LinksKnown(s) && EndpointsKnown(s) && IdsNonEmpty(s) && SortedById(s)
  }

  /** No errors are reported exactly for well-formed scenarios. */
  method ValidateScenario(s: Scenario) returns (errors: seq<Error>)
    ensures errors == [] <==> WellFormed(s)
  {
    hide NoRepeats, NonDecreasing, LinkKnown, Repeated, NamingErrors, LinkErrors, EndpointErrors;
    var nodeIds, nodeDup := CheckUniqueIds(NodeIds(s), "nodes");
    var edgeIds, edgeDup := CheckUniqueIds(EdgeIds(s), "edges");
    var constraintIds, constraintDup := CheckUniqueIds(s.constraintIds, "constraints");
    var unnamed := CheckProviderIds(s.edges);
    var unlinked := CheckLinks(s.links, edgeIds, constraintIds);
    var nodeKeys := set n | n in s.nodes :: n.key;
    var dangling := CheckEndpoints(s.edges, nodeKeys);
    var emptyNodes := CheckNonEmpty(NodeIds(s), "nodes");
    var emptyEdges := CheckNonEmpty(EdgeIds(s), "edges");
    var unsortedNodes := CheckSorted(NodeIds(s), "nodes");
    var unsortedEdges := CheckSorted(EdgeIds(s), "edges");
    var unsortedConstraints := CheckSorted(s.constraintIds, "constraints");
    errors := nodeDup + edgeDup + constraintDup + unnamed + unlinked + dangling + emptyNodes + emptyEdges
      + unsortedNodes + unsortedEdges + unsortedConstraints;
  }
}
