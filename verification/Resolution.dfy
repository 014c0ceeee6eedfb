/** Phase 3 of the pipeline (iamscope/pipeline.py, _run_resolution): collecting edges under a
    hard budget, binding constraints to edges, and deduplicating by id.

    The parsers, resolvers and binders it calls are parameters. `Conforming` is the contract
    the theorems ask of the binders: a binding refers only to edges and constraints that the
    binder was given (or that it returns itself). */
module Resolution {
  import opened Basics
  import opened Dedupe
  import opened Ordering
  import opened Models

  const MAX_TOTAL_EDGES: nat := 100_000

  // ----- the edge budget -----

  datatype Budget = Budget(edges: seq<Edge>, exhausted: bool)

  /** One call of _add_edges. */
  function Offer(b: Budget, batch: seq<Edge>): Budget {
    if b.exhausted then b
    else
      var remaining: int := MAX_TOTAL_EDGES - |b.edges|;
      if remaining <= 0 then b.(exhausted := true)
      else if |batch| > remaining then Budget(b.edges + batch[..remaining], true)
      else b.(edges := b.edges + batch)
  }

  function OfferAll(batches: seq<seq<Edge>>): Budget {
    if batches == [] then Budget([], false)
    else Offer(OfferAll(batches[..|batches|-1]), batches[|batches|-1])
  }

  function Flatten<T>(batches: seq<seq<T>>): seq<T> {
    if batches == [] then [] else Flatten(batches[..|batches|-1]) + batches[|batches|-1]
  }

  function Take<T>(s: seq<T>, n: nat): seq<T> {
    if |s| <= n then s else s[..n]
  }

  /** The offer that sets the flag: one that does not fit, or any offer, even an empty one,
      made when the list is already full. */
  predicate Overrun(batches: seq<seq<Edge>>) {
    batches != [] &&
    (|Flatten(batches)| > MAX_TOTAL_EDGES || |Flatten(batches[..|batches|-1])| >= MAX_TOTAL_EDGES)
  }

  /** Over any sequence of batches the accepted edges are the longest prefix of everything
      offered that fits the budget, and the flag is set exactly on an overrun. */
  lemma {:induction false} BudgetIsExact(batches: seq<seq<Edge>>)
    ensures OfferAll(batches).edges == Take(Flatten(batches), MAX_TOTAL_EDGES)
    ensures OfferAll(batches).exhausted <==> Overrun(batches)
  {
    if batches != [] {
      var init, last := batches[..|batches|-1], batches[|batches|-1];
      BudgetIsExact(init);
      BudgetMonotonic(init);
      var flat := Flatten(init);
      assert Flatten(batches) == flat + last;
      if |flat| < MAX_TOTAL_EDGES < |flat| + |last| {
        assert (flat + last)[..MAX_TOTAL_EDGES] == flat + last[..MAX_TOTAL_EDGES - |flat|];
      } else if |flat| >= MAX_TOTAL_EDGES {
        assert (flat + last)[..MAX_TOTAL_EDGES] == flat[..MAX_TOTAL_EDGES];
      }
    }
  }

  lemma BudgetMonotonic(batches: seq<seq<Edge>>)
    ensures Overrun(batches) ==> |Flatten(batches)| >= MAX_TOTAL_EDGES
  {
  }

  /** Once set, the flag stays set and the list stays as it is. */
  lemma {:induction false} ExhaustedStaysFrozen(batches: seq<seq<Edge>>, more: seq<seq<Edge>>)
    requires OfferAll(batches).exhausted
    ensures OfferAll(batches + more) == OfferAll(batches)
  {
    if more == [] {
      assert batches + more == batches;
    } else {
      ExhaustedStaysFrozen(batches, more[..|more|-1]);
      assert (batches + more)[..|batches + more|-1] == batches + more[..|more|-1];
    }
  }

  /** A clear flag means that no offered edge was lost. */
  lemma NothingLost(batches: seq<seq<Edge>>)
    requires !OfferAll(batches).exhausted
    ensures OfferAll(batches).edges == Flatten(batches)
  {
    BudgetIsExact(batches);
  }

  // ----- deduplication -----

  /** The deduplication loop. It raises at the first element whose id cannot be computed. */
  method Dedup<T>(items: seq<T>, id: T -> string, hasId: T -> bool) returns (r: Option<seq<T>>)
    ensures r.Some? <==> forall x | x in items :: hasId(x)
    ensures r.Some? ==> r.value == KeepFirst(items, id)
  {
    var seen: set<string> := {};
    var unique: seq<T> := [];
    for i := 0 to |items|
      invariant seen == IdSet(items[..i], id)
      invariant unique == KeepFirst(items[..i], id)
      invariant forall k | 0 <= k < i :: hasId(items[k])
    {
      var item := items[i];
      assert items[..i+1][..i] == items[..i];
      assert items[..i+1] == items[..i] + [item];
      IdSetAppend(items[..i], item, id);
      if !hasId(item) { return None; }
      if id(item) !in seen {
        seen := seen + {id(item)};
        unique := unique + [item];
      }
    }
    assert items[..|items|] == items;
    return Some(unique);
  }

  // ----- what flows into the resolution phase -----

  /** One parsed trust policy, with the node of its role. */
  datatype TrustResult = TrustResult(role: Node, parsed: string)

  /** One account, with what its parsers and builders produce. */
  datatype AccountData = AccountData(
    nodes: seq<Node>,
    trustResults: seq<TrustResult>,
    permissionEdges: seq<Edge>,
    hyperedgeNodes: seq<Node>,
    denyConstraints: seq<Constraint>)

  datatype PolicyGraph = PolicyGraph(nodes: seq<Node>, edges: seq<Edge>, constraints: seq<Constraint>,
                                     links: seq<EdgeConstraint>)

  datatype Drift = Drift(constraints: seq<Constraint>, links: seq<EdgeConstraint>)

  datatype Collaborators = Collaborators(
    trustEdges: (seq<string>, Node) -> seq<Edge>,
    resourcePolicies: seq<Node> -> PolicyGraph,
    trustConditions: seq<Edge> -> seq<Constraint>,
    bindScps: (seq<Edge>, seq<Constraint>) -> seq<EdgeConstraint>,
    bindTrustConditions: (seq<Edge>, seq<Constraint>) -> seq<EdgeConstraint>,
    bindBoundaries: (seq<Edge>, seq<Node>, seq<Constraint>) -> seq<EdgeConstraint>,
    bindDenies: (seq<Edge>, seq<Constraint>) -> seq<EdgeConstraint>,
    staleDrift: seq<Edge> -> Drift)

  datatype Inputs = Inputs(
    accounts: seq<AccountData>,
    scpConstraints: seq<Constraint>,
    syntheticNodes: seq<Node>,
    serviceNodes: seq<Node>,
    serviceEdges: seq<Edge>,
    hasResourcePolicies: bool,
    boundaryConstraints: Option<seq<Constraint>>,
    cl: Collaborators)

  datatype Resolved = Resolved(
    nodes: seq<Node>,
    edges: seq<Edge>,
    constraints: seq<Constraint>,
    links: seq<EdgeConstraint>,
    exhausted: bool)

  function RoleArns(results: seq<TrustResult>): set<string> { set t | t in results :: t.role.providerId }

  /** The parsed policies of one role, in their order. */
  function ResultsOf(results: seq<TrustResult>, arn: string): seq<string> {
    if results == [] then []
    else
      var last := results[|results|-1];
      ResultsOf(results[..|results|-1], arn) + if last.role.providerId == arn then [last.parsed] else []
  }

  /** The role node that comes with the first of them. */
  function RoleOf(results: seq<TrustResult>, arn: string): Node
    requires arn in RoleArns(results)
  {
    var init, last := results[..|results|-1], results[|results|-1];
    if arn in RoleArns(init) then RoleOf(init, arn)
    else
      assert results == init + [last];
      last.role
  }

  /** One batch of trust edges per role, in the order of the role ARNs. */
  function TrustBatches(results: seq<TrustResult>, build: (seq<string>, Node) -> seq<Edge>): (r: seq<seq<Edge>>)
    ensures |r| == |RoleArns(results)|
  {
    var arns := Enumerate(RoleArns(results));
    seq(|arns|, i requires 0 <= i < |arns| => build(ResultsOf(results, arns[i]), RoleOf(results, arns[i])))
  }

  function AccountBatches(accounts: seq<AccountData>, build: (seq<string>, Node) -> seq<Edge>): seq<seq<Edge>> {
    if accounts == [] then []
    else
      var last := accounts[|accounts|-1];
      AccountBatches(accounts[..|accounts|-1], build) + TrustBatches(last.trustResults, build) + [last.permissionEdges]
  }

  function AccountNodes(accounts: seq<AccountData>): seq<Node> {
    if accounts == [] then []
    else
      var last := accounts[|accounts|-1];
      AccountNodes(accounts[..|accounts|-1]) + last.nodes + last.hyperedgeNodes
  }

  function Denies(accounts: seq<AccountData>): seq<Constraint> {
    if accounts == [] then []
    else Denies(accounts[..|accounts|-1]) + accounts[|accounts|-1].denyConstraints
  }

  function NodesBeforePolicies(x: Inputs): seq<Node> {
    AccountNodes(x.accounts) + x.syntheticNodes + x.serviceNodes
  }

  function Policies(x: Inputs): PolicyGraph {
    if x.hasResourcePolicies then x.cl.resourcePolicies(NodesBeforePolicies(x)) else PolicyGraph([], [], [], [])
  }

  /** Every batch offered to the budget, in order. */
  function Batches(x: Inputs): seq<seq<Edge>> {
    AccountBatches(x.accounts, x.cl.trustEdges)
    + (if x.serviceEdges != [] then [x.serviceEdges] else [])
    + (if x.hasResourcePolicies then [Policies(x).edges] else [])
  }

  function Kept(x: Inputs): seq<Edge> { OfferAll(Batches(x)).edges }

  function AllNodes(x: Inputs): seq<Node> { NodesBeforePolicies(x) + Policies(x).nodes }

  predicate EndsWith(s: string, suffix: string) {
    |suffix| <= |s| && s[|s|-|suffix|..] == suffix
  }

  const TRUST_LAYER := "_trust"
  const PERMISSION_LAYER := "_permission"

  function Layer(edges: seq<Edge>, suffix: string): (r: seq<Edge>)
    ensures forall e | e in r :: e in edges
  {
    if edges == [] then []
    else
      var init, last := edges[..|edges|-1], edges[|edges|-1];
      if EndsWith(last.edgeType, suffix) then Layer(init, suffix) + [last] else Layer(init, suffix)
  }

  function TrustEdges(x: Inputs): seq<Edge> { Layer(Kept(x), TRUST_LAYER) }

  function TrustConditions(x: Inputs): seq<Constraint> { x.cl.trustConditions(TrustEdges(x)) }

  function Boundaries(x: Inputs): seq<Constraint> {
    if x.boundaryConstraints.Some? then x.boundaryConstraints.value else []
  }

  /** The constraints the SCP binder sees. */
  function ScpView(x: Inputs): seq<Constraint> { x.scpConstraints + Policies(x).constraints + TrustConditions(x) }

  /** All constraints before stale-principal drift is added. */
  function Collected(x: Inputs): seq<Constraint> { ScpView(x) + Boundaries(x) + Denies(x.accounts) }

  function BoundLinks(x: Inputs): seq<EdgeConstraint> {
    x.cl.bindScps(TrustEdges(x), ScpView(x))
    + (if TrustConditions(x) != [] then x.cl.bindTrustConditions(TrustEdges(x), TrustConditions(x)) else [])
    + Policies(x).links
    + (if x.boundaryConstraints.Some? then x.cl.bindBoundaries(Kept(x), AllNodes(x), Boundaries(x)) else [])
    + (if Denies(x.accounts) != [] then x.cl.bindDenies(Layer(Kept(x), PERMISSION_LAYER), Denies(x.accounts)) else [])
  }

  /** Adds the constraints whose id is not there yet. */
  ghost function AddMissing(base: seq<Constraint>, more: seq<Constraint>, id: Constraint -> string): seq<Constraint> {
    if more == [] then base
    else
      var sofar, last := AddMissing(base, more[..|more|-1], id), more[|more|-1];
      if id(last) in IdSet(sofar, id) then sofar else sofar + [last]
  }

  ghost function UniqueEdges(x: Inputs, sha: Hash): seq<Edge> { KeepFirst(Kept(x), EdgeIdBy(sha)) }

  ghost function DriftOf(x: Inputs, sha: Hash): Drift { x.cl.staleDrift(UniqueEdges(x, sha)) }

  /** What the phase returns when no id computation raises. */
  ghost function ResolvedGraph(x: Inputs, sha: Hash): Resolved {
    var drift := DriftOf(x, sha);
    Resolved(
      KeepFirst(AllNodes(x), NodeIdBy(sha)),
      UniqueEdges(x, sha),
      if drift.constraints != [] then AddMissing(Collected(x), drift.constraints, ConstraintIdBy(sha))
      else Collected(x),
      if drift.constraints != [] then BoundLinks(x) + drift.links else BoundLinks(x),
      OfferAll(Batches(x)).exhausted)
  }

  /** Some id that the phase needs cannot be computed. */
  ghost predicate IdRaises(x: Inputs, sha: Hash) {
    || (exists n :: n in AllNodes(x) && !KeyHasId(KeyOf(n)))
    || (exists e :: e in Kept(x) && !EdgeHasId(e))
    || (DriftOf(x, sha).constraints != []
        && exists c :: (c in Collected(x) || c in DriftOf(x, sha).constraints) && !ConstraintHasId(c))
  }

  function NodeHasId(): Node -> bool { n => KeyHasId(KeyOf(n)) }
  function HasEdgeId(): Edge -> bool { e => EdgeHasId(e) }

  /** The set of ids, unless one cannot be computed. */
  method CollectIds(base: seq<Constraint>, sha: Hash) returns (r: Option<set<string>>)
    ensures r.Some? <==> forall c | c in base :: ConstraintHasId(c)
    ensures r.Some? ==> r.value == IdSet(base, ConstraintIdBy(sha))
  {
    hide ConstraintHasId, ConstraintId;
    ghost var id := ConstraintIdBy(sha);
    var existing: set<string> := {};
    for i := 0 to |base|
      invariant existing == IdSet(base[..i], id)
      invariant forall k | 0 <= k < i :: ConstraintHasId(base[k])
    {
      if !ConstraintHasId(base[i]) { return None; }
      assert base[..i+1] == base[..i] + [base[i]];
      IdSetAppend(base[..i], base[i], id);
      existing := existing + {ConstraintId(sha, base[i])};
    }
    assert base[..|base|] == base;
    return Some(existing);
  }

  /** Appends the constraints whose id is new; raises on an id that cannot be computed. */
  method AppendMissing(base: seq<Constraint>, more: seq<Constraint>, sha: Hash) returns (r: Option<seq<Constraint>>)
    ensures r.Some? <==> (forall c | c in base :: ConstraintHasId(c)) && forall c | c in more :: ConstraintHasId(c)
    ensures r.Some? ==> r.value == AddMissing(base, more, ConstraintIdBy(sha))
  {
    hide ConstraintHasId, ConstraintId, IdSet;
    ghost var id := ConstraintIdBy(sha);
    var ids := CollectIds(base, sha);
    if ids.None? { return None; }
    var existing, all := ids.value, base;
    for i := 0 to |more|
      invariant all == AddMissing(base, more[..i], id)
      invariant existing == IdSet(all, id)
      invariant forall k | 0 <= k < i :: ConstraintHasId(more[k])
    {
      var constraint := more[i];
      if !ConstraintHasId(constraint) { return None; }
      assert more[..i+1][..i] == more[..i];
      IdSetAppend(all, constraint, id);
      if ConstraintId(sha, constraint) !in existing {
        all := all + [constraint];
        existing := existing + {ConstraintId(sha, constraint)};
      }
    }
    assert more[..|more|] == more;
    return Some(all);
  }

  // ----- the phase itself -----

  class Resolver {
    var allNodes: seq<Node>
    var allEdges: seq<Edge>
    var budgetExhausted: bool

    constructor ()
      ensures allNodes == [] && BudgetState() == OfferAll([])
    {
      allNodes, allEdges, budgetExhausted := [], [], false;
    }

    ghost function BudgetState(): Budget
      reads this
    {
      Budget(allEdges, budgetExhausted)
    }

    method AddEdges(newEdges: seq<Edge>)
      modifies this`allEdges, this`budgetExhausted
      ensures BudgetState() == Offer(old(BudgetState()), newEdges)
    {
      if budgetExhausted { return; }
      var remaining := MAX_TOTAL_EDGES - |allEdges|;
      if remaining <= 0 {
        budgetExhausted := true;
        return;
      }
      if |newEdges| > remaining {
        allEdges := allEdges + newEdges[..remaining];
        budgetExhausted := true;
      } else {
        allEdges := allEdges + newEdges;
      }
    }

    /** The trust edges of one account, one role at a time. */
    method AddTrustEdges(results: seq<TrustResult>, build: (seq<string>, Node) -> seq<Edge>,
                         ghost before: seq<seq<Edge>>)
      requires BudgetState() == OfferAll(before)
      modifies this`allEdges, this`budgetExhausted
      ensures BudgetState() == OfferAll(before + TrustBatches(results, build))
    {
      hide ResultsOf, RoleOf, Enumerate, Offer, OfferAll;
      ghost var batches := TrustBatches(results, build);
      var groups := GroupByRole(results);
      var arns := Enumerate(groups.Keys);
      assert before + batches[..0] == before;
      for t := 0 to |arns|
        invariant BudgetState() == OfferAll(before + batches[..t])
      {
        var batch := build(groups[arns[t]].1, groups[arns[t]].0);
        assert before + batches[..t+1] == before + batches[..t] + [batch];
        AddEdges(batch);
        OfferOne(before + batches[..t], batch);
      }
      assert batches[..|arns|] == batches;
    }

    /** Nodes and edges of every account, account by account. */
    method CollectAccounts(accounts: seq<AccountData>, build: (seq<string>, Node) -> seq<Edge>)
      requires allNodes == [] && BudgetState() == OfferAll([])
      modifies this
      ensures allNodes == AccountNodes(accounts)
      ensures BudgetState() == OfferAll(AccountBatches(accounts, build))
    {
      hide TrustBatches, Offer, OfferAll;
      ghost var offered: seq<seq<Edge>> := [];
      for a := 0 to |accounts|
        invariant allNodes == AccountNodes(accounts[..a])
        invariant offered == AccountBatches(accounts[..a], build) && BudgetState() == OfferAll(offered)
      {
        var acct := accounts[a];
        assert accounts[..a+1][..a] == accounts[..a];
        ghost var before, batches := offered, TrustBatches(acct.trustResults, build);
        allNodes := allNodes + acct.nodes;
        AddTrustEdges(acct.trustResults, build, offered);
        offered := offered + batches;
        AddEdges(acct.permissionEdges);
        OfferOne(offered, acct.permissionEdges);
        offered := offered + [acct.permissionEdges];
        allNodes := allNodes + acct.hyperedgeNodes;
      }
      assert accounts[..|accounts|] == accounts;
    }
  }

  /** Role nodes and parsed policies by role ARN: the first node of a role is kept. */
  method GroupByRole(results: seq<TrustResult>) returns (groups: map<string, (Node, seq<string>)>)
    ensures groups.Keys == RoleArns(results)
    ensures forall arn | arn in groups :: groups[arn] == (RoleOf(results, arn), ResultsOf(results, arn))
  {
    hide ResultsOf, RoleOf;
    groups := map[];
    for i := 0 to |results|
      invariant groups.Keys == RoleArns(results[..i])
      invariant forall arn | arn in groups :: groups[arn] == (RoleOf(results[..i], arn), ResultsOf(results[..i], arn))
    {
      var role, arn := results[i].role, results[i].role.providerId;
      assert results[..i+1] == results[..i] + [results[i]];
      ghost var before := groups;
      GroupStep(results[..i], results[i], arn);
      if arn !in groups { groups := groups[arn := (role, [])]; }
      groups := groups[arn := (groups[arn].0, groups[arn].1 + [results[i].parsed])];
      forall k | k in groups ensures groups[k] == (RoleOf(results[..i+1], k), ResultsOf(results[..i+1], k)) {
        GroupStep(results[..i], results[i], k);
        assert k != arn ==> k in before && groups[k] == before[k];
      }
    }
    assert results[..|results|] == results;
  }

  lemma GroupStep(init: seq<TrustResult>, last: TrustResult, arn: string)
    ensures var all := init + [last];
            && RoleArns(all) == RoleArns(init) + {last.role.providerId}
            && ResultsOf(all, arn) == (if last.role.providerId == arn then ResultsOf(init, arn) + [last.parsed]
                                       else ResultsOf(init, arn))
            && (arn !in RoleArns(init) ==> ResultsOf(init, arn) == [])
            && (arn in RoleArns(init) ==> RoleOf(all, arn) == RoleOf(init, arn))
            && (arn !in RoleArns(init) && arn == last.role.providerId ==> RoleOf(all, arn) == last.role)
  {
    var all := init + [last];
    assert all[..|all|-1] == init;
    assert forall t :: t in all <==> t in init || t == last;
    if arn !in RoleArns(init) { NoResults(init, arn); }
  }

  lemma {:induction false} NoResults(results: seq<TrustResult>, arn: string)
    requires arn !in RoleArns(results)
    ensures ResultsOf(results, arn) == []
  {
    if results != [] {
      assert results == results[..|results|-1] + [results[|results|-1]];
      NoResults(results[..|results|-1], arn);
    }
  }

  lemma OfferOne(batches: seq<seq<Edge>>, batch: seq<Edge>)
    ensures OfferAll(batches + [batch]) == Offer(OfferAll(batches), batch)
  {
    assert (batches + [batch])[..|batches|] == batches;
  }

  method CollectDenies(accounts: seq<AccountData>) returns (r: seq<Constraint>)
    ensures r == Denies(accounts)
  {
    r := [];
    for a := 0 to |accounts|
      invariant r == Denies(accounts[..a])
    {
      assert accounts[..a+1][..a] == accounts[..a];
      r := r + accounts[a].denyConstraints;
    }
    assert accounts[..|accounts|] == accounts;
  }

  /** All nodes and, within the budget, all edges. */
  method Gather(x: Inputs) returns (nodes: seq<Node>, edges: seq<Edge>, exhausted: bool, policies: PolicyGraph)
    ensures nodes == AllNodes(x) && policies == Policies(x)
    ensures Budget(edges, exhausted) == OfferAll(Batches(x))
  {
    hide OfferAll, Offer, AccountBatches, AccountNodes;
    var state := new Resolver();
    state.CollectAccounts(x.accounts, x.cl.trustEdges);
    state.allNodes := state.allNodes + x.syntheticNodes;
    state.allNodes := state.allNodes + x.serviceNodes;
    ghost var offered := AccountBatches(x.accounts, x.cl.trustEdges);
    if x.serviceEdges != [] {
      state.AddEdges(x.serviceEdges);
      OfferOne(offered, x.serviceEdges);
      offered := offered + [x.serviceEdges];
    }
    policies := PolicyGraph([], [], [], []);
    if x.hasResourcePolicies {
      policies := x.cl.resourcePolicies(state.allNodes);
      state.allNodes := state.allNodes + policies.nodes;
      state.AddEdges(policies.edges);
      OfferOne(offered, policies.edges);
      offered := offered + [policies.edges];
    }
    assert offered == Batches(x);
    assert state.allNodes == AllNodes(x);
    return state.allNodes, state.allEdges, state.budgetExhausted, policies;
  }

  /** All constraints and bindings, in the order the binders run. */
  method Bind(x: Inputs, nodes: seq<Node>, edges: seq<Edge>, policies: PolicyGraph)
    returns (constraints: seq<Constraint>, links: seq<EdgeConstraint>)
    requires nodes == AllNodes(x) && edges == Kept(x) && policies == Policies(x)
    ensures constraints == Collected(x) && links == BoundLinks(x)
  {
    hide AllNodes, Kept, Policies, Layer, Denies;
    constraints := x.scpConstraints + policies.constraints;
    var trustEdges := Layer(edges, TRUST_LAYER);
    var trustConditions := x.cl.trustConditions(trustEdges);
    if trustConditions != [] {
      constraints := constraints + trustConditions;
    }
    assert constraints == ScpView(x);
    links := x.cl.bindScps(trustEdges, constraints);
    if trustConditions != [] {
      links := links + x.cl.bindTrustConditions(trustEdges, trustConditions);
    }
    links := links + policies.links;
    if x.boundaryConstraints.Some? {
      constraints := constraints + x.boundaryConstraints.value;
      links := links + x.cl.bindBoundaries(edges, nodes, x.boundaryConstraints.value);
    }
    var denies := CollectDenies(x.accounts);
    if denies != [] {
      constraints := constraints + denies;
      links := links + x.cl.bindDenies(Layer(edges, PERMISSION_LAYER), denies);
    }
  }

  /** Collects, binds, deduplicates. None stands for the ValueError of an id computation. */
  method Resolve(x: Inputs, sha: Hash) returns (r: Option<Resolved>)
    ensures r.None? <==> IdRaises(x, sha)
    ensures r.Some? ==> r.value == ResolvedGraph(x, sha)
  {
    hide AllNodes, Policies, Collected, BoundLinks, ResolvedGraph, IdRaises;
    var nodes, edges, exhausted, policies := Gather(x);
    var constraints, links := Bind(x, nodes, edges, policies);
    r := Finish(x, sha, nodes, edges, constraints, links, exhausted);
  }

  /** Deduplication and stale-principal drift. */
  method Finish(x: Inputs, sha: Hash, nodes: seq<Node>, edges: seq<Edge>, constraints: seq<Constraint>,
                links: seq<EdgeConstraint>, exhausted: bool)
    returns (r: Option<Resolved>)
    requires nodes == AllNodes(x) && edges == Kept(x) && constraints == Collected(x) && links == BoundLinks(x)
    requires exhausted == OfferAll(Batches(x)).exhausted
    ensures r.None? <==> IdRaises(x, sha)
    ensures r.Some? ==> r.value == ResolvedGraph(x, sha)
  {
    hide AllNodes, Kept, Collected, BoundLinks, KeyHasId, EdgeHasId, ConstraintHasId, AddMissing, KeepFirst, OfferAll,
         Batches;
    var uniqueNodes := Dedup(nodes, NodeIdBy(sha), NodeHasId());
    if uniqueNodes.None? { return None; }
    var uniqueEdges := Dedup(edges, EdgeIdBy(sha), HasEdgeId());
    if uniqueEdges.None? { return None; }
    var drift := x.cl.staleDrift(uniqueEdges.value);
    if drift.constraints == [] {
      return Some(Resolved(uniqueNodes.value, uniqueEdges.value, constraints, links, exhausted));
    }
    var all := AppendMissing(constraints, drift.constraints, sha);
    if all.None? { return None; }
    return Some(Resolved(uniqueNodes.value, uniqueEdges.value, all.value, links + drift.links, exhausted));
  }

  // ----- every binding resolves -----

  ghost predicate RefersTo(sha: Hash, links: seq<EdgeConstraint>, edges: seq<Edge>, constraints: seq<Constraint>) {
    forall l | l in links ::
      l.edgeId in IdSet(edges, EdgeIdBy(sha)) && l.constraintId in IdSet(constraints, ConstraintIdBy(sha))
  }

  /** The binders refer only to what they are given or return. */
  ghost predicate Conforming(cl: Collaborators, sha: Hash) {
    && (forall ns :: RefersTo(sha, cl.resourcePolicies(ns).links, cl.resourcePolicies(ns).edges,
                              cl.resourcePolicies(ns).constraints))
    && (forall es, cs :: RefersTo(sha, cl.bindScps(es, cs), es, cs))
    && (forall es, cs :: RefersTo(sha, cl.bindTrustConditions(es, cs), es, cs))
    && (forall es, ns, cs :: RefersTo(sha, cl.bindBoundaries(es, ns, cs), es, cs))
    && (forall es, cs :: RefersTo(sha, cl.bindDenies(es, cs), es, cs))
    && (forall es :: RefersTo(sha, cl.staleDrift(es).links, es, cl.staleDrift(es).constraints))
  }

  lemma IdSetSubset<T>(a: seq<T>, b: seq<T>, id: T -> string)
    requires forall x | x in a :: x in b
    ensures IdSet(a, id) <= IdSet(b, id)
  {
    forall k | k in IdSet(a, id) ensures k in IdSet(b, id) {
      var i :| 0 <= i < |a| && id(a[i]) == k;
      assert a[i] in b;
      var j :| 0 <= j < |b| && b[j] == a[i];
      assert id(b[j]) == k;
    }
  }

  /** References survive when both sides only gain elements. */
  lemma RefersWiden(sha: Hash, links: seq<EdgeConstraint>, es: seq<Edge>, cs: seq<Constraint>, es': seq<Edge>,
                    cs': seq<Constraint>)
    requires RefersTo(sha, links, es, cs)
    requires IdSet(es, EdgeIdBy(sha)) <= IdSet(es', EdgeIdBy(sha))
    requires IdSet(cs, ConstraintIdBy(sha)) <= IdSet(cs', ConstraintIdBy(sha))
    ensures RefersTo(sha, links, es', cs')
  {
  }

  lemma RefersConcat(sha: Hash, a: seq<EdgeConstraint>, b: seq<EdgeConstraint>, es: seq<Edge>, cs: seq<Constraint>)
    ensures RefersTo(sha, a + b, es, cs) <==> RefersTo(sha, a, es, cs) && RefersTo(sha, b, es, cs)
  {
    if RefersTo(sha, a + b, es, cs) {
      forall l | l in a ensures l in a + b { }
      forall l | l in b ensures l in a + b { }
    }
  }

  lemma {:induction false} AddMissingIds(base: seq<Constraint>, more: seq<Constraint>, id: Constraint -> string)
    ensures IdSet(AddMissing(base, more, id), id) == IdSet(base, id) + IdSet(more, id)
  {
    if more == [] {
      assert IdSet(more, id) == {};
    } else {
      var init, last := more[..|more|-1], more[|more|-1];
      assert more == init + [last];
      AddMissingIds(base, init, id);
      IdSetAppend(init, last, id);
      IdSetAppend(AddMissing(base, init, id), last, id);
    }
  }

  /** The resource-policy bindings, which are added without regard to the budget. */
  ghost predicate PolicyLinksKept(x: Inputs, sha: Hash) {
    forall l | l in Policies(x).links :: l.edgeId in IdSet(Kept(x), EdgeIdBy(sha))
  }

  /** All bindings other than the resource-policy ones, in two groups around them. */
  ghost function LinksBefore(x: Inputs): seq<EdgeConstraint> {
    x.cl.bindScps(TrustEdges(x), ScpView(x))
    + (if TrustConditions(x) != [] then x.cl.bindTrustConditions(TrustEdges(x), TrustConditions(x)) else [])
  }

  ghost function LinksAfter(x: Inputs): seq<EdgeConstraint> {
    (if x.boundaryConstraints.Some? then x.cl.bindBoundaries(Kept(x), AllNodes(x), Boundaries(x)) else [])
    + (if Denies(x.accounts) != [] then x.cl.bindDenies(Layer(Kept(x), PERMISSION_LAYER), Denies(x.accounts)) else [])
  }

  lemma LinksSplit(x: Inputs)
    ensures BoundLinks(x) == LinksBefore(x) + Policies(x).links + LinksAfter(x)
  {
  }

  lemma PartOfCollected(x: Inputs, sha: Hash)
    ensures
      var id, all := ConstraintIdBy(sha), IdSet(Collected(x), ConstraintIdBy(sha));
      && IdSet(ScpView(x), id) <= all && IdSet(TrustConditions(x), id) <= all &&
         IdSet(Policies(x).constraints, id) <= all
      && IdSet(Boundaries(x), id) <= all && IdSet(Denies(x.accounts), id) <= all
  {
    hide TrustConditions, Policies, Boundaries, Denies;
    var id := ConstraintIdBy(sha);
    IdSetConcat(ScpView(x) + Boundaries(x), Denies(x.accounts), id);
    IdSetConcat(ScpView(x), Boundaries(x), id);
    IdSetConcat(x.scpConstraints + Policies(x).constraints, TrustConditions(x), id);
    IdSetConcat(x.scpConstraints, Policies(x).constraints, id);
  }

  lemma OtherLinksResolve(x: Inputs, sha: Hash)
    requires Conforming(x.cl, sha)
    ensures RefersTo(sha, LinksBefore(x), Kept(x), Collected(x)) && RefersTo(sha, LinksAfter(x), Kept(x), Collected(x))
  {
    hide RefersTo, TrustConditions, Policies, Boundaries, Denies, Collected, Kept, ScpView, AllNodes, Layer, EdgeIdBy,
         ConstraintIdBy;
    var all, kept, trust, perm := Collected(x), Kept(x), TrustEdges(x), Layer(Kept(x), PERMISSION_LAYER);
    PartOfCollected(x, sha);
    IdSetSubset(trust, kept, EdgeIdBy(sha));
    IdSetSubset(perm, kept, EdgeIdBy(sha));
    NoLinks(sha, kept, all);
    RefersWiden(sha, x.cl.bindScps(trust, ScpView(x)), trust, ScpView(x), kept, all);
    RefersWiden(sha, x.cl.bindTrustConditions(trust, TrustConditions(x)), trust, TrustConditions(x), kept, all);
    RefersWiden(sha, x.cl.bindBoundaries(kept, AllNodes(x), Boundaries(x)), kept, Boundaries(x), kept, all);
    RefersWiden(sha, x.cl.bindDenies(perm, Denies(x.accounts)), perm, Denies(x.accounts), kept, all);
    RefersConcat(sha, x.cl.bindScps(trust, ScpView(x)),
                 if TrustConditions(x) != [] then x.cl.bindTrustConditions(trust, TrustConditions(x)) else [],
                 kept, all);
    RefersConcat(sha, if x.boundaryConstraints.Some? then x.cl.bindBoundaries(kept, AllNodes(x), Boundaries(x)) else [],
                 if Denies(x.accounts) != [] then x.cl.bindDenies(perm, Denies(x.accounts)) else [], kept, all);
  }

  lemma NoLinks(sha: Hash, es: seq<Edge>, cs: seq<Constraint>)
    ensures RefersTo(sha, [], es, cs)
  {
  }

  /** Which constraint ids are returned. */
  lemma ReturnedConstraintIds(x: Inputs, sha: Hash)
    ensures
      var id, drift := ConstraintIdBy(sha), DriftOf(x, sha).constraints;
      IdSet(ResolvedGraph(x, sha).constraints, id) == IdSet(Collected(x), id) + IdSet(drift, id)
  {
    hide Collected, DriftOf, Batches, AllNodes, UniqueEdges, BoundLinks;
    AddMissingIds(Collected(x), DriftOf(x, sha).constraints, ConstraintIdBy(sha));
  }

  /** Before drift is added the bindings resolve exactly when no resource-policy binding lost
      its edge to the budget. */
  lemma BoundLinksExactly(x: Inputs, sha: Hash)
    requires Conforming(x.cl, sha)
    ensures RefersTo(sha, BoundLinks(x), Kept(x), Collected(x)) <==> PolicyLinksKept(x, sha)
  {
    hide Collected, Kept, LinksBefore, LinksAfter, BoundLinks, EdgeIdBy, ConstraintIdBy, Policies;
    LinksSplit(x);
    OtherLinksResolve(x, sha);
    RefersConcat(sha, LinksBefore(x) + Policies(x).links, LinksAfter(x), Kept(x), Collected(x));
    RefersConcat(sha, LinksBefore(x), Policies(x).links, Kept(x), Collected(x));
    PartOfCollected(x, sha);
    PolicyLinksConform(x, sha);
  }

  lemma PolicyLinksConform(x: Inputs, sha: Hash)
    requires Conforming(x.cl, sha)
    ensures RefersTo(sha, Policies(x).links, Policies(x).edges, Policies(x).constraints)
  {
    hide RefersTo, NodesBeforePolicies;
    NoLinks(sha, [], []);
  }

  /** Every returned binding refers to a returned edge and a returned constraint, exactly when
      no resource-policy binding lost its edge to the budget. */
  lemma LinksResolveExactly(x: Inputs, sha: Hash)
    requires Conforming(x.cl, sha)
    ensures
      var r := ResolvedGraph(x, sha);
      RefersTo(sha, r.links, r.edges, r.constraints) <==> PolicyLinksKept(x, sha)
  {
    hide Collected, Kept, BoundLinks, EdgeIdBy, ConstraintIdBy, Policies, AllNodes, Batches, KeepFirst, AddMissing,
         PolicyLinksKept;
    var r, drift := ResolvedGraph(x, sha), DriftOf(x, sha);
    var edgeId, constraintId := EdgeIdBy(sha), ConstraintIdBy(sha);
    KeepFirstIds(Kept(x), edgeId);
    ReturnedConstraintIds(x, sha);
    BoundLinksExactly(x, sha);
    if RefersTo(sha, BoundLinks(x), Kept(x), Collected(x)) {
      RefersWiden(sha, BoundLinks(x), Kept(x), Collected(x), r.edges, r.constraints);
    }
    RefersWiden(sha, drift.links, r.edges, drift.constraints, r.edges, r.constraints);
    if drift.constraints != [] {
      RefersConcat(sha, BoundLinks(x), drift.links, r.edges, r.constraints);
    }
    if RefersTo(sha, r.links, r.edges, r.constraints) {
      BoundLinksEdges(x, sha);
    }
  }

  /** The edge half alone already decides the matter. */
  lemma BoundLinksEdges(x: Inputs, sha: Hash)
    requires RefersTo(sha, BoundLinks(x), ResolvedGraph(x, sha).edges, ResolvedGraph(x, sha).constraints)
    ensures PolicyLinksKept(x, sha)
  {
    hide Collected, Kept, LinksBefore, LinksAfter, BoundLinks, EdgeIdBy, ConstraintIdBy, Policies, AllNodes, Batches,
         KeepFirst, AddMissing;
    KeepFirstIds(Kept(x), EdgeIdBy(sha));
    LinksSplit(x);
    forall l | l in Policies(x).links ensures l in BoundLinks(x) { }
  }

  /** With a clear flag nothing was truncated, so every binding resolves. */
  lemma ClearFlagResolves(x: Inputs, sha: Hash)
    requires Conforming(x.cl, sha) && !ResolvedGraph(x, sha).exhausted
    ensures
      var r := ResolvedGraph(x, sha);
      RefersTo(sha, r.links, r.edges, r.constraints)
  {
    hide Collected, BoundLinks, EdgeIdBy, ConstraintIdBy, AllNodes, KeepFirst, AddMissing, OfferAll, AccountBatches,
         DriftOf;
    NothingLost(Batches(x));
    PolicyLinksConform(x, sha);
    PolicyEdgesOffered(x);
    IdSetSubset(Policies(x).edges, Kept(x), EdgeIdBy(sha));
    LinksResolveExactly(x, sha);
  }

  lemma {:induction false} FlattenHas<T>(batches: seq<seq<T>>, batch: seq<T>, x: T)
    requires batch in batches && x in batch
    ensures x in Flatten(batches)
  {
    var last := batches[|batches|-1];
    if batch != last {
      assert batches == batches[..|batches|-1] + [last];
      FlattenHas(batches[..|batches|-1], batch, x);
    }
  }

  lemma PolicyEdgesOffered(x: Inputs)
    ensures forall e | e in Policies(x).edges :: e in Flatten(Batches(x))
  {
    hide AccountBatches, Flatten;
    forall e | e in Policies(x).edges ensures e in Flatten(Batches(x)) {
      FlattenHas(Batches(x), Policies(x).edges, e);
    }
  }

  // ----- the budget can lose a binding's edge -----

  function SampleEdge(src: string): Edge {
    Edge("s3:GetObject_permission", NodeRef("aws", "IAMRole", src, "-"), NodeRef("aws", "S3Bucket", "b", "-"), "-",
         "{}")
  }

  const SAMPLE_CONSTRAINT := Constraint("aws", "RESOURCE_POLICY_CONDITION", "RESOURCE", "b", "b", "s", "{}")

  function Crowd(): (r: seq<Edge>)
    ensures |r| == MAX_TOTAL_EDGES && forall i | 0 <= i < |r| :: r[i] == SampleEdge("p")
  {
    seq(MAX_TOTAL_EDGES, i => SampleEdge("p"))
  }

  /** The budget is used up before the only resource-policy edge, which has a binding. */
  function CrowdedInputs(sha: Hash): Inputs {
    var late := SampleEdge("q");
    var policies := PolicyGraph([], [late], [SAMPLE_CONSTRAINT],
                                [EdgeConstraint(EdgeId(sha, late), ConstraintId(sha, SAMPLE_CONSTRAINT),
                                                "needs_review")]);
    Inputs(
      [AccountData([], [], Crowd(), [], [])],
      [], [], [], [], true, None,
      Collaborators((rs, role) => [], ns => policies, es => [], (es, cs) => [], (es, cs) => [], (es, ns, cs) => [],
                    (es, cs) => [], es => Drift([], [])))
  }

  /** On an exhausted budget a returned binding can refer to an edge that is not returned, even
      though every binder refers only to its inputs. */
  lemma BudgetCanLoseABoundEdge(sha: Hash)
    requires Injective(sha)
    ensures
      var x := CrowdedInputs(sha);
      var r := ResolvedGraph(x, sha);
      Conforming(x.cl, sha) && r.exhausted && !RefersTo(sha, r.links, r.edges, r.constraints)
  {
    var x := CrowdedInputs(sha);
    CrowdedConforms(sha);
    CrowdedKept(sha);
    CrowdedLoses(sha);
    hide Batches, Conforming, RefersTo, EdgeIdBy, Policies, Kept, CrowdedInputs, PolicyLinksKept, OfferAll;
    LinksResolveExactly(x, sha);
  }

  lemma CrowdedBatches(sha: Hash)
    ensures Batches(CrowdedInputs(sha)) == [Crowd(), [SampleEdge("q")]]
  {
    hide Crowd, SampleEdge;
    var x := CrowdedInputs(sha);
    assert x.accounts[..0] == [];
    assert AccountBatches(x.accounts, x.cl.trustEdges) == [x.accounts[0].permissionEdges];
  }

  lemma CrowdedConforms(sha: Hash)
    ensures Conforming(CrowdedInputs(sha).cl, sha)
  {
    hide SampleEdge, EdgeId, ConstraintId, Crowd, IdSet;
    IdSetAppend([], SampleEdge("q"), EdgeIdBy(sha));
    IdSetAppend([], SAMPLE_CONSTRAINT, ConstraintIdBy(sha));
    assert [] + [SampleEdge("q")] == [SampleEdge("q")] && [] + [SAMPLE_CONSTRAINT] == [SAMPLE_CONSTRAINT];
  }

  lemma FlattenTwo<T>(a: seq<T>, b: seq<T>)
    ensures Flatten([a, b]) == a + b && Flatten([a, b][..1]) == a
  {
    assert [a, b][..1] == [a] && [a][..0] == [];
    assert Flatten([a]) == a;
  }

  lemma CrowdedKept(sha: Hash)
    ensures Kept(CrowdedInputs(sha)) == Crowd()
    ensures OfferAll(Batches(CrowdedInputs(sha))).exhausted
  {
    hide Crowd, SampleEdge, Flatten, OfferAll, CrowdedInputs, Batches;
    var late := [SampleEdge("q")];
    CrowdedBatches(sha);
    FlattenTwo(Crowd(), late);
    BudgetIsExact([Crowd(), late]);
    assert (Crowd() + late)[..MAX_TOTAL_EDGES] == Crowd();
  }

  lemma CrowdedLoses(sha: Hash)
    requires Injective(sha)
    ensures !PolicyLinksKept(CrowdedInputs(sha), sha)
  {
    hide Injective, Crowd, Strip, Structural, Join, NulFree, Kept;
    CrowdedKept(sha);
    SamplesDiffer();
    SameEdgeId(sha, SampleEdge("p"), SampleEdge("q"));
    var link := Policies(CrowdedInputs(sha)).links[0];
    assert link in Policies(CrowdedInputs(sha)).links && link.edgeId == EdgeId(sha, SampleEdge("q"));
  }

  lemma SamplesDiffer()
    ensures EdgeFields(SampleEdge("p")) != EdgeFields(SampleEdge("q"))
    ensures EdgeNulFree(SampleEdge("p")) && EdgeNulFree(SampleEdge("q"))
  {
    assert Strip("p") == "p" && Strip("q") == "q";
    assert EdgeFields(SampleEdge("p"))[1] != EdgeFields(SampleEdge("q"))[1];
  }
}
