/** Translating a scenario for strict replay and pruning its links to what the ingest accepts
    (tools/serim_arf_rt_compare.py, normalize_for_arf_rt and preflight_arf_edge_constraints). */
module ArfPreflight {
  import opened Values

  // ----- the input scenario -----

  datatype RawRef = RawRef(provider: Value, nodeType: Value, providerId: Value, region: Field)

  datatype RawEdge = RawEdge(id: Field, edgeType: Value, src: RawRef, dst: RawRef, region: Field,
                             alpha: Field, beta: Field, status: Field)

  /** `properties` is the canonical JSON text of the property dict, "{}" when there is none. */
  datatype RawConstraint = RawConstraint(id: Field, provider: Value, constraintType: Value, scopeType: Value,
                                         scopeId: Value, region: Field, properties: string,
                                         status: Field, validation: Field, confidence: Field)

  datatype RawLink = RawLink(edgeId: Field, constraintId: Field, relationType: Field)

  datatype Raw = Raw(edges: seq<RawEdge>, constraints: seq<RawConstraint>, links: seq<RawLink>)

  // ----- the scenario that is ingested -----

  /** A list element or a reference: a dict, or something else. */
  datatype Item<+R> = Record(r: R) | Bare(v: Value)

  datatype EdgeRef = EdgeRef(edgeType: Field, src: Endpoint, dst: Endpoint, region: Field)

  datatype Edge = Edge(ref: EdgeRef, alpha: Field, beta: Field, status: Field)

  datatype ConstraintRef = ConstraintRef(provider: Field, constraintType: Field, scopeType: Field, scopeId: Field,
                                         region: Field, properties: string)

  datatype Constraint = Constraint(ref: ConstraintRef, status: Field, validation: Field, confidence: Field)

  datatype Link = Link(edgeRef: Item<EdgeRef>, constraintRef: Item<ConstraintRef>, relationType: Field, invalid: bool)

  datatype Scenario = Scenario(edges: seq<Item<Edge>>, constraints: seq<Item<Constraint>>, links: seq<Link>)

  // ----- keys and admissibility -----

  datatype EdgeKey = EdgeKey(edgeType: Value, src: Endpoint, dst: Endpoint, region: Value) | InvalidEdge(v: Value)

  datatype ConstraintKey =
    | ConstraintKey(provider: Value, constraintType: Value, scopeType: Value, scopeId: Value, region: Value,
                    properties: string)
    | InvalidConstraint(v: Value)

  function RefKey(r: Item<EdgeRef>): EdgeKey {
    match r
    case Record(e) => EdgeKey(Get(e.edgeType, Null), e.src, e.dst, Get(e.region, Text("-")))
    case Bare(v) => InvalidEdge(v)
  }

  function KeyOfEdge(e: Item<Edge>): EdgeKey {
    match e
    case Record(x) => RefKey(Record(x.ref))
    case Bare(v) => InvalidEdge(v)
  }

  function ConstraintRefKey(r: Item<ConstraintRef>): ConstraintKey {
    match r
    case Record(c) => ConstraintKey(Get(c.provider, Null), Get(c.constraintType, Null), Get(c.scopeType, Null),
                                    Get(c.scopeId, Null), Get(c.region, Text("-")), c.properties)
    case Bare(v) => InvalidConstraint(v)
  }

  function KeyOfConstraint(c: Item<Constraint>): ConstraintKey {
    match c
    case Record(x) => ConstraintRefKey(Record(x.ref))
    case Bare(v) => InvalidConstraint(v)
  }

  const CONSTRAINT_TYPES := {Text("AZURE_CA"), Text("AZURE_PIM"), Text("PERMISSION_BOUNDARY"), Text("RESOURCE_POLICY"),
                             Text("SCP"), Text("TRUST_CONDITION")}
  const CONSTRAINT_STATUS := {Text("ACTIVE"), Text("INVALIDATED")}
  const VALIDATION_STATUS := {Text("ASSUMED"), Text("UNVALIDATED"), Text("VALIDATED")}
  const EDGE_STATUS := {Text("CONFIRMED"), Text("HYPOTHESIZED"), Text("REFUTED"), Text("UNKNOWN_CONDITION")}
  const RELATION_TYPES := {Text("APPLIES_TO"), Text("DEPENDS_ON")}

  predicate Present(p: Endpoint) {
    match p
    case Dict(fields) => fields != map[]
    case Plain(v) => Truthy(v)
  }

  predicate IsNonnegativeInt(v: Value) { v.Int? && v.n >= 0 }

  predicate IsConfidence(v: Value) { v.Int? && 0 <= v.n <= 1000 }

  predicate AdmissibleEdge(e: Item<Edge>) {
    && e.Record?
    && Truthy(Get(e.r.ref.edgeType, Null)) && Present(e.r.ref.src) && Present(e.r.ref.dst)
    && Get(e.r.status, Text("HYPOTHESIZED")) in EDGE_STATUS
    && IsNonnegativeInt(Get(e.r.alpha, Int(1))) && IsNonnegativeInt(Get(e.r.beta, Int(1)))
  }

  predicate AdmissibleConstraint(c: Item<Constraint>) {
    && c.Record?
    && Get(c.r.ref.constraintType, Null) in CONSTRAINT_TYPES
    && Get(c.r.status, Text("ACTIVE")) in CONSTRAINT_STATUS
    && Get(c.r.validation, Text("UNVALIDATED")) in VALIDATION_STATUS
    && IsConfidence(Get(c.r.confidence, Int(0)))
  }

  function RelationType(f: Field): Value {
    if Get(f, Null) in RELATION_TYPES then Get(f, Null) else Text("APPLIES_TO")
  }

  // ----- normalising -----

  /** Later records replace earlier ones with the same id. */
  function ById<R>(records: seq<R>, id: R -> Field): map<Value, R> {
    if records == [] then map[]
    else
      var last := records[|records|-1];
      var m := ById(records[..|records|-1], id);
      if Truthy(Get(id(last), Null)) then m[Get(id(last), Null) := last] else m
  }

  const EDGE_ID: RawEdge -> Field := (e: RawEdge) => e.id
  const CONSTRAINT_ID: RawConstraint -> Field := (c: RawConstraint) => c.id

  function NormalNodeRef(r: RawRef): Endpoint {
    Dict(map["provider" := r.provider, "node_type" := r.nodeType, "provider_id" := r.providerId,
             "region" := Get(r.region, Text("-"))])
  }

  function NormalEdgeRef(e: RawEdge): EdgeRef {
    EdgeRef(Given(e.edgeType), NormalNodeRef(e.src), NormalNodeRef(e.dst), Given(Get(e.region, Text("-"))))
  }

  function NormalEdge(e: RawEdge): Item<Edge> {
    Record(Edge(NormalEdgeRef(e), Given(Get(e.alpha, Int(1))), Given(Get(e.beta, Int(1))),
                Given(Get(e.status, Text("HYPOTHESIZED")))))
  }

  function NormalConstraintRef(c: RawConstraint): ConstraintRef {
    ConstraintRef(Given(c.provider), Given(c.constraintType), Given(c.scopeType), Given(c.scopeId),
                  Given(Get(c.region, Text("-"))), c.properties)
  }

  function NormalConstraint(c: RawConstraint): Item<Constraint> {
    Record(Constraint(NormalConstraintRef(c), Given(Get(c.status, Text("ACTIVE"))),
                      Given(if Get(c.validation, Null) in VALIDATION_STATUS then Get(c.validation, Null)
                            else Text("UNVALIDATED")),
                      Given(Get(c.confidence, Int(0)))))
  }

  function NormalLink(l: RawLink, edges: map<Value, RawEdge>, constraints: map<Value, RawConstraint>): Link {
    var edgeId, constraintId := Get(l.edgeId, Null), Get(l.constraintId, Null);
    if edgeId in edges && constraintId in constraints then
      Link(Record(NormalEdgeRef(edges[edgeId])), Record(NormalConstraintRef(constraints[constraintId])),
           Given(RelationType(l.relationType)), false)
    else Link(Bare(edgeId), Bare(constraintId), Given(RelationType(l.relationType)), true)
  }

  function Mapped<A, B>(s: seq<A>, f: A -> B): (r: seq<B>)
    ensures |r| == |s| && forall i | 0 <= i < |s| :: r[i] == f(s[i])
  {
    seq(|s|, i requires 0 <= i < |s| => f(s[i]))
  }

  function NormalForm(raw: Raw): Scenario {
    var edges, constraints := ById(raw.edges, EDGE_ID), ById(raw.constraints, CONSTRAINT_ID);
    Scenario(Mapped(raw.edges, NormalEdge), Mapped(raw.constraints, NormalConstraint),
             Mapped(raw.links, l => NormalLink(l, edges, constraints)))
  }

  method IndexById<R>(records: seq<R>, id: R -> Field) returns (m: map<Value, R>)
    ensures m == ById(records, id)
  {
    m := map[];
    for i := 0 to |records|
      invariant m == ById(records[..i], id)
    {
      assert records[..i+1][..i] == records[..i];
      var key := Get(id(records[i]), Null);
      if Truthy(key) { m := m[key := records[i]]; }
    }
    assert records[..|records|] == records;
  }

  method NormalizeForArfRt(raw: Raw) returns (s: Scenario)
    ensures s == NormalForm(raw)
  {
    var edgeById := IndexById(raw.edges, EDGE_ID);
    var constraintById := IndexById(raw.constraints, CONSTRAINT_ID);
    var constraints := [];
    for i := 0 to |raw.constraints|
      invariant |constraints| == i && forall k | 0 <= k < i :: constraints[k] == NormalConstraint(raw.constraints[k])
    {
      constraints := constraints + [NormalConstraint(raw.constraints[i])];
    }
    var links := [];
    for i := 0 to |raw.links|
      invariant |links| == i && forall k | 0 <= k < i :: links[k] == NormalLink(raw.links[k], edgeById, constraintById)
    {
      links := links + [NormalLink(raw.links[i], edgeById, constraintById)];
    }
    var edges := [];
    for i := 0 to |raw.edges|
      invariant |edges| == i && forall k | 0 <= k < i :: edges[k] == NormalEdge(raw.edges[k])
    {
      edges := edges + [NormalEdge(raw.edges[i])];
    }
    s := Scenario(edges, constraints, links);
    assert edges == NormalForm(raw).edges && constraints == NormalForm(raw).constraints &&
           links == NormalForm(raw).links;
  }

  /** x is the last record that carries the id v. */
  ghost predicate Names<R>(records: seq<R>, id: R -> Field, v: Value, x: R) {
    Truthy(v) && exists i :: 0 <= i < |records| && records[i] == x && Get(id(x), Null) == v &&
                             forall k | i < k < |records| :: Get(id(records[k]), Null) != v
  }

  lemma {:induction false} ByIdMeans<R>(records: seq<R>, id: R -> Field, v: Value, x: R)
    ensures v in ById(records, id) && ById(records, id)[v] == x <==> Names(records, id, v, x)
  {
    if records != [] {
      var init, last := records[..|records|-1], records[|records|-1];
      ByIdMeans(init, id, v, x);
      assert forall i | 0 <= i < |init| :: init[i] == records[i];
    }
  }

  // ----- pruning -----

  function EdgeKeys(s: Scenario): set<EdgeKey> { set e | e in s.edges :: KeyOfEdge(e) }

  function AdmissibleEdgeKeys(s: Scenario): set<EdgeKey> { set e | e in s.edges && AdmissibleEdge(e) :: KeyOfEdge(e) }

  function ConstraintKeys(s: Scenario): set<ConstraintKey> { set c | c in s.constraints :: KeyOfConstraint(c) }

  function AdmissibleConstraintKeys(s: Scenario): set<ConstraintKey> {
    set c | c in s.constraints && AdmissibleConstraint(c) :: KeyOfConstraint(c)
  }

  predicate MissingEdge(s: Scenario, l: Link) { !l.invalid && RefKey(l.edgeRef) !in EdgeKeys(s) }

  predicate MissingConstraint(s: Scenario, l: Link) {
    !l.invalid && ConstraintRefKey(l.constraintRef) !in ConstraintKeys(s)
  }

  predicate UnsupportedEdge(s: Scenario, l: Link) {
    !l.invalid && RefKey(l.edgeRef) in EdgeKeys(s) && RefKey(l.edgeRef) !in AdmissibleEdgeKeys(s)
  }

  predicate UnsupportedConstraint(s: Scenario, l: Link) {
    && !l.invalid && ConstraintRefKey(l.constraintRef) in ConstraintKeys(s)
    && ConstraintRefKey(l.constraintRef) !in AdmissibleConstraintKeys(s)
  }

  predicate BadEdge(s: Scenario, l: Link) { MissingEdge(s, l) || UnsupportedEdge(s, l) }

  predicate BadConstraint(s: Scenario, l: Link) { MissingConstraint(s, l) || UnsupportedConstraint(s, l) }

  predicate Dropped(s: Scenario, l: Link) { l.invalid || BadEdge(s, l) || BadConstraint(s, l) }

  predicate BothBad(s: Scenario, l: Link) { BadEdge(s, l) && BadConstraint(s, l) }

  function By(s: Scenario, p: (Scenario, Link) -> bool): Link -> bool { l => p(s, l) }

  function Retyped(l: Link): Link { l.(relationType := Given(RelationType(l.relationType))) }

  function KeptLinks(s: Scenario, links: seq<Link>): seq<Link> {
    if links == [] then []
    else
      var last := links[|links|-1];
      KeptLinks(s, links[..|links|-1]) + if Dropped(s, last) then [] else [Retyped(last)]
  }

  function KeptConstraints(cs: seq<Item<Constraint>>): seq<Item<Constraint>> {
    if cs == [] then []
    else
      var last := cs[|cs|-1];
      KeptConstraints(cs[..|cs|-1]) + if AdmissibleConstraint(last) then [last] else []
  }

  function Count(links: seq<Link>, p: Link -> bool): nat {
    if links == [] then 0
    else Count(links[..|links|-1], p) + if p(links[|links|-1]) then 1 else 0
  }

  /** How often each of the five reasons was counted. */
  datatype Tally = Tally(invalidRef: nat, missingEdge: nat, missingConstraint: nat,
                         unsupportedEdge: nat, unsupportedConstraint: nat)
  {
    function Total(): nat { invalidRef + missingEdge + missingConstraint + unsupportedEdge + unsupportedConstraint }
  }

  function One(b: bool): nat { if b then 1 else 0 }

  function Reasons(s: Scenario, links: seq<Link>): Tally {
    if links == [] then Tally(0, 0, 0, 0, 0)
    else
      var l, t := links[|links|-1], Reasons(s, links[..|links|-1]);
      Tally(t.invalidRef + One(l.invalid),
            t.missingEdge + One(MissingEdge(s, l)), t.missingConstraint + One(MissingConstraint(s, l)),
            t.unsupportedEdge + One(UnsupportedEdge(s, l)), t.unsupportedConstraint + One(UnsupportedConstraint(s, l)))
  }

  datatype Diagnostics = Diagnostics(linksIn: nat, linksKept: nat, linksDropped: int, reasons: Tally,
                                     constraintsIn: nat, constraintsKept: nat, constraintsPruned: int)

  /** The diagnostics of a run on s. */
  function Report(s: Scenario): Diagnostics {
    var c := Cleaned(s);
    Diagnostics(|s.links|, |c.links|, |s.links| - |c.links|, Reasons(s, s.links),
                |s.constraints|, |c.constraints|, |s.constraints| - |c.constraints|)
  }

  function Cleaned(s: Scenario): Scenario {
    Scenario(s.edges, KeptConstraints(s.constraints), KeptLinks(s, s.links))
  }

  method FilterConstraints(cs: seq<Item<Constraint>>) returns (r: seq<Item<Constraint>>)
    ensures r == KeptConstraints(cs)
  {
    r := [];
    for i := 0 to |cs|
      invariant r == KeptConstraints(cs[..i])
    {
      assert cs[..i+1][..i] == cs[..i];
      if AdmissibleConstraint(cs[i]) { r := r + [cs[i]]; }
    }
    assert cs[..|cs|] == cs;
  }

  lemma PreflightStep(s: Scenario, i: nat)
    requires i < |s.links|
    ensures var l, t := s.links[i], Reasons(s, s.links[..i]);
            Reasons(s, s.links[..i+1]) ==
              Tally(t.invalidRef + One(l.invalid),
                    t.missingEdge + One(MissingEdge(s, l)), t.missingConstraint + One(MissingConstraint(s, l)),
                    t.unsupportedEdge + One(UnsupportedEdge(s, l)),
                    t.unsupportedConstraint + One(UnsupportedConstraint(s, l)))
    ensures KeptLinks(s, s.links[..i+1]) ==
              KeptLinks(s, s.links[..i]) + if Dropped(s, s.links[i]) then [] else [Retyped(s.links[i])]
  {
    hide Dropped, MissingEdge, MissingConstraint, UnsupportedEdge, UnsupportedConstraint, Retyped, One;
    assert s.links[..i+1][..i] == s.links[..i];
  }

  lemma NothingPreflighted(s: Scenario)
    ensures Reasons(s, []) == Tally(0, 0, 0, 0, 0) && KeptLinks(s, []) == []
  {
  }

  method PreflightArfEdgeConstraints(s: Scenario) returns (cleaned: Scenario, d: Diagnostics)
    ensures cleaned == Cleaned(s) && d == Report(s)
  {
    hide KeyOfEdge, KeyOfConstraint, RefKey, ConstraintRefKey, AdmissibleEdge, KeptConstraints, Reasons, KeptLinks,
         Retyped;
    var allEdgeKeys := set e | e in s.edges :: KeyOfEdge(e);
    var admissibleEdgeKeys := set e | e in s.edges && AdmissibleEdge(e) :: KeyOfEdge(e);
    var allConstraintKeys := set c | c in s.constraints :: KeyOfConstraint(c);
    var admissibleConstraints := FilterConstraints(s.constraints);
    var admissibleConstraintKeys := set c | c in admissibleConstraints :: KeyOfConstraint(c);
    assert admissibleConstraintKeys == AdmissibleConstraintKeys(s) by { KeptConstraintKeys(s); }
    NothingPreflighted(s);
    var kept := [];
    var invalidRef, missingEdges, missingConstraints, unsupportedEdges, unsupportedConstraints := 0, 0, 0, 0, 0;
    for i := 0 to |s.links|
      invariant kept == KeptLinks(s, s.links[..i])
      invariant Tally(invalidRef, missingEdges, missingConstraints, unsupportedEdges, unsupportedConstraints)
             == Reasons(s, s.links[..i])
    {
      hide EdgeKeys, AdmissibleEdgeKeys, ConstraintKeys, AdmissibleConstraintKeys;
      PreflightStep(s, i);
      var link := s.links[i];
      if link.invalid {
        invalidRef := invalidRef + 1;
        continue;
      }
      var edgeKey, constraintKey := RefKey(link.edgeRef), ConstraintRefKey(link.constraintRef);
      var missingEdge := edgeKey !in allEdgeKeys;
      var missingConstraint := constraintKey !in allConstraintKeys;
      var unsupportedEdge := edgeKey in allEdgeKeys && edgeKey !in admissibleEdgeKeys;
      var unsupportedConstraint := constraintKey in allConstraintKeys && constraintKey !in admissibleConstraintKeys;
      if missingEdge || missingConstraint || unsupportedEdge || unsupportedConstraint {
        if missingEdge { missingEdges := missingEdges + 1; }
        if missingConstraint { missingConstraints := missingConstraints + 1; }
        if unsupportedEdge { unsupportedEdges := unsupportedEdges + 1; }
        if unsupportedConstraint { unsupportedConstraints := unsupportedConstraints + 1; }
        continue;
      }
      kept := kept + [Retyped(link)];
    }
    assert s.links[..|s.links|] == s.links;
    cleaned := s.(constraints := admissibleConstraints, links := kept);
    d := Diagnostics(|s.links|, |kept|, |s.links| - |kept|,
                     Tally(invalidRef, missingEdges, missingConstraints, unsupportedEdges, unsupportedConstraints),
                     |s.constraints|, |admissibleConstraints|, |s.constraints| - |admissibleConstraints|);
  }

  lemma {:induction false} KeptConstraintsAre(cs: seq<Item<Constraint>>, c: Item<Constraint>)
    ensures c in KeptConstraints(cs) <==> c in cs && AdmissibleConstraint(c)
  {
    if cs != [] {
      assert cs == cs[..|cs|-1] + [cs[|cs|-1]];
      KeptConstraintsAre(cs[..|cs|-1], c);
    }
  }

  lemma KeptConstraintKeys(s: Scenario)
    ensures (set c | c in KeptConstraints(s.constraints) :: KeyOfConstraint(c)) == AdmissibleConstraintKeys(s)
  {
    forall c { KeptConstraintsAre(s.constraints, c); }
  }

  /** The kept links are the links that are not dropped, in their order. */
  lemma {:induction false} KeptLinksAre(s: Scenario, links: seq<Link>, x: Link)
    ensures x in KeptLinks(s, links) <==>
            exists i :: 0 <= i < |links| && !Dropped(s, links[i]) && x == Retyped(links[i])
  {
    hide Dropped, Retyped;
    if links != [] {
      var init, last := links[..|links|-1], links[|links|-1];
      KeptLinksAre(s, init, x);
      assert forall i | 0 <= i < |init| :: init[i] == links[i];
    }
  }

  // ----- what the counters add up to -----

  lemma {:induction false} Accounting(s: Scenario, links: seq<Link>)
    ensures |KeptLinks(s, links)| + Count(links, By(s, Dropped)) == |links|
    ensures Reasons(s, links).Total() == Count(links, By(s, Dropped)) + Count(links, By(s, BothBad))
    ensures Count(links, By(s, BothBad)) <= Count(links, By(s, Dropped))
  {
    hide RefKey, ConstraintRefKey, EdgeKeys, AdmissibleEdgeKeys, ConstraintKeys, AdmissibleConstraintKeys;
    if links != [] {
      var l := links[|links|-1];
      assert By(s, Dropped)(l) == Dropped(s, l) && By(s, BothBad)(l) == BothBad(s, l);
      Accounting(s, links[..|links|-1]);
    }
  }

  /** The five reasons together count every dropped link once, and a second time exactly when
      both of its ends are bad. */
  lemma ReasonsBoundDrops(s: Scenario)
    ensures Report(s).linksDropped <= Report(s).reasons.Total() <= 2 * Report(s).linksDropped
    ensures Report(s).reasons.Total() - Report(s).linksDropped == Count(s.links, By(s, BothBad))
  {
    Accounting(s, s.links);
  }

  // ----- after normalising -----

  /** In a normalised scenario no link is dropped because its edge or constraint is missing. */
  lemma NormalLinkEnds(raw: Raw, i: nat)
    requires i < |raw.links|
    ensures var s := NormalForm(raw);
            var l := s.links[i];
            !MissingEdge(s, l) && !MissingConstraint(s, l)
  {
    var s := NormalForm(raw);
    var l, r := s.links[i], raw.links[i];
    if !l.invalid {
      var edges, constraints := ById(raw.edges, EDGE_ID), ById(raw.constraints, CONSTRAINT_ID);
      var e, c := edges[Get(r.edgeId, Null)], constraints[Get(r.constraintId, Null)];
      ByIdMeans(raw.edges, EDGE_ID, Get(r.edgeId, Null), e);
      ByIdMeans(raw.constraints, CONSTRAINT_ID, Get(r.constraintId, Null), c);
      var j :| 0 <= j < |raw.edges| && raw.edges[j] == e;
      var k :| 0 <= k < |raw.constraints| && raw.constraints[k] == c;
      assert s.edges[j] == NormalEdge(e) && s.constraints[k] == NormalConstraint(c);
      assert s.edges[j] in s.edges && s.constraints[k] in s.constraints;
    }
  }

  lemma {:induction false} NoneMissing(s: Scenario, links: seq<Link>)
    requires forall i | 0 <= i < |links| :: !MissingEdge(s, links[i]) && !MissingConstraint(s, links[i])
    ensures Reasons(s, links).missingEdge == 0 && Reasons(s, links).missingConstraint == 0
  {
    if links != [] { NoneMissing(s, links[..|links|-1]); }
  }

  /** After normalising, links are dropped only as invalid or unsupported. */
  lemma NormalizedNeverMissing(raw: Raw)
    ensures Report(NormalForm(raw)).reasons.missingEdge == 0 && Report(NormalForm(raw)).reasons.missingConstraint == 0
  {
    var s := NormalForm(raw);
    forall i | 0 <= i < |s.links| ensures !MissingEdge(s, s.links[i]) && !MissingConstraint(s, s.links[i]) {
      NormalLinkEnds(raw, i);
    }
    NoneMissing(s, s.links);
  }

  lemma EdgeKeyOfNormal(e: RawEdge, f: RawEdge)
    ensures RefKey(Record(NormalEdgeRef(e))) == KeyOfEdge(NormalEdge(f)) <==> NormalEdgeRef(e) == NormalEdgeRef(f)
  {
  }

  lemma ConstraintKeyOfNormal(c: RawConstraint, d: RawConstraint)
    ensures ConstraintRefKey(Record(NormalConstraintRef(c))) == KeyOfConstraint(NormalConstraint(d))
       <==> NormalConstraintRef(c) == NormalConstraintRef(d)
  {
  }

  /** Some edge with the same identity as e can be ingested. */
  ghost predicate EdgeIngested(raw: Raw, e: RawEdge) {
    exists f :: f in raw.edges && NormalEdgeRef(f) == NormalEdgeRef(e) && AdmissibleEdge(NormalEdge(f))
  }

  ghost predicate ConstraintIngested(raw: Raw, c: RawConstraint) {
    exists d :: d in raw.constraints && NormalConstraintRef(d) == NormalConstraintRef(c) &&
                AdmissibleConstraint(NormalConstraint(d))
  }

  lemma IngestedEdgeKeys(raw: Raw, e: RawEdge)
    ensures RefKey(Record(NormalEdgeRef(e))) in AdmissibleEdgeKeys(NormalForm(raw)) <==> EdgeIngested(raw, e)
  {
    hide AdmissibleEdge, RefKey, KeyOfEdge, NormalEdge, NormalEdgeRef, ById;
    var s := NormalForm(raw);
    if EdgeIngested(raw, e) {
      var f :| f in raw.edges && NormalEdgeRef(f) == NormalEdgeRef(e) && AdmissibleEdge(NormalEdge(f));
      var i :| 0 <= i < |raw.edges| && raw.edges[i] == f;
      EdgeKeyOfNormal(e, f);
      assert s.edges[i] in s.edges;
    }
    if x :| x in s.edges && AdmissibleEdge(x) && KeyOfEdge(x) == RefKey(Record(NormalEdgeRef(e))) {
      var i :| 0 <= i < |s.edges| && s.edges[i] == x;
      EdgeKeyOfNormal(e, raw.edges[i]);
      assert raw.edges[i] in raw.edges;
    }
  }

  lemma IngestedConstraintKeys(raw: Raw, c: RawConstraint)
    ensures ConstraintRefKey(Record(NormalConstraintRef(c))) in AdmissibleConstraintKeys(NormalForm(raw)) <==>
            ConstraintIngested(raw, c)
  {
    hide AdmissibleConstraint, ConstraintRefKey, KeyOfConstraint, NormalConstraint, NormalConstraintRef, ById;
    var s := NormalForm(raw);
    if ConstraintIngested(raw, c) {
      var d :| d in raw.constraints && NormalConstraintRef(d) == NormalConstraintRef(c) &&
               AdmissibleConstraint(NormalConstraint(d));
      var i :| 0 <= i < |raw.constraints| && raw.constraints[i] == d;
      ConstraintKeyOfNormal(c, d);
      assert s.constraints[i] in s.constraints;
    }
    if x :| x in s.constraints && AdmissibleConstraint(x) &&
            KeyOfConstraint(x) == ConstraintRefKey(Record(NormalConstraintRef(c))) {
      var i :| 0 <= i < |s.constraints| && s.constraints[i] == x;
      ConstraintKeyOfNormal(c, raw.constraints[i]);
      assert raw.constraints[i] in raw.constraints;
    }
  }

  /** End to end: a link survives normalising and pruning exactly when both of its ids name
      records and both identities are among those that can be ingested. */
  lemma LinkSurvivesExactly(raw: Raw, i: nat)
    requires i < |raw.links|
    ensures !Dropped(NormalForm(raw), NormalForm(raw).links[i]) <==>
              exists e, c ::
                Names(raw.edges, EDGE_ID, Get(raw.links[i].edgeId, Null), e) && EdgeIngested(raw, e) &&
                Names(raw.constraints, CONSTRAINT_ID, Get(raw.links[i].constraintId, Null), c) &&
                ConstraintIngested(raw, c)
  {
    hide EdgeIngested, ConstraintIngested, Names, RefKey, ConstraintRefKey, AdmissibleEdgeKeys,
         AdmissibleConstraintKeys, EdgeKeys, ConstraintKeys, ById, NormalEdgeRef, NormalConstraintRef, Get;
    var l := raw.links[i];
    var edges, constraints := ById(raw.edges, EDGE_ID), ById(raw.constraints, CONSTRAINT_ID);
    var edgeId, constraintId := Get(l.edgeId, Null), Get(l.constraintId, Null);
    NormalLinkEnds(raw, i);
    forall e ensures edgeId in edges && edges[edgeId] == e <==> Names(raw.edges, EDGE_ID, edgeId, e) {
      ByIdMeans(raw.edges, EDGE_ID, edgeId, e);
    }
    forall c
      ensures constraintId in constraints && constraints[constraintId] == c <==>
              Names(raw.constraints, CONSTRAINT_ID, constraintId, c)
    {
      ByIdMeans(raw.constraints, CONSTRAINT_ID, constraintId, c);
    }
    if edgeId in edges { IngestedEdgeKeys(raw, edges[edgeId]); }
    if constraintId in constraints { IngestedConstraintKeys(raw, constraints[constraintId]); }
  }

  // ----- after pruning -----

  /** Every kept link refers to an edge that can be ingested and to a constraint that was kept. */
  lemma KeptLinksResolve(s: Scenario, x: Link)
    requires x in Cleaned(s).links
    ensures !x.invalid && RefKey(x.edgeRef) in AdmissibleEdgeKeys(Cleaned(s))
    ensures ConstraintRefKey(x.constraintRef) in ConstraintKeys(Cleaned(s))
    ensures ConstraintRefKey(x.constraintRef) in AdmissibleConstraintKeys(Cleaned(s))
  {
    KeptLinksAre(s, s.links, x);
    KeptConstraintKeys(s);
    forall c { KeptConstraintsAre(s.constraints, c); }
  }

  lemma {:induction false} AllConstraintsKept(cs: seq<Item<Constraint>>)
    requires forall c | c in cs :: AdmissibleConstraint(c)
    ensures KeptConstraints(cs) == cs
  {
    if cs != [] { AllConstraintsKept(cs[..|cs|-1]); }
  }

  lemma {:induction false} AllLinksKept(s: Scenario, links: seq<Link>)
    requires forall l | l in links :: !Dropped(s, l) && Retyped(l) == l
    ensures KeptLinks(s, links) == links && Reasons(s, links) == Tally(0, 0, 0, 0, 0)
  {
    hide RefKey, ConstraintRefKey, EdgeKeys, AdmissibleEdgeKeys, ConstraintKeys, AdmissibleConstraintKeys, Retyped;
    if links != [] { AllLinksKept(s, links[..|links|-1]); }
  }

  /** Pruning again drops nothing and changes nothing. */
  lemma PreflightIdempotent(s: Scenario)
    ensures Cleaned(Cleaned(s)) == Cleaned(s)
    ensures Report(Cleaned(s)).linksDropped == 0 && Report(Cleaned(s)).reasons == Tally(0, 0, 0, 0, 0)
    ensures Report(Cleaned(s)).constraintsPruned == 0
  {
    hide RefKey, ConstraintRefKey, AdmissibleEdgeKeys, AdmissibleConstraintKeys, EdgeKeys, ConstraintKeys;
    var c := Cleaned(s);
    forall x | x in c.constraints ensures AdmissibleConstraint(x) { KeptConstraintsAre(s.constraints, x); }
    AllConstraintsKept(c.constraints);
    forall x | x in c.links ensures !Dropped(c, x) && Retyped(x) == x {
      KeptLinksAre(s, s.links, x);
      KeptLinksResolve(s, x);
      AdmissibleAreKeys(c);
    }
    AllLinksKept(c, c.links);
  }

  lemma AdmissibleAreKeys(s: Scenario)
    ensures AdmissibleEdgeKeys(s) <= EdgeKeys(s) && AdmissibleConstraintKeys(s) <= ConstraintKeys(s)
  {
  }
}
