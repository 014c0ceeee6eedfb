/** From scored assertions to the corpus promotion decision
    (benchmarks/scoring/gates.py, score_case in benchmarks/scoring/scorer.py, evaluate_archive in
    benchmarks/reporting/evaluate.py and summarize_corpus in benchmarks/reporting/corpus_summary.py).

    The file system and the counts that the matchers find are parameters. */
module Promotion {
  import opened Basics
  import opened Dedupe
  import opened Ordering
  import Values

  datatype Assertion = Assertion(id: string, op: string, expected: int, defectClass: string)

  datatype Case = Case(artifactsRequired: seq<string>, requiredValidation: Option<string>, assertions: seq<Assertion>,
                       unknownsRemaining: seq<string>, directlyProvenIfPass: seq<string>)

  /** `artifacts` holds the entries that are strings. */
  datatype Run = Run(artifacts: map<string, string>, scenarioValidation: Option<string>)

  datatype Defect = Defect(defectClass: string, message: string)

  datatype Gate = Gate(id: string, blocksOn: set<string>, severity: string)

  /** Which paths exist, and what is counted for an assertion; None for an unsupported type. */
  datatype World = World(exists_: string -> bool, count: Assertion -> Option<nat>)

  const INSUFFICIENT := "artifact_insufficient"

  // ----- artifact defects -----

  function ArtifactDefect(key: string, r: Run, w: World): Option<Defect> {
    if key !in r.artifacts then Some(Defect(INSUFFICIENT, "missing artifact path for " + key))
    else if !w.exists_(r.artifacts[key]) then
      Some(Defect(INSUFFICIENT, "artifact path does not exist for " + key + ": " + r.artifacts[key]))
    else None
  }

  function PathDefects(keys: seq<string>, r: Run, w: World): seq<Defect> {
    if keys == [] then []
    else
      var d := ArtifactDefect(keys[|keys|-1], r, w);
      PathDefects(keys[..|keys|-1], r, w) + if d.Some? then [d.value] else []
  }

  function ValidationDefects(c: Case, r: Run): seq<Defect> {
    if c.requiredValidation == Some("pass") && r.scenarioValidation != Some("pass") then
      [Defect(INSUFFICIENT, "scenario validation did not pass: " +
                            if r.scenarioValidation.Some? then r.scenarioValidation.value else "None")]
    else []
  }

  function ArtifactDefects(c: Case, r: Run, w: World): seq<Defect> {
    PathDefects(c.artifactsRequired, r, w) + ValidationDefects(c, r)
  }

  method CollectArtifactDefects(c: Case, r: Run, w: World) returns (defects: seq<Defect>)
    ensures defects == ArtifactDefects(c, r, w)
  {
    defects := [];
    var keys := c.artifactsRequired;
    for i := 0 to |keys|
      invariant defects == PathDefects(keys[..i], r, w)
    {
      assert keys[..i+1][..i] == keys[..i];
      if keys[i] !in r.artifacts {
        defects := defects + [Defect(INSUFFICIENT, "missing artifact path for " + keys[i])];
        continue;
      }
      if !w.exists_(r.artifacts[keys[i]]) {
        defects := defects +
          [Defect(INSUFFICIENT, "artifact path does not exist for " + keys[i] + ": " + r.artifacts[keys[i]])];
      }
    }
    assert keys[..|keys|] == keys;
    if c.requiredValidation == Some("pass") && r.scenarioValidation != Some("pass") {
      var actual := if r.scenarioValidation.Some? then r.scenarioValidation.value else "None";
      defects := defects + [Defect(INSUFFICIENT, "scenario validation did not pass: " + actual)];
    }
  }

  /** Every required artifact is there, and so is the required validation. */
  predicate ArtifactsPresent(c: Case, r: Run, w: World) {
    && (forall k | k in c.artifactsRequired :: k in r.artifacts && w.exists_(r.artifacts[k]))
    && (c.requiredValidation == Some("pass") ==> r.scenarioValidation == Some("pass"))
  }

  lemma {:induction false} NoPathDefects(keys: seq<string>, r: Run, w: World)
    ensures PathDefects(keys, r, w) == [] <==> forall k | k in keys :: k in r.artifacts && w.exists_(r.artifacts[k])
    ensures forall d | d in PathDefects(keys, r, w) :: d.defectClass == INSUFFICIENT
  {
    if keys != [] {
      var init, key := keys[..|keys|-1], keys[|keys|-1];
      NoPathDefects(init, r, w);
      assert forall k :: k in keys <==> k in init || k == key;
    }
  }

  lemma ArtifactDefectsMean(c: Case, r: Run, w: World)
    ensures ArtifactDefects(c, r, w) == [] <==> ArtifactsPresent(c, r, w)
    ensures forall d | d in ArtifactDefects(c, r, w) :: d.defectClass == INSUFFICIENT
  {
    NoPathDefects(c.artifactsRequired, r, w);
  }

  // ----- scoring -----

  function CompareCount(actual: nat, op: string, expected: int): Option<bool> {
    if op == "eq" then Some(actual == expected)
    else if op == "gte" then Some(actual >= expected)
    else None
  }

  /** The assertion can be evaluated: its type and its operator are supported. */
  predicate Scorable(a: Assertion, w: World) { w.count(a).Some? && a.op in {"eq", "gte"} }

  predicate Holds(a: Assertion, w: World) {
    w.count(a).Some? && CompareCount(w.count(a).value, a.op, a.expected) == Some(true)
  }

  function FailureOf(a: Assertion, w: World): Defect {
    Defect(a.defectClass,
           "assertion " + a.id + " failed: expected " + a.op + " " + Values.Str(Values.Int(a.expected)) + ", got " +
           if w.count(a).Some? then Decimal(w.count(a).value) else "")
  }

  function SemanticDefects(assertions: seq<Assertion>, w: World): seq<Defect> {
    if assertions == [] then []
    else
      var a := assertions[|assertions|-1];
      SemanticDefects(assertions[..|assertions|-1], w) + if Holds(a, w) then [] else [FailureOf(a, w)]
  }

  datatype Score = Score(passed: bool, defects: seq<Defect>)

  /** None stands for the ValueError of an unsupported assertion. */
  method ScoreCase(c: Case, w: World) returns (r: Option<Score>)
    ensures r.Some? <==> forall a | a in c.assertions :: Scorable(a, w)
    ensures r.Some? ==> r.value == Score(SemanticDefects(c.assertions, w) == [], SemanticDefects(c.assertions, w))
  {
    hide FailureOf;
    var defects := [];
    for i := 0 to |c.assertions|
      invariant defects == SemanticDefects(c.assertions[..i], w)
      invariant forall k | 0 <= k < i :: Scorable(c.assertions[k], w)
    {
      assert c.assertions[..i+1][..i] == c.assertions[..i];
      var a := c.assertions[i];
      var actual := w.count(a);
      assert a in c.assertions;
      if actual.None? { return None; }
      var passed := CompareCount(actual.value, a.op, a.expected);
      if passed.None? { return None; }
      if !passed.value { defects := defects + [FailureOf(a, w)]; }
    }
    assert c.assertions[..|c.assertions|] == c.assertions;
    r := Some(Score(|defects| == 0, defects));
  }

  lemma {:induction false} NoSemanticDefects(assertions: seq<Assertion>, w: World)
    ensures SemanticDefects(assertions, w) == [] <==> forall a | a in assertions :: Holds(a, w)
  {
    hide FailureOf, Holds;
    if assertions != [] {
      var init, last := assertions[..|assertions|-1], assertions[|assertions|-1];
      NoSemanticDefects(init, w);
      assert forall a :: a in assertions <==> a in init || a == last;
    }
  }

  // ----- gates -----

  function DefectKey(d: Defect): (string, string) { (d.defectClass, d.message) }

  function Classes(ds: seq<Defect>): set<string> { set d | d in ds :: d.defectClass }

  method DedupeDefects(defects: seq<Defect>) returns (unique: seq<Defect>)
    ensures unique == KeepFirst(defects, DefectKey)
  {
    var seen: set<(string, string)> := {};
    unique := [];
    for i := 0 to |defects|
      invariant seen == IdSet(defects[..i], DefectKey) && unique == KeepFirst(defects[..i], DefectKey)
    {
      assert defects[..i+1][..i] == defects[..i];
      assert defects[..i+1] == defects[..i] + [defects[i]];
      IdSetAppend(defects[..i], defects[i], DefectKey);
      var key := DefectKey(defects[i]);
      if key in seen { continue; }
      seen := seen + {key};
      unique := unique + [defects[i]];
    }
    assert defects[..|defects|] == defects;
  }

  predicate Blocks(g: Gate, classes: set<string>) { g.blocksOn * classes != {} && g.severity == "block" }

  datatype GateResult = GateResult(gateId: string, blocked: bool, triggeredBy: seq<string>)

  function ResultOf(g: Gate, classes: set<string>): GateResult {
    GateResult(g.id, Blocks(g, classes), Enumerate(g.blocksOn * classes))
  }

  datatype GateReport = GateReport(defects: seq<Defect>, gateResults: seq<GateResult>, promotionBlocked: bool,
                                   artifactSufficient: bool, humanReviewRequired: bool)

  /** The report, written on the defects before deduplication. */
  ghost predicate Reports(p: GateReport, ds: seq<Defect>, gates: seq<Gate>, unknowns: seq<string>) {
    && p.defects == KeepFirst(ds, DefectKey)
    && |p.gateResults| == |gates| &&
       (forall i | 0 <= i < |gates| :: p.gateResults[i] == ResultOf(gates[i], Classes(ds)))
    && (p.promotionBlocked <==> exists g | g in gates :: Blocks(g, Classes(ds)))
    && (p.artifactSufficient <==> INSUFFICIENT !in Classes(ds))
    && (p.humanReviewRequired <==> ds != [] || unknowns != [])
  }

  /** Deduplication changes neither the classes nor whether there are defects at all. */
  lemma DedupeKeepsClasses(ds: seq<Defect>)
    ensures Classes(KeepFirst(ds, DefectKey)) == Classes(ds)
    ensures KeepFirst(ds, DefectKey) == [] <==> ds == []
  {
    var unique := KeepFirst(ds, DefectKey);
    KeepFirstIds(ds, DefectKey);
    ClassesOfKeys(ds);
    ClassesOfKeys(unique);
    assert ds != [] ==> DefectKey(ds[0]) in IdSet(unique, DefectKey);
  }

  lemma ClassesOfKeys(ds: seq<Defect>)
    ensures Classes(ds) == set k | k in IdSet(ds, DefectKey) :: k.0
  {
    forall d | d in ds ensures DefectKey(d) in IdSet(ds, DefectKey) {
      var i :| 0 <= i < |ds| && ds[i] == d;
    }
  }

  method EvaluateGates(c: Case, r: Run, score: Score, gates: seq<Gate>, w: World) returns (p: GateReport)
    ensures Reports(p, ArtifactDefects(c, r, w) + score.defects, gates, c.unknownsRemaining)
  {
    hide Blocks, ResultOf, KeepFirst, ArtifactDefects, Enumerate;
    var artifactDefects := CollectArtifactDefects(c, r, w);
    var all := DedupeDefects(artifactDefects + score.defects);
    DedupeKeepsClasses(artifactDefects + score.defects);
    var classes := set d | d in all :: d.defectClass;
    assert classes == Classes(artifactDefects + score.defects);
    var results: seq<GateResult> := [];
    var blocked := false;
    for i := 0 to |gates|
      invariant |results| == i && forall k | 0 <= k < i :: results[k] == ResultOf(gates[k], classes)
      invariant blocked <==> exists k :: 0 <= k < i && Blocks(gates[k], classes)
    {
      var result := ResultOf(gates[i], classes);
      ResultBlocked(gates[i], classes);
      if result.blocked { blocked := true; }
      results := results + [result];
    }
    p := GateReport(all, results, blocked, !(exists d :: d in all && d.defectClass == INSUFFICIENT),
                    all != [] || c.unknownsRemaining != []);
  }

  lemma ResultBlocked(g: Gate, classes: set<string>)
    ensures ResultOf(g, classes).blocked <==> Blocks(g, classes)
  {
  }

  // ----- one run -----

  datatype Evaluation = Evaluation(score: Score, gate: GateReport, success: bool)

  /** The defects the gates look at. */
  function AllDefects(c: Case, r: Run, w: World): seq<Defect> {
    ArtifactDefects(c, r, w) + if ArtifactsPresent(c, r, w) then SemanticDefects(c.assertions, w) else []
  }

  /** Nothing is missing and every assertion held. */
  predicate Clean(c: Case, r: Run, w: World) {
    ArtifactsPresent(c, r, w) && forall a | a in c.assertions :: Holds(a, w)
  }

  /** evaluate_archive. None stands for the ValueError raised while scoring. */
  method EvaluateArchive(c: Case, r: Run, gates: seq<Gate>, w: World) returns (e: Option<Evaluation>)
    ensures e.None? <==> ArtifactsPresent(c, r, w) && exists a | a in c.assertions :: !Scorable(a, w)
    ensures e.Some? ==> Reports(e.value.gate, AllDefects(c, r, w), gates, c.unknownsRemaining)
    ensures e.Some? ==> (e.value.score.passed <==> Clean(c, r, w))
    ensures e.Some? ==> (e.value.success <==> Clean(c, r, w))
  {
    hide ArtifactDefects, SemanticDefects, ArtifactsPresent, Holds, Scorable, Blocks, KeepFirst;
    ArtifactDefectsMean(c, r, w);
    NoSemanticDefects(c.assertions, w);
    var artifactDefects := CollectArtifactDefects(c, r, w);
    var score := Score(false, []);
    if artifactDefects == [] {
      var scored := ScoreCase(c, w);
      if scored.None? { return None; }
      score := scored.value;
    }
    var gate := EvaluateGates(c, r, score, gates, w);
    NothingBlocks(gates);
    e := Some(Evaluation(score, gate, score.passed && !gate.promotionBlocked));
  }

  /** No gate triggers without a defect. */
  lemma NothingBlocks(gates: seq<Gate>)
    ensures Classes([]) == {} && !exists g | g in gates :: Blocks(g, Classes([]))
  {
  }

  // ----- the corpus -----

  datatype Decision = Promote | HoldReview | Block

  function Rank(d: Decision): nat {
    match d
    case Promote => 0
    case HoldReview => 1
    case Block => 2
  }

  datatype Record = Record(c: Case, passed: bool, gate: GateReport)

  datatype Summary = Summary(total: nat, passes: nat, failures: nat, blocked: nat, insufficient: nat, review: nat,
                             directlyProven: seq<string>, decision: Decision)

  function CountIf(rs: seq<Record>, p: Record -> bool): nat {
    if rs == [] then 0 else CountIf(rs[..|rs|-1], p) + if p(rs[|rs|-1]) then 1 else 0
  }

  const PASSED: Record -> bool := (r: Record) => r.passed
  const BLOCKED: Record -> bool := (r: Record) => r.gate.promotionBlocked
  const LACKING: Record -> bool := (r: Record) => !r.gate.artifactSufficient
  const REVIEW: Record -> bool := (r: Record) => r.gate.humanReviewRequired

  function Decide(rs: seq<Record>): Decision {
    if exists r | r in rs :: r.gate.promotionBlocked || !r.gate.artifactSufficient then Block
    else if exists r | r in rs :: r.gate.humanReviewRequired then HoldReview
    else Promote
  }

  /** What passing runs with sufficient artifacts prove. */
  function Proven(rs: seq<Record>): set<string> {
    set r, item | r in rs && r.passed && r.gate.artifactSufficient && item in r.c.directlyProvenIfPass :: item
  }

  lemma {:induction false} CountPositive(rs: seq<Record>, p: Record -> bool)
    ensures CountIf(rs, p) > 0 <==> exists r :: r in rs && p(r)
  {
    if rs != [] {
      CountPositive(rs[..|rs|-1], p);
      assert forall r :: r in rs <==> r in rs[..|rs|-1] || r == rs[|rs|-1];
    }
  }

  lemma ProvenStep(rs: seq<Record>, i: nat)
    requires i < |rs|
    ensures Proven(rs[..i+1]) == Proven(rs[..i]) +
              if rs[i].passed && rs[i].gate.artifactSufficient then (set item | item in rs[i].c.directlyProvenIfPass)
              else {}
  {
    assert forall r :: r in rs[..i+1] <==> r in rs[..i] || r == rs[i];
  }

  /** None stands for the ValueError when no run was evaluated. */
  method SummarizeCorpus(rs: seq<Record>) returns (s: Option<Summary>)
    ensures s.None? <==> rs == []
    ensures s.Some? ==>
              && s.value.total == |rs| && s.value.passes == CountIf(rs, PASSED) &&
                 s.value.passes + s.value.failures == |rs|
              && s.value.blocked == CountIf(rs, BLOCKED) && s.value.insufficient == CountIf(rs, LACKING)
              && s.value.review == CountIf(rs, REVIEW)
              && s.value.directlyProven == Enumerate(Proven(rs))
              && s.value.decision == Decide(rs)
  {
    hide Proven, Enumerate;
    if rs == [] { return None; }
    var passes, failures, blocked, insufficient, review := 0, 0, 0, 0, 0;
    var proven: set<string> := {};
    NothingProven();
    for i := 0 to |rs|
      invariant passes == CountIf(rs[..i], PASSED) && passes + failures == i
      invariant blocked == CountIf(rs[..i], BLOCKED) && insufficient == CountIf(rs[..i], LACKING)
      invariant review == CountIf(rs[..i], REVIEW)
      invariant proven == Proven(rs[..i])
    {
      assert rs[..i+1][..i] == rs[..i];
      ProvenStep(rs, i);
      var r := rs[i];
      if r.passed { passes := passes + 1; } else { failures := failures + 1; }
      if r.gate.promotionBlocked { blocked := blocked + 1; }
      if !r.gate.artifactSufficient { insufficient := insufficient + 1; }
      if r.gate.humanReviewRequired { review := review + 1; }
      if r.passed && r.gate.artifactSufficient { proven := proven + set item | item in r.c.directlyProvenIfPass; }
    }
    assert rs[..|rs|] == rs;
    CountPositive(rs, BLOCKED);
    CountPositive(rs, LACKING);
    CountPositive(rs, REVIEW);
    var decision;
    if blocked > 0 || insufficient > 0 { decision := Block; }
    else if review > 0 { decision := HoldReview; }
    else { decision := Promote; }
    s := Some(Summary(|rs|, passes, failures, blocked, insufficient, review, Enumerate(proven), decision));
  }

  lemma NothingProven()
    ensures Proven([]) == {}
  {
  }

  // ----- end to end -----

  datatype Input = Input(c: Case, r: Run, w: World)

  /** The records are the evaluations of the inputs. */
  ghost predicate Evaluated(rs: seq<Record>, xs: seq<Input>, gates: seq<Gate>) {
    && |rs| == |xs|
    && forall i | 0 <= i < |xs| ::
         && rs[i].c == xs[i].c && (rs[i].passed <==> Clean(xs[i].c, xs[i].r, xs[i].w))
         && Reports(rs[i].gate, AllDefects(xs[i].c, xs[i].r, xs[i].w), gates, xs[i].c.unknownsRemaining)
  }

  method EvaluateCorpus(xs: seq<Input>, gates: seq<Gate>) returns (s: Option<Summary>)
    ensures s.Some? ==> |xs| > 0 && exists rs :: Evaluated(rs, xs, gates) && s.value.decision == Decide(rs) &&
                                                 s.value.directlyProven == Enumerate(Proven(rs))
    ensures s.None? <==>
            xs == [] || exists x | x in xs ::
                          ArtifactsPresent(x.c, x.r, x.w) && exists a | a in x.c.assertions :: !Scorable(a, x.w)
  {
    hide Clean, AllDefects, Reports, ArtifactsPresent, Scorable, Proven, Enumerate, Decide, CountIf;
    var rs: seq<Record> := [];
    for i := 0 to |xs|
      invariant Evaluated(rs, xs[..i], gates)
      invariant forall k | 0 <= k < i ::
                  !(ArtifactsPresent(xs[k].c, xs[k].r, xs[k].w) &&
                  exists a | a in xs[k].c.assertions :: !Scorable(a, xs[k].w))
    {
      var e := EvaluateArchive(xs[i].c, xs[i].r, gates, xs[i].w);
      if e.None? { assert xs[i] in xs; return None; }
      rs := rs + [Record(xs[i].c, e.value.score.passed, e.value.gate)];
    }
    assert xs[..|xs|] == xs;
    s := SummarizeCorpus(rs);
  }

  lemma DefectFreeExactly(x: Input)
    ensures AllDefects(x.c, x.r, x.w) == [] <==> Clean(x.c, x.r, x.w)
  {
    ArtifactDefectsMean(x.c, x.r, x.w);
    NoSemanticDefects(x.c.assertions, x.w);
  }

  /** The corpus is promoted exactly when every run has all its artifacts, every assertion of
      every run held, and no case lists an unknown. */
  lemma PromoteExactly(rs: seq<Record>, xs: seq<Input>, gates: seq<Gate>)
    requires Evaluated(rs, xs, gates)
    ensures Decide(rs) == Promote <==> forall x | x in xs :: Clean(x.c, x.r, x.w) && x.c.unknownsRemaining == []
  {
    hide Clean, AllDefects, Blocks, KeepFirst, Classes;
    NothingBlocks(gates);
    forall i | 0 <= i < |xs|
      ensures var g := rs[i].gate;
              (!g.promotionBlocked && g.artifactSufficient && !g.humanReviewRequired) <==>
              Clean(xs[i].c, xs[i].r, xs[i].w) && xs[i].c.unknownsRemaining == []
    {
      DefectFreeExactly(xs[i]);
    }
    assert forall i | 0 <= i < |rs| :: rs[i] in rs && xs[i] in xs;
  }

  /** It is blocked exactly when some defect of some run is one that a blocking gate names or
      marks the artifacts as insufficient. */
  lemma BlockExactly(rs: seq<Record>, xs: seq<Input>, gates: seq<Gate>)
    requires Evaluated(rs, xs, gates)
    ensures Decide(rs) == Block <==>
              exists x, d :: x in xs && d in AllDefects(x.c, x.r, x.w) && Blocking(d, gates)
  {
    hide Clean, AllDefects, KeepFirst;
    forall i | 0 <= i < |xs|
      ensures (rs[i].gate.promotionBlocked || !rs[i].gate.artifactSufficient) <==>
              exists d :: d in AllDefects(xs[i].c, xs[i].r, xs[i].w) && Blocking(d, gates)
    {
      BlockingDefects(AllDefects(xs[i].c, xs[i].r, xs[i].w), gates);
    }
    assert forall i | 0 <= i < |rs| :: rs[i] in rs && xs[i] in xs;
  }

  predicate Blocking(d: Defect, gates: seq<Gate>) {
    d.defectClass == INSUFFICIENT || exists g | g in gates :: d.defectClass in g.blocksOn && g.severity == "block"
  }

  lemma BlockingDefects(ds: seq<Defect>, gates: seq<Gate>)
    ensures (exists g | g in gates :: Blocks(g, Classes(ds))) || INSUFFICIENT in Classes(ds) <==>
              exists d :: d in ds && Blocking(d, gates)
  {
    if g :| g in gates && Blocks(g, Classes(ds)) {
      var k :| k in g.blocksOn * Classes(ds);
      var d :| d in ds && d.defectClass == k;
      assert Blocking(d, gates);
    }
    if d :| d in ds && Blocking(d, gates) && d.defectClass != INSUFFICIENT {
      var g :| g in gates && d.defectClass in g.blocksOn && g.severity == "block";
      assert d.defectClass in g.blocksOn * Classes(ds);
    }
  }

  /** Only clean runs contribute to what the summary calls directly proven. */
  lemma ProvenExactly(rs: seq<Record>, xs: seq<Input>, gates: seq<Gate>, item: string)
    requires Evaluated(rs, xs, gates)
    ensures item in Proven(rs) <==> exists x :: x in xs && Clean(x.c, x.r, x.w) && item in x.c.directlyProvenIfPass
  {
    hide Clean, AllDefects, Blocks, KeepFirst;
    NothingBlocks(gates);
    forall i | 0 <= i < |xs| ensures rs[i].passed ==> rs[i].gate.artifactSufficient { DefectFreeExactly(xs[i]); }
    assert forall i | 0 <= i < |rs| :: rs[i] in rs && xs[i] in xs;
    if x :| x in xs && Clean(x.c, x.r, x.w) && item in x.c.directlyProvenIfPass {
      var i :| 0 <= i < |xs| && xs[i] == x;
      assert rs[i] in rs && rs[i].passed && item in rs[i].c.directlyProvenIfPass;
    }
  }

  // ----- monotonicity -----

  /** q is at least as bad as p. */
  predicate Worse(p: GateReport, q: GateReport) {
    && (p.promotionBlocked ==> q.promotionBlocked)
    && (q.artifactSufficient ==> p.artifactSufficient)
    && (p.humanReviewRequired ==> q.humanReviewRequired)
  }

  /** More runs, or worse ones, never lower the decision. */
  lemma DecisionIsMonotone(a: seq<Record>, b: seq<Record>)
    requires forall r | r in a :: exists q :: q in b && Worse(r.gate, q.gate)
    ensures Rank(Decide(a)) <= Rank(Decide(b))
  {
  }

  /** One more defect makes a report worse, never better. */
  lemma DefectMakesWorse(p: GateReport, q: GateReport, before: seq<Defect>, d: Defect, after: seq<Defect>,
                         gates: seq<Gate>, unknowns: seq<string>)
    requires Reports(p, before + after, gates, unknowns) && Reports(q, before + [d] + after, gates, unknowns)
    ensures Worse(p, q)
  {
    var few, many := Classes(before + after), Classes(before + [d] + after);
    assert few <= many by {
      forall x | x in before + after ensures x in before + [d] + after { }
    }
    forall g | g in gates && Blocks(g, few) ensures Blocks(g, many) {
      assert g.blocksOn * few <= g.blocksOn * many;
    }
  }

  /** y is the same case in a world that is no better: whatever is there or holds in y is there or
      holds in x. */
  predicate NoBetter(x: Input, y: Input) {
    && y.c == x.c
    && (forall k | k in x.c.artifactsRequired && k in y.r.artifacts && y.w.exists_(y.r.artifacts[k]) ::
          k in x.r.artifacts && x.w.exists_(x.r.artifacts[k]))
    && (y.r.scenarioValidation == Some("pass") ==> x.r.scenarioValidation == Some("pass"))
    && (forall a | a in x.c.assertions && Holds(a, y.w) :: Holds(a, x.w))
  }

  lemma {:induction false} FewerHoldMoreClasses(assertions: seq<Assertion>, w: World, v: World)
    requires forall a | a in assertions && Holds(a, v) :: Holds(a, w)
    ensures Classes(SemanticDefects(assertions, w)) <= Classes(SemanticDefects(assertions, v))
    ensures SemanticDefects(assertions, w) != [] ==> SemanticDefects(assertions, v) != []
  {
    hide Holds, CompareCount, Classes;
    if assertions != [] {
      var init, last := assertions[..|assertions|-1], assertions[|assertions|-1];
      assert forall a :: a in assertions <==> a in init || a == last;
      FewerHoldMoreClasses(init, w, v);
      var few, many := SemanticDefects(init, w), SemanticDefects(init, v);
      assert SemanticDefects(assertions, w) == if Holds(last, w) then few else few + [FailureOf(last, w)];
      assert SemanticDefects(assertions, v) == if Holds(last, v) then many else many + [FailureOf(last, v)];
      ClassesAppend(few, FailureOf(last, w));
      ClassesAppend(many, FailureOf(last, v));
    } else {
      assert SemanticDefects(assertions, w) == SemanticDefects(assertions, v);
    }
  }

  lemma ClassesAppend(ds: seq<Defect>, d: Defect)
    ensures Classes(ds + [d]) == Classes(ds) + {d.defectClass}
  {
    assert forall x :: x in ds + [d] <==> x in ds || x == d;
  }

  /** The decision for one run alone. */
  function RunDecision(g: GateReport): Decision {
    if g.promotionBlocked || !g.artifactSufficient then Block
    else if g.humanReviewRequired then HoldReview
    else Promote
  }

  lemma WorldLowersReport(x: Input, y: Input, p: GateReport, q: GateReport, gates: seq<Gate>)
    requires NoBetter(x, y)
    requires Reports(p, AllDefects(x.c, x.r, x.w), gates, x.c.unknownsRemaining)
    requires Reports(q, AllDefects(y.c, y.r, y.w), gates, y.c.unknownsRemaining)
    ensures Rank(RunDecision(p)) <= Rank(RunDecision(q))
  {
    hide ArtifactDefects, SemanticDefects, Holds, KeepFirst, Classes;
    ArtifactDefectsMean(x.c, x.r, x.w);
    ArtifactDefectsMean(y.c, y.r, y.w);
    if ArtifactsPresent(y.c, y.r, y.w) {
      FewerHoldMoreClasses(x.c.assertions, x.w, y.w);
      assert AllDefects(x.c, x.r, x.w) == SemanticDefects(x.c.assertions, x.w);
      assert AllDefects(y.c, y.r, y.w) == SemanticDefects(y.c.assertions, y.w);
      MoreClassesBlockMore(gates, Classes(AllDefects(x.c, x.r, x.w)), Classes(AllDefects(y.c, y.r, y.w)));
    } else {
      InsufficientHasClass(AllDefects(y.c, y.r, y.w), ArtifactDefects(y.c, y.r, y.w));
    }
  }

  lemma MoreClassesBlockMore(gates: seq<Gate>, few: set<string>, many: set<string>)
    requires few <= many
    ensures (exists g | g in gates :: Blocks(g, few)) ==> exists g | g in gates :: Blocks(g, many)
  {
    forall g | g in gates && Blocks(g, few) ensures Blocks(g, many) {
      assert g.blocksOn * few <= g.blocksOn * many;
    }
  }

  lemma InsufficientHasClass(all: seq<Defect>, artifact: seq<Defect>)
    requires artifact <= all && artifact != [] && forall d | d in artifact :: d.defectClass == INSUFFICIENT
    ensures INSUFFICIENT in Classes(all)
  {
    assert all[0] == artifact[0] && artifact[0] in artifact;
  }

  /** Taking artifacts away or failing more assertions, in any of the runs, never lowers the
      decision, although a missing artifact hides the semantic defects of its run. */
  lemma WorseWorldNeverPromotes(xs: seq<Input>, ys: seq<Input>, rs: seq<Record>, qs: seq<Record>, gates: seq<Gate>)
    requires Evaluated(rs, xs, gates) && Evaluated(qs, ys, gates) && |xs| == |ys|
    requires forall i | 0 <= i < |xs| :: NoBetter(xs[i], ys[i])
    ensures Rank(Decide(rs)) <= Rank(Decide(qs))
  {
    hide NoBetter, Reports, AllDefects, Clean;
    forall i | 0 <= i < |rs| ensures Rank(RunDecision(rs[i].gate)) <= Rank(RunDecision(qs[i].gate)) {
      WorldLowersReport(xs[i], ys[i], rs[i].gate, qs[i].gate, gates);
    }
    WorstRunDecides(rs);
    WorstRunDecides(qs);
  }

  /** The decision is that of the worst run. */
  lemma WorstRunDecides(rs: seq<Record>)
    ensures forall i | 0 <= i < |rs| :: Rank(RunDecision(rs[i].gate)) <= Rank(Decide(rs))
    ensures Decide(rs) != Promote ==> exists i :: 0 <= i < |rs| && RunDecision(rs[i].gate) == Decide(rs)
  {
    assert forall i | 0 <= i < |rs| :: rs[i] in rs;
  }
}
