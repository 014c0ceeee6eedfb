# IAMScope: verified models of its graph, diff and gating logic

IAMScope collects AWS IAM data into a deterministic graph, the scenario, and reasons about it. This project models the
parts of the repository where correctness rests on more than one function, and proves what they promise.

* **Candidate-path search** (`PathSearch`, `PathOrder`): the depth-bounded search for assume-role paths finds exactly the
  simple paths that exist, in a strict order that does not depend on how the fixture is listed.
* **Fixture generator** (`FixtureGenerator`, `NegativeFixture`): the synthetic graph with its modular role chains. The
  promise that a negative fixture has no full-depth path is false in general; the exact arithmetic condition is proved.
* **Resolution and emission** (`Models`, `Resolution`, `Dangling`, `Validator`, `Pipeline`): collection under an edge budget,
  binding, deduplication, placeholder nodes, emission, and the independent validator, up to an end-to-end theorem that says
  exactly when the pipeline's output validates.
* **Canonical dicts** (`CanonicalDict`): when the recursive key sort is a canonical form.
* **ARF-RT adapter** (`EdgeIdIndex`, `ArfPreflight`): the reverse edge-id index against its meaning over all edges, and
  normalising followed by link pruning.
* **Diff engines** (`ScenarioDiff`, `FindingsDiff`): patch, mirror, triangle and conservation laws.
* **Redaction** (`Sanitizer`): no account number and no ARN survives, in any text and at any depth of a document.
* **STS probe gate** (`StsPlan`, `StsProbe`): the single `sts:AssumeRole` call is made at most once and only behind every
  opt-in.
* **Scoring to promotion** (`Promotion`) and **comparison to thresholds** (`Thresholds`).

`Basics`, `Ordering`, `Dedupe`, `Values` and `JsonTree` hold what these share. Objects whose methods update fields are
classes (`Collector`, `Resolver`, `Emitter`, `Category`, `DiffResult`, `SeenIds`, `StsClient`), loops are methods proved
against specification functions, and the theorems are lemmas about those functions.

## Where the code does not do what is claimed for it

* A negative fixture (`expected_valid_synthetic_paths` of zero) can have full-depth paths when the depth does not divide the
  number of roles: `NegativePromiseExactly`, `TenRolesBreakThePromise`. The shipped configuration is not affected.
* Node ids fold letter case and white space, while the materialiser and the validator compare keys literally, so a
  placeholder can share the id of a collected node: `NodeIdsUniqueExactly`, `AliasBreaksUniqueness`. Fields with NUL
  characters can do the same: `NulMovesBoundary`.
* Resource-policy bindings are kept even when the edge budget drops their edges: `LinksResolveExactly`,
  `BudgetCanLoseABoundEdge`. Constraints are not deduplicated, which rule 4 of the validator then reports:
  `ScenarioValidExactly`, `TwiceCollectedIsReported`.
* `_sorted_dict` does not descend into a list inside a list: `CanonicalForm`, `HiddenDictKeepsOrder`.
* Probe validation asks for the keys `target_role_arn` and `expected_account_id`, not for values: a null role passes and
  reaches the call. `ValidProbeAccount`, `NullRoleIsCalled`.
* `_has_safety_guard_block` compares whole texts, so production-like names make a probe invalid and never give the status
  for a safety guard: `SkippedExactly`, `ProductionLikeIsInvalid`.
* A reply whose `AssumedRoleUser` is not a dict, and an exception whose response has an error that is not a dict or an
  error code that cannot be looked up, lose the report of a call that was made: `CrashAfterCallExactly`,
  `RepliesThatLoseTheReport`.
* The `edge_id|constraint_id` key of the scenario diff can collide: `LinksCollideExactly`, `LinksStayApart`, `CollidingLinksLoseOne`.

## Model

| member | source | states |
|---|---|---|
| PathSearch.BuildGraph | benchmarks/scalability/harness.py:391-407 | The indexes built before the search: kinds by node id (last wins), trust pairs, permission edges grouped by source and sorted by edge id |
| PathSearch.Collector.WalkPaths | benchmarks/scalability/harness.py:416-448 | Appends exactly the walks of the specification to the shared list, or stops where the lookup of a missing node raises |
| PathSearch.Collector.Visit | benchmarks/scalability/harness.py:430-448 | One turn of the loop: skipped, recorded, and explored further, in that order |
| PathSearch.CandidatePaths | benchmarks/scalability/harness.py:390-413 | The whole search: every user in ascending order, one shared list |
| PathSearch.SearchIsExact | benchmarks/scalability/harness.py:390-448 | For every fixture, the recorded searches are exactly the simple assume-role paths from a user within the depth bound: nothing missing, nothing extra |
| PathSearch.RecordedPathsAreExact | benchmarks/scalability/harness.py:390-448 | The same for the edge-id lists that are kept |
| PathSearch.SearchRaisesExactlyOnMissingNodes | benchmarks/scalability/harness.py:390-448 | The search raises exactly when some reachable prefix leads to a node that the fixture does not have |
| PathOrder.SearchIsOrdered | benchmarks/scalability/harness.py:394-448 | With distinct edge ids the list is strictly increasing in start node and edge-id sequence, prefixes first |
| PathOrder.NothingIsRecordedTwice | benchmarks/scalability/harness.py:394-448 | No edge-id list is recorded twice |
| PathOrder.SearchIgnoresListingOrder | benchmarks/scalability/harness.py:390-448 | Permuting the node and edge lists changes neither the list, nor its order, nor whether the search raises |
| PathOrder.SearchIsBounded | benchmarks/scalability/harness.py:390-448 | At most u * (b + b^2 + ... + b^depth) paths for u users and out-degree b |
| FixtureGenerator.MemberIdInjective | benchmarks/scalability/harness.py:133-142 | The textual ids of roles, users and resources determine account, kind and index |
| FixtureGenerator.NodeIdsDistinct | benchmarks/scalability/harness.py:133-142 | A node id determines its node in every generated fixture |
| FixtureGenerator.AddEdge | benchmarks/scalability/harness.py:145-153 | Stores one edge under its digest; the table holds the edges of the pairs added so far and no others |
| FixtureGenerator.AddAssumeRolePair | benchmarks/scalability/harness.py:275-285 | Adds the permission and the trust half of one step |
| FixtureGenerator.AddTerminalGapEdges | benchmarks/scalability/harness.py:322-344 | Adds the permission half and a decoy trust half |
| FixtureGenerator.AddChain | benchmarks/scalability/harness.py:187-225 | One branch of one principal: the first hop, the modular role chain, the terminal gap |
| FixtureGenerator.AddChains | benchmarks/scalability/harness.py:187-225 | All chains of all accounts: exactly the hops of the specification |
| FixtureGenerator.AddExtraTrustEdges | benchmarks/scalability/harness.py:347-362 | The extra trust edges, one role offset after another |
| FixtureGenerator.AddAccountNodes | benchmarks/scalability/harness.py:168-185 | Account, user and role nodes |
| FixtureGenerator.AddResources | benchmarks/scalability/harness.py:227-243 | Resource nodes and their allow edges, dealt out over the users of the accounts |
| FixtureGenerator.GenerateFixture | benchmarks/scalability/harness.py:156-272 | The generated fixture has exactly the nodes and edges of the configuration, with distinct edge ids |
| FixtureGenerator.ExactEdges | benchmarks/scalability/harness.py:145-153 | With a collision-free digest an edge is listed exactly when its pair was added |
| NegativeFixture.ChainCountsUp | benchmarks/scalability/harness.py:312-319 | Without the gap the modular chain counts role indices upwards |
| NegativeFixture.FullDepthOnlyIfBroken | benchmarks/scalability/harness.py:187-225 | A recorded full-depth path implies the failing arithmetic condition, whatever the digest does |
| NegativeFixture.BrokenGivesFullDepth | benchmarks/scalability/harness.py:187-225 | Under that condition two chains overlap and a full-depth path is recorded |
| NegativeFixture.NegativePromiseExactly | benchmarks/scalability/harness.py:187-225 | A negative fixture has a full-depth path if and only if there are chains and depth is 1, or 3 <= depth <= roles, depth does not divide roles, and chains * depth > roles + 1 |
| NegativeFixture.OneHopShort | benchmarks/scalability/harness.py:322-344 | Paths one hop short of the full depth are always there |
| NegativeFixture.GeneratedSearchNeverRaises | benchmarks/scalability/harness.py:156-272 | On a generated fixture no lookup of the search fails |
| NegativeFixture.RunFixture | benchmarks/scalability/harness.py:451-492 | Generate, search: for a negative configuration a full-depth path comes out exactly under the condition above |
| NegativeFixture.ShippedConfigurations | benchmarks/scalability/harness.py:39-116 | Every shipped configuration can be generated, and the one that expects zero paths keeps its promise |
| NegativeFixture.TenRolesBreakThePromise | benchmarks/scalability/harness.py:39-116 | The same configuration with 10 roles has full-depth paths |
| Models.JoinInjective | iamscope/identity/deterministic_ids.py:142-145 | Fields without NUL can be read back from their joined form |
| Models.SameNodeId | iamscope/models.py:185-189 | Node ids agree exactly when the same text is hashed; without NUL characters that means keys that agree up to surrounding white space and the letter case of provider and type |
| Models.NulMovesBoundary | iamscope/identity/deterministic_ids.py:142-145 | Two keys with NUL characters that differ in their fields and not in the hashed text |
| Models.SameEdgeId | iamscope/models.py:235-260 | Edge ids agree exactly when the same text is hashed; without NUL characters that means equal type, endpoints, region and features after canonicalisation |
| Models.SameIdSameFeatures | iamscope/models.py:235-260 | Equal edge ids mean equal features, whatever the other fields hold |
| CanonicalDict.SortDict | iamscope/models.py:63-78 | The recursive sort: dicts in sorted key order, also directly inside a list |
| CanonicalDict.CanonicalExactly | iamscope/models.py:63-78 | Two values become identical exactly when they are equal up to the member order of the dicts that are sorted |
| CanonicalDict.CanonicalForm | iamscope/models.py:63-78 | Every reordering of a value sorts to the same result exactly when no dict with two or more members sits in or below a list directly inside a list |
| CanonicalDict.SameContentSortsAlike | iamscope/models.py:63-78 | Without lists directly inside lists: identical exactly when the content is the same |
| CanonicalDict.SortingKeepsContent | iamscope/models.py:63-78 | Sorting changes only the order of members |
| CanonicalDict.SortingIsIdempotent | iamscope/models.py:63-78 | Sorting twice is sorting once |
| CanonicalDict.LookupsSurvive | iamscope/models.py:63-78 | Every key is found as before, with the sorted form of its value |
| CanonicalDict.HiddenDictKeepsOrder | iamscope/models.py:74-75 | A dict in a list in a list keeps its insertion order: the result is not canonical there |
| Resolution.BudgetIsExact | iamscope/pipeline.py:641-670 | The accepted edges are the longest prefix of everything offered that fits, and the flag is set exactly on an overrun or an offer at the cap |
| Resolution.ExhaustedStaysFrozen | iamscope/pipeline.py:641-670 | Once set, the flag stays set and the list stays as it is |
| Resolution.NothingLost | iamscope/pipeline.py:641-670 | A clear flag means that nothing offered was lost |
| Resolution.Resolver.AddEdges | iamscope/pipeline.py:644-670 | One offer to the budget |
| Resolution.GroupByRole | iamscope/pipeline.py:718-724 | Trust results by role ARN, in their order, with the first role node |
| Resolution.Resolver.AddTrustEdges | iamscope/pipeline.py:726-733 | The trust edges of one account are offered role by role, in the order of the role ARNs |
| Resolution.Resolver.CollectAccounts | iamscope/pipeline.py:711-738 | Nodes and edges of every account, account by account |
| Resolution.Gather | iamscope/pipeline.py:711-764 | All nodes and, within the budget, all edges, in collection order |
| Resolution.Bind | iamscope/pipeline.py:766-810 | Constraints and bindings, in the order the binders run |
| Resolution.Dedup | iamscope/pipeline.py:812-826 | Keeps the first element of every id; raises exactly when some id cannot be computed |
| Dedupe.KeepFirstIds | iamscope/pipeline.py:812-826 | Deduplication keeps the set of ids |
| Dedupe.KeepFirstDistinct | iamscope/pipeline.py:812-826 | Deduplicated ids are distinct |
| Dedupe.KeepFirstMeaning | iamscope/pipeline.py:812-826 | An element survives exactly when an occurrence of it is the first with its id |
| Resolution.Resolve | iamscope/pipeline.py:614-837 | The whole phase: what is returned, and exactly when it raises |
| Resolution.LinksResolveExactly | iamscope/pipeline.py:754-837 | With binders that refer only to their inputs, every returned binding refers to a returned edge and constraint exactly when no resource-policy binding lost its edge to the budget |
| Resolution.ClearFlagResolves | iamscope/pipeline.py:754-837 | With a clear flag every returned binding resolves |
| Resolution.BudgetCanLoseABoundEdge | iamscope/pipeline.py:754-781 | A concrete collection at the cap whose returned binding refers to an edge that is not returned |
| Dangling.Emitter.Emit | iamscope/pipeline.py:930-942 | Adds a placeholder for an endpoint that is neither collected nor already added |
| Dangling.MaterializeDanglingEndpoints | iamscope/pipeline.py:858-954 | The sorted placeholders for exactly the missing endpoints; raises exactly when one of them has no id |
| Dangling.PlaceholderMeaning | iamscope/pipeline.py:921-950 | A placeholder stands for the first mention of its key, with that mention's region and reason |
| Dangling.CompletedKeys | iamscope/pipeline.py:858-954 | Afterwards every endpoint is a node, and nothing was added that no edge mentions |
| Dangling.SecondRunAddsNothing | iamscope/pipeline.py:858-954 | A second run adds nothing |
| Dangling.NodeIdsUniqueExactly | iamscope/pipeline.py:858-954 | Node ids stay unique exactly when no two different keys are hashed from the same text |
| Dangling.NoAliasesMeans | iamscope/pipeline.py:858-954 | Without NUL characters such keys are those that differ only in white space and letter case |
| Dangling.AliasBreaksUniqueness | iamscope/pipeline.py:858-954 | A concrete edge whose provider spelling makes a placeholder share the id of a collected node |
| Validator.CheckUniqueIds | iamscope/validate.py:200-213 | Reports exactly the repeated ids (rules 2 to 4) |
| Validator.CheckProviderIds | iamscope/validate.py:86-109 | Rule 5: reports exactly the endpoints without a provider id |
| Validator.CheckLinks | iamscope/validate.py:111-119 | Rules 6 and 7: reports exactly the unknown nonempty references |
| Validator.CheckEndpoints | iamscope/validate.py:149-176 | Rule 8b: reports exactly the endpoints that are not nodes |
| Validator.CheckNonEmpty | iamscope/validate.py:178-185 | Rule 9: reports exactly the empty ids |
| Validator.CheckSorted | iamscope/validate.py:216-226 | Rule 10: an error exactly when the ids are not in order |
| Validator.ValidateScenario | iamscope/validate.py:77-197 | No errors exactly for well-formed scenarios |
| Pipeline.EmitScenario | iamscope/output/scenario_json.py:31-105 | A scenario comes out exactly when all ids exist and all references resolve; its arrays are sorted |
| Pipeline.CheckReferences | iamscope/output/scenario_json.py:165-219 | The emitter's own check of the bindings |
| Pipeline.EmittedIsWellFormed | iamscope/output/scenario_json.py:66-105 | An emitted scenario validates exactly when its node, edge and constraint ids are unique |
| Pipeline.EmissionIgnoresOrder | iamscope/output/scenario_json.py:69-73 | When nodes, edges and constraints each have unique ids, the emitted arrays are the same for every order of nodes, edges, constraints and links, whatever the links |
| Pipeline.RunPipeline | iamscope/pipeline.py:614-954 | Resolve, materialise, emit: a scenario comes out exactly when no id raises and no resource-policy binding lost its edge |
| Pipeline.ScenarioValidExactly | iamscope/validate.py:77-197 | End to end: the emitted scenario validates exactly when no keys alias and no constraint id was collected twice |
| Pipeline.RunAndValidate | iamscope/validate.py:77-197 | Running the validator on the pipeline's output reports no errors exactly under those conditions |
| Pipeline.TwiceCollectedIsReported | iamscope/validate.py:83-84 | A concrete collection that delivers one constraint twice is emitted and does not validate |
| EdgeIdIndex.ScanEdges | tools/serim_arf_rt_compare.py:554-579 | The scan: the first id seen under each key, and the keys with a second one |
| EdgeIdIndex.BuildOriginalEdgeIdIndex | tools/serim_arf_rt_compare.py:552-587 | A key leads to an id exactly when some edge under it carries an id and all of them carry that one; unique and ambiguous keys add up to the keys seen |
| EdgeIdIndex.ExactContestedIsRegionlessContested | tools/serim_arf_rt_compare.py:523-579 | An ambiguous exact key is ambiguous without its region too |
| EdgeIdIndex.ResolveMeans | tools/serim_arf_rt_compare.py:590-597 | A lookup returns the id shared by the edges with the same exact identity, or without such edges by those with the same type and endpoints; never for an ambiguous exact key |
| EdgeIdIndex.ResolvedEdgeExists | tools/serim_arf_rt_compare.py:590-597 | A returned id belongs to an input edge of the same type and endpoints |
| EdgeIdIndex.RoundTripExactly | tools/serim_arf_rt_compare.py:552-597 | An input edge is mapped back to its own id exactly when its exact key is not contested |
| ArfPreflight.NormalizeForArfRt | tools/serim_arf_rt_compare.py:280-387 | Constraints, links and edges in normal form |
| ArfPreflight.ByIdMeans | tools/serim_arf_rt_compare.py:282-285 | A lookup by id finds the last record with that id |
| ArfPreflight.PreflightArfEdgeConstraints | tools/serim_arf_rt_compare.py:390-448 | The pruned scenario and its diagnostics |
| ArfPreflight.KeptLinksAre | tools/serim_arf_rt_compare.py:405-430 | The kept links are the links that are not dropped, retyped |
| ArfPreflight.Accounting | tools/serim_arf_rt_compare.py:399-448 | Kept and dropped links add up; the five reasons count a dropped link once, and twice when both of its ends are bad |
| ArfPreflight.ReasonsBoundDrops | tools/serim_arf_rt_compare.py:434-446 | dropped <= sum of the reasons <= 2 * dropped, with the exact difference |
| ArfPreflight.NormalizedNeverMissing | tools/serim_arf_rt_compare.py:280-448 | After normalising no link is dropped as missing |
| ArfPreflight.LinkSurvivesExactly | tools/serim_arf_rt_compare.py:280-448 | End to end: a link survives exactly when both ids name records whose identities can be ingested |
| ArfPreflight.KeptLinksResolve | tools/serim_arf_rt_compare.py:390-448 | A kept link refers to an ingestible edge and a kept constraint |
| ArfPreflight.PreflightIdempotent | tools/serim_arf_rt_compare.py:390-448 | A second preflight drops nothing and changes nothing |
| Sanitizer.AccountPassClean | scripts/classify_real_pilot_findings.py:77 | The account pass leaves no delimited account number, old or newly formed |
| Sanitizer.NoAccountsNoArns | scripts/classify_real_pilot_findings.py:28-29 | Text without a delimited account number has no ARN |
| Sanitizer.SanitizedIsClean | scripts/classify_real_pilot_findings.py:68-77 | Every sanitised text is free of account numbers and ARNs |
| Sanitizer.SanitizeIdempotent | scripts/classify_real_pilot_findings.py:68-77 | Sanitising twice is sanitising once |
| Sanitizer.UntouchedExactly | scripts/classify_real_pilot_findings.py:68-77 | A text is left alone exactly when it holds no delimited account number |
| Sanitizer.OrderMatters | scripts/classify_real_pilot_findings.py:68-77 | In the other order the ARN pass would never find anything |
| Sanitizer.TailIsLastName | scripts/classify_real_pilot_findings.py:58-65 | The name kept for an ARN is the last nonempty component, and it is empty exactly for a run of slashes |
| Sanitizer.AssumedRoleName | scripts/classify_real_pilot_findings.py:58-65 | For an assumed role it is the role name |
| Sanitizer.SanitizedJsonIsClean | scripts/classify_real_pilot_findings.py:80-87 | No account number and no ARN survives in any key or string at any depth, and keys stay distinct |
| Sanitizer.SanitizeJsonIdempotent | scripts/classify_real_pilot_findings.py:80-87 | Sanitising a document twice is sanitising it once |
| Sanitizer.LastMemberWins | scripts/classify_real_pilot_findings.py:81-82 | Keys that become equal share one entry with the value of the last of them |
| Sanitizer.EntriesExactly | scripts/classify_real_pilot_findings.py:81-82 | A dict keeps all its entries exactly when sanitising keeps its keys apart |
| ScenarioDiff.DiffByKey | iamscope/diff.py:279-314 | Appends the added, removed and modified entries, in ascending order of their ids, to the caller's lists |
| ScenarioDiff.FindChanges | iamscope/diff.py:340-358 | The changed fields with both values |
| ScenarioDiff.DiffScenarios | iamscope/diff.py:107-176 | All four categories and the hashes; has_changes exactly when the compared content differs |
| ScenarioDiff.EmptyExactly | iamscope/diff.py:54-68 | A diff is empty exactly when the compared content is the same |
| ScenarioDiff.PatchLaw | iamscope/diff.py:279-314 | Applying the reported entries to the content before gives the content after |
| ScenarioDiff.MirrorLaw | iamscope/diff.py:279-314 | The reverse diff swaps added and removed, and both values of every change |
| ScenarioDiff.ReportedExactly | iamscope/diff.py:279-314 | The ids in the three lists are exactly the differing ids, and no id is in two lists |
| ScenarioDiff.TriangleLaw | iamscope/diff.py:279-314 | An id reported between x and z is reported between x and y or between y and z |
| ScenarioDiff.ListsAscend | iamscope/diff.py:295-304 | The lists are strictly ascending in their ids |
| ScenarioDiff.LinkKeysCollideExactly | iamscope/diff.py:324-331 | Two edges can have different links with one composite key exactly when one edge id continues the other past a bar |
| ScenarioDiff.LinksCollideExactly | iamscope/diff.py:324-331 | Two given links that differ share the composite key exactly when one is the other with a bar moved from the constraint id to the edge id |
| ScenarioDiff.LinkKeySeparates | iamscope/diff.py:324-331 | When neither edge id continues the other past a bar, the key determines the link |
| ScenarioDiff.LinksStayApart | iamscope/diff.py:324-331 | Every link of a list is still in the view exactly when no link of the list is another one with a bar moved; no link is in the view twice |
| ScenarioDiff.CollidingLinksLoseOne | iamscope/diff.py:324-331 | Two concrete links of which the view keeps one |
| ScenarioDiff.BarsCollide | iamscope/diff.py:324-331 | A bar can move from the constraint id to the edge id without changing the key |
| ScenarioDiff.EdgesAreNeverModified | iamscope/diff.py:140-149 | Between scenarios whose edge ids the models computed no edge is reported as modified |
| FindingsDiff.FindingsByKey | iamscope/findings_diff.py:167-186 | Indexes exactly the well-keyed documents, without loss; everything else is a ValueError |
| FindingsDiff.DiffFindings | iamscope/findings_diff.py:100-130 | The comparison of the indexed documents, or the error it ends with |
| FindingsDiff.ReportedExactly | iamscope/findings_diff.py:107-122 | Exactly one entry per altered key, strictly ascending, listing exactly the changes that happened |
| FindingsDiff.TotalsBalance | iamscope/findings_diff.py:65-77 | Baseline total minus removed plus added is the candidate total |
| FindingsDiff.SwapSymmetry | iamscope/findings_diff.py:100-130 | Swapping the documents swaps added and removed and keeps the other counts |
| FindingsDiff.SelfHasNoChanges | iamscope/findings_diff.py:100-130 | A document compared with itself has no changes |
| FindingsDiff.RaisesExactly | iamscope/findings_diff.py:271-284 | The comparison raises a TypeError exactly when, for some finding that is looked at, the required checks are a scalar, or none of them is tagged and the blockers are a scalar, or neither is tagged and the trace is a scalar; a candidate finding is looked at when it is new or the baseline one has no tag |
| StsPlan.ValidateProbe | benchmarks/runtime/sts_probe_plan.py:192-260 | One probe is judged against the ids seen before it, and its id is remembered |
| StsPlan.BuildValidation | benchmarks/runtime/sts_probe_plan.py:68-95 | A whole plan: the results in order, or the first error |
| StsPlan.ValidExactly | benchmarks/runtime/sts_probe_plan.py:192-338 | A probe is valid exactly when it meets every demand |
| StsPlan.ValidProbeAccount | benchmarks/runtime/sts_probe_plan.py:263-338 | A valid probe's role is in the expected account exactly when neither of the two is null |
| StsPlan.SkippedExactly | benchmarks/runtime/sts_probe_plan.py:405-410 | The safety-guard status is given exactly for an account mismatch, never for production-like names |
| StsProbe.ProductionLikeIsInvalid | benchmarks/runtime/sts_probe_plan.py:405-410 | A concrete production-like profile makes an otherwise good probe invalid, without the guard status |
| StsPlan.ValidationRaisesExactly | benchmarks/runtime/sts_probe_plan.py:192-260 | Beyond the top level validation fails only for an expected outcome that is a list or a dict |
| StsProbe.ExecuteLiveProbe | benchmarks/runtime/sts_probe_executor.py:323-394 | Calls the client exactly once, with the probe's parameters, and classifies the reply |
| StsProbe.RefusalsExactly | benchmarks/runtime/sts_probe_executor.py:264-285 | The refusal list is empty exactly when every opt-in and precondition is met |
| StsProbe.BuildExecutorReport | benchmarks/runtime/sts_probe_executor.py:42-83 | The call is made exactly when the gate is open and there is a client, and then once |
| StsProbe.GatedProbeIsSafe | benchmarks/runtime/sts_probe_executor.py:218-285 | The only probe behind an open gate meets every demand of the plan validation |
| StsProbe.CallIsBounded | benchmarks/runtime/sts_probe_executor.py:323-331 | The call asks for 1 to 900 seconds and a safe session name, for a role of the expected account exactly when neither is null |
| StsProbe.ReportIsHonest | benchmarks/runtime/sts_probe_executor.py:164-187 | The three flags say whether the call was made; credentials only after it; assumed only with credentials and no or the expected account |
| StsProbe.UnclassifiableExactly | benchmarks/runtime/sts_probe_executor.py:467-484 | An exception cannot be classified exactly when its error is not a dict, or its error code is a list or a dict |
| StsProbe.CrashAfterCallExactly | benchmarks/runtime/sts_probe_executor.py:323-394 | Behind the open gate the call goes unreported exactly for such an exception and for an AssumedRoleUser that is not a dict |
| StsProbe.BuildFailureRaisesExactly | benchmarks/runtime/sts_probe_executor.py:246-260 | A client that cannot be built ends the same way, without a call |
| StsProbe.RaisesBeforeGateExactly | benchmarks/runtime/sts_probe_executor.py:42-83 | Without an open gate there is no report exactly for a bad mode, a plan that is not a dict, and a plan that passes the checks before the mode and has a list or a dict as its mode, or behind an allowed mode as the expected outcome of a probe |
| StsProbe.RepliesThatLoseTheReport | benchmarks/runtime/sts_probe_executor.py:467-496 | Two concrete replies after which the call goes unreported |
| StsProbe.NullRoleIsCalled | benchmarks/runtime/sts_probe_executor.py:218-261 | A concrete plan with a null role that passes validation and gets through the gate |
| Promotion.CollectArtifactDefects | benchmarks/scoring/gates.py:21-50 | The artifact defects in order |
| Promotion.ArtifactDefectsMean | benchmarks/scoring/gates.py:21-50 | There are none exactly when every required artifact exists and the required validation passed |
| Promotion.DedupeDefects | benchmarks/scoring/gates.py:9-18 | Keeps the first defect of every class and message |
| Promotion.DedupeKeepsClasses | benchmarks/scoring/gates.py:9-18 | Deduplication changes neither the classes nor whether there are defects |
| Promotion.ScoreCase | benchmarks/scoring/scorer.py:226-245 | Passed exactly when no assertion produced a defect; raises exactly for unsupported assertions |
| Promotion.EvaluateGates | benchmarks/scoring/gates.py:53-78 | Gate results and flags, stated on the defects before deduplication |
| Promotion.EvaluateArchive | benchmarks/reporting/evaluate.py:15-68 | A run succeeds exactly when nothing is missing and every assertion held |
| Promotion.SummarizeCorpus | benchmarks/reporting/corpus_summary.py:72-136 | Counters, proven claims and the decision ladder |
| Promotion.EvaluateCorpus | benchmarks/reporting/corpus_summary.py:72-136 | Evaluating and summarising a whole corpus |
| Promotion.PromoteExactly | benchmarks/reporting/corpus_summary.py:124-136 | Promoted exactly when every run is clean and no case lists an unknown |
| Promotion.BlockExactly | benchmarks/reporting/corpus_summary.py:124-136 | Blocked exactly when some defect is named by a blocking gate or marks the artifacts as insufficient |
| Promotion.ProvenExactly | benchmarks/reporting/corpus_summary.py:104-105 | A claim is called directly proven exactly when a clean run's case lists it |
| Promotion.DecisionIsMonotone | benchmarks/reporting/corpus_summary.py:124-136 | More runs, or worse ones, never lower the decision |
| Promotion.DefectMakesWorse | benchmarks/scoring/gates.py:53-78 | One more defect makes a gate report worse, never better |
| Promotion.WorseWorldNeverPromotes | benchmarks/reporting/corpus_summary.py:124-136 | Taking artifacts away or failing more assertions never lowers the decision, although a missing artifact hides the semantic defects of its run |
| Thresholds.BuildComparison | benchmarks/scalability/baseline_compare.py:38-62 | One entry for every fixture name of either report, in strictly ascending order, about the last fixtures of that name |
| Thresholds.ByNameIsLast | benchmarks/scalability/baseline_compare.py:194-199 | A lookup by name finds the last fixture of that name |
| Thresholds.FileByName | benchmarks/scalability/threshold_evaluator.py:327-339 | Comparisons by name, with names that occur twice marked |
| Thresholds.EvaluateThresholds | benchmarks/scalability/threshold_evaluator.py:159-281 | One judgement per threshold, for fixture and batch targets |
| Thresholds.GeneratedResolves | benchmarks/scalability/threshold_evaluator.py:284-300 | In a comparison that was just built every fixture and metric is found at most once |
| Thresholds.SelfNeverBreached | benchmarks/scalability/threshold_evaluator.py:179-281 | A report compared with itself breaches no nonnegative delta limit and no expectation of no change |
| Thresholds.LimitIsMonotone | benchmarks/scalability/threshold_evaluator.py:201-238 | Raising a delta limit keeps satisfied thresholds satisfied |
| Thresholds.UnavailableNeverSatisfies | benchmarks/scalability/threshold_evaluator.py:201-276 | An unavailable metric, of a fixture or of the batch, satisfies neither a delta limit nor a demand for a class or for availability |
| Thresholds.EqualsReadsPresentValue | benchmarks/scalability/threshold_evaluator.py:241-254 | The equals comparison may be satisfied by the present value of an unavailable metric |

## Left out

- SHA-256 and JSON byte encoding: hashes and digests are function parameters, assumed injective where a theorem needs it; canonical JSON texts are strings.
- Characters outside ASCII: white space and letter case are ASCII; for redaction the class of word characters is a parameter that agrees with ASCII.
- FixtureGenerator.GenerateFixture: does not model the ZeroDivisionError raised when a remainder by zero roles, accounts or users is taken; `Divisible` excludes exactly those configurations.
- FixtureGenerator.GenerateFixture: the ARN strings of nodes are not modelled.
- Caching of computed ids in the model objects: ids are functions of the fields.
- Parsers, resolvers, the expansion controller, the noise filter and the binders: parameters, the binders with the contract that they refer only to what they were given.
- Resolution.LinksResolveExactly: asks for binders that refer only to their inputs; without that no statement about bindings is possible.
- Validator.ValidateScenario: leaves out the JSON type checks of rule 1 and the recomputed canonical hash of rule 8.
- Pipeline.EmitScenario: metadata, the canonical hash, objectives, observations and the record fields that no rule looks at are not modelled.
- ArfPreflight.NormalizeForArfRt: nodes, objectives and observations are not modelled; required keys are present (the code raises KeyError without them).
- EdgeIdIndex.BuildOriginalEdgeIdIndex: field values are scalars; lists and dicts in them, which the code cannot hash, are not modelled.
- Python equality between True and 1, and between 1 and 1.0.
- Sanitizer.SanitizedJsonIsClean: speaks of strings and keys; a JSON number with twelve digits is left as it is, as in the code.
- ScenarioDiff.DiffScenarios: the lists of one category are fields of one object, and the modified list that is thrown away for constraints is kept (it is always empty).
- FindingsDiff.DiffFindings: a list field is what iterating over it gives, so a string or a dict in place of a list is not told apart from the list of its elements.
- FindingsDiff.SwapSymmetry: says nothing about probe evidence, which is only ever gained.
- StsProbe.CrashAfterCallExactly: speaks of exceptions that the code catches; one that is not an Exception, such as a keyboard interrupt, passes through.
- StsProbe.BuildExecutorReport: the texts of the execution reasons and of the refusals are not modelled, and building a client is a parameter.
- Matching of findings, edges and constraints in the scorer: the counts are a parameter, because the matchers are field-by-field filters.
- Promotion.ScoreCase: a non-integer expected value and missing findings or scenario entries, for which the code raises too, are not modelled.
- Promotion.EvaluateArchive: the ValueError for invalid manifests and the FileNotFoundError for missing ones are not modelled.
- Promotion.SummarizeCorpus: coverage counters, the other three claim lists and the reports are not modelled.
- Thresholds.EvaluateThresholds: rounding and NaN of floats are not modelled.
- AWS collection, command lines, file access, clocks and all rendering of reports.
- Frozen-corpus variants of the comparison and the thresholds, and the report validators: near copies or flat field checks.
