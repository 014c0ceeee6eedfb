/** The gate in front of the one sts:AssumeRole call
    (benchmarks/runtime/sts_probe_executor.py, build_executor_report_from_paths and the
    functions it calls). */
module StsProbe {
  import opened Basics
  import opened JsonTree
  import opened StsPlan
  import Models

  const CONFIRMATION := "I understand this will call sts:AssumeRole once for test IAM resources only"
  const DISALLOWED := {"downstream_actions", "raw_debug_logging", "debug", "collect", "terraform"}

  // ----- the client -----

  datatype Params = Params(roleArn: Json, sessionName: Json, duration: Json, externalId: Option<Json>)

  /** An exception: the response it carries, if any, and its class name. */
  datatype Failure = Failure(response: Option<Json>, className: string)

  datatype Reply = Fails(failure: Failure) | Answers(response: Json)

  /** Stands for AWS: it logs every call and answers as it likes. */
  class StsClient {
    var calls: seq<Params>
    const reply: Reply

    constructor (reply: Reply)
      ensures calls == [] && this.reply == reply
    {
      calls := [];
      this.reply := reply;
    }

    method AssumeRole(params: Params) returns (r: Reply)
      modifies this
      ensures calls == old(calls) + [params] && r == reply
    {
      calls := calls + [params];
      r := reply;
    }
  }

  // ----- results -----

  datatype Classification = Assumed | Denied | Inconclusive | SimulatedNotExecuted | SkippedSafetyGuard
                          | ConfigurationError | UnexpectedAccount | MalformedProbe

  datatype Category = AccessDenied | ProfileError | ValidationError | StsError | NetworkOrTimeout | UnknownSanitized

  datatype Refusal = LiveModeNotAllowed | NoConfirmation | NoOutputPaths | NotOneProbe | NotAllValid | DisallowedFields

  datatype Execution = Execution(
    probeId: string, classification: Classification, refusals: seq<Refusal>,
    expected: Json, observed: Option<string>,
    liveAwsUsed: bool, awsCallsMade: bool, stsAssumeRoleCalled: bool, credentialsObtained: bool,
    category: Option<Category>)

  datatype Report = Report(mode: string, liveAwsUsed: bool, awsCallsMade: bool, stsAssumeRoleCalled: bool,
                           credentialsObtained: bool, results: seq<Execution>)

  /** A result without a call. */
  function NotCalled(probeId: string, c: Classification, refusals: seq<Refusal>, expected: Json): Execution {
    Execution(probeId, c, refusals, expected, None, false, false, false, false, None)
  }

  /** A result after the call. */
  function Called(probeId: string, c: Classification, expected: Json, observed: Option<string>, credentials: bool,
                  category: Option<Category>): Execution {
    Execution(probeId, c, [], expected, observed, true, true, true, credentials, category)
  }

  function BaseReport(mode: string, results: seq<Execution>): Report {
    Report(mode,
           exists r :: r in results && r.liveAwsUsed,
           exists r :: r in results && r.awsCallsMade,
           exists r :: r in results && r.stsAssumeRoleCalled,
           exists r :: r in results && r.credentialsObtained,
           results)
  }

  // ----- without a call -----

  function SimulatedResult(r: Result, mode: string): Execution {
    var c := match r.status
             case Valid => if mode == "simulate" then SimulatedNotExecuted else Classification.SkippedSafetyGuard
             case MalformedProbe => Classification.MalformedProbe
             case SkippedSafetyGuard => Classification.SkippedSafetyGuard
             case Invalid => ConfigurationError;
    NotCalled(r.probeId, c, [], r.expected)
  }

  function RefusedResult(r: Result, refusals: seq<Refusal>): Execution {
    var c := match r.status
             case MalformedProbe => Classification.MalformedProbe
             case SkippedSafetyGuard => Classification.SkippedSafetyGuard
             case _ => ConfigurationError;
    NotCalled(r.probeId, c, refusals, r.expected)
  }

  datatype Request = Request(allowLiveMode: bool, confirmation: Option<string>, outputPathsSupplied: bool)

  function Refusals(results: seq<Result>, plan: Json, q: Request): seq<Refusal> {
    var r := AppendIf([], !q.allowLiveMode, LiveModeNotAllowed);
    var r := AppendIf(r, q.confirmation != Some(CONFIRMATION), NoConfirmation);
    var r := AppendIf(r, !q.outputPathsSupplied, NoOutputPaths);
    var r := AppendIf(r, |results| != 1, NotOneProbe);
    var r := AppendIf(r, exists x :: x in results && x.status != Valid, NotAllValid);
    AppendIf(r, MentionsKey(plan, DISALLOWED), DisallowedFields)
  }

  // ----- the call -----

  /** The error code in the response of an exception: null when there is none. It raises when the
      response has an "Error" that is not a dict. */
  function ErrorCode(f: Failure): Outcome<Json> {
    if f.response.None? || !f.response.value.Object? then Done(Null)
    else
      match Find(f.response.value.members, "Error")
      case None => Done(Null)
      case Some(error) => if error.Object? then Done(Get(error.members, "Code")) else Raised(AttributeError)
  }

  function NamedCategory(className: string): Category {
    var name := Models.Lower(className);
    if Contains(name, "accessdenied") || Contains(name, "access_denied") then AccessDenied
    else if Contains(name, "timeout") || Contains(name, "network") || Contains(name, "connection") then NetworkOrTimeout
    else UnknownSanitized
  }

  /** The category of an exception. A code that is a list or a dict cannot be looked up. */
  function SafeErrorCategory(f: Failure): Outcome<Category> {
    match ErrorCode(f)
    case Raised(e) => Raised(e)
    case Done(code) =>
      if !Hashable(code) then Raised(TypeError)
      else if code in {Text("AccessDenied"), Text("AccessDeniedException"), Text("UnauthorizedOperation")} then
        Done(AccessDenied)
      else if code in {Text("ExpiredToken"), Text("InvalidClientTokenId"), Text("UnrecognizedClientException")} then
        Done(ProfileError)
      else if code in {Text("ValidationError"), Text("MalformedPolicyDocument")} then Done(ValidationError)
      else if Truthy(code) then Done(StsError)
      else Done(NamedCategory(f.className))
  }

  const STS := "arn:aws:sts::"
  const ASSUMED_ROLE := ":assumed-role/"

  /** arn:aws:sts::<account>:assumed-role/<anything on one line> */
  function AssumedRoleArnAccount(s: string): Option<string> {
    if |s| > 39 && STS <= s && AllDigits(s[13..25]) && s[25..39] == ASSUMED_ROLE && '\n' !in s[39..] then
      Some(s[13..25])
    else None
  }

  /** The account of the assumed role. It raises when AssumedRoleUser is there and is not a dict. */
  function AssumedRoleAccount(response: Json): Outcome<Option<string>> {
    if !response.Object? then Done(None)
    else
      match Find(response.members, "AssumedRoleUser")
      case None => Done(None)
      case Some(user) =>
        if !user.Object? then Raised(AttributeError)
        else
          var arn := Get(user.members, "Arn");
          Done(if arn.Text? then AssumedRoleArnAccount(arn.s) else None)
  }

  predicate HasCredentials(response: Json) {
    response.Object? && Truthy(Get(response.members, "Credentials"))
  }

  function CallParams(probe: seq<Member>): Params {
    var externalId := Get(probe, "external_id");
    Params(Get(probe, "target_role_arn"), Get(probe, "session_name_prefix"), Get(probe, "duration_seconds"),
           if Truthy(externalId) then Some(externalId) else None)
  }

  function AfterCall(probe: seq<Member>, id: string, reply: Reply): Outcome<Execution> {
    var expected := Get(probe, "expected_account_id");
    match reply
    case Fails(f) =>
      (match SafeErrorCategory(f)
       case Raised(e) => Raised(e)
       case Done(category) =>
         Done(Called(id, if category == AccessDenied then Denied else Inconclusive, expected, None, false,
                     Some(category))))
    case Answers(response) =>
      match AssumedRoleAccount(response)
      case Raised(e) => Raised(e)
      case Done(observed) =>
        if observed.Some? && Text(observed.value) != expected then
          Done(Called(id, UnexpectedAccount, expected, observed, HasCredentials(response), None))
        else if !HasCredentials(response) then Done(Called(id, Inconclusive, expected, observed, false, None))
        else Done(Called(id, Assumed, expected, observed, true, None))
  }

  method ExecuteLiveProbe(probe: seq<Member>, client: StsClient) returns (r: Outcome<Execution>)
    requires Get(probe, "probe_id").Text?
    modifies client
    ensures client.calls == old(client.calls) + [CallParams(probe)]
    ensures r == AfterCall(probe, Get(probe, "probe_id").s, client.reply)
  {
    hide AssumedRoleAccount, SafeErrorCategory, Truthy, Get, HasCredentials;
    var id, expected := Get(probe, "probe_id").s, Get(probe, "expected_account_id");
    var reply := client.AssumeRole(CallParams(probe));
    if reply.Fails? {
      var classified := SafeErrorCategory(reply.failure);
      if classified.Raised? { return Raised(classified.error); }
      var category := classified.value;
      return Done(Called(id, if category == AccessDenied then Denied else Inconclusive, expected, None, false,
                         Some(category)));
    }
    var observed := AssumedRoleAccount(reply.response);
    if observed.Raised? { return Raised(observed.error); }
    if observed.value.Some? && Text(observed.value.value) != expected {
      return Done(Called(id, UnexpectedAccount, expected, observed.value, HasCredentials(reply.response), None));
    }
    if !HasCredentials(reply.response) { return Done(Called(id, Inconclusive, expected, observed.value, false, None)); }
    r := Done(Called(id, Assumed, expected, observed.value, true, None));
  }

  // ----- the gate -----

  /** The client, passed in or built from the profile, or the failure to build one. */
  datatype ClientSource = Available(client: StsClient) | BuildFails(failure: Failure)

  /** What the executor finds when it asks for a client: one with a reply, or a failure. */
  datatype Service = Serves(reply: Reply) | CannotBuild(failure: Failure)

  function ServiceOf(source: ClientSource): Service {
    match source
    case Available(client) => Serves(client.reply)
    case BuildFails(failure) => CannotBuild(failure)
  }

  const MODES := {"simulate", "validate_only", "live_probe"}

  /** Everything the gate asks for before the call. */
  predicate GateOpen(plan: Json, mode: string, q: Request) {
    && mode == "live_probe" && q.allowLiveMode && q.confirmation == Some(CONFIRMATION) && q.outputPathsSupplied
    && plan.Object? && Validation(plan).Done? && |Validation(plan).value| == 1 &&
       Validation(plan).value[0].status == Valid
    && !MentionsKey(plan, DISALLOWED)
  }

  function ProbesOf(plan: Json): seq<Json>
    requires plan.Object?
  {
    var probes := Get(plan.members, "probes");
    if probes.List? then probes.items else []
  }

  lemma {:induction false} OneResult(probes: seq<Json>)
    requires JudgeAll(probes).Done? && |JudgeAll(probes).value| == 1
    ensures |probes| == 1 && Judge(probes[0], 0, {}) == Done(JudgeAll(probes).value[0])
  {
    hide Judge;
    ResultPerProbe(probes);
    assert probes[..0] == [];
  }

  lemma {:induction false} ResultPerProbe(probes: seq<Json>)
    ensures JudgeAll(probes).Done? ==> |JudgeAll(probes).value| == |probes|
  {
    hide Judge;
    if probes != [] { ResultPerProbe(probes[..|probes|-1]); }
  }

  /** The probe behind an open gate meets every demand of the plan validation. */
  lemma GatedProbeIsSafe(plan: Json, mode: string, q: Request)
    requires GateOpen(plan, mode, q)
    ensures |ProbesOf(plan)| == 1 && ProbesOf(plan)[0].Object? && Safe(ProbesOf(plan)[0].members, {})
  {
    hide Judge, JudgeAll, TopLevelError, Safe, MentionsKey;
    TopLevelProbes(plan);
    var probes := ProbesOf(plan);
    OneResult(probes);
    ValidIsObject(probes[0], 0, {});
    ValidExactly(probes[0].members, 0, {});
  }

  lemma ValidIsObject(probe: Json, index: nat, seen: set<string>)
    requires Judge(probe, index, seen).Done? && Judge(probe, index, seen).value.status == Valid
    ensures probe.Object?
  {
  }

  lemma RefusalsExactly(results: seq<Result>, plan: Json, q: Request)
    ensures Refusals(results, plan, q) == [] <==>
              q.allowLiveMode && q.confirmation == Some(CONFIRMATION) && q.outputPathsSupplied &&
              |results| == 1 && results[0].status == Valid && !MentionsKey(plan, DISALLOWED)
  {
    hide MentionsKey, AppendIf;
    if |results| == 1 { assert forall x :: x in results <==> x == results[0]; }
  }

  /** What the executor returns, given what it finds behind the gate. */
  function Run(plan: Json, mode: string, q: Request, service: Service): Outcome<Report> {
    if mode !in MODES || !plan.Object? then Raised(ValueError)
    else
      match Validation(plan)
      case Raised(e) =>
        if e == ValueError then Done(BaseReport(mode, [NotCalled("plan", ConfigurationError, [], Text("unavailable"))]))
        else Raised(e)
      case Done(rs) =>
        if mode != "live_probe" then
          Done(BaseReport(mode, seq(|rs|, i requires 0 <= i < |rs| => SimulatedResult(rs[i], mode))))
        else if !GateOpen(plan, mode, q) then
          Done(BaseReport(mode, seq(|rs|, i requires 0 <= i < |rs| => RefusedResult(rs[i], Refusals(rs, plan, q)))))
        else
          GatedProbeIsSafe(plan, mode, q);
          var probe := ProbesOf(plan)[0].members;
          var id := Get(probe, "probe_id").s;
          match service
          case CannotBuild(failure) =>
            (match SafeErrorCategory(failure)
             case Raised(e) => Raised(e)
             case Done(_) => Done(BaseReport(mode,
                                             [NotCalled(id, ConfigurationError, [],
                                                        Get(probe, "expected_account_id"))])))
          case Serves(reply) =>
            match AfterCall(probe, id, reply)
            case Raised(e) => Raised(e)
            case Done(x) => Done(BaseReport(mode, [x]))
  }

  /** The call is made exactly when the gate is open and there is a client, and then once. */
  method BuildExecutorReport(plan: Json, mode: string, q: Request, source: ClientSource) returns (r: Outcome<Report>)
    modifies if source.Available? then {source.client} else {}
    ensures r == Run(plan, mode, q, ServiceOf(source))
    ensures source.Available? ==>
              source.client.calls == old(source.client.calls) +
                if GateOpen(plan, mode, q) then [CallParams(TheProbe(plan))] else []
  {
    hide MentionsKey, Refusals, Validation, AfterCall, CallParams, Safe, BaseReport, ProbesOf, SimulatedResult,
         RefusedResult, Get, SafeErrorCategory;
    if mode !in MODES || !plan.Object? { return Raised(ValueError); }
    var validation := BuildValidation(plan);
    if validation.Raised? {
      if validation.error != ValueError { return Raised(validation.error); }
      return Done(BaseReport(mode, [NotCalled("plan", ConfigurationError, [], Text("unavailable"))]));
    }
    var results := validation.value;
    if mode != "live_probe" {
      return Done(BaseReport(mode, seq(|results|, i requires 0 <= i < |results| => SimulatedResult(results[i], mode))));
    }
    RefusalsExactly(results, plan, q);
    var refusals := Refusals(results, plan, q);
    if refusals != [] {
      return Done(BaseReport(mode,
                             seq(|results|, i requires 0 <= i < |results| => RefusedResult(results[i], refusals))));
    }
    GatedProbeIsSafe(plan, mode, q);
    var probe := ProbesOf(plan)[0].members;
    SafeHasId(probe);
    if source.BuildFails? {
      var classified := SafeErrorCategory(source.failure);
      if classified.Raised? { return Raised(classified.error); }
      return Done(BaseReport(mode, [NotCalled(Get(probe, "probe_id").s, ConfigurationError, [],
                                              Get(probe, "expected_account_id"))]));
    }
    var result := ExecuteLiveProbe(probe, source.client);
    if result.Raised? { return Raised(result.error); }
    r := Done(BaseReport(mode, [result.value]));
  }

  lemma SafeHasId(ms: seq<Member>)
    requires Safe(ms, {})
    ensures Get(ms, "probe_id").Text?
  {
  }

  /** The fields of the only probe. */
  function TheProbe(plan: Json): seq<Member> {
    if plan.Object? && ProbesOf(plan) != [] && ProbesOf(plan)[0].Object? then ProbesOf(plan)[0].members else []
  }

  // ----- what the report says -----

  lemma SilentReport(mode: string, results: seq<Execution>)
    requires forall x | x in results ::
               !x.liveAwsUsed && !x.awsCallsMade && !x.stsAssumeRoleCalled && !x.credentialsObtained
    ensures var p := BaseReport(mode, results);
            !p.liveAwsUsed && !p.awsCallsMade && !p.stsAssumeRoleCalled && !p.credentialsObtained
  {
  }

  /** The report is honest about the call: its three flags say whether the call was made,
      credentials are only reported after it, and a result counts as assumed only when the reply
      held credentials and named either no account or the expected one. */
  lemma ReportIsHonest(plan: Json, mode: string, q: Request, service: Service)
    requires Run(plan, mode, q, service).Done?
    ensures var p := Run(plan, mode, q, service).value;
            && (p.liveAwsUsed <==> GateOpen(plan, mode, q) && service.Serves?)
            && p.awsCallsMade == p.liveAwsUsed && p.stsAssumeRoleCalled == p.liveAwsUsed
            && (p.credentialsObtained ==>
                  p.stsAssumeRoleCalled && service.Serves? && service.reply.Answers? &&
                  HasCredentials(service.reply.response))
            && forall x | x in p.results && x.classification == Assumed ::
                 p.credentialsObtained && x.credentialsObtained &&
                 (x.observed.None? || Text(x.observed.value) == x.expected)
  {
    hide Validation, HasCredentials, AssumedRoleAccount, SafeErrorCategory, Refusals, Get, MentionsKey, Safe;
    var p := Run(plan, mode, q, service).value;
    if !(GateOpen(plan, mode, q) && service.Serves?) {
      SilentReport(mode, p.results);
    } else {
      assert p.results[0] in p.results;
    }
  }

  // ----- when there is no report -----

  /** The member is there and is not a dict. */
  predicate NotADict(ms: seq<Member>, key: string) {
    Find(ms, key).Some? && !Find(ms, key).value.Object?
  }

  /** The exception carries an error that is not a dict, or an error code that is a list or a
      dict. */
  predicate Unclassifiable(f: Failure) {
    && f.response.Some? && f.response.value.Object?
    && var ms := f.response.value.members;
       NotADict(ms, "Error") ||
       (Find(ms, "Error").Some? && Find(ms, "Error").value.Object? &&
        !Hashable(Get(Find(ms, "Error").value.members, "Code")))
  }

  lemma UnclassifiableExactly(f: Failure)
    ensures SafeErrorCategory(f).Raised? <==> Unclassifiable(f)
  {
  }

  /** A reply after which the executor raises: an exception it cannot classify, or an assumed role
      that is not a dict. */
  predicate LosesReport(reply: Reply) {
    match reply
    case Fails(f) => Unclassifiable(f)
    case Answers(response) => response.Object? && NotADict(response.members, "AssumedRoleUser")
  }

  /** The call was made and there is no report exactly for these replies. */
  lemma CrashAfterCallExactly(plan: Json, mode: string, q: Request, reply: Reply)
    requires GateOpen(plan, mode, q)
    ensures Run(plan, mode, q, Serves(reply)).Raised? <==> LosesReport(reply)
  {
    hide HasCredentials, SafeErrorCategory, Unclassifiable, Refusals, Get, MentionsKey, Safe, JudgeAll;
    if reply.Fails? { UnclassifiableExactly(reply.failure); }
  }

  /** Without an open gate there is no report for a bad mode, for a plan that is not a dict, and for a
      plan in which a list or a dict stands where a value is looked up. */
  lemma RaisesBeforeGateExactly(plan: Json, mode: string, q: Request, service: Service)
    requires !GateOpen(plan, mode, q)
    ensures Run(plan, mode, q, service).Raised? <==>
              mode !in MODES || !plan.Object? || MeetsUnhashable(plan)
  {
    hide HasCredentials, SafeErrorCategory, Refusals, Get, MentionsKey, Safe, JudgeAll, MeetsUnhashable;
    if plan.Object? {
      TypeErrorExactly(plan);
      if Validation(plan).Raised? { ValidationErrors(plan); }
    }
  }

  /** A client that cannot be built ends the same way, without a call. */
  lemma BuildFailureRaisesExactly(plan: Json, mode: string, q: Request, f: Failure)
    requires GateOpen(plan, mode, q)
    ensures Run(plan, mode, q, CannotBuild(f)).Raised? <==> Unclassifiable(f)
  {
    hide SafeErrorCategory, Unclassifiable, Refusals, Get, MentionsKey, Safe, JudgeAll;
    UnclassifiableExactly(f);
  }

  lemma ValidationErrors(plan: Json)
    requires plan.Object? && Validation(plan).Raised?
    ensures Validation(plan).error in {ValueError, TypeError}
  {
    if TopLevelError(plan).None? { ValidationRaisesExactly(plan); }
  }

  /** What the call asks for: a bounded duration, a safe session name, and a role of the expected
      account, unless the plan leaves the role or the account null. */
  lemma CallIsBounded(plan: Json, mode: string, q: Request)
    requires GateOpen(plan, mode, q)
    ensures var probe := TheProbe(plan);
            var params, expected := CallParams(probe), Get(probe, "expected_account_id");
            && IsBoundedDuration(params.duration) && IsSessionPrefix(params.sessionName)
            && (params.roleArn == Null || RoleAccount(params.roleArn).Some?)
            && ((RoleAccount(params.roleArn).Some? && expected == Text(RoleAccount(params.roleArn).value))
                <==> params.roleArn != Null && expected != Null)
  {
    hide Judge, JudgeAll, MentionsKey, Get, ArnAccount, Validation;
    GatedProbeIsSafe(plan, mode, q);
  }

  // ----- a plan that names no role -----

  function NamelessProbe(profile: string): seq<Member> {
    [Member("probe_id", Text("p")), Member("source_principal_arn", Null), Member("target_role_arn", Null),
     Member("aws_profile", Text(profile)), Member("expected_account_id", Text("123456789012")),
     Member("session_name_prefix", Text("s")), Member("duration_seconds", Number(900)),
     Member("expected_outcome", Text("denied")), Member("evidence_boundary", Text("b")),
     Member("safety_notes", Text("n"))]
  }

  function NamelessPlan(profile: string): Json {
    Object([Member("schema_version", Text("0.1")), Member("plan_type", Text("sts_assume_role_probe_plan")),
            Member("mode", Text("dry_run")), Member("probes", List([Object(NamelessProbe(profile))]))])
  }

  lemma {:induction false} FindAt(ms: seq<Member>, i: nat)
    requires i < |ms| && forall j | 0 <= j < i :: ms[j].key != ms[i].key
    ensures Find(ms, ms[i].key) == Some(ms[i].value)
  {
    if i > 0 { FindAt(ms[1..], i - 1); }
  }

  lemma NamelessKeys(profile: string)
    ensures var ms := NamelessProbe(profile); forall i, j | 0 <= i < j < 10 :: ms[i].key != ms[j].key
  {
    var ms := NamelessProbe(profile);
    assert |ms[0].key| == 8 && |ms[1].key| == 20 && |ms[2].key| == 15 && |ms[3].key| == 11 && |ms[4].key| == 19;
    assert |ms[5].key| == 19 && |ms[6].key| == 16 && |ms[7].key| == 16 && |ms[8].key| == 17 && |ms[9].key| == 12;
    assert ms[4].key[0] == 'e' && ms[5].key[0] == 's' && ms[6].key[0] == 'd' && ms[7].key[0] == 'e';
  }

  lemma NamelessFields(profile: string)
    ensures var ms := NamelessProbe(profile);
            && Get(ms, "probe_id") == Text("p") && Get(ms, "source_principal_arn") == Null &&
               Get(ms, "target_role_arn") == Null
            && Get(ms, "aws_profile") == Text(profile) && Get(ms, "expected_account_id") == Text("123456789012")
            && Get(ms, "session_name_prefix") == Text("s") && Get(ms, "duration_seconds") == Number(900)
            && Get(ms, "expected_outcome") == Text("denied") && Get(ms, "evidence_boundary") == Text("b")
            && Get(ms, "safety_notes") == Text("n")
  {
    hide Find;
    var ms := NamelessProbe(profile);
    NamelessKeys(profile);
    FindAt(ms, 0);
    FindAt(ms, 1);
    FindAt(ms, 2);
    FindAt(ms, 3);
    FindAt(ms, 4);
    FindAt(ms, 5);
    FindAt(ms, 6);
    FindAt(ms, 7);
    FindAt(ms, 8);
    FindAt(ms, 9);
  }

  lemma TenKeys(m: seq<Member>)
    requires |m| == 10
    ensures Keys(m) == {m[0].key, m[1].key, m[2].key, m[3].key, m[4].key, m[5].key, m[6].key, m[7].key, m[8].key,
                        m[9].key}
  {
    forall k ensures k in Keys(m) <==> exists i :: 0 <= i < 10 && m[i].key == k {
      if i :| 0 <= i < 10 && m[i].key == k { assert m[i] in m; }
    }
  }

  lemma NamelessKeySet(profile: string)
    ensures Keys(NamelessProbe(profile)) == PROBE_REQUIRED
  {
    hide Keys;
    TenKeys(NamelessProbe(profile));
  }

  lemma NamelessProbeIsSafe()
    ensures Safe(NamelessProbe("lab"), {})
  {
    hide Keys, Get, NamelessProbe;
    NamelessFields("lab");
    NamelessKeySet("lab");
  }

  lemma ForbiddenShapes(k: string)
    requires k in FORBIDDEN
    ensures |k| in {5, 7, 10, 13} || (|k| in {11, 15} && k[0] == 'c') || (|k| == 20 && k[0] == 'p') ||
            (|k| == 16 && k[0] == 'b') || (|k| == 8 && k[0] == 's') || (|k| == 9 && k[1] == 'a')
  {
  }

  lemma DisallowedShapes(k: string)
    requires k in DISALLOWED
    ensures |k| in {5, 7, 18} || (|k| == 17 && k[0] == 'r') || (|k| == 9 && k[1] == 'e')
  {
  }

  lemma PlanShapes(k: string)
    requires k in PROBE_REQUIRED + TOP_LEVEL_REQUIRED
    ensures |k| in {4, 6, 12, 14, 19} || (|k| == 8 && k[0] == 'p') || (|k| == 20 && k[0] == 's') ||
            (|k| == 15 && k[0] == 't') ||
            (|k| == 11 && k[0] == 'a') || (|k| == 16 && k[0] in {'d', 'e'}) || (|k| == 17 && k[0] == 'e') ||
            (|k| == 9 && k[1] == 'l')
  {
  }

  lemma PlainFields(ms: seq<Member>)
    requires Keys(ms) <= PROBE_REQUIRED + TOP_LEVEL_REQUIRED
    requires forall m | m in ms :: !MentionsKey(m.value, FORBIDDEN) && !MentionsKey(m.value, DISALLOWED)
    ensures !MentionsKey(Object(ms), FORBIDDEN) && !MentionsKey(Object(ms), DISALLOWED)
  {
    forall m | m in ms ensures m.key !in FORBIDDEN && m.key !in DISALLOWED {
      PlanShapes(m.key);
      if m.key in FORBIDDEN { ForbiddenShapes(m.key); }
      if m.key in DISALLOWED { DisallowedShapes(m.key); }
    }
  }

  lemma NamelessPlanFields(profile: string)
    ensures var ms := NamelessPlan(profile).members;
            && Get(ms, "schema_version") == Text("0.1") && Get(ms, "plan_type") == Text("sts_assume_role_probe_plan")
            && Get(ms, "mode") == Text("dry_run") && Get(ms, "probes") == List([Object(NamelessProbe(profile))])
            && Keys(ms) == TOP_LEVEL_REQUIRED
  {
    hide Find, NamelessProbe;
    var ms := NamelessPlan(profile).members;
    assert |ms[0].key| == 14 && |ms[1].key| == 9 && |ms[2].key| == 4 && |ms[3].key| == 6;
    FindAt(ms, 0);
    FindAt(ms, 1);
    FindAt(ms, 2);
    FindAt(ms, 3);
    FourKeys(ms);
  }

  lemma FourKeys(m: seq<Member>)
    requires |m| == 4
    ensures Keys(m) == {m[0].key, m[1].key, m[2].key, m[3].key}
  {
    forall k ensures k in Keys(m) <==> exists i :: 0 <= i < 4 && m[i].key == k {
      if i :| 0 <= i < 4 && m[i].key == k { assert m[i] in m; }
    }
  }

  lemma NamelessProbeIsClean(profile: string)
    ensures !MentionsKey(Object(NamelessProbe(profile)), FORBIDDEN) &&
            !MentionsKey(Object(NamelessProbe(profile)), DISALLOWED)
  {
    hide Keys, Find, Get;
    NamelessKeySet(profile);
    PlainFields(NamelessProbe(profile));
  }

  lemma WrappedIsClean(j: Json, keys: set<string>)
    requires !MentionsKey(j, keys)
    ensures !MentionsKey(List([j]), keys)
  {
  }

  lemma NamelessIsClean(profile: string)
    ensures !MentionsKey(NamelessPlan(profile), FORBIDDEN) && !MentionsKey(NamelessPlan(profile), DISALLOWED)
  {
    hide Keys, Find, Get, NamelessProbe;
    NamelessProbeIsClean(profile);
    NamelessPlanFields(profile);
    WrappedIsClean(Object(NamelessProbe(profile)), FORBIDDEN);
    WrappedIsClean(Object(NamelessProbe(profile)), DISALLOWED);
    PlainFields(NamelessPlan(profile).members);
  }

  lemma JudgeOne(probe: Json)
    requires Judge(probe, 0, {}).Done?
    ensures JudgeAll([probe]) == Done([Judge(probe, 0, {}).value])
  {
    hide Judge;
    var init: seq<Json> := [];
    assert [probe][..0] == init;
    assert JudgeAll(init) == Done([]) && SeenBefore(init) == {};
    assert [] + [Judge(probe, 0, {}).value] == [Judge(probe, 0, {}).value];
  }

  lemma NamelessVerdict()
    ensures Validation(NamelessPlan("lab")).Done? && |Validation(NamelessPlan("lab")).value| == 1
    ensures Validation(NamelessPlan("lab")).value[0].status == Valid
  {
    hide Keys, Find, Get, NamelessProbe, MentionsKey, Safe, HasSafetyGuardBlock, MalformedReasons, SafetyGuardReasons,
         FieldReasons;
    NamelessProbeIsClean("lab");
    NamelessIsClean("lab");
    NamelessPlanFields("lab");
    NamelessFields("lab");
    NamelessProbeIsSafe();
    var probe := Object(NamelessProbe("lab"));
    assert TopLevelError(NamelessPlan("lab")).None?;
    assert Judge(probe, 0, {}).Done?;
    ValidExactly(NamelessProbe("lab"), 0, {});
    JudgeOne(probe);
  }

  /** A plan that names no role passes validation, and the live gate lets the call through. */
  lemma NullRoleIsCalled()
    ensures var q := Request(true, Some(CONFIRMATION), true);
            GateOpen(NamelessPlan("lab"), "live_probe", q) && CallParams(TheProbe(NamelessPlan("lab"))).roleArn == Null
  {
    hide Keys, Find, Get, NamelessProbe, MentionsKey, Validation;
    NamelessVerdict();
    NamelessIsClean("lab");
    NamelessPlanFields("lab");
    NamelessFields("lab");
  }

  /** Two replies to that call after which no report is written. */
  lemma RepliesThatLoseTheReport()
    ensures var plan, q := NamelessPlan("lab"), Request(true, Some(CONFIRMATION), true);
            && Run(plan, "live_probe", q, Serves(Answers(Object([Member("AssumedRoleUser", Null)]))))
               == Raised(AttributeError)
            && Run(plan, "live_probe", q, Serves(Fails(Failure(Some(Object([Member("Error", Null)])), "ClientError"))))
               == Raised(AttributeError)
  {
    hide Validation, NamelessProbe, NamelessPlan, MentionsKey, ProbesOf, Safe, BaseReport, NamedCategory;
    NullRoleIsCalled();
  }

  lemma ProdIsProductionLike()
    ensures LooksProductionLike(Text("prod"))
  {
    assert Models.Lower("prod") == "prod";
    assert "prod" <= "prod"[0..];
    assert Contains("prod", "prod");
    forall m | m in TEST_MARKERS ensures !Contains("prod", m) {
      forall i | 0 <= i <= 4 ensures !(m <= "prod"[i..]) {
        assert m[0] in {'t', 's', 'd', 'i'} && |m| >= 3;
        assert i < 2 ==> "prod"[i..][0] in {'p', 'r'};
      }
    }
  }

  /** A production-like profile makes an otherwise good probe invalid; it is not given the status
      for a safety guard. */
  lemma ProductionLikeIsInvalid()
    ensures Judge(Object(NamelessProbe("prod")), 0, {}).Done?
    ensures Judge(Object(NamelessProbe("prod")), 0, {}).value.status == Invalid
  {
    hide Keys, Get, NamelessProbe, MentionsKey, HasSafetyGuardBlock, SafetyGuardReasons, FieldReasons,
         LooksProductionLike;
    var ms := NamelessProbe("prod");
    NamelessFields("prod");
    NamelessProbeIsClean("prod");
    ProdIsProductionLike();
    assert Judge(Object(ms), 0, {}).Done?;
    SkippedExactly(ms, 0, {});
    ValidExactly(ms, 0, {});
    NoMalformedReasons(Get(ms, "source_principal_arn"), Get(ms, "target_role_arn"), Get(ms, "expected_account_id"));
    assert IsAccountId(Text("123456789012"));
  }
}
