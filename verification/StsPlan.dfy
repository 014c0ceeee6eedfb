/** Validation of STS probe plans (benchmarks/runtime/sts_probe_plan.py, build_validation,
    _validate_probe and the reason collectors). */
module StsPlan {
  import opened Basics
  import opened Ordering
  import opened JsonTree
  import Models

  const MAX_DURATION_SECONDS := 900
  const TOP_LEVEL_REQUIRED := {"schema_version", "plan_type", "mode", "probes"}
  const TOP_LEVEL_ALLOWED := {"schema_version", "plan_type", "mode", "probes", "caveats", "notes"}
  const PROBE_REQUIRED := {"probe_id", "source_principal_arn", "target_role_arn", "aws_profile", "expected_account_id",
                           "session_name_prefix", "duration_seconds", "expected_outcome", "evidence_boundary",
                           "safety_notes"}
  const PROBE_ALLOWED := PROBE_REQUIRED + {"region", "external_id"}
  const FORBIDDEN := {"composite_score", "overall_score", "grade", "ranking", "pass_rate", "production_readiness",
                      "benchmark_passed", "severity", "credentials", "access_key", "secret_key", "session_token",
                      "token"}
  const OUTCOMES := {Text("assumed"), Text("denied"), Text("inconclusive")}
  const PRODUCTION_MARKERS := ["prod", "production", "customer", "enterprise"]
  const TEST_MARKERS := ["test", "sandbox", "dev", "staging", "iam_scope", "iamscope"]

  // ----- recognisers -----

  predicate AllDigits(s: string) { forall c | c in s :: '0' <= c <= '9' }

  predicate IsNameChar(c: char) {
    || '0' <= c <= '9' || 'A' <= c <= 'Z' || 'a' <= c <= 'z'
    || c == '+' || c == '=' || c == ',' || c == '.' || c == '@' || c == '_' || c == '-'
  }

  const IAM := "arn:aws:iam::"

  /** arn:aws:iam::<account><kind><name>: the account, for a name of the right characters. */
  function ArnAccount(s: string, kind: string): Option<string> {
    if |s| > 25 + |kind| && IAM <= s && AllDigits(s[13..25]) && s[25..25+|kind|] == kind &&
       (forall c | c in s[25+|kind|..] :: IsNameChar(c) || c == '/')
    then Some(s[13..25]) else None
  }

  function RoleAccount(v: Json): Option<string> {
    if v.Text? then ArnAccount(v.s, ":role/") else None
  }

  predicate IsPrincipal(v: Json) {
    v.Text? && (ArnAccount(v.s, ":user/").Some? || ArnAccount(v.s, ":role/").Some?)
  }

  predicate IsAccountId(v: Json) { v.Text? && |v.s| == 12 && AllDigits(v.s) }

  predicate IsSessionPrefix(v: Json) { v.Text? && 1 <= |v.s| <= 32 && forall c | c in v.s :: IsNameChar(c) }

  predicate IsBoundedDuration(v: Json) { v.Number? && 0 < v.n <= MAX_DURATION_SECONDS }

  predicate IsNonEmptyString(v: Json) { v.Text? && Models.Strip(v.s) != "" }

  predicate Contains(s: string, part: string) { exists i :: 0 <= i <= |s| && part <= s[i..] }

  predicate LooksProductionLike(v: Json) {
    && v.Text?
    && (exists m | m in PRODUCTION_MARKERS :: Contains(Models.Lower(v.s), m))
    && (forall m | m in TEST_MARKERS :: !Contains(Models.Lower(v.s), m))
  }

  // ----- reasons -----

  datatype Reason =
    | NotAnObject(index: nat) | MissingFields(fields: set<string>) | UnknownFields(fields: set<string>)
    | BlankProbeId | DuplicateProbeId
    | TargetWildcard | SourceWildcard | TargetNotRole | SourceNotPrincipal | BadAccountId
    | AccountMismatch | NoProfile | BadSessionPrefix | BadDuration | BadOutcome | NoBoundary | NoSafetyNotes
    | ProductionLike(field: string)
    | SatisfiesValidation

  // A sum in front of a literal, here and in Message, keeps the first characters apart from the
  // rest: two texts that start differently can then be told apart without spelling them out.
  const MISMATCH := "target" + " role account does not match expected_account_id"
  const PRODUCTION := "contains" + " production-like markers without a test marker"

  function CommaJoin(names: seq<string>): string {
    if names == [] then ""
    else if |names| == 1 then names[0]
    else names[0] + ", " + CommaJoin(names[1..])
  }

  /** The text of a reason about a malformed ARN or account. */
  function MalformedMessage(r: Reason): string
    requires r.TargetWildcard? || r.SourceWildcard? || r.TargetNotRole? || r.SourceNotPrincipal? || r.BadAccountId?
  {
    match r
    case TargetWildcard => "target_role_arn must not contain wildcards"
    case SourceWildcard => "source_principal_arn must not contain wildcards"
    case TargetNotRole => "target_role_arn must be an IAM role ARN"
    case SourceNotPrincipal => "source_principal_arn must be an IAM principal ARN"
    case BadAccountId => "expected_account_id must be a 12-digit account ID"
  }

  /** The text of a reason. */
  function Message(r: Reason): string {
    match r
    case AccountMismatch => MISMATCH
    case ProductionLike(field) => field + " " + PRODUCTION
    case NotAnObject(index) => "probe " + (Decimal(index) + " must be an object")
    case MissingFields(fields) => "missing" + (" required field(s): " + CommaJoin(Enumerate(fields)))
    case UnknownFields(fields) => "unknown" + (" field(s): " + CommaJoin(Enumerate(fields)))
    case BlankProbeId => "probe_id must be a non-empty string"
    case DuplicateProbeId => "duplicate probe_id"
    case TargetWildcard => MalformedMessage(r)
    case SourceWildcard => MalformedMessage(r)
    case TargetNotRole => MalformedMessage(r)
    case SourceNotPrincipal => MalformedMessage(r)
    case BadAccountId => MalformedMessage(r)
    case NoProfile => "aws_profile must be explicitly supplied"
    case BadSessionPrefix => "session_name_prefix must be bounded and STS-safe"
    case BadDuration => "duration_seconds must be an integer from 1 to 900"
    case BadOutcome => "expected_outcome must be assumed, denied, or inconclusive"
    case NoBoundary => "evidence_boundary must be non-empty"
    case NoSafetyNotes => "safety_notes must be non-empty"
    case SatisfiesValidation => "plan satisfies dry-run safety validation"
  }

  /** Some reason reads exactly like one of the two guard texts. */
  predicate HasSafetyGuardBlock(reasons: seq<Reason>) {
    exists r | r in reasons :: Message(r) == MISMATCH || Message(r) == PRODUCTION
  }

  function MalformedReasons(source: Json, target: Json, expected: Json): seq<Reason> {
    var r := AppendIf([], target != Null && HasStar(target), TargetWildcard);
    var r := AppendIf(r, source != Null && HasStar(source), SourceWildcard);
    var r := AppendIf(r, target != Null && RoleAccount(target).None?, TargetNotRole);
    var r := AppendIf(r, source != Null && !IsPrincipal(source), SourceNotPrincipal);
    AppendIf(r, expected != Null && !IsAccountId(expected), BadAccountId)
  }

  predicate Mismatch(target: Json, expected: Json) {
    RoleAccount(target).Some? && IsAccountId(expected) && RoleAccount(target).value != expected.s
  }

  function SafetyGuardReasons(ms: seq<Member>): seq<Reason> {
    var outcome := Get(ms, "expected_outcome");
    var r := AppendIf([], Mismatch(Get(ms, "target_role_arn"), Get(ms, "expected_account_id")), AccountMismatch);
    var r := AppendIf(r, !IsNonEmptyString(Get(ms, "aws_profile")), NoProfile);
    var r := AppendIf(r, !IsSessionPrefix(Get(ms, "session_name_prefix")), BadSessionPrefix);
    var r := AppendIf(r, !IsBoundedDuration(Get(ms, "duration_seconds")), BadDuration);
    var r := AppendIf(r, outcome != Null && outcome !in OUTCOMES, BadOutcome);
    var r := AppendIf(r, !IsNonEmptyString(Get(ms, "evidence_boundary")), NoBoundary);
    var r := AppendIf(r, !IsNonEmptyString(Get(ms, "safety_notes")), NoSafetyNotes);
    var r := AppendIf(r, LooksProductionLike(Get(ms, "source_principal_arn")), ProductionLike("source_principal_arn"));
    var r := AppendIf(r, LooksProductionLike(Get(ms, "target_role_arn")), ProductionLike("target_role_arn"));
    AppendIf(r, LooksProductionLike(Get(ms, "aws_profile")), ProductionLike("aws_profile"))
  }

  function FieldReasons(ms: seq<Member>, seen: set<string>): seq<Reason> {
    var id := Get(ms, "probe_id");
    var r := AppendIf([], PROBE_REQUIRED - Keys(ms) != {}, MissingFields(PROBE_REQUIRED - Keys(ms)));
    var r := AppendIf(r, Keys(ms) - PROBE_ALLOWED != {}, UnknownFields(Keys(ms) - PROBE_ALLOWED));
    var r := AppendIf(r, !IsNonEmptyString(id), BlankProbeId);
    AppendIf(r, IsNonEmptyString(id) && id.s in seen, DuplicateProbeId)
  }

  // ----- one probe -----

  datatype Status = Valid | Invalid | SkippedSafetyGuard | MalformedProbe

  datatype Result = Result(probeId: string, status: Status, reasons: seq<Reason>,
                           source: Json, target: Json, expected: Json)

  datatype Error = ValueError | TypeError | AttributeError

  datatype Outcome<+T> = Done(value: T) | Raised(error: Error)

  function SafeValue(v: Json): Json { if v == Null then Text("unavailable") else v }

  /** The result for one probe, given the ids of the probes before it. */
  function Judge(probe: Json, index: nat, seen: set<string>): Outcome<Result> {
    if !probe.Object? then
      Done(Result("probe_" + Decimal(index), MalformedProbe, [NotAnObject(index)], Text("unavailable"),
                  Text("unavailable"), Text("unavailable")))
    else if MentionsKey(probe, FORBIDDEN) then Raised(ValueError)
    else
      var ms := probe.members;
      var source, target, expected := Get(ms, "source_principal_arn"), Get(ms, "target_role_arn"),
                                      Get(ms, "expected_account_id");
      if !Hashable(Get(ms, "expected_outcome")) then Raised(TypeError)
      else
        var id := Get(ms, "probe_id");
        var malformed := MalformedReasons(source, target, expected);
        var reasons := FieldReasons(ms, seen) + malformed + SafetyGuardReasons(ms);
        var status := if malformed != [] then MalformedProbe
                      else if reasons == [] then Valid
                      else if HasSafetyGuardBlock(reasons) then SkippedSafetyGuard
                      else Invalid;
        Done(Result(if IsNonEmptyString(id) then id.s else "probe_" + Decimal(index), status,
                    if status == Valid then [SatisfiesValidation] else reasons,
                    SafeValue(source), SafeValue(target), SafeValue(expected)))
  }

  /** seen_probe_ids after a probe. */
  function SeenAfter(probe: Json, seen: set<string>): set<string> {
    if probe.Object? && IsNonEmptyString(Get(probe.members, "probe_id")) then seen + {Get(probe.members, "probe_id").s}
    else seen
  }

  class SeenIds {
    var ids: set<string>

    constructor ()
      ensures ids == {}
    {
      ids := {};
    }
  }

  method ValidateProbe(probe: Json, index: nat, seen: SeenIds) returns (r: Outcome<Result>)
    modifies seen
    ensures r == Judge(probe, index, old(seen.ids))
    ensures r.Done? ==> seen.ids == SeenAfter(probe, old(seen.ids))
  {
    hide MalformedReasons, SafetyGuardReasons, MentionsKey, HasSafetyGuardBlock, SafeValue, Get, Keys, Decimal;
    if !probe.Object? {
      return Done(Result("probe_" + Decimal(index), MalformedProbe, [NotAnObject(index)], Text("unavailable"),
                         Text("unavailable"), Text("unavailable")));
    }
    if MentionsKey(probe, FORBIDDEN) { return Raised(ValueError); }
    var ms := probe.members;
    var reasons: seq<Reason> := [];
    var missing := PROBE_REQUIRED - Keys(ms);
    if missing != {} { reasons := reasons + [MissingFields(missing)]; }
    var unknown := Keys(ms) - PROBE_ALLOWED;
    if unknown != {} { reasons := reasons + [UnknownFields(unknown)]; }
    var id := Get(ms, "probe_id");
    var probeId := "probe_" + Decimal(index);
    if !IsNonEmptyString(id) {
      reasons := reasons + [BlankProbeId];
    } else {
      probeId := id.s;
      if id.s in seen.ids { reasons := reasons + [DuplicateProbeId]; }
      else { seen.ids := seen.ids + {id.s}; }
    }
    assert reasons == FieldReasons(ms, old(seen.ids));
    var source, target, expected := Get(ms, "source_principal_arn"), Get(ms, "target_role_arn"),
                                    Get(ms, "expected_account_id");
    var malformed := MalformedReasons(source, target, expected);
    if !Hashable(Get(ms, "expected_outcome")) { return Raised(TypeError); }
    reasons := reasons + malformed + SafetyGuardReasons(ms);
    var status;
    if malformed != [] {
      status := MalformedProbe;
    } else if reasons != [] {
      status := if HasSafetyGuardBlock(reasons) then SkippedSafetyGuard else Invalid;
    } else {
      status := Valid;
      reasons := [SatisfiesValidation];
    }
    r := Done(Result(probeId, status, reasons, SafeValue(source), SafeValue(target), SafeValue(expected)));
  }

  // ----- a plan -----

  /** The check of the top level: None when it passes. */
  function TopLevelError(plan: Json): Option<Error>
    requires plan.Object?
  {
    var ms := plan.members;
    if MentionsKey(plan, FORBIDDEN) then Some(ValueError)
    else if !(TOP_LEVEL_REQUIRED <= Keys(ms) <= TOP_LEVEL_ALLOWED) then Some(ValueError)
    else if Get(ms, "schema_version") != Text("0.1") then Some(ValueError)
    else if Get(ms, "plan_type") != Text("sts_assume_role_probe_plan") then Some(ValueError)
    else if !Hashable(Get(ms, "mode")) then Some(TypeError)
    else if Get(ms, "mode") !in {Text("dry_run"), Text("validate_only")} then Some(ValueError)
    else if !Get(ms, "probes").List? then Some(ValueError)
    else None
  }

  function SeenBefore(probes: seq<Json>): set<string> {
    if probes == [] then {} else SeenAfter(probes[|probes|-1], SeenBefore(probes[..|probes|-1]))
  }

  /** Probe by probe; the first error ends the validation. */
  function JudgeAll(probes: seq<Json>): Outcome<seq<Result>> {
    if probes == [] then Done([])
    else
      var init := probes[..|probes|-1];
      match JudgeAll(init)
      case Raised(e) => Raised(e)
      case Done(rs) =>
        match Judge(probes[|probes|-1], |probes| - 1, SeenBefore(init))
        case Raised(e) => Raised(e)
        case Done(r) => Done(rs + [r])
  }

  /** What build_validation makes of a plan. */
  function Validation(plan: Json): Outcome<seq<Result>>
    requires plan.Object?
  {
    if TopLevelError(plan).Some? then Raised(TopLevelError(plan).value)
    else JudgeAll(Get(plan.members, "probes").items)
  }

  lemma {:induction false} JudgeAllPrefix(probes: seq<Json>, n: nat)
    requires n <= |probes| && JudgeAll(probes[..n]).Raised?
    ensures JudgeAll(probes) == JudgeAll(probes[..n])
    decreases |probes|
  {
    hide Judge;
    if n < |probes| {
      assert probes[..|probes|-1][..n] == probes[..n];
      JudgeAllPrefix(probes[..|probes|-1], n);
    } else {
      assert probes[..n] == probes;
    }
  }

  method BuildValidation(plan: Json) returns (r: Outcome<seq<Result>>)
    requires plan.Object?
    ensures r == Validation(plan)
  {
    hide Judge, SeenAfter, TopLevelError;
    if TopLevelError(plan).Some? { return Raised(TopLevelError(plan).value); }
    TopLevelProbes(plan);
    var probes := Get(plan.members, "probes").items;
    var seen := new SeenIds();
    var results: seq<Result> := [];
    for i := 0 to |probes|
      invariant seen.ids == SeenBefore(probes[..i])
      invariant JudgeAll(probes[..i]) == Done(results)
    {
      assert probes[..i+1][..i] == probes[..i];
      var result := ValidateProbe(probes[i], i, seen);
      if result.Raised? {
        JudgeAllPrefix(probes, i + 1);
        return Raised(result.error);
      }
      results := results + [result.value];
    }
    assert probes[..|probes|] == probes;
    r := Done(results);
  }

  lemma TopLevelProbes(plan: Json)
    requires plan.Object? && TopLevelError(plan).None?
    ensures Get(plan.members, "probes").List? && !MentionsKey(plan, FORBIDDEN)
  {
  }

  // ----- what a valid probe is -----

  /** Every demand on a probe, one by one. Fields that are only compared when they are not null
      may be null. */
  predicate Safe(ms: seq<Member>, seen: set<string>) {
    var source, target, expected := Get(ms, "source_principal_arn"), Get(ms, "target_role_arn"),
                                    Get(ms, "expected_account_id");
    && PROBE_REQUIRED <= Keys(ms) <= PROBE_ALLOWED
    && IsNonEmptyString(Get(ms, "probe_id")) && Get(ms, "probe_id").s !in seen
    && (source == Null || IsPrincipal(source))
    && (target == Null || RoleAccount(target).Some?)
    && (expected == Null || IsAccountId(expected))
    && (target != Null && expected != Null ==> RoleAccount(target) == Some(expected.s))
    && IsNonEmptyString(Get(ms, "aws_profile"))
    && IsSessionPrefix(Get(ms, "session_name_prefix"))
    && IsBoundedDuration(Get(ms, "duration_seconds"))
    && (Get(ms, "expected_outcome") == Null || Get(ms, "expected_outcome") in OUTCOMES)
    && IsNonEmptyString(Get(ms, "evidence_boundary")) && IsNonEmptyString(Get(ms, "safety_notes"))
    && !LooksProductionLike(source) && !LooksProductionLike(target) && !LooksProductionLike(Get(ms, "aws_profile"))
  }

  lemma ArnHasNoStar(s: string, kind: string)
    requires '*' !in kind && ArnAccount(s, kind).Some?
    ensures '*' !in s
  {
    var account, name := s[13..25], s[25+|kind|..];
    assert s == IAM + account + kind + name;
    assert !IsNameChar('*');
    assert forall c | c in name :: IsNameChar(c) || c == '/';
    assert '*' !in IAM && '*' !in account && '*' !in name;
  }

  lemma NoMalformedReasons(source: Json, target: Json, expected: Json)
    ensures MalformedReasons(source, target, expected) == [] <==>
              (source == Null || IsPrincipal(source)) && (target == Null || RoleAccount(target).Some?) &&
              (expected == Null || IsAccountId(expected))
  {
    hide ArnAccount, AllDigits;
    if IsPrincipal(source) {
      if ArnAccount(source.s, ":user/").Some? {
        ArnHasNoStar(source.s, ":user/");
      } else {
        ArnHasNoStar(source.s, ":role/");
      }
    }
    if RoleAccount(target).Some? { ArnHasNoStar(target.s, ":role/"); }
  }

  /** A probe of a plan is valid exactly when it meets every demand. */
  lemma ValidExactly(ms: seq<Member>, index: nat, seen: set<string>)
    requires Judge(Object(ms), index, seen).Done?
    ensures Judge(Object(ms), index, seen).value.status == Valid <==> Safe(ms, seen)
  {
    hide HasSafetyGuardBlock, MalformedReasons, RoleAccount, IsPrincipal, IsAccountId, LooksProductionLike,
         IsNonEmptyString, IsSessionPrefix, IsBoundedDuration, MentionsKey, Keys, Get;
    NoMalformedReasons(Get(ms, "source_principal_arn"), Get(ms, "target_role_arn"), Get(ms, "expected_account_id"));
    NullHasNoAccount();
  }

  lemma NullHasNoAccount()
    ensures RoleAccount(Null).None? && !IsAccountId(Null)
    ensures forall v :: IsAccountId(v) ==> v.Text?
    ensures forall v :: IsNonEmptyString(v) ==> v.Text?
  {
  }

  /** A valid probe names the account of its role, exactly when neither of the two is null. */
  lemma ValidProbeAccount(ms: seq<Member>, index: nat, seen: set<string>)
    requires Judge(Object(ms), index, seen).Done? && Judge(Object(ms), index, seen).value.status == Valid
    ensures var target, expected := Get(ms, "target_role_arn"), Get(ms, "expected_account_id");
            (RoleAccount(target).Some? && expected == Text(RoleAccount(target).value)) <==>
            target != Null && expected != Null
  {
    hide Judge, Get;
    ValidExactly(ms, index, seen);
  }

  // ----- why a probe is refused -----

  lemma MarkerShapes()
    ensures |MISMATCH| == 54 && |PRODUCTION| == 54 && MISMATCH[0] == 't' && PRODUCTION[0] == 'c'
  {
    assert MISMATCH[0] == "target"[0] && PRODUCTION[0] == "contains"[0];
  }

  lemma MalformedLengths(r: Reason)
    requires r.TargetWildcard? || r.SourceWildcard? || r.TargetNotRole? || r.SourceNotPrincipal? || r.BadAccountId?
    ensures |MalformedMessage(r)| != 54
  {
  }

  lemma MessageIsMarker(r: Reason)
    ensures Message(r) == MISMATCH || Message(r) == PRODUCTION <==> r == AccountMismatch
  {
    hide MalformedMessage;
    MarkerShapes();
    if r.TargetWildcard? || r.SourceWildcard? || r.TargetNotRole? || r.SourceNotPrincipal? || r.BadAccountId? {
      MalformedLengths(r);
    }
    match r
    case AccountMismatch =>
    case NotAnObject(_) => assert Message(r)[0] == "probe "[0];
    case MissingFields(_) => assert Message(r)[0] == "missing"[0];
    case UnknownFields(_) => assert Message(r)[0] == "unknown"[0];
    case _ => assert |Message(r)| != 54;
  }

  /** The guard text is compared whole, so of the two guarded situations only the account
      mismatch is ever recognised: a production-like name makes a probe invalid instead. */
  lemma SkippedExactly(ms: seq<Member>, index: nat, seen: set<string>)
    requires Judge(Object(ms), index, seen).Done?
    ensures var source, target, expected := Get(ms, "source_principal_arn"), Get(ms, "target_role_arn"),
                                            Get(ms, "expected_account_id");
            Judge(Object(ms), index, seen).value.status == SkippedSafetyGuard <==>
              MalformedReasons(source, target, expected) == [] && Mismatch(target, expected)
  {
    var source, target, expected := Get(ms, "source_principal_arn"), Get(ms, "target_role_arn"),
                                    Get(ms, "expected_account_id");
    hide HasSafetyGuardBlock, MalformedReasons, FieldReasons, SafetyGuardReasons, Mismatch, MentionsKey, Get;
    var reasons := FieldReasons(ms, seen) + MalformedReasons(source, target, expected) + SafetyGuardReasons(ms);
    GuardBlockExactly(reasons);
    if MalformedReasons(source, target, expected) == [] {
      MismatchIsListed(ms, seen);
    }
  }

  lemma GuardBlockExactly(reasons: seq<Reason>)
    ensures HasSafetyGuardBlock(reasons) <==> AccountMismatch in reasons
  {
    hide Message;
    forall r { MessageIsMarker(r); }
  }

  lemma MismatchIsListed(ms: seq<Member>, seen: set<string>)
    ensures AccountMismatch in FieldReasons(ms, seen) + [] + SafetyGuardReasons(ms)
       <==> Mismatch(Get(ms, "target_role_arn"), Get(ms, "expected_account_id"))
  {
    hide Mismatch, LooksProductionLike, IsNonEmptyString, IsSessionPrefix, IsBoundedDuration, Keys, Get, AppendIf;
  }

  // ----- when validation raises -----

  lemma {:induction false} FoundMentions(ms: seq<Member>, key: string, keys: set<string>)
    requires Find(ms, key).Some? && MentionsKey(Find(ms, key).value, keys)
    ensures exists m :: m in ms && MentionsKey(m.value, keys)
  {
    if ms[0].key == key {
      assert ms[0] in ms;
    } else {
      FoundMentions(ms[1..], key, keys);
    }
  }

  /** A forbidden field inside a probe has already failed the top level. */
  lemma ProbesAreClean(plan: Json, i: nat)
    requires plan.Object? && TopLevelError(plan).None?
    requires i < |Get(plan.members, "probes").items|
    ensures !MentionsKey(Get(plan.members, "probes").items[i], FORBIDDEN)
  {
    var probes := Get(plan.members, "probes");
    if MentionsKey(probes.items[i], FORBIDDEN) {
      assert probes.items[i] in probes.items;
      FoundMentions(plan.members, "probes", FORBIDDEN);
    }
  }

  predicate RaisesType(probe: Json) { probe.Object? && !Hashable(Get(probe.members, "expected_outcome")) }

  lemma {:induction false} JudgeAllRaises(probes: seq<Json>)
    requires forall i | 0 <= i < |probes| :: !MentionsKey(probes[i], FORBIDDEN)
    ensures JudgeAll(probes).Raised? <==> exists p | p in probes :: RaisesType(p)
    ensures JudgeAll(probes).Raised? ==> JudgeAll(probes) == Raised(TypeError)
    ensures JudgeAll(probes).Done? ==> |JudgeAll(probes).value| == |probes|
  {
    hide MalformedReasons, SafetyGuardReasons, FieldReasons, MentionsKey, HasSafetyGuardBlock, Hashable, Get;
    if probes != [] {
      var init, last := probes[..|probes|-1], probes[|probes|-1];
      JudgeAllRaises(init);
      assert forall p :: p in probes <==> p in init || p == last;
      assert Judge(last, |init|, SeenBefore(init)).Raised? <==> RaisesType(last);
    }
  }

  /** Beyond the top level, validation fails only for a probe whose expected outcome is a list
      or a dict; otherwise there is one result per probe. */
  lemma ValidationRaisesExactly(plan: Json)
    requires plan.Object? && TopLevelError(plan).None?
    ensures Validation(plan) == Raised(TypeError) <==>
            exists p | p in Get(plan.members, "probes").items :: RaisesType(p)
    ensures Validation(plan) != Raised(TypeError) ==>
              Validation(plan).Done? && |Validation(plan).value| == |Get(plan.members, "probes").items|
  {
    var probes := Get(plan.members, "probes").items;
    forall i | 0 <= i < |probes| ensures !MentionsKey(probes[i], FORBIDDEN) { ProbesAreClean(plan, i); }
    hide TopLevelError, MentionsKey, JudgeAll, RaisesType, Get;
    JudgeAllRaises(probes);
  }

  /** The checks in front of the lookup of the mode. */
  predicate HeaderPasses(plan: Json)
    requires plan.Object?
  {
    && !MentionsKey(plan, FORBIDDEN)
    && TOP_LEVEL_REQUIRED <= Keys(plan.members) <= TOP_LEVEL_ALLOWED
    && Get(plan.members, "schema_version") == Text("0.1")
    && Get(plan.members, "plan_type") == Text("sts_assume_role_probe_plan")
  }

  /** A value that is looked up in a set is a list or a dict: the mode, or behind an allowed mode the
      expected outcome of a probe. */
  predicate MeetsUnhashable(plan: Json)
    requires plan.Object?
  {
    var mode, probes := Get(plan.members, "mode"), Get(plan.members, "probes");
    && HeaderPasses(plan)
    && (!Hashable(mode) ||
        (mode in {Text("dry_run"), Text("validate_only")} && probes.List? &&
         exists p | p in probes.items :: RaisesType(p)))
  }

  lemma TypeErrorExactly(plan: Json)
    requires plan.Object?
    ensures Validation(plan) == Raised(TypeError) <==> MeetsUnhashable(plan)
  {
    hide MentionsKey, Keys, Get, JudgeAll, RaisesType;
    if TopLevelError(plan).None? { ValidationRaisesExactly(plan); }
  }
}
