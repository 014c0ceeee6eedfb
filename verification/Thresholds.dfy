/** Comparing two scalability reports and judging the comparison against thresholds
    (benchmarks/scalability/baseline_compare.py and benchmarks/scalability/threshold_evaluator.py).

    Metric values are real numbers, so rounding and NaN are not modelled. */
module Thresholds {
  import opened Basics
  import opened Ordering

  /** The value of a metric; lists and dicts are kept as their text. */
  datatype Value = Null | Num(x: real) | Flag(b: bool) | Str(s: string) | Opaque(text: string)

  /** A fixture of a report, with its metrics; a digest is the metric named by its dotted path. */
  datatype Fixture = Fixture(name: Option<string>, metrics: map<string, Value>)

  datatype Class = Changed | Unchanged | Unavailable

  datatype Metric = Metric(name: string, class_: Class, baseline: Value, current: Value, delta: Option<real>)

  datatype Comparison = Comparison(fixture: string, class_: Class, metrics: seq<Metric>)

  const NUMERIC_METRICS := ["wall_clock_runtime_ms", "candidate_paths_considered", "constraint_evaluations",
                            "artifact_load_time_ms"]
  const VALUE_METRICS := ["paths_validated", "paths_rejected", "peak_memory_bytes", "report_generation_time_ms",
                          "failure_mode_classification", "deterministic_output_stability.fixture_digest",
                          "deterministic_output_stability.stable_metric_digest"]

  // ----- comparing -----

  predicate IsUnavailable(v: Value) {
    v == Null || v == Str("not_collected") || (v.Str? && "unavailable_with_reason" <= v.s)
  }

  function MetricOf(f: Fixture, metric: string): Value {
    if metric in f.metrics then f.metrics[metric] else Null
  }

  function UnavailableMetric(metric: string, b: Value, c: Value): Metric {
    Metric(metric, Unavailable, Reported(b), Reported(c), None)
  }

  function Reported(v: Value): Value {
    if v == Null then Str("unavailable_with_reason:missing") else v
  }

  function CompareNumeric(metric: string, b: Value, c: Value): Metric {
    if !b.Num? || !c.Num? then UnavailableMetric(metric, b, c)
    else Metric(metric, if c.x - b.x == 0.0 then Unchanged else Changed, b, c, Some(c.x - b.x))
  }

  function CompareValue(metric: string, b: Value, c: Value): Metric {
    if IsUnavailable(b) || IsUnavailable(c) then UnavailableMetric(metric, b, c)
    else Metric(metric, if b == c then Unchanged else Changed, b, c, None)
  }

  function CompareMetric(metric: string, b: Fixture, c: Fixture): Metric {
    if metric in NUMERIC_METRICS then CompareNumeric(metric, MetricOf(b, metric), MetricOf(c, metric))
    else CompareValue(metric, MetricOf(b, metric), MetricOf(c, metric))
  }

  const METRICS: seq<string> := NUMERIC_METRICS + VALUE_METRICS

  function MetricsOf(b: Option<Fixture>, c: Option<Fixture>): (r: seq<Metric>)
    ensures |r| == |METRICS|
  {
    seq(|METRICS|, i requires 0 <= i < |METRICS| =>
      if b.Some? && c.Some? then CompareMetric(METRICS[i], b.value, c.value)
      else UnavailableMetric(METRICS[i], Null, Null))
  }

  function CompareFixture(name: string, b: Option<Fixture>, c: Option<Fixture>): Comparison {
    var ms := MetricsOf(b, c);
    Comparison(name,
               if b.None? || c.None? then Unavailable
               else if exists m :: m in ms && m.class_ == Changed then Changed else Unchanged,
               ms)
  }

  function ByName(fs: seq<Fixture>): map<string, Fixture> {
    if fs == [] then map[]
    else
      var last, m := fs[|fs|-1], ByName(fs[..|fs|-1]);
      if last.name.Some? then m[last.name.value := last] else m
  }

  method FixturesByName(fs: seq<Fixture>) returns (m: map<string, Fixture>)
    ensures m == ByName(fs)
  {
    m := map[];
    for i := 0 to |fs|
      invariant m == ByName(fs[..i])
    {
      assert fs[..i+1][..i] == fs[..i];
      if fs[i].name.Some? { m := m[fs[i].name.value := fs[i]]; }
    }
    assert fs[..|fs|] == fs;
  }

  function At(m: map<string, Fixture>, name: string): Option<Fixture> {
    if name in m then Some(m[name]) else None
  }

  /** f is the last fixture of that name, or there is none. */
  ghost predicate LastNamed(fs: seq<Fixture>, name: string, f: Option<Fixture>) {
    match f
    case None => forall i | 0 <= i < |fs| :: fs[i].name != Some(name)
    case Some(x) => exists i :: 0 <= i < |fs| && fs[i] == x && x.name == Some(name) &&
                                forall k | i < k < |fs| :: fs[k].name != Some(name)
  }

  lemma {:induction false} ByNameIsLast(fs: seq<Fixture>, name: string)
    ensures LastNamed(fs, name, At(ByName(fs), name))
  {
    if fs != [] {
      var init, last := fs[..|fs|-1], fs[|fs|-1];
      ByNameIsLast(init, name);
      assert forall i | 0 <= i < |init| :: init[i] == fs[i];
      if last.name == Some(name) { assert fs[|fs|-1] == last; }
    }
  }

  ghost predicate Occurs(fs: seq<Fixture>, name: string) { exists i :: 0 <= i < |fs| && fs[i].name == Some(name) }

  /** c compares the last fixtures of its name. */
  ghost predicate Faithful(c: Comparison, baseline: seq<Fixture>, current: seq<Fixture>) {
    exists b, d :: LastNamed(baseline, c.fixture, b) && LastNamed(current, c.fixture, d) &&
                   c == CompareFixture(c.fixture, b, d)
  }

  /** cs compares the reports: one entry for every name that occurs in one of them, in ascending
      order, about the last fixtures of that name. */
  ghost predicate IsComparison(cs: seq<Comparison>, baseline: seq<Fixture>, current: seq<Fixture>) {
    && (forall i, j | 0 <= i < j < |cs| :: StrLess(cs[i].fixture, cs[j].fixture))
    && (forall n: string :: (exists i :: 0 <= i < |cs| && cs[i].fixture == n) <==>
        Occurs(baseline, n) || Occurs(current, n))
    && (forall c | c in cs :: Faithful(c, baseline, current))
  }

  method BuildComparison(baseline: seq<Fixture>, current: seq<Fixture>) returns (cs: seq<Comparison>)
    ensures IsComparison(cs, baseline, current)
  {
    hide CompareFixture, LastNamed, StrLe, StrLess, Occurs, ByName, Enumerate;
    var b := FixturesByName(baseline);
    var c := FixturesByName(current);
    var names := Enumerate(b.Keys + c.Keys);
    cs := seq(|names|, i requires 0 <= i < |names| => CompareFixture(names[i], At(b, names[i]), At(c, names[i])));
    forall n: string ensures n in b.Keys + c.Keys <==> Occurs(baseline, n) || Occurs(current, n) {
      OccursExactly(baseline, n);
      OccursExactly(current, n);
    }
    forall i | 0 <= i < |cs| ensures cs[i].fixture == names[i] && Faithful(cs[i], baseline, current) {
      CompareNames(names[i], At(b, names[i]), At(c, names[i]));
      ByNameIsLast(baseline, names[i]);
      ByNameIsLast(current, names[i]);
    }
    assert forall i, j | 0 <= i < j < |cs| :: StrLess(names[i], names[j]);
  }

  lemma OccursExactly(fs: seq<Fixture>, name: string)
    ensures name in ByName(fs) <==> Occurs(fs, name)
  {
    ByNameIsLast(fs, name);
  }

  // ----- judging -----

  datatype Kind = MaxAbsoluteDelta | MaxRelativeDelta | Equals | ChangedOrUnchanged | MustBeAvailable | MayBeUnavailable
                | OtherKind

  datatype Target = FixtureTarget(name: Option<string>) | BatchTarget(name: Option<string>) | OtherTarget

  datatype Entry = Entry(target: Target, metric: string, kind: Kind, limit: real, expected: Value)

  datatype Judgement = Satisfied | Breached | NotAvailable | NotApplicable | Malformed

  /** What the thresholds call unavailable. */
  predicate IsUnavailableValue(v: Value) {
    v in {Null, Str("missing"), Str("unavailable"), Str("not_collected")} ||
    (v.Str? && "unavailable_with_reason" <= v.s)
  }

  function ClassValue(c: Class): Value {
    match c
    case Changed => Str("changed")
    case Unchanged => Str("unchanged")
    case Unavailable => Str("unavailable")
  }

  function Abs(x: real): real { if x < 0.0 then -x else x }

  function Judge(ok: bool): Judgement { if ok then Satisfied else Breached }

  function NumericDelta(m: Metric): Option<real> {
    if m.delta.Some? then m.delta
    else if m.baseline.Num? && m.current.Num? then Some(m.current.x - m.baseline.x)
    else None
  }

  function JudgeMetric(e: Entry, m: Metric): Judgement {
    match e.kind
    case MaxAbsoluteDelta =>
      var delta := NumericDelta(m);
      if delta.None? then NotAvailable else Judge(Abs(delta.value) <= e.limit)
    case MaxRelativeDelta =>
      if !m.baseline.Num? || !m.current.Num? then NotAvailable
      else if m.baseline.x == 0.0 then
        if m.current.x == 0.0 then Judge(0.0 <= e.limit) else NotAvailable
      else Judge(Abs((m.current.x - m.baseline.x) / m.baseline.x) <= e.limit)
    case Equals =>
      var observed := if e.expected in {Str("changed"), Str("unchanged"), Str("unavailable")} then ClassValue(m.class_)
                      else m.current;
      if IsUnavailableValue(observed) then NotAvailable else Judge(observed == e.expected)
    case ChangedOrUnchanged =>
      if m.class_ == Unavailable then NotAvailable else Judge(ClassValue(m.class_) == e.expected)
    case MustBeAvailable =>
      if m.class_ == Unavailable || IsUnavailableValue(m.baseline) || IsUnavailableValue(m.current) then NotAvailable
      else Satisfied
    case MayBeUnavailable => Satisfied
    case OtherKind => Malformed
  }

  /** fixture_comparisons by name; a name that occurs twice is marked. */
  ghost predicate Filed(m: map<string, Option<Comparison>>, cs: seq<Comparison>) {
    && (forall n :: n in m <==> exists i :: 0 <= i < |cs| && cs[i].fixture == n)
    && (forall n | n in m :: m[n].None? <==> exists i, j :: 0 <= i < j < |cs| && cs[i].fixture == n == cs[j].fixture)
    && (forall n | n in m && m[n].Some? :: m[n].value in cs && m[n].value.fixture == n)
  }

  /** name occurs twice among the first n comparisons. */
  ghost predicate Twice(cs: seq<Comparison>, n: nat, name: string) {
    exists j, k :: 0 <= j < k < n <= |cs| && cs[j].fixture == name == cs[k].fixture
  }

  lemma TwiceStep(cs: seq<Comparison>, n: nat, name: string)
    requires n < |cs|
    ensures Twice(cs, n + 1, name) <==>
            Twice(cs, n, name) || (cs[n].fixture == name && exists j :: 0 <= j < n && cs[j].fixture == name)
  {
  }

  method FileByName(cs: seq<Comparison>) returns (m: map<string, Option<Comparison>>)
    ensures Filed(m, cs)
  {
    hide Twice;
    m := map[];
    var duplicates: set<string> := {};
    forall n: string ensures !Twice(cs, 0, n) { NeverTwice(cs, n); }
    for i := 0 to |cs|
      invariant forall n :: n in m <==> exists j :: 0 <= j < i && cs[j].fixture == n
      invariant forall n | n in m :: m[n].Some? && m[n].value in cs && m[n].value.fixture == n
      invariant forall n :: n in duplicates <==> Twice(cs, i, n)
    {
      forall n: string { TwiceStep(cs, i, n); }
      var name := cs[i].fixture;
      if name in m { duplicates := duplicates + {name}; }
      m := m[name := Some(cs[i])];
    }
    Marked(m, duplicates, cs);
    m := m + map n | n in duplicates :: None;
  }

  lemma NeverTwice(cs: seq<Comparison>, name: string)
    ensures !Twice(cs, 0, name)
  {
  }

  lemma Marked(m: map<string, Option<Comparison>>, duplicates: set<string>, cs: seq<Comparison>)
    requires forall n :: n in m <==> exists j :: 0 <= j < |cs| && cs[j].fixture == n
    requires forall n | n in m :: m[n].Some? && m[n].value in cs && m[n].value.fixture == n
    requires forall n :: n in duplicates <==> Twice(cs, |cs|, n)
    ensures Filed(m + map n | n in duplicates :: None, cs)
  {
  }

  datatype Found = FoundMetric(m: Metric) | NoneFound | Problem

  function Named(ms: seq<Metric>, metric: string): seq<Metric> {
    if ms == [] then []
    else (if ms[0].name == metric then [ms[0]] else []) + Named(ms[1..], metric)
  }

  function FixtureMetric(e: Entry, filed: map<string, Option<Comparison>>): Found
    requires e.target.FixtureTarget?
  {
    if e.target.name.None? then Problem
    else if e.target.name.value !in filed then NoneFound
    else
      match filed[e.target.name.value]
      case None => Problem
      case Some(c) =>
        var ms := Named(c.metrics, e.metric);
        if |ms| > 1 then Problem else if ms == [] then NoneFound else FoundMetric(ms[0])
  }

  /** A field of the comparison report itself, which stands for both sides. */
  function BatchMetric(e: Entry, fields: map<string, Value>): Found
    requires e.target.BatchTarget?
  {
    if e.target.name.None? then Problem
    else if e.metric !in fields then NoneFound
    else
      var v := fields[e.metric];
      if v.Num? then FoundMetric(Metric(e.metric, Unchanged, v, v, Some(0.0)))
      else FoundMetric(Metric(e.metric, Unavailable, Str("unavailable_with_reason:batch_baseline_not_reported"), v,
                              None))
  }

  function MetricFor(e: Entry, filed: map<string, Option<Comparison>>, fields: map<string, Value>): Found
    requires !e.target.OtherTarget?
  {
    if e.target.FixtureTarget? then FixtureMetric(e, filed) else BatchMetric(e, fields)
  }

  function EvaluateThreshold(e: Entry, filed: map<string, Option<Comparison>>, fields: map<string, Value>): Judgement {
    if e.target.OtherTarget? then NotApplicable
    else
      match MetricFor(e, filed, fields)
      case NoneFound => NotApplicable
      case Problem => Malformed
      case FoundMetric(m) => JudgeMetric(e, m)
  }

  /** `fields` are the fields of the report that holds the comparisons. */
  method EvaluateThresholds(entries: seq<Entry>, cs: seq<Comparison>, fields: map<string, Value>)
    returns (r: seq<Judgement>)
    ensures exists filed :: Filed(filed, cs) && |r| == |entries| &&
              forall i | 0 <= i < |entries| :: r[i] == EvaluateThreshold(entries[i], filed, fields)
  {
    var filed := FileByName(cs);
    r := seq(|entries|, i requires 0 <= i < |entries| => EvaluateThreshold(entries[i], filed, fields));
  }

  // ----- a generated comparison always resolves -----

  lemma {:induction false} NamedIsUnique(ms: seq<Metric>, metric: string)
    requires forall i, j | 0 <= i < j < |ms| :: ms[i].name != ms[j].name
    ensures |Named(ms, metric)| <= 1
    ensures forall m :: m in Named(ms, metric) <==> m in ms && m.name == metric
  {
    if ms != [] {
      NamedIsUnique(ms[1..], metric);
      assert forall m :: m in ms <==> m == ms[0] || m in ms[1..];
      if ms[0].name == metric && Named(ms[1..], metric) != [] {
        assert Named(ms[1..], metric)[0] in ms[1..];
      }
    }
  }

  lemma MetricNamesDiffer()
    ensures forall i, j | 0 <= i < j < |METRICS| :: METRICS[i] != METRICS[j]
  {
    assert METRICS == NUMERIC_METRICS + VALUE_METRICS && |METRICS| == 11;
    assert |METRICS[0]| == 21 && |METRICS[1]| == 26 && |METRICS[2]| == 22 && |METRICS[3]| == 21 && |METRICS[4]| == 15;
    assert |METRICS[5]| == 14 && |METRICS[6]| == 17 && |METRICS[7]| == 25 && |METRICS[8]| == 27 && |METRICS[9]| == 45 &&
           |METRICS[10]| == 51;
    assert METRICS[0][0] == 'w' && METRICS[3][0] == 'a';
  }

  lemma MetricAt(b: Option<Fixture>, c: Option<Fixture>, i: nat)
    requires i < |METRICS|
    ensures MetricsOf(b, c)[i].name == METRICS[i]
  {
  }

  /** In a comparison that was just built, every fixture and every metric is found at most once:
      a threshold that names its fixture is never malformed for that reason. */
  lemma GeneratedResolves(baseline: seq<Fixture>, current: seq<Fixture>, cs: seq<Comparison>,
                          filed: map<string, Option<Comparison>>, e: Entry)
    requires IsComparison(cs, baseline, current) && Filed(filed, cs)
    requires e.target.FixtureTarget? && e.target.name.Some?
    ensures FixtureMetric(e, filed) != Problem
    ensures FixtureMetric(e, filed).FoundMetric? ==>
              exists c :: c in cs && c.fixture == e.target.name.value &&
                          FixtureMetric(e, filed).m in c.metrics && FixtureMetric(e, filed).m.name == e.metric
  {
    hide Faithful, StrLe;
    var name := e.target.name.value;
    if name in filed {
      assert filed[name].Some?;
      var c := filed[name].value;
      ComparisonMetrics(baseline, current, c);
      NamedIsUnique(c.metrics, e.metric);
    }
  }

  lemma CompareNames(name: string, b: Option<Fixture>, c: Option<Fixture>)
    ensures CompareFixture(name, b, c).fixture == name && CompareFixture(name, b, c).metrics == MetricsOf(b, c)
  {
  }

  lemma ComparisonMetrics(baseline: seq<Fixture>, current: seq<Fixture>, c: Comparison)
    requires Faithful(c, baseline, current)
    ensures exists b, d :: LastNamed(baseline, c.fixture, b) && LastNamed(current, c.fixture, d) &&
                           c.metrics == MetricsOf(b, d)
    ensures forall i, j | 0 <= i < j < |c.metrics| :: c.metrics[i].name != c.metrics[j].name
  {
    hide CompareFixture, MetricsOf, METRICS, LastNamed;
    var b, d :| LastNamed(baseline, c.fixture, b) && LastNamed(current, c.fixture, d) &&
                c == CompareFixture(c.fixture, b, d);
    CompareNames(c.fixture, b, d);
    MetricNamesDiffer();
    forall k | 0 <= k < |METRICS| ensures c.metrics[k].name == METRICS[k] { MetricAt(b, d, k); }
  }

  lemma LastIsUnique(fs: seq<Fixture>, name: string, f: Option<Fixture>, g: Option<Fixture>)
    requires LastNamed(fs, name, f) && LastNamed(fs, name, g)
    ensures f == g
  {
  }

  // ----- a metric in a generated comparison -----

  /** m compares b with c. */
  predicate Compares(m: Metric, b: Value, c: Value) {
    m == CompareNumeric(m.name, b, c) || m == CompareValue(m.name, b, c)
  }

  lemma GeneratedMetrics(baseline: seq<Fixture>, current: seq<Fixture>, c: Comparison, m: Metric)
    requires Faithful(c, baseline, current) && m in c.metrics
    ensures exists x, y :: Compares(m, x, y) && (baseline == current ==> x == y)
  {
    hide LastNamed, CompareNumeric, CompareValue;
    ComparisonMetrics(baseline, current, c);
    var b, d :| LastNamed(baseline, c.fixture, b) && LastNamed(current, c.fixture, d) && c.metrics == MetricsOf(b, d);
    if baseline == current { LastIsUnique(baseline, c.fixture, b, d); }
    var i :| 0 <= i < |METRICS| && m == MetricsOf(b, d)[i];
    if b.Some? && d.Some? {
      var x, y := MetricOf(b.value, METRICS[i]), MetricOf(d.value, METRICS[i]);
      CompareKeepsName(METRICS[i], x, y);
      assert Compares(m, x, y);
    } else {
      NothingCompared(METRICS[i]);
      assert Compares(m, Null, Null);
    }
  }

  lemma CompareKeepsName(metric: string, b: Value, c: Value)
    ensures CompareNumeric(metric, b, c).name == metric && CompareValue(metric, b, c).name == metric
  {
  }

  lemma NothingCompared(metric: string)
    ensures UnavailableMetric(metric, Null, Null) == CompareValue(metric, Null, Null)
  {
  }

  /** Expectations that a report compared with itself must meet. */
  predicate ExpectsNoChange(e: Entry) {
    match e.kind
    case MaxAbsoluteDelta => e.limit >= 0.0
    case MaxRelativeDelta => e.limit >= 0.0
    case Equals => e.expected == Str("unchanged")
    case ChangedOrUnchanged => e.expected == Str("unchanged")
    case _ => true
  }

  /** A report compared with itself breaches no delta limit and no expectation of no change. */
  lemma SelfNeverBreached(report: seq<Fixture>, cs: seq<Comparison>, filed: map<string, Option<Comparison>>,
                          fields: map<string, Value>, e: Entry)
    requires IsComparison(cs, report, report) && Filed(filed, cs) && ExpectsNoChange(e)
    ensures EvaluateThreshold(e, filed, fields) != Breached
  {
    hide Filed, CompareNumeric, CompareValue, JudgeMetric, Compares, Faithful, FixtureMetric, BatchMetric;
    if e.target.FixtureTarget? && FixtureMetric(e, filed).FoundMetric? {
      FoundIsNamed(e, filed);
      GeneratedResolves(report, report, cs, filed, e);
      var m := FixtureMetric(e, filed).m;
      var c :| c in cs && m in c.metrics;
      GeneratedMetrics(report, report, c, m);
      var x, y :| Compares(m, x, y) && x == y;
      SameValueHolds(e, m, x);
    }
    if e.target.BatchTarget? && BatchMetric(e, fields).FoundMetric? { BatchHolds(e, fields); }
  }

  lemma FoundIsNamed(e: Entry, filed: map<string, Option<Comparison>>)
    requires e.target.FixtureTarget? && FixtureMetric(e, filed).FoundMetric?
    ensures e.target.name.Some?
  {
  }

  lemma SameValueHolds(e: Entry, m: Metric, x: Value)
    requires Compares(m, x, x) && ExpectsNoChange(e)
    ensures JudgeMetric(e, m) != Breached
  {
  }

  lemma BatchHolds(e: Entry, fields: map<string, Value>)
    requires e.target.BatchTarget? && BatchMetric(e, fields).FoundMetric?
    ensures ExpectsNoChange(e) ==> JudgeMetric(e, BatchMetric(e, fields).m) != Breached
    ensures BatchMetric(e, fields).m.class_ == Unavailable &&
            e.kind in {MaxAbsoluteDelta, MaxRelativeDelta, ChangedOrUnchanged, MustBeAvailable}
        ==> JudgeMetric(e, BatchMetric(e, fields).m) == NotAvailable
  {
  }

  /** Raising a delta limit never turns satisfied into anything else. */
  lemma LimitIsMonotone(e: Entry, limit: real, filed: map<string, Option<Comparison>>, fields: map<string, Value>)
    requires e.kind in {MaxAbsoluteDelta, MaxRelativeDelta} && e.limit <= limit
    requires EvaluateThreshold(e, filed, fields) == Satisfied
    ensures EvaluateThreshold(e.(limit := limit), filed, fields) == Satisfied
  {
    assert MetricFor(e.(limit := limit), filed, fields) == MetricFor(e, filed, fields);
  }

  /** In a generated comparison an unavailable metric satisfies neither a delta limit nor a demand
      for a class or for availability. */
  lemma UnavailableNeverSatisfies(baseline: seq<Fixture>, current: seq<Fixture>, cs: seq<Comparison>,
                                  filed: map<string, Option<Comparison>>, fields: map<string, Value>, e: Entry)
    requires IsComparison(cs, baseline, current) && Filed(filed, cs) && !e.target.OtherTarget?
    requires MetricFor(e, filed, fields).FoundMetric? && MetricFor(e, filed, fields).m.class_ == Unavailable
    requires e.kind in {MaxAbsoluteDelta, MaxRelativeDelta, ChangedOrUnchanged, MustBeAvailable}
    ensures EvaluateThreshold(e, filed, fields) == NotAvailable
  {
    hide Filed, CompareNumeric, CompareValue, JudgeMetric, Compares, Faithful, FixtureMetric, BatchMetric;
    if e.target.FixtureTarget? {
      FoundIsNamed(e, filed);
      GeneratedResolves(baseline, current, cs, filed, e);
      var m := FixtureMetric(e, filed).m;
      var c :| c in cs && m in c.metrics;
      GeneratedMetrics(baseline, current, c, m);
      var x, y :| Compares(m, x, y);
      UnavailableIsNotJudged(e, m, x, y);
    } else {
      BatchHolds(e, fields);
    }
  }

  lemma UnavailableIsNotJudged(e: Entry, m: Metric, x: Value, y: Value)
    requires Compares(m, x, y) && m.class_ == Unavailable
    requires e.kind in {MaxAbsoluteDelta, MaxRelativeDelta, ChangedOrUnchanged, MustBeAvailable}
    ensures JudgeMetric(e, m) == NotAvailable
  {
  }

  /** `equals` is different: it may read a present current value of an unavailable metric. */
  lemma EqualsReadsPresentValue(metric: string, x: real)
    ensures var m := CompareNumeric(metric, Null, Num(x));
            m.class_ == Unavailable && JudgeMetric(Entry(OtherTarget, metric, Equals, 0.0, Num(x)), m) == Satisfied
  {
  }
}
