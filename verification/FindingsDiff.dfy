/** Comparing two findings documents by finding key
    (iamscope/findings_diff.py, diff_findings, _findings_by_key, _change_for_common and summary). */
module FindingsDiff {
  import opened Basics
  import opened Ordering
  import opened Values

  /** An element of a list: a dict, of which one entry matters, or something else. */
  datatype Item = Entry(tag: Field, rest: string) | Other(text: string)

  /** A field read as a list: what iterating over it gives. An absent one is the empty list, and so is
      a falsy one where the code reads `field or []`, in the checks and blockers. A Scalar is a value
      that cannot be iterated over, such as a number or true, and in the trace also null and false. */
  datatype Listing = Items(items: seq<Item>) | Scalar(text: string)

  /** `core` holds the evidence fields other than the reasoning trace, as JSON text. */
  datatype Evidence = NotADict | Evidence(core: map<string, string>, trace: Listing)

  datatype Finding = Finding(key: Field, findingId: Field, verdict: Field, evidence: Evidence,
                             requiredChecks: Listing, blockersObserved: Listing, context: string)

  datatype Element = NotAnObject | Object(finding: Finding)

  datatype Findings = NotAList | Listed(elements: seq<Element>)

  datatype Document = Document(findings: Findings, canonicalHash: string)

  datatype ChangeType = Added | Removed | VerdictChanged | EvidenceChanged | TraceChanged | ProbeAdded

  datatype Change = Change(key: string, types: seq<ChangeType>, baselineId: Option<string>, candidateId: Option<string>,
                           baselineVerdict: Option<string>, candidateVerdict: Option<string>, probeAdded: bool,
                           context: string)

  datatype Comparison = Comparison(baselineTotal: nat, candidateTotal: nat, baselineHash: string, candidateHash: string,
                                   changes: seq<Change>)

  datatype Error = ValueError | TypeError

  datatype Outcome<+T> = Done(value: T) | Raised(error: Error)

  // ----- one finding -----

  function TextOrNone(f: Field): Option<string> {
    if f.Given? && f.value.Text? then Some(f.value.s) else None
  }

  function Verdict(f: Finding): Option<string> { TextOrNone(f.verdict) }

  function EvidenceCore(f: Finding): map<string, string> {
    match f.evidence
    case NotADict => map[]
    case Evidence(core, _) => core
  }

  function Trace(f: Finding): Listing {
    match f.evidence
    case NotADict => Items([])
    case Evidence(_, trace) => trace
  }

  /** Whether some element of the list is a dict that carries the tag. None when the value cannot be
      iterated over. */
  function AnyTagged(l: Listing, tag: string): Option<bool> {
    match l
    case Scalar(_) => None
    case Items(items) => Some(exists x :: x in items && x.Entry? && x.tag == Given(Text(tag)))
  }

  function HasProbeEvidence(f: Finding): Option<bool> {
    var checks := AnyTagged(f.requiredChecks, "probe_overlay_runtime_truth");
    if checks != Some(false) then checks
    else
      var blockers := AnyTagged(f.blockersObserved, "probe_overlay");
      if blockers != Some(false) then blockers
      else AnyTagged(Trace(f), "apply_probe_overlay")
  }

  /** Probe evidence is there after and was not before. The second finding is not looked at when the
      first already has it. */
  function ProbeGained(before: Finding, after: Finding): Option<bool> {
    match HasProbeEvidence(before)
    case None => None
    case Some(true) => Some(false)
    case Some(false) => HasProbeEvidence(after)
  }

  function ChangeTypes(before: Finding, after: Finding, gained: bool): seq<ChangeType> {
    var types := AppendIf([], Verdict(before) != Verdict(after), VerdictChanged);
    var types := AppendIf(types, EvidenceCore(before) != EvidenceCore(after), EvidenceChanged);
    var types := AppendIf(types, Trace(before) != Trace(after), TraceChanged);
    AppendIf(types, gained, ProbeAdded)
  }

  /** The change recorded for a key: at most one. None when looking for probe evidence raises. */
  function ChangeFor(key: string, before: Option<Finding>, after: Option<Finding>): Option<seq<Change>> {
    match (before, after)
    case (None, None) => Some([])
    case (None, Some(a)) =>
      (match HasProbeEvidence(a)
       case None => None
       case Some(probe) =>
         Some([Change(key, [Added], None, TextOrNone(a.findingId), None, Verdict(a), probe, a.context)]))
    case (Some(b), None) =>
      Some([Change(key, [Removed], TextOrNone(b.findingId), None, Verdict(b), None, false, b.context)])
    case (Some(b), Some(a)) =>
      (match ProbeGained(b, a)
       case None => None
       case Some(gained) =>
         var types := ChangeTypes(b, a, gained);
         Some(if types == [] then []
              else [Change(key, types, TextOrNone(b.findingId), TextOrNone(a.findingId), Verdict(b), Verdict(a), gained,
                           a.context)]))
  }

  function At(m: map<string, Finding>, key: string): Option<Finding> {
    if key in m then Some(m[key]) else None
  }

  // ----- indexing -----

  /** The usable key of an element. */
  function KeyOf(e: Element): Option<string> {
    if e.Object? && TextOrNone(e.finding.key).Some? && TextOrNone(e.finding.key).value != "" then
      TextOrNone(e.finding.key)
    else None
  }

  ghost predicate WellKeyed(es: seq<Element>) {
    && (forall i | 0 <= i < |es| :: KeyOf(es[i]).Some?)
    && (forall i, j | 0 <= i < j < |es| :: KeyOf(es[i]) != KeyOf(es[j]))
  }

  /** m files every element under its key, and nothing else. */
  ghost predicate IndexOf(m: map<string, Finding>, es: seq<Element>) {
    && |m| == |es|
    && (forall i | 0 <= i < |es| ::
          KeyOf(es[i]).Some? && KeyOf(es[i]).value in m && es[i] == Object(m[KeyOf(es[i]).value]))
    && (forall k | k in m :: Object(m[k]) in es && KeyOf(Object(m[k])) == Some(k))
  }

  ghost predicate Usable(fs: Findings) { fs.Listed? && WellKeyed(fs.elements) }

  lemma RepeatedKey(m: map<string, Finding>, es: seq<Element>, e: Element)
    requires WellKeyed(es) && IndexOf(m, es) && KeyOf(e).Some? && KeyOf(e).value in m
    ensures !WellKeyed(es + [e])
  {
    hide KeyOf;
    var all := es + [e];
    var j :| 0 <= j < |es| && es[j] == Object(m[KeyOf(e).value]);
    assert all[j] == es[j] && all[|es|] == e;
    assert KeyOf(all[j]) == KeyOf(all[|es|]);
  }

  lemma NewKey(m: map<string, Finding>, es: seq<Element>, e: Element)
    requires WellKeyed(es) && IndexOf(m, es) && KeyOf(e).Some? && KeyOf(e).value !in m && e.Object?
    ensures WellKeyed(es + [e]) && IndexOf(m[KeyOf(e).value := e.finding], es + [e])
  {
    hide KeyOf;
    var all := es + [e];
    assert all[|es|] == e && forall i | 0 <= i < |es| :: all[i] == es[i];
    forall x | x in m ensures Object(m[x]) in all {
      var j :| 0 <= j < |es| && es[j] == Object(m[x]);
      assert all[j] == Object(m[x]);
    }
  }

  lemma NothingIndexed()
    ensures WellKeyed([]) && IndexOf(map[], [])
  {
  }

  lemma KeyedIsObject(e: Element)
    ensures KeyOf(e).Some? ==> e.Object?
  {
  }

  lemma PrefixWellKeyed(es: seq<Element>, i: nat)
    requires i < |es| && (KeyOf(es[i]).None? || !WellKeyed(es[..i+1]))
    ensures !WellKeyed(es)
  {
  }

  method FindingsByKey(fs: Findings) returns (r: Outcome<map<string, Finding>>)
    ensures r.Done? <==> Usable(fs)
    ensures r.Raised? ==> r.error == ValueError
    ensures r.Done? ==> IndexOf(r.value, fs.elements)
  {
    hide WellKeyed, IndexOf, KeyOf;
    if fs.NotAList? { return Raised(ValueError); }
    var es := fs.elements;
    NothingIndexed();
    var indexed: map<string, Finding> := map[];
    for i := 0 to |es|
      invariant WellKeyed(es[..i]) && IndexOf(indexed, es[..i])
    {
      assert es[..i+1] == es[..i] + [es[i]];
      if KeyOf(es[i]).None? {
        PrefixWellKeyed(es, i);
        return Raised(ValueError);
      }
      var key := KeyOf(es[i]).value;
      if key in indexed {
        RepeatedKey(indexed, es[..i], es[i]);
        PrefixWellKeyed(es, i);
        return Raised(ValueError);
      }
      KeyedIsObject(es[i]);
      NewKey(indexed, es[..i], es[i]);
      indexed := indexed[key := es[i].finding];
    }
    assert es[..|es|] == es;
    r := Done(indexed);
  }

  // ----- the comparison -----

  function ChangesFor(b: map<string, Finding>, c: map<string, Finding>, keys: seq<string>): Option<seq<Change>> {
    if keys == [] then Some([])
    else
      var key := keys[|keys|-1];
      var before, here := ChangesFor(b, c, keys[..|keys|-1]), ChangeFor(key, At(b, key), At(c, key));
      if before.None? || here.None? then None else Some(before.value + here.value)
  }

  /** What diff_findings makes of two indexed documents. */
  function Compared(b: map<string, Finding>, c: map<string, Finding>): Option<seq<Change>> {
    ChangesFor(b, c, Enumerate(b.Keys + c.Keys))
  }

  lemma {:induction false} RaisedStaysRaised(b: map<string, Finding>, c: map<string, Finding>, keys: seq<string>,
                                             i: nat)
    requires i <= |keys| && ChangesFor(b, c, keys[..i]).None?
    ensures ChangesFor(b, c, keys).None?
    decreases |keys|
  {
    if i < |keys| {
      assert keys[..|keys|-1][..i] == keys[..i];
      RaisedStaysRaised(b, c, keys[..|keys|-1], i);
    } else {
      assert keys[..i] == keys;
    }
  }

  /** r is the comparison of the indexed documents, or the error it ends with. */
  ghost predicate IsOutcome(r: Outcome<Comparison>, b: map<string, Finding>, c: map<string, Finding>,
                            baseline: Document, candidate: Document)
  {
    match Compared(b, c)
    case None => r == Raised(TypeError)
    case Some(changes) => r == Done(Comparison(|b|, |c|, baseline.canonicalHash, candidate.canonicalHash, changes))
  }

  method DiffFindings(baseline: Document, candidate: Document) returns (r: Outcome<Comparison>)
    ensures r == Raised(ValueError) <==> !Usable(baseline.findings) || !Usable(candidate.findings)
    ensures Usable(baseline.findings) && Usable(candidate.findings) ==>
              exists b, c :: IndexOf(b, baseline.findings.elements) && IndexOf(c, candidate.findings.elements) &&
                             IsOutcome(r, b, c, baseline, candidate)
  {
    hide ChangeFor, Usable, IndexOf, Enumerate, At, ChangesFor, IsOutcome;
    var indexedB := FindingsByKey(baseline.findings);
    if indexedB.Raised? { return Raised(indexedB.error); }
    var indexedC := FindingsByKey(candidate.findings);
    if indexedC.Raised? { return Raised(indexedC.error); }
    var b, c := indexedB.value, indexedC.value;
    var keys := Enumerate(b.Keys + c.Keys);
    var changes: seq<Change> := [];
    NoChangesYet(b, c);
    for i := 0 to |keys|
      invariant ChangesFor(b, c, keys[..i]) == Some(changes)
    {
      NextChange(b, c, keys, i);
      var change := ChangeFor(keys[i], At(b, keys[i]), At(c, keys[i]));
      if change.None? {
        RaisedStaysRaised(b, c, keys, i + 1);
        r := Raised(TypeError);
        assert IsOutcome(r, b, c, baseline, candidate) by { OutcomeMeans(r, b, c, baseline, candidate); }
        return;
      }
      changes := changes + change.value;
    }
    assert keys[..|keys|] == keys;
    r := Done(Comparison(|b|, |c|, baseline.canonicalHash, candidate.canonicalHash, changes));
    assert IsOutcome(r, b, c, baseline, candidate) by { OutcomeMeans(r, b, c, baseline, candidate); }
  }

  lemma OutcomeMeans(r: Outcome<Comparison>, b: map<string, Finding>, c: map<string, Finding>, baseline: Document,
                     candidate: Document)
    requires var all := ChangesFor(b, c, Enumerate(b.Keys + c.Keys));
             r == if all.None? then Raised(TypeError)
                  else Done(Comparison(|b|, |c|, baseline.canonicalHash, candidate.canonicalHash, all.value))
    ensures IsOutcome(r, b, c, baseline, candidate)
  {
    hide ChangesFor, Enumerate;
  }

  lemma NoChangesYet(b: map<string, Finding>, c: map<string, Finding>)
    ensures ChangesFor(b, c, []) == Some([])
  {
  }

  lemma NextChange(b: map<string, Finding>, c: map<string, Finding>, keys: seq<string>, i: nat)
    requires i < |keys|
    ensures var before, here := ChangesFor(b, c, keys[..i]), ChangeFor(keys[i], At(b, keys[i]), At(c, keys[i]));
            ChangesFor(b, c, keys[..i+1]) == if before.None? || here.None? then None
                                             else Some(before.value + here.value)
  {
    hide ChangeFor, At;
    assert keys[..i+1][..i] == keys[..i];
  }

  // ----- what is reported -----

  /** A shared key is left out exactly when verdict, evidence and trace agree and no probe
      evidence was gained. */
  predicate Altered(b: map<string, Finding>, c: map<string, Finding>, key: string) {
    if key in b && key in c then
      || Verdict(b[key]) != Verdict(c[key])
      || EvidenceCore(b[key]) != EvidenceCore(c[key])
      || Trace(b[key]) != Trace(c[key])
      || (HasProbeEvidence(b[key]) == Some(false) && HasProbeEvidence(c[key]) == Some(true))
    else key in b || key in c
  }

  lemma AlteredMeans(b: map<string, Finding>, c: map<string, Finding>, key: string)
    ensures Altered(b, c, key) <==> exists t :: Has(b, c, key, t)
  {
    hide Verdict, EvidenceCore, Trace, HasProbeEvidence;
    if Altered(b, c, key) {
      assert Has(b, c, key, Added) || Has(b, c, key, Removed) || Has(b, c, key, VerdictChanged) ||
             Has(b, c, key, EvidenceChanged) || Has(b, c, key, TraceChanged) || Has(b, c, key, ProbeAdded);
    }
  }

  lemma ChangeForMeans(b: map<string, Finding>, c: map<string, Finding>, key: string)
    requires ChangeFor(key, At(b, key), At(c, key)).Some?
    ensures var r := ChangeFor(key, At(b, key), At(c, key)).value;
            if Altered(b, c, key) then |r| == 1 && r[0].key == key && IsChange(b, c, r[0]) else r == []
  {
    hide Verdict, EvidenceCore, Trace, HasProbeEvidence, TextOrNone, ChangeTypes;
    if key in b && key in c {
      var gained := ProbeGained(b[key], c[key]).value;
      TypesMean(b[key], c[key], gained);
    }
  }

  lemma TypesMean(before: Finding, after: Finding, gained: bool)
    ensures var t := ChangeTypes(before, after, gained);
            && Added !in t && Removed !in t
            && (VerdictChanged in t <==> Verdict(before) != Verdict(after))
            && (EvidenceChanged in t <==> EvidenceCore(before) != EvidenceCore(after))
            && (TraceChanged in t <==> Trace(before) != Trace(after))
            && (ProbeAdded in t <==> gained)
            && (t == [] <==> VerdictChanged !in t && EvidenceChanged !in t && TraceChanged !in t && ProbeAdded !in t)
  {
    hide Verdict, EvidenceCore, Trace, AppendIf;
  }

  /** The change of type t has happened to the finding with this key. */
  predicate Has(b: map<string, Finding>, c: map<string, Finding>, key: string, t: ChangeType) {
    match t
    case Added => key !in b && key in c
    case Removed => key in b && key !in c
    case VerdictChanged => key in b && key in c && Verdict(b[key]) != Verdict(c[key])
    case EvidenceChanged => key in b && key in c && EvidenceCore(b[key]) != EvidenceCore(c[key])
    case TraceChanged => key in b && key in c && Trace(b[key]) != Trace(c[key])
    case ProbeAdded =>
      key in b && key in c && HasProbeEvidence(b[key]) == Some(false) && HasProbeEvidence(c[key]) == Some(true)
  }

  /** An entry lists exactly the changes that happened, and both verdicts. */
  ghost predicate IsChange(b: map<string, Finding>, c: map<string, Finding>, x: Change) {
    && (forall t :: t in x.types <==> Has(b, c, x.key, t))
    && x.baselineVerdict == (if x.key in b then Verdict(b[x.key]) else None)
    && x.candidateVerdict == (if x.key in c then Verdict(c[x.key]) else None)
    && (x.probeAdded <==> x.key in c && HasProbeEvidence(c[x.key]) == Some(true) &&
                          (x.key in b ==> HasProbeEvidence(b[x.key]) == Some(false)))
  }

  /** Exactly one entry per altered key, in ascending order of the keys. */
  lemma {:induction false} ReportedExactly(b: map<string, Finding>, c: map<string, Finding>, keys: seq<string>)
    requires Ascending(keys) && ChangesFor(b, c, keys).Some?
    ensures var r := ChangesFor(b, c, keys).value;
            && (forall i, j | 0 <= i < j < |r| :: StrLess(r[i].key, r[j].key))
            && (forall i | 0 <= i < |r| :: r[i].key in keys && Altered(b, c, r[i].key) && IsChange(b, c, r[i]))
            && (forall k | k in keys && Altered(b, c, k) :: exists i :: 0 <= i < |r| && r[i].key == k)
  {
    hide ChangeFor, Altered, IsChange, StrLe, At;
    if keys != [] {
      var init, key := keys[..|keys|-1], keys[|keys|-1];
      assert forall k :: k in keys <==> k in init || k == key;
      ReportedExactly(b, c, init);
      ChangeForMeans(b, c, key);
      var before: seq<Change> := ChangesFor(b, c, init).value;
      var here: seq<Change> := ChangeFor(key, At(b, key), At(c, key)).value;
      forall k | k in init ensures StrLess(k, key) {
        var i :| 0 <= i < |init| && init[i] == k;
        assert keys[i] == k;
      }
      forall k | k in init && Altered(b, c, k)
        ensures exists i :: 0 <= i < |before + here| && (before + here)[i].key == k
      {
        var i :| 0 <= i < |before| && before[i].key == k;
        assert (before + here)[i].key == k;
      }
      if Altered(b, c, key) { assert (before + here)[|before|] == here[0]; }
    }
  }

  // ----- totals -----

  /** The number of entries that list the change type. */
  function CountType(changes: seq<Change>, t: ChangeType): nat {
    if changes == [] then 0
    else CountType(changes[..|changes|-1], t) + if t in changes[|changes|-1].types then 1 else 0
  }

  function KeysWith(b: map<string, Finding>, c: map<string, Finding>, keys: seq<string>, t: ChangeType): set<string> {
    set k | k in keys && Has(b, c, k, t)
  }

  lemma CountAppend(before: seq<Change>, here: seq<Change>, t: ChangeType)
    requires |here| <= 1
    ensures CountType(before + here, t) == CountType(before, t) + if here != [] && t in here[0].types then 1 else 0
  {
    if here == [] {
      assert before + here == before;
    } else {
      assert (before + here)[..|before|] == before;
    }
  }

  lemma KeysAppend(b: map<string, Finding>, c: map<string, Finding>, init: seq<string>, key: string, t: ChangeType)
    requires key !in init
    ensures |KeysWith(b, c, init + [key], t)| == |KeysWith(b, c, init, t)| + if Has(b, c, key, t) then 1 else 0
  {
    hide Has;
    assert forall k :: k in init + [key] <==> k in init || k == key;
    var w, all := KeysWith(b, c, init, t), KeysWith(b, c, init + [key], t);
    if Has(b, c, key, t) {
      assert all == w + {key};
    } else {
      assert all == w;
    }
  }

  lemma {:induction false} CountsAreSets(b: map<string, Finding>, c: map<string, Finding>, keys: seq<string>,
                                         t: ChangeType)
    requires Ascending(keys) && ChangesFor(b, c, keys).Some?
    ensures CountType(ChangesFor(b, c, keys).value, t) == |KeysWith(b, c, keys, t)|
  {
    hide ChangeFor, Has, StrLe, At, Altered, KeysWith, CountType;
    if keys == [] {
      NoneCounted(b, c, t);
    } else {
      var init, key := keys[..|keys|-1], keys[|keys|-1];
      assert keys == init + [key] && key !in init;
      CountsAreSets(b, c, init, t);
      ChangeForMeans(b, c, key);
      AlteredMeans(b, c, key);
      KeysAppend(b, c, init, key, t);
      CountAppend(ChangesFor(b, c, init).value, ChangeFor(key, At(b, key), At(c, key)).value, t);
    }
  }

  lemma NoneCounted(b: map<string, Finding>, c: map<string, Finding>, t: ChangeType)
    ensures CountType([], t) == 0 && KeysWith(b, c, [], t) == {}
  {
  }

  lemma OneSided(b: map<string, Finding>, c: map<string, Finding>, keys: seq<string>)
    requires forall k :: k in keys <==> k in b.Keys + c.Keys
    ensures KeysWith(b, c, keys, Removed) == b.Keys - c.Keys && KeysWith(b, c, keys, Added) == c.Keys - b.Keys
  {
  }

  /** The summary balances: baseline findings minus removed plus added are the candidate findings. */
  lemma TotalsBalance(b: map<string, Finding>, c: map<string, Finding>)
    requires Compared(b, c).Some?
    ensures |b| - CountType(Compared(b, c).value, Removed) + CountType(Compared(b, c).value, Added) == |c|
  {
    hide ChangesFor, Enumerate, Has, KeysWith, CountType, StrLe;
    var keys := Enumerate(b.Keys + c.Keys);
    CountsAreSets(b, c, keys, Removed);
    CountsAreSets(b, c, keys, Added);
    OneSided(b, c, keys);
    SetSizes(b.Keys, c.Keys);
  }

  lemma SetSizes(x: set<string>, y: set<string>)
    ensures |x| - |x - y| + |y - x| == |y|
  {
    assert x == (x - y) + (x * y) && y == (y - x) + (x * y);
  }

  function Mirrored(t: ChangeType): ChangeType {
    match t
    case Added => Removed
    case Removed => Added
    case _ => t
  }

  /** Swapping the documents swaps added and removed and keeps the verdict, evidence and trace
      counts. */
  lemma SwapSymmetry(b: map<string, Finding>, c: map<string, Finding>, t: ChangeType)
    requires Compared(b, c).Some? && Compared(c, b).Some? && t != ProbeAdded
    ensures CountType(Compared(c, b).value, Mirrored(t)) == CountType(Compared(b, c).value, t)
  {
    hide ChangesFor, Enumerate, KeysWith, CountType, Has, StrLe;
    var keys := Enumerate(b.Keys + c.Keys);
    assert c.Keys + b.Keys == b.Keys + c.Keys;
    CountsAreSets(b, c, keys, t);
    CountsAreSets(c, b, keys, Mirrored(t));
    MirroredKeys(b, c, keys, t);
  }

  lemma MirroredKeys(b: map<string, Finding>, c: map<string, Finding>, keys: seq<string>, t: ChangeType)
    requires t != ProbeAdded
    ensures KeysWith(b, c, keys, t) == KeysWith(c, b, keys, Mirrored(t))
  {
    hide Verdict, EvidenceCore, Trace;
  }

  /** A document compared with itself has no changes. */
  lemma SelfHasNoChanges(b: map<string, Finding>)
    requires Compared(b, b).Some?
    ensures Compared(b, b) == Some([])
  {
    hide ChangesFor, Enumerate, Verdict, EvidenceCore, Trace, HasProbeEvidence;
    ReportedExactly(b, b, Enumerate(b.Keys + b.Keys));
    var r: seq<Change> := Compared(b, b).value;
    assert r != [] ==> Altered(b, b, r[0].key);
  }

  // ----- when there is no comparison -----

  predicate Tagged(l: Listing, tag: string) {
    l.Items? && exists x :: x in l.items && x.Entry? && x.tag == Given(Text(tag))
  }

  /** A scalar stands where a list is looked through, and no list before it had the tag. */
  predicate MeetsScalar(f: Finding) {
    || f.requiredChecks.Scalar?
    || (!Tagged(f.requiredChecks, "probe_overlay_runtime_truth") &&
        (f.blockersObserved.Scalar? || (!Tagged(f.blockersObserved, "probe_overlay") && Trace(f).Scalar?)))
  }

  /** All three lists are there and none has its tag. */
  predicate Untagged(f: Finding) {
    && f.requiredChecks.Items? && !Tagged(f.requiredChecks, "probe_overlay_runtime_truth")
    && f.blockersObserved.Items? && !Tagged(f.blockersObserved, "probe_overlay")
    && Trace(f).Items? && !Tagged(Trace(f), "apply_probe_overlay")
  }

  /** The fields of a finding that make the lookup fail, and those that make it fail to find. */
  lemma LookupExactly(f: Finding)
    ensures HasProbeEvidence(f).None? <==> MeetsScalar(f)
    ensures HasProbeEvidence(f) == Some(false) <==> Untagged(f)
  {
    hide Trace;
  }

  /** Looking for probe evidence of this key raises: in the baseline finding, or in the candidate
      finding when that one is looked at. */
  predicate ProbeRaises(b: map<string, Finding>, c: map<string, Finding>, key: string) {
    && key in c
    && if key in b then MeetsScalar(b[key]) || (Untagged(b[key]) && MeetsScalar(c[key])) else MeetsScalar(c[key])
  }

  lemma ProbeRaisesExactly(b: map<string, Finding>, c: map<string, Finding>, key: string)
    ensures ChangeFor(key, At(b, key), At(c, key)).None? <==> ProbeRaises(b, c, key)
  {
    hide HasProbeEvidence, MeetsScalar, Untagged, ChangeTypes;
    if key in b { LookupExactly(b[key]); }
    if key in c { LookupExactly(c[key]); }
  }

  /** A comparison of indexed documents fails exactly when that happens for some key. */
  lemma {:induction false} RaisesExactly(b: map<string, Finding>, c: map<string, Finding>, keys: seq<string>)
    ensures ChangesFor(b, c, keys).None? <==> exists k :: k in keys && ProbeRaises(b, c, k)
  {
    hide ChangeFor, ProbeRaises;
    if keys != [] {
      var init, key := keys[..|keys|-1], keys[|keys|-1];
      assert forall k :: k in keys <==> k in init || k == key;
      RaisesExactly(b, c, init);
      ProbeRaisesExactly(b, c, key);
    }
  }
}
