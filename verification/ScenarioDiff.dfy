/** Comparing two scenario snapshots (iamscope/diff.py, _diff_by_id, _diff_edge_constraints,
    _find_changes, diff_scenarios and DiffResult.has_changes). */
module ScenarioDiff {
  import opened Basics
  import opened Ordering
  import Models

  /** One dict of a scenario array: ids as they are, other fields as canonical JSON text. */
  type Record = map<string, string>

  datatype FieldChange = FieldChange(field: string, before: string, after: string)

  datatype Modification = Modification(id: string, changes: seq<FieldChange>)

  /** The key of a record; records without one are left out of the comparison. */
  type KeyOf = Record -> Option<string>

  function ById(idKey: string): KeyOf { (r: Record) => if idKey in r then Some(r[idKey]) else None }

  function LinkKey(edgeId: string, constraintId: string): string { edgeId + "|" + constraintId }

  function OrEmpty(r: Record, f: string): string { if f in r then r[f] else "" }

  const BY_LINK: KeyOf := (r: Record) => Some(LinkKey(OrEmpty(r, "edge_id"), OrEmpty(r, "constraint_id")))

  /** The value of a field: an absent one compares like null. */
  function Lookup(r: Record, f: string): string { if f in r then r[f] else "null" }

  const NODE_FIELDS: seq<string> := ["properties"]
  const EDGE_FIELDS: seq<string> := ["features"]

  // ----- specification -----

  /** Later records replace earlier ones with the same key. */
  function View(items: seq<Record>, key: KeyOf): (v: map<string, Record>)
    ensures forall id | id in v :: key(v[id]) == Some(id)
  {
    if items == [] then map[]
    else
      var last, v := items[|items|-1], View(items[..|items|-1], key);
      if key(last).Some? then v[key(last).value := last] else v
  }

  function Changes(was: Record, now: Record, keys: seq<string>): seq<FieldChange> {
    if keys == [] then []
    else
      var f := keys[|keys|-1];
      Changes(was, now, keys[..|keys|-1]) +
      if Lookup(was, f) != Lookup(now, f) then [FieldChange(f, Lookup(was, f), Lookup(now, f))] else []
  }

  function Pick(v: map<string, Record>, ids: seq<string>): (r: seq<Record>)
    requires forall id | id in ids :: id in v
    ensures |r| == |ids| && forall i | 0 <= i < |ids| :: r[i] == v[ids[i]]
  {
    seq(|ids|, i requires 0 <= i < |ids| => v[ids[i]])
  }

  function Modified(b: map<string, Record>, a: map<string, Record>, keys: seq<string>,
                    ids: seq<string>): seq<Modification>
    requires forall id | id in ids :: id in b && id in a
  {
    if ids == [] then []
    else
      var id := ids[|ids|-1];
      var changes := Changes(b[id], a[id], keys);
      Modified(b, a, keys, ids[..|ids|-1]) + if changes != [] then [Modification(id, changes)] else []
  }

  datatype Delta = Delta(added: seq<Record>, removed: seq<Record>, modified: seq<Modification>)

  function Diff(b: map<string, Record>, a: map<string, Record>, keys: seq<string>): Delta {
    Delta(Pick(a, Enumerate(a.Keys - b.Keys)), Pick(b, Enumerate(b.Keys - a.Keys)),
          Modified(b, a, keys, Enumerate(b.Keys * a.Keys)))
  }

  // ----- implementation -----

  /** The lists of one category of a DiffResult. */
  class Category {
    var added: seq<Record>
    var removed: seq<Record>
    var modified: seq<Modification>

    constructor ()
      ensures added == [] && removed == [] && modified == []
    {
      added, removed, modified := [], [], [];
    }

    predicate HasChanges()
      reads this
    {
      added != [] || removed != [] || modified != []
    }

    ghost predicate Holds(d: Delta)
      reads this
    {
      added == d.added && removed == d.removed && modified == d.modified
    }
  }

  method BuildView(items: seq<Record>, key: KeyOf) returns (v: map<string, Record>)
    ensures v == View(items, key)
  {
    v := map[];
    for i := 0 to |items|
      invariant v == View(items[..i], key)
    {
      assert items[..i+1][..i] == items[..i];
      if key(items[i]).Some? { v := v[key(items[i]).value := items[i]]; }
    }
    assert items[..|items|] == items;
  }

  method FindChanges(was: Record, now: Record, keys: seq<string>) returns (changes: seq<FieldChange>)
    ensures changes == Changes(was, now, keys)
  {
    changes := [];
    for i := 0 to |keys|
      invariant changes == Changes(was, now, keys[..i])
    {
      assert keys[..i+1][..i] == keys[..i];
      var before, after := Lookup(was, keys[i]), Lookup(now, keys[i]);
      if before != after { changes := changes + [FieldChange(keys[i], before, after)]; }
    }
    assert keys[..|keys|] == keys;
  }

  lemma ModifiedStep(b: map<string, Record>, a: map<string, Record>, keys: seq<string>, ids: seq<string>, i: nat)
    requires i < |ids| && forall id | id in ids :: id in b && id in a
    ensures var changes := Changes(b[ids[i]], a[ids[i]], keys);
            Modified(b, a, keys, ids[..i+1]) ==
              Modified(b, a, keys, ids[..i]) + if changes != [] then [Modification(ids[i], changes)] else []
  {
    assert ids[..i+1][..i] == ids[..i];
  }

  method AppendAdded(a: map<string, Record>, ids: seq<string>, out: Category)
    requires forall id | id in ids :: id in a
    modifies out`added
    ensures out.added == old(out.added) + Pick(a, ids)
  {
    for i := 0 to |ids|
      invariant out.added == old(out.added) + Pick(a, ids[..i])
    {
      assert Pick(a, ids[..i+1]) == Pick(a, ids[..i]) + [a[ids[i]]];
      out.added := out.added + [a[ids[i]]];
    }
    assert ids[..|ids|] == ids;
  }

  method AppendRemoved(b: map<string, Record>, ids: seq<string>, out: Category)
    requires forall id | id in ids :: id in b
    modifies out`removed
    ensures out.removed == old(out.removed) + Pick(b, ids)
  {
    for i := 0 to |ids|
      invariant out.removed == old(out.removed) + Pick(b, ids[..i])
    {
      assert Pick(b, ids[..i+1]) == Pick(b, ids[..i]) + [b[ids[i]]];
      out.removed := out.removed + [b[ids[i]]];
    }
    assert ids[..|ids|] == ids;
  }

  method AppendModified(b: map<string, Record>, a: map<string, Record>, keys: seq<string>, ids: seq<string>,
                        out: Category)
    requires forall id | id in ids :: id in b && id in a
    modifies out`modified
    ensures out.modified == old(out.modified) + Modified(b, a, keys, ids)
  {
    hide Changes;
    for i := 0 to |ids|
      invariant out.modified == old(out.modified) + Modified(b, a, keys, ids[..i])
    {
      ModifiedStep(b, a, keys, ids, i);
      var changes := FindChanges(b[ids[i]], a[ids[i]], keys);
      if changes != [] { out.modified := out.modified + [Modification(ids[i], changes)]; }
    }
    assert ids[..|ids|] == ids;
  }

  method DiffByKey(before: seq<Record>, after: seq<Record>, key: KeyOf, keys: seq<string>, out: Category)
    modifies out
    ensures var d := Diff(View(before, key), View(after, key), keys);
            out.added == old(out.added) + d.added && out.removed == old(out.removed) + d.removed &&
            out.modified == old(out.modified) + d.modified
  {
    hide View, Modified, Enumerate, Pick;
    var b := BuildView(before, key);
    var a := BuildView(after, key);
    AppendAdded(a, Enumerate(a.Keys - b.Keys), out);
    AppendRemoved(b, Enumerate(b.Keys - a.Keys), out);
    AppendModified(b, a, keys, Enumerate(b.Keys * a.Keys), out);
  }

  datatype Scenario = Scenario(nodes: seq<Record>, edges: seq<Record>, constraints: seq<Record>, links: seq<Record>,
                               canonicalHash: string)

  function NodesDiff(before: Scenario, after: Scenario): Delta {
    Diff(View(before.nodes, ById("node_id")), View(after.nodes, ById("node_id")), NODE_FIELDS)
  }

  function EdgesDiff(before: Scenario, after: Scenario): Delta {
    Diff(View(before.edges, ById("edge_id")), View(after.edges, ById("edge_id")), EDGE_FIELDS)
  }

  function ConstraintsDiff(before: Scenario, after: Scenario): Delta {
    Diff(View(before.constraints, ById("constraint_id")), View(after.constraints, ById("constraint_id")), [])
  }

  function LinksDiff(before: Scenario, after: Scenario): Delta {
    Diff(View(before.links, BY_LINK), View(after.links, BY_LINK), [])
  }

  const NOTHING := Delta([], [], [])

  class DiffResult {
    const nodes: Category
    const edges: Category
    const constraints: Category
    const links: Category
    var hashBefore: string
    var hashAfter: string
    var hashesMatch: bool

    constructor ()
      ensures fresh(nodes) && fresh(edges) && fresh(constraints) && fresh(links)
      ensures nodes != edges && nodes != constraints && nodes != links && edges != constraints && edges != links &&
              constraints != links
      ensures nodes.Holds(NOTHING) && edges.Holds(NOTHING) && constraints.Holds(NOTHING) && links.Holds(NOTHING)
      ensures hashBefore == "" && hashAfter == "" && !hashesMatch
    {
      var n := new Category();
      var e := new Category();
      var c := new Category();
      var l := new Category();
      nodes, edges, constraints, links := n, e, c, l;
      hashBefore, hashAfter, hashesMatch := "", "", false;
    }

    predicate HasChanges()
      reads this, nodes, edges, constraints, links
    {
      nodes.HasChanges() || edges.HasChanges() || constraints.HasChanges() || links.HasChanges()
    }
  }

  method DiffScenarios(before: Scenario, after: Scenario) returns (r: DiffResult)
    ensures r.nodes.Holds(NodesDiff(before, after)) && r.edges.Holds(EdgesDiff(before, after))
    ensures r.constraints.Holds(ConstraintsDiff(before, after)) && r.links.Holds(LinksDiff(before, after))
    ensures r.hashBefore == before.canonicalHash && r.hashAfter == after.canonicalHash
    ensures r.hashesMatch <==> before.canonicalHash == after.canonicalHash != ""
    ensures r.HasChanges() <==> !SameContent(before, after)
  {
    hide Diff, View, SameContent, NothingReported, DiffResult.HasChanges;
    r := new DiffResult();
    r.hashBefore, r.hashAfter := before.canonicalHash, after.canonicalHash;
    r.hashesMatch := r.hashBefore == r.hashAfter && r.hashBefore != "";
    DiffByKey(before.nodes, after.nodes, ById("node_id"), NODE_FIELDS, r.nodes);
    DiffByKey(before.edges, after.edges, ById("edge_id"), EDGE_FIELDS, r.edges);
    DiffByKey(before.constraints, after.constraints, ById("constraint_id"), [], r.constraints);
    DiffByKey(before.links, after.links, BY_LINK, [], r.links);
    AllHeld(before, after, r);
    NoChangesExactly(before, after);
  }

  // ----- the compared content -----

  function Fields(r: Record, keys: seq<string>): map<string, string> { map f | f in keys :: Lookup(r, f) }

  /** What the comparison looks at: for every key, the values of the compared fields. */
  function Content(v: map<string, Record>, keys: seq<string>): map<string, map<string, string>> {
    map id | id in v :: Fields(v[id], keys)
  }

  ghost predicate SameContent(before: Scenario, after: Scenario) {
    && Content(View(before.nodes, ById("node_id")), NODE_FIELDS)
       == Content(View(after.nodes, ById("node_id")), NODE_FIELDS)
    && Content(View(before.edges, ById("edge_id")), EDGE_FIELDS)
       == Content(View(after.edges, ById("edge_id")), EDGE_FIELDS)
    && Content(View(before.constraints, ById("constraint_id")), [])
       == Content(View(after.constraints, ById("constraint_id")), [])
    && Content(View(before.links, BY_LINK), []) == Content(View(after.links, BY_LINK), [])
  }

  lemma FieldsAppend(r: Record, init: seq<string>, f: string)
    ensures Fields(r, init + [f]) == Fields(r, init)[f := Lookup(r, f)]
  {
    assert forall g :: g in init + [f] <==> g in init || g == f;
  }

  lemma FieldsSplit(was: Record, now: Record, init: seq<string>, f: string)
    ensures Fields(was, init + [f]) == Fields(now, init + [f])
       <==> Fields(was, init) == Fields(now, init) && Lookup(was, f) == Lookup(now, f)
  {
    var o, n := Fields(was, init + [f]), Fields(now, init + [f]);
    FieldsAppend(was, init, f);
    FieldsAppend(now, init, f);
    if o == n {
      assert o[f] == n[f];
      assert forall g | g in init :: g in init + [f];
      assert Fields(was, init) == map g | g in init :: o[g];
    }
  }

  lemma {:induction false} NoChanges(was: Record, now: Record, keys: seq<string>)
    ensures Changes(was, now, keys) == [] <==> Fields(was, keys) == Fields(now, keys)
  {
    if keys != [] {
      var init, f := keys[..|keys|-1], keys[|keys|-1];
      assert keys == init + [f];
      NoChanges(was, now, init);
      FieldsSplit(was, now, init, f);
    }
  }

  lemma {:induction false} ModifiedMeans(b: map<string, Record>, a: map<string, Record>, keys: seq<string>,
                                         ids: seq<string>, m: Modification)
    requires forall id | id in ids :: id in b && id in a
    ensures m in Modified(b, a, keys, ids) <==>
              m.id in ids && m.changes == Changes(b[m.id], a[m.id], keys) &&
              Fields(b[m.id], keys) != Fields(a[m.id], keys)
  {
    hide Changes, Fields;
    if ids != [] {
      var init, id := ids[..|ids|-1], ids[|ids|-1];
      assert forall x :: x in ids <==> x in init || x == id;
      ModifiedMeans(b, a, keys, init, m);
      NoChanges(b[id], a[id], keys);
    }
  }

  lemma {:induction false} NothingModified(b: map<string, Record>, a: map<string, Record>, keys: seq<string>,
                                           ids: seq<string>)
    requires forall id | id in ids :: id in b && id in a
    ensures Modified(b, a, keys, ids) == [] <==> forall id | id in ids :: Fields(b[id], keys) == Fields(a[id], keys)
  {
    hide Changes, Fields;
    if ids != [] {
      var init, id := ids[..|ids|-1], ids[|ids|-1];
      assert forall x :: x in ids <==> x in init || x == id;
      NothingModified(b, a, keys, init);
      NoChanges(b[id], a[id], keys);
    }
  }

  ghost predicate Empty(d: Delta) { d.added == [] && d.removed == [] && d.modified == [] }

  /** A diff is empty exactly when the compared content is the same. */
  lemma EmptyExactly(b: map<string, Record>, a: map<string, Record>, keys: seq<string>)
    ensures Empty(Diff(b, a, keys)) <==> Content(b, keys) == Content(a, keys)
  {
    hide Changes, Fields, Modified, Enumerate;
    NothingModified(b, a, keys, Enumerate(b.Keys * a.Keys));
    SameContentMeans(b, a, keys);
    assert a.Keys == b.Keys <==> a.Keys - b.Keys == {} && b.Keys - a.Keys == {};
  }

  lemma SameContentMeans(b: map<string, Record>, a: map<string, Record>, keys: seq<string>)
    ensures Content(b, keys) == Content(a, keys) <==>
              b.Keys == a.Keys && forall id | id in b.Keys * a.Keys :: Fields(b[id], keys) == Fields(a[id], keys)
  {
    hide Fields;
    assert Content(b, keys).Keys == b.Keys && Content(a, keys).Keys == a.Keys;
    if Content(b, keys) == Content(a, keys) {
      forall id | id in b.Keys * a.Keys ensures Fields(b[id], keys) == Fields(a[id], keys) {
        assert Content(b, keys)[id] == Content(a, keys)[id];
      }
    }
  }

  lemma AllHeld(before: Scenario, after: Scenario, r: DiffResult)
    requires r.nodes.Holds(NodesDiff(before, after)) && r.edges.Holds(EdgesDiff(before, after))
    requires r.constraints.Holds(ConstraintsDiff(before, after)) && r.links.Holds(LinksDiff(before, after))
    ensures r.HasChanges() <==> !NothingReported(before, after)
  {
    hide NodesDiff, EdgesDiff, ConstraintsDiff, LinksDiff;
  }

  ghost predicate NothingReported(before: Scenario, after: Scenario) {
    && Empty(NodesDiff(before, after)) && Empty(EdgesDiff(before, after))
    && Empty(ConstraintsDiff(before, after)) && Empty(LinksDiff(before, after))
  }

  lemma NoChangesExactly(before: Scenario, after: Scenario)
    ensures NothingReported(before, after) <==> SameContent(before, after)
  {
    hide Diff, View, Content;
    EmptyExactly(View(before.nodes, ById("node_id")), View(after.nodes, ById("node_id")), NODE_FIELDS);
    EmptyExactly(View(before.edges, ById("edge_id")), View(after.edges, ById("edge_id")), EDGE_FIELDS);
    EmptyExactly(View(before.constraints, ById("constraint_id")), View(after.constraints, ById("constraint_id")), []);
    EmptyExactly(View(before.links, BY_LINK), View(after.links, BY_LINK), []);
  }

  // ----- patching -----

  function ApplyChanges(m: map<string, string>, changes: seq<FieldChange>): map<string, string> {
    if changes == [] then m
    else
      var c := changes[|changes|-1];
      ApplyChanges(m, changes[..|changes|-1])[c.field := c.after]
  }

  function AddAll(p: map<string, map<string, string>>, records: seq<Record>, key: KeyOf,
                  keys: seq<string>): map<string, map<string, string>>
  {
    if records == [] then p
    else
      var r, q := records[|records|-1], AddAll(p, records[..|records|-1], key, keys);
      if key(r).Some? then q[key(r).value := Fields(r, keys)] else q
  }

  function ModifyAll(p: map<string, map<string, string>>, modified: seq<Modification>): map<string, map<string, string>>
  {
    if modified == [] then p
    else
      var m, q := modified[|modified|-1], ModifyAll(p, modified[..|modified|-1]);
      if m.id in q then q[m.id := ApplyChanges(q[m.id], m.changes)] else q
  }

  function KeysOf(rs: seq<Record>, key: KeyOf): set<string> { set r | r in rs && key(r).Some? :: key(r).value }

  function IdsOf(ms: seq<Modification>): set<string> { set m | m in ms :: m.id }

  /** What a reader gets who applies a reported diff to the content before. */
  function Patched(p: map<string, map<string, string>>, d: Delta, key: KeyOf,
                   keys: seq<string>): map<string, map<string, string>>
  {
    ModifyAll(AddAll(p - KeysOf(d.removed, key), d.added, key, keys), d.modified)
  }

  lemma ApplyOne(m: map<string, string>, changes: seq<FieldChange>, c: FieldChange)
    ensures ApplyChanges(m, changes + [c]) == ApplyChanges(m, changes)[c.field := c.after]
  {
    assert (changes + [c])[..|changes|] == changes;
  }

  lemma ModifyOne(p: map<string, map<string, string>>, ms: seq<Modification>, m: Modification)
    ensures var q := ModifyAll(p, ms);
            ModifyAll(p, ms + [m]) == if m.id in q then q[m.id := ApplyChanges(q[m.id], m.changes)] else q
  {
    assert (ms + [m])[..|ms|] == ms;
  }

  lemma {:induction false} ChangesApply(was: Record, now: Record, keys: seq<string>, m: map<string, string>)
    requires forall f | f in keys :: f in m && m[f] == Lookup(was, f)
    ensures ApplyChanges(m, Changes(was, now, keys)) == m + Fields(now, keys)
  {
    hide Lookup, ApplyChanges, Fields;
    if keys != [] {
      var init, f := keys[..|keys|-1], keys[|keys|-1];
      assert keys == init + [f];
      FieldsAppend(now, init, f);
      ChangesApply(was, now, init, m);
      var cs, c := Changes(was, now, init), FieldChange(f, Lookup(was, f), Lookup(now, f));
      assert Changes(was, now, keys) == if Lookup(was, f) != Lookup(now, f) then cs + [c] else cs;
      ApplyOne(m, cs, c);
      KeepsCommon(was, now, init, f, m);
      assert m + Fields(now, init)[f := Lookup(now, f)] == (m + Fields(now, init))[f := Lookup(now, f)];
    } else {
      assert Fields(now, []) == map[] by { NoFields(now); }
      assert ApplyChanges(m, []) == m by { ApplyNone(m); }
    }
  }

  lemma NoFields(r: Record)
    ensures Fields(r, []) == map[]
  {
  }

  lemma ApplyNone(m: map<string, string>)
    ensures ApplyChanges(m, []) == m
  {
  }

  lemma KeepsCommon(was: Record, now: Record, init: seq<string>, f: string, m: map<string, string>)
    requires f in m && m[f] == Lookup(was, f)
    ensures Lookup(was, f) == Lookup(now, f) ==> (m + Fields(now, init))[f := Lookup(now, f)] == m + Fields(now, init)
  {
  }

  lemma FieldsApply(was: Record, now: Record, keys: seq<string>)
    ensures ApplyChanges(Fields(was, keys), Changes(was, now, keys)) == Fields(now, keys)
  {
    hide ApplyChanges, Changes, Lookup;
    ChangesApply(was, now, keys, Fields(was, keys));
    assert Fields(was, keys) + Fields(now, keys) == Fields(now, keys);
  }

  /** Every record is filed under its own key, as in a view. */
  ghost predicate Keyed(v: map<string, Record>, key: KeyOf) { forall id | id in v :: key(v[id]) == Some(id) }

  /** The content of some of the records. */
  function Part(v: map<string, Record>, ids: seq<string>, keys: seq<string>): map<string, map<string, string>>
    requires forall id | id in ids :: id in v
  {
    map id | id in ids :: Fields(v[id], keys)
  }

  lemma PartAppend(p: map<string, map<string, string>>, v: map<string, Record>, init: seq<string>, last: string,
                   keys: seq<string>)
    requires last in v && forall id | id in init :: id in v
    ensures p + Part(v, init + [last], keys) == (p + Part(v, init, keys))[last := Fields(v[last], keys)]
  {
    hide Fields;
    assert forall x :: x in init + [last] <==> x in init || x == last;
    assert Part(v, init + [last], keys) == Part(v, init, keys)[last := Fields(v[last], keys)];
  }

  lemma {:induction false} AddAllMeans(p: map<string, map<string, string>>, v: map<string, Record>, ids: seq<string>,
                                       key: KeyOf, keys: seq<string>)
    requires forall id | id in ids :: id in v && key(v[id]) == Some(id)
    ensures AddAll(p, Pick(v, ids), key, keys) == p + Part(v, ids, keys)
  {
    hide Fields;
    if ids == [] {
      assert Part(v, [], keys) == map[];
    } else {
      var init, last := ids[..|ids|-1], ids[|ids|-1];
      assert ids == init + [last];
      assert Pick(v, ids)[..|ids|-1] == Pick(v, init);
      AddAllMeans(p, v, init, key, keys);
      PartAppend(p, v, init, last, keys);
    }
  }

  lemma {:induction false} ModifyAllMeans(p: map<string, map<string, string>>, b: map<string, Record>,
                                          a: map<string, Record>, keys: seq<string>, ids: seq<string>)
    requires Ascending(ids)
    requires forall id | id in ids :: id in b && id in a && id in p && p[id] == Fields(b[id], keys)
    ensures ModifyAll(p, Modified(b, a, keys, ids)) == p + Part(a, ids, keys)
  {
    hide Fields, Changes, ApplyChanges, ModifyAll, Part, StrLe;
    if ids == [] {
      ModifyNone(p, a, keys);
    } else {
      var init, last := ids[..|ids|-1], ids[|ids|-1];
      assert ids == init + [last];
      assert last !in init;
      ModifyAllMeans(p, b, a, keys, init);
      NoChanges(b[last], a[last], keys);
      FieldsApply(b[last], a[last], keys);
      var ms, m := Modified(b, a, keys, init), Modification(last, Changes(b[last], a[last], keys));
      assert Modified(b, a, keys, ids) == if m.changes != [] then ms + [m] else ms;
      ModifyOne(p, ms, m);
      PartAppend(p, a, init, last, keys);
      PartKeeps(p, a, init, last, keys);
    }
  }

  lemma ModifyNone(p: map<string, map<string, string>>, v: map<string, Record>, keys: seq<string>)
    ensures ModifyAll(p, []) == p + Part(v, [], keys)
  {
    assert Part(v, [], keys) == map[];
  }

  lemma PartKeeps(p: map<string, map<string, string>>, v: map<string, Record>, init: seq<string>, last: string,
                  keys: seq<string>)
    requires last in v && last !in init && last in p && forall id | id in init :: id in v
    ensures last in p + Part(v, init, keys) && (p + Part(v, init, keys))[last] == p[last]
    ensures p[last] == Fields(v[last], keys) ==>
              (p + Part(v, init, keys))[last := Fields(v[last], keys)] == p + Part(v, init, keys)
  {
  }

  /** Patch law: applying the reported added, removed and modified entries to the content before
      gives the content after. */
  lemma PatchLaw(b: map<string, Record>, a: map<string, Record>, key: KeyOf, keys: seq<string>)
    requires Keyed(b, key) && Keyed(a, key)
    ensures Patched(Content(b, keys), Diff(b, a, keys), key, keys) == Content(a, keys)
  {
    hide Fields, AddAll, ModifyAll, Modified, Enumerate, Pick, Content, Part, StrLe, KeysOf;
    var addedIds, commonIds := Enumerate(a.Keys - b.Keys), Enumerate(b.Keys * a.Keys);
    var p := Content(b, keys) - (b.Keys - a.Keys);
    RemovedAre(b, b.Keys - a.Keys, key);
    AddAllMeans(p, a, addedIds, key, keys);
    PatchParts(b, a, keys, addedIds, commonIds);
    ModifyAllMeans(p + Part(a, addedIds, keys), b, a, keys, commonIds);
  }

  lemma RemovedAre(v: map<string, Record>, gone: set<string>, key: KeyOf)
    requires Keyed(v, key) && gone <= v.Keys
    ensures KeysOf(Pick(v, Enumerate(gone)), key) == gone
  {
    hide Enumerate;
    RemovedKeys(v, Enumerate(gone), key);
  }

  lemma PatchParts(b: map<string, Record>, a: map<string, Record>, keys: seq<string>, addedIds: seq<string>,
                   commonIds: seq<string>)
    requires forall id :: id in addedIds <==> id in a.Keys - b.Keys
    requires forall id :: id in commonIds <==> id in b.Keys * a.Keys
    ensures var q := Content(b, keys) - (b.Keys - a.Keys) + Part(a, addedIds, keys);
            (forall id | id in commonIds :: id in q && q[id] == Fields(b[id], keys)) &&
            q + Part(a, commonIds, keys) == Content(a, keys)
  {
    hide Fields;
  }

  lemma RemovedKeys(v: map<string, Record>, ids: seq<string>, key: KeyOf)
    requires forall id | id in ids :: id in v && key(v[id]) == Some(id)
    ensures KeysOf(Pick(v, ids), key) == set id | id in ids
  {
    forall id | id in ids ensures v[id] in Pick(v, ids) {
      var i :| 0 <= i < |ids| && ids[i] == id;
      assert Pick(v, ids)[i] == v[id];
    }
  }

  // ----- symmetry and composition -----

  function Reversed(m: Modification): Modification {
    Modification(m.id, seq(|m.changes|, i requires 0 <= i < |m.changes| =>
                             FieldChange(m.changes[i].field, m.changes[i].after, m.changes[i].before)))
  }

  lemma {:induction false} ChangesReversed(was: Record, now: Record, keys: seq<string>, id: string)
    ensures Reversed(Modification(id, Changes(was, now, keys))) == Modification(id, Changes(now, was, keys))
  {
    if keys != [] { ChangesReversed(was, now, keys[..|keys|-1], id); }
  }

  lemma {:induction false} ModifiedReversed(b: map<string, Record>, a: map<string, Record>, keys: seq<string>,
                                            ids: seq<string>)
    requires forall id | id in ids :: id in b && id in a
    ensures |Modified(a, b, keys, ids)| == |Modified(b, a, keys, ids)|
    ensures forall i | 0 <= i < |Modified(b, a, keys, ids)| ::
              Modified(a, b, keys, ids)[i] == Reversed(Modified(b, a, keys, ids)[i])
  {
    hide Changes, Reversed;
    if ids != [] {
      var id := ids[|ids|-1];
      ModifiedReversed(b, a, keys, ids[..|ids|-1]);
      ChangesReversed(b[id], a[id], keys, id);
      NoChanges(b[id], a[id], keys);
      NoChanges(a[id], b[id], keys);
    }
  }

  /** Mirror law: comparing the other way round swaps added and removed, and every change. */
  lemma MirrorLaw(b: map<string, Record>, a: map<string, Record>, keys: seq<string>)
    ensures var d, m := Diff(b, a, keys), Diff(a, b, keys);
            m.added == d.removed && m.removed == d.added && |m.modified| == |d.modified| &&
            forall i | 0 <= i < |d.modified| :: m.modified[i] == Reversed(d.modified[i])
  {
    hide Reversed, Modified;
    assert a.Keys * b.Keys == b.Keys * a.Keys;
    ModifiedReversed(b, a, keys, Enumerate(b.Keys * a.Keys));
  }

  /** The ids on which two snapshots differ. */
  ghost function Differing(b: map<string, Record>, a: map<string, Record>, keys: seq<string>): set<string> {
    set id | id in b.Keys + a.Keys && (id !in b || id !in a || Fields(b[id], keys) != Fields(a[id], keys))
  }

  lemma ModifiedIds(b: map<string, Record>, a: map<string, Record>, keys: seq<string>, ids: seq<string>)
    requires forall id | id in ids :: id in b && id in a
    ensures IdsOf(Modified(b, a, keys, ids)) == set id | id in ids && Fields(b[id], keys) != Fields(a[id], keys)
  {
    hide Fields, Changes, Modified;
    forall m { ModifiedMeans(b, a, keys, ids, m); }
    forall id | id in ids && Fields(b[id], keys) != Fields(a[id], keys)
      ensures exists m :: m in Modified(b, a, keys, ids) && m.id == id
    {
      assert Modification(id, Changes(b[id], a[id], keys)) in Modified(b, a, keys, ids);
    }
  }

  /** The ids that a diff reports, in whichever list. */
  ghost function ReportedIds(d: Delta, key: KeyOf): set<string> {
    KeysOf(d.added, key) + KeysOf(d.removed, key) + IdsOf(d.modified)
  }

  lemma ReportedParts(b: map<string, Record>, a: map<string, Record>, key: KeyOf, keys: seq<string>)
    requires Keyed(b, key) && Keyed(a, key)
    ensures var d := Diff(b, a, keys);
            && KeysOf(d.added, key) == a.Keys - b.Keys && KeysOf(d.removed, key) == b.Keys - a.Keys
            && IdsOf(d.modified) == set id | id in b.Keys * a.Keys && Fields(b[id], keys) != Fields(a[id], keys)
  {
    hide Fields, Modified, Enumerate, Pick, Keyed, KeysOf, IdsOf, Ascending;
    RemovedAre(a, a.Keys - b.Keys, key);
    RemovedAre(b, b.Keys - a.Keys, key);
    CommonModified(b, a, keys);
  }

  lemma CommonModified(b: map<string, Record>, a: map<string, Record>, keys: seq<string>)
    ensures IdsOf(Modified(b, a, keys, Enumerate(b.Keys * a.Keys)))
         == set id | id in b.Keys * a.Keys && Fields(b[id], keys) != Fields(a[id], keys)
  {
    hide Fields, Modified, Enumerate, IdsOf, Ascending;
    ModifiedIds(b, a, keys, Enumerate(b.Keys * a.Keys));
  }

  /** The ids in the reported lists are exactly those on which the snapshots differ, and no id is
      in two lists. */
  lemma ReportedExactly(b: map<string, Record>, a: map<string, Record>, key: KeyOf, keys: seq<string>)
    requires Keyed(b, key) && Keyed(a, key)
    ensures var d := Diff(b, a, keys);
            && ReportedIds(d, key) == Differing(b, a, keys)
            && (forall r, q | r in d.added && q in d.removed :: key(r) != key(q))
            && (forall r, m | (r in d.added || r in d.removed) && m in d.modified :: key(r) != Some(m.id))
  {
    hide Fields, Diff, Keyed, KeysOf, IdsOf;
    ReportedParts(b, a, key, keys);
    DifferingParts(b, a, keys);
    ReportedHaveKeys(b, a, key, keys);
    NoSharedIds(Diff(b, a, keys), key);
  }

  lemma DifferingParts(b: map<string, Record>, a: map<string, Record>, keys: seq<string>)
    ensures Differing(b, a, keys) == (a.Keys - b.Keys) + (b.Keys - a.Keys)
                                     + set id | id in b.Keys * a.Keys && Fields(b[id], keys) != Fields(a[id], keys)
  {
    hide Fields;
  }

  lemma NoSharedIds(d: Delta, key: KeyOf)
    requires KeysOf(d.added, key) !! KeysOf(d.removed, key)
    requires KeysOf(d.added, key) + KeysOf(d.removed, key) !! IdsOf(d.modified)
    requires forall r | r in d.added || r in d.removed :: key(r).Some?
    ensures forall r, q | r in d.added && q in d.removed :: key(r) != key(q)
    ensures forall r, m | (r in d.added || r in d.removed) && m in d.modified :: key(r) != Some(m.id)
  {
    forall r | r in d.added ensures key(r).value in KeysOf(d.added, key) { }
    forall r | r in d.removed ensures key(r).value in KeysOf(d.removed, key) { }
    forall m | m in d.modified ensures m.id in IdsOf(d.modified) { }
  }

  lemma ReportedHaveKeys(b: map<string, Record>, a: map<string, Record>, key: KeyOf, keys: seq<string>)
    requires Keyed(b, key) && Keyed(a, key)
    ensures forall r | r in Diff(b, a, keys).added || r in Diff(b, a, keys).removed :: key(r).Some?
  {
    hide Modified, Enumerate, Ascending, Pick, Keyed;
    PickedHaveKeys(b, Enumerate(b.Keys - a.Keys), key);
    PickedHaveKeys(a, Enumerate(a.Keys - b.Keys), key);
  }

  lemma PickedHaveKeys(v: map<string, Record>, ids: seq<string>, key: KeyOf)
    requires Keyed(v, key) && forall id | id in ids :: id in v
    ensures forall r | r in Pick(v, ids) :: key(r).Some?
  {
    assert forall i | 0 <= i < |ids| :: ids[i] in ids;
  }

  /** Triangle law: an id reported between x and z is reported between x and y or between y
      and z. */
  lemma TriangleLaw(x: map<string, Record>, y: map<string, Record>, z: map<string, Record>, key: KeyOf,
                    keys: seq<string>)
    requires Keyed(x, key) && Keyed(y, key) && Keyed(z, key)
    ensures ReportedIds(Diff(x, z, keys), key) <= ReportedIds(Diff(x, y, keys), key) +
            ReportedIds(Diff(y, z, keys), key)
  {
    hide Fields, Diff, ReportedIds, Keyed;
    ReportedExactly(x, z, key, keys);
    ReportedExactly(x, y, key, keys);
    ReportedExactly(y, z, key, keys);
  }

  ghost predicate AscendingBy(rs: seq<Record>, key: KeyOf) {
    forall i, j | 0 <= i < j < |rs| :: key(rs[i]).Some? && key(rs[j]).Some? &&
        StrLess(key(rs[i]).value, key(rs[j]).value)
  }

  lemma PickAscends(v: map<string, Record>, ids: seq<string>, key: KeyOf)
    requires Ascending(ids) && forall id | id in ids :: id in v && key(v[id]) == Some(id)
    ensures AscendingBy(Pick(v, ids), key)
  {
    hide StrLe, StrLess;
    assert forall i | 0 <= i < |ids| :: ids[i] in ids;
  }

  /** Each list is strictly ascending in its ids. */
  lemma ListsAscend(b: map<string, Record>, a: map<string, Record>, key: KeyOf, keys: seq<string>)
    requires Keyed(b, key) && Keyed(a, key)
    ensures var d := Diff(b, a, keys);
            AscendingBy(d.added, key) && AscendingBy(d.removed, key) &&
            forall i, j | 0 <= i < j < |d.modified| :: StrLess(d.modified[i].id, d.modified[j].id)
  {
    hide Modified, Enumerate, StrLess, StrLe, AscendingBy, Pick;
    ModifiedAscends(b, a, keys, Enumerate(b.Keys * a.Keys));
    PickAscends(a, Enumerate(a.Keys - b.Keys), key);
    PickAscends(b, Enumerate(b.Keys - a.Keys), key);
  }

  lemma {:induction false} ModifiedAscends(b: map<string, Record>, a: map<string, Record>, keys: seq<string>,
                                           ids: seq<string>)
    requires Ascending(ids) && forall id | id in ids :: id in b && id in a
    ensures forall i, j | 0 <= i < j < |Modified(b, a, keys, ids)| ::
              StrLess(Modified(b, a, keys, ids)[i].id, Modified(b, a, keys, ids)[j].id)
    ensures forall i | 0 <= i < |Modified(b, a, keys, ids)| :: Modified(b, a, keys, ids)[i].id in ids
  {
    hide Changes, StrLe;
    if ids != [] {
      var init, last := ids[..|ids|-1], ids[|ids|-1];
      ModifiedAscends(b, a, keys, init);
      forall x | x in init ensures StrLess(x, last) {
        var i :| 0 <= i < |init| && init[i] == x;
        assert ids[i] == x;
      }
    }
  }

  // ----- the composite key of links -----

  /** The edge id f continues e past a bar, and what it adds, with another bar, is what the
      constraint id c has in front of d. */
  predicate MovedBar(e: string, c: string, f: string, d: string) {
    e + "|" <= f && c == f[|e|+1..] + "|" + d
  }

  /** Two pairs have the same key: between the shorter and the longer edge id a bar was moved. */
  lemma LongerMovesBar(e: string, c: string, f: string, d: string)
    requires LinkKey(e, c) == LinkKey(f, d) && |e| < |f|
    ensures MovedBar(e, c, f, d)
  {
    var s := LinkKey(e, c);
    assert (e + "|") + c == s && f + ("|" + d) == s;
    assert s[..|e|+1] == e + "|" && s[..|f|] == f;
    assert c == s[|e|+1..] && f[|e|+1..] == s[|e|+1..|f|] && "|" + d == s[|f|..];
    assert s[|e|+1..] == s[|e|+1..|f|] + s[|f|..];
    assert f[|e|+1..] + "|" + d == f[|e|+1..] + ("|" + d);
  }

  lemma SameLengthSame(e: string, c: string, f: string, d: string)
    requires LinkKey(e, c) == LinkKey(f, d) && |e| == |f|
    ensures e == f && c == d
  {
    var s := LinkKey(e, c);
    assert e == s[..|e|] && f == s[..|e|];
    assert c == s[|e|+1..] && d == s[|e|+1..];
  }

  lemma MovedBarCollides(e: string, c: string, f: string, d: string)
    requires MovedBar(e, c, f, d)
    ensures LinkKey(e, c) == LinkKey(f, d) && e != f
  {
    var rest := f[|e|+1..];
    assert f == e + "|" + rest;
    BarsCollide(e, rest, d);
  }

  /** Two different links share a key exactly when one is the other with a bar moved. */
  lemma LinksCollideExactly(e: string, c: string, f: string, d: string)
    ensures LinkKey(e, c) == LinkKey(f, d) && !(e == f && c == d) <==> MovedBar(e, c, f, d) || MovedBar(f, d, e, c)
  {
    hide MovedBar;
    if MovedBar(e, c, f, d) { MovedBarCollides(e, c, f, d); }
    if MovedBar(f, d, e, c) { MovedBarCollides(f, d, e, c); }
    if LinkKey(e, c) == LinkKey(f, d) {
      if |e| < |f| {
        LongerMovesBar(e, c, f, d);
      } else if |f| < |e| {
        LongerMovesBar(f, d, e, c);
      } else {
        SameLengthSame(e, c, f, d);
      }
    }
  }

  /** One edge id continues the other past a bar. */
  predicate Continues(e: string, f: string) { e + "|" <= f || f + "|" <= e }

  /** Links of two edges can collide, for some constraint ids, exactly when one edge id continues the
      other past a bar. */
  lemma LinkKeysCollideExactly(e: string, f: string)
    ensures (exists c, d :: LinkKey(e, c) == LinkKey(f, d) && !(e == f && c == d)) <==> Continues(e, f)
  {
    forall c, d | LinkKey(e, c) == LinkKey(f, d) && !(e == f && c == d) ensures Continues(e, f) {
      LinksCollideExactly(e, c, f, d);
    }
    if e + "|" <= f { MovedBarCollides(e, f[|e|+1..] + "|" + "", f, ""); }
    if f + "|" <= e { MovedBarCollides(f, e[|f|+1..] + "|" + "", e, ""); }
  }

  /** Otherwise the key determines the link. */
  lemma LinkKeySeparates(e: string, c: string, f: string, d: string)
    requires !Continues(e, f)
    ensures LinkKey(e, c) == LinkKey(f, d) <==> e == f && c == d
  {
    LinkKeysCollideExactly(e, f);
  }

  /** A bar can move from the constraint id to the edge id. */
  lemma BarsCollide(e: string, m: string, c: string)
    ensures LinkKey(e, m + "|" + c) == LinkKey(e + "|" + m, c) && e != e + "|" + m
  {
    assert e + "|" + (m + "|" + c) == (e + "|" + m) + "|" + c;
    assert |e| < |e + "|" + m|;
  }

  function EdgeOf(r: Record): string { OrEmpty(r, "edge_id") }

  function ConstraintOf(r: Record): string { OrEmpty(r, "constraint_id") }

  ghost predicate SameLink(r: Record, q: Record) { EdgeOf(r) == EdgeOf(q) && ConstraintOf(r) == ConstraintOf(q) }

  ghost predicate InView(v: map<string, Record>, r: Record) { exists k :: k in v && SameLink(v[k], r) }

  /** The one link is the other with a bar moved from the constraint id to the edge id. */
  predicate LinkMovedBar(r: Record, q: Record) { MovedBar(EdgeOf(r), ConstraintOf(r), EdgeOf(q), ConstraintOf(q)) }

  /** Two links have the same key exactly when they are the same link or differ by a moved bar. */
  lemma SameLinkKey(r: Record, q: Record)
    ensures BY_LINK(r) == BY_LINK(q) <==> SameLink(r, q) || LinkMovedBar(r, q) || LinkMovedBar(q, r)
    ensures LinkMovedBar(r, q) ==> !SameLink(r, q)
  {
    hide MovedBar;
    LinksCollideExactly(EdgeOf(r), ConstraintOf(r), EdgeOf(q), ConstraintOf(q));
  }

  /** Every link of a list is still in the view exactly when no link of the list is another one with
      a bar moved; and no two entries of the view are ever the same link. */
  lemma LinksStayApart(items: seq<Record>)
    ensures (forall r | r in items :: InView(View(items, BY_LINK), r))
            <==> (forall r, q | r in items && q in items :: !LinkMovedBar(r, q))
    ensures forall k, l | k in View(items, BY_LINK) && l in View(items, BY_LINK) ::
              SameLink(View(items, BY_LINK)[k], View(items, BY_LINK)[l]) ==> k == l
  {
    var v := View(items, BY_LINK);
    hide View, SameLink, LinkMovedBar, BY_LINK;
    forall r | r in items && (forall q | q in items :: !LinkMovedBar(r, q) && !LinkMovedBar(q, r))
      ensures InView(v, r)
    {
      ApartIsInView(items, r);
    }
    forall r, q | r in items && q in items && LinkMovedBar(r, q) ensures !(InView(v, r) && InView(v, q)) {
      SameLinkKey(r, q);
      if InView(v, r) && InView(v, q) { KeptWithOneKey(items, r, q); }
    }
    forall k, l | k in v && l in v && SameLink(v[k], v[l]) ensures k == l { SameLinkKey(v[k], v[l]); }
  }

  lemma ApartIsInView(items: seq<Record>, r: Record)
    requires r in items && forall q | q in items :: !LinkMovedBar(r, q) && !LinkMovedBar(q, r)
    ensures InView(View(items, BY_LINK), r)
  {
    hide SameLink, LinkMovedBar, View;
    var v, key := View(items, BY_LINK), BY_LINK(r).value;
    ViewHasKeys(items, BY_LINK, r);
    ViewMembers(items, BY_LINK, key);
    assert BY_LINK(v[key]) == Some(key);
    SameLinkKey(v[key], r);
  }

  /** The view tells links with one key apart only by keeping one of them. */
  lemma KeptWithOneKey(items: seq<Record>, r: Record, q: Record)
    requires BY_LINK(r) == BY_LINK(q)
    requires InView(View(items, BY_LINK), r) && InView(View(items, BY_LINK), q)
    ensures SameLink(r, q)
  {
    hide View;
    var v := View(items, BY_LINK);
    var k, l :| k in v && l in v && SameLink(v[k], r) && SameLink(v[l], q);
    assert BY_LINK(v[k]) == Some(k) && BY_LINK(v[l]) == Some(l);
  }

  lemma {:induction false} ViewHasKeys(items: seq<Record>, key: KeyOf, r: Record)
    requires r in items && key(r).Some?
    ensures key(r).value in View(items, key)
  {
    var init, last := items[..|items|-1], items[|items|-1];
    assert items == init + [last];
    if r in init { ViewHasKeys(init, key, r); }
  }

  /** Two different links of which the view keeps one: their edge ids are "a" and "a|b". */
  lemma CollidingLinksLoseOne()
    ensures var r, q := map["edge_id" := "a", "constraint_id" := "b|c"],
                        map["edge_id" := "a|b", "constraint_id" := "c"];
            !SameLink(r, q) && |View([r, q], BY_LINK)| == 1
  {
    hide SameLink;
    var r: Record, q: Record := map["edge_id" := "a", "constraint_id" := "b|c"],
                                map["edge_id" := "a|b", "constraint_id" := "c"];
    assert EdgeOf(r) == "a" && EdgeOf(q) == "a|b" && ConstraintOf(r) == "b|c" && ConstraintOf(q) == "c";
    assert LinkKey("a", "b|c") == LinkKey("a|b", "c") by { assert "a" + "|" + "b|c" == "a|b" + "|" + "c"; }
    var key := LinkKey("a", "b|c");
    assert BY_LINK(r) == Some(key) && BY_LINK(q) == Some(key);
    assert [r, q][..1] == [r] && [r][..0] == [];
    assert View([r], BY_LINK) == map[key := r];
    assert View([r, q], BY_LINK) == map[key := q];
    DifferentEdges(r, q);
  }

  lemma DifferentEdges(r: Record, q: Record)
    requires |EdgeOf(r)| != |EdgeOf(q)|
    ensures !SameLink(r, q)
  {
  }

  // ----- edges carry their features in their id -----

  /** The record was emitted for an edge whose id the models computed. */
  ghost predicate EmittedEdge(r: Record, sha: Models.Hash) {
    exists e: Models.Edge :: IsRecordOf(r, e, sha)
  }

  ghost predicate IsRecordOf(r: Record, e: Models.Edge, sha: Models.Hash) {
    && "edge_id" in r && r["edge_id"] == Models.EdgeId(sha, e)
    && "features" in r && r["features"] == e.features
    && Models.NulFree(e.features) && IsObjectText(e.features)
  }

  /** Canonical JSON text of a dict, which escapes NUL characters. */
  predicate IsObjectText(s: string) { |s| >= 2 && s[0] == '{' && s[|s|-1] == '}' }

  lemma ObjectTextStrips(s: string)
    requires IsObjectText(s)
    ensures Models.Strip(s) == s
  {
  }

  lemma SameIdSameFeatures(r: Record, q: Record, sha: Models.Hash)
    requires Models.Injective(sha) && EmittedEdge(r, sha) && EmittedEdge(q, sha) && r["edge_id"] == q["edge_id"]
    ensures Fields(r, EDGE_FIELDS) == Fields(q, EDGE_FIELDS)
  {
    hide Models.Strip, Models.Structural, Models.Injective;
    var e: Models.Edge :| IsRecordOf(r, e, sha);
    var f: Models.Edge :| IsRecordOf(q, f, sha);
    Models.SameIdSameFeatures(sha, e, f);
    ObjectTextStrips(e.features);
    ObjectTextStrips(f.features);
  }

  lemma {:induction false} ViewMembers(items: seq<Record>, key: KeyOf, id: string)
    requires id in View(items, key)
    ensures View(items, key)[id] in items
  {
    if items != [] && View(items, key)[id] != items[|items|-1] {
      ViewMembers(items[..|items|-1], key, id);
    }
  }

  /** Between two scenarios whose edge ids the models computed, no edge is ever reported as
      modified: a change of features is one removed and one added edge. */
  lemma EdgesAreNeverModified(before: Scenario, after: Scenario, sha: Models.Hash)
    requires Models.Injective(sha)
    requires forall r | r in before.edges :: EmittedEdge(r, sha)
    requires forall r | r in after.edges :: EmittedEdge(r, sha)
    ensures EdgesDiff(before, after).modified == []
  {
    hide View, Modified, Fields, Models.Injective, EmittedEdge;
    var b, a := View(before.edges, ById("edge_id")), View(after.edges, ById("edge_id"));
    forall id | id in b.Keys * a.Keys ensures Fields(b[id], EDGE_FIELDS) == Fields(a[id], EDGE_FIELDS) {
      ViewMembers(before.edges, ById("edge_id"), id);
      ViewMembers(after.edges, ById("edge_id"), id);
      SameIdSameFeatures(b[id], a[id], sha);
    }
    NothingModified(b, a, EDGE_FIELDS, Enumerate(b.Keys * a.Keys));
  }
}
