/** Placeholder nodes for edge endpoints that were never collected
    (iamscope/pipeline.py, _materialize_dangling_endpoints). */
module Dangling {
  import opened Basics
  import opened Ordering
  import opened Models

  const REASON_DST :=
    "referenced by IAM policy but not returned by collection — " +
    "may be a restricted resource (e.g. rds! SecretsManager secrets), " +
    "in an unscanned region, in another account, or deleted"
  const REASON_SRC :=
    "principal named in a trust policy but not resolvable — " +
    "may be a deleted or renamed same-account IAM role/user, a not-yet-created principal mid-Terraform-apply, " +
    "or eventual-consistency drift between Organizations and IAM"

  // ----- the account number of an ARN -----

  /** The parts of s between its first n colons; the last part keeps any further ones. */
  function Split(s: string, n: nat): seq<string>
    decreases n, |s|
  {
    var i := ColonAt(s);
    if n == 0 || i == |s| then [s] else [s[..i]] + Split(s[i+1..], n - 1)
  }

  /** The position of the first colon, or the length. */
  function ColonAt(s: string): (i: nat)
    ensures i <= |s| && (i < |s| ==> s[i] == ':') && forall k | 0 <= k < i :: s[k] != ':'
  {
    if s == "" || s[0] == ':' then 0 else 1 + ColonAt(s[1..])
  }

  predicate IsDigits(s: string) { s != "" && forall c | c in s :: '0' <= c <= '9' }

  function AccountOf(arn: string): string {
    if !("arn:" <= arn) then ""
    else
      var parts := Split(arn, 5);
      if |parts| < 5 then ""
      else if |parts[4]| != 12 || !IsDigits(parts[4]) then "" else parts[4]
  }

  // ----- what is emitted -----

  datatype End = AsSource | AsDestination

  function DanglingReason(end: End): string {
    match end
    case AsSource => REASON_SRC
    case AsDestination => REASON_DST
  }

  /** One look at an edge endpoint. */
  datatype Mention = Mention(ref: NodeRef, end: End)

  function Placeholder(m: Mention): (n: Node)
    ensures KeyOf(n) == RefKey(m.ref) && n.region == m.ref.region
    ensures "dangling_reason" in n.properties && n.properties["dangling_reason"] == Text(DanglingReason(m.end))
  {
    Node(m.ref.provider, m.ref.nodeType, m.ref.providerId, m.ref.region,
         map["account_id" := Text(AccountOf(m.ref.providerId)),
             "is_synthetic" := Flag(true),
             "is_dangling_reference" := Flag(true),
             "collection_status" := Text("not_collected"),
             "dangling_reason" := Text(DanglingReason(m.end))])
  }

  /** Edge by edge, source before destination. */
  function Mentions(edges: seq<Edge>): seq<Mention> {
    if edges == [] then []
    else
      var last := edges[|edges|-1];
      Mentions(edges[..|edges|-1]) + [Mention(last.src, AsSource), Mention(last.dst, AsDestination)]
  }

  function Keys(nodes: seq<Node>): set<Key> { set n | n in nodes :: KeyOf(n) }

  function MentionKeys(ms: seq<Mention>): set<Key> { set m | m in ms :: RefKey(m.ref) }

  function EndpointKeys(edges: seq<Edge>): set<Key> {
    (set e | e in edges :: RefKey(e.src)) + (set e | e in edges :: RefKey(e.dst))
  }

  lemma KeysAppend(ns: seq<Node>, n: Node)
    ensures Keys(ns + [n]) == Keys(ns) + {KeyOf(n)}
  {
    assert (ns + [n])[|ns|] == n;
    forall m | m in ns ensures m in ns + [n] { }
  }

  /** What _emit does to the values collected so far. */
  function AddPlaceholder(ns: seq<Node>, m: Mention, known: set<Key>): seq<Node> {
    if RefKey(m.ref) in known || RefKey(m.ref) in Keys(ns) then ns else ns + [Placeholder(m)]
  }

  lemma NoKeys(ns: seq<Node>)
    ensures Keys(ns) == {} ==> ns == []
  {
    if ns != [] { assert KeyOf(ns[0]) in Keys(ns); }
  }

  /** The placeholders in the order their keys are first mentioned. */
  function Placeholders(ms: seq<Mention>, known: set<Key>): (r: seq<Node>)
    ensures Keys(r) == MentionKeys(ms) - known
  {
    if ms == [] then []
    else
      var init, last := ms[..|ms|-1], ms[|ms|-1];
      assert ms == init + [last];
      var r := Placeholders(init, known);
      assert MentionKeys(ms) == MentionKeys(init) + {RefKey(last.ref)};
      if RefKey(last.ref) in known || RefKey(last.ref) in MentionKeys(init) then r
      else
        KeysAppend(r, Placeholder(last));
        r + [Placeholder(last)]
  }

  /** n stands for mention i, the first of its key. */
  ghost predicate StandsFor(n: Node, ms: seq<Mention>, known: set<Key>, i: nat) {
    i < |ms| && n == Placeholder(ms[i]) && KeyOf(n) !in known && KeyOf(n) !in MentionKeys(ms[..i])
  }

  lemma StandsForPrefix(n: Node, init: seq<Mention>, last: Mention, known: set<Key>, i: nat)
    ensures i < |init| ==> (StandsFor(n, init + [last], known, i) <==> StandsFor(n, init, known, i))
    ensures StandsFor(n, init + [last], known, |init|)
       <==> n == Placeholder(last) && KeyOf(n) !in known && KeyOf(n) !in MentionKeys(init)
  {
    hide Placeholder;
    var ms := init + [last];
    assert ms[..|init|] == init;
    if i < |init| { assert ms[..i] == init[..i] && ms[i] == init[i]; }
  }

  /** Each placeholder carries the region and the reason of the first mention of its key. */
  lemma {:induction false} PlaceholderMeaning(ms: seq<Mention>, known: set<Key>, n: Node)
    ensures n in Placeholders(ms, known) <==> exists i: nat :: StandsFor(n, ms, known, i)
  {
    if ms != [] {
      hide Placeholder, StandsFor;
      var init, last := ms[..|ms|-1], ms[|ms|-1];
      assert ms == init + [last];
      PlaceholderMeaning(init, known, n);
      forall i: nat { StandsForPrefix(n, init, last, known, i); }
      BeyondNothing(n, ms, known);
      BeyondNothing(n, init, known);
      assert StandsFor(n, ms, known, |init|) ==> exists i: nat :: StandsFor(n, ms, known, i);
    }
  }

  lemma BeyondNothing(n: Node, ms: seq<Mention>, known: set<Key>)
    ensures forall i: nat :: StandsFor(n, ms, known, i) ==> i < |ms|
  {
  }

  ghost predicate DistinctKeys(nodes: seq<Node>) {
    forall i, j | 0 <= i < j < |nodes| :: KeyOf(nodes[i]) != KeyOf(nodes[j])
  }

  lemma {:induction false} PlaceholdersDistinct(ms: seq<Mention>, known: set<Key>)
    ensures DistinctKeys(Placeholders(ms, known))
  {
    if ms != [] {
      var init, last := ms[..|ms|-1], ms[|ms|-1];
      PlaceholdersDistinct(init, known);
      var r := Placeholders(init, known);
      forall i | 0 <= i < |r| ensures KeyOf(r[i]) in MentionKeys(init) {
        assert KeyOf(r[i]) in Keys(r);
      }
    }
  }

  lemma EndpointKeysAppend(edges: seq<Edge>, e: Edge)
    ensures EndpointKeys(edges + [e]) == EndpointKeys(edges) + {RefKey(e.src), RefKey(e.dst)}
  {
    assert forall f :: f in edges + [e] <==> f in edges || f == e;
    assert e in edges + [e];
  }

  lemma PairKeys(a: Mention, b: Mention)
    ensures MentionKeys([a, b]) == {RefKey(a.ref), RefKey(b.ref)}
  {
    assert [a, b][0] == a && [a, b][1] == b;
  }

  lemma {:induction false} MentionedEndpoints(edges: seq<Edge>)
    ensures MentionKeys(Mentions(edges)) == EndpointKeys(edges)
  {
    if edges != [] {
      hide EndpointKeys, MentionKeys;
      var init, last := edges[..|edges|-1], edges[|edges|-1];
      assert edges == init + [last];
      MentionedEndpoints(init);
      var src, dst := Mention(last.src, AsSource), Mention(last.dst, AsDestination);
      MentionKeysConcat(Mentions(init), [src, dst]);
      PairKeys(src, dst);
      EndpointKeysAppend(init, last);
    }
  }

  lemma MentionKeysConcat(a: seq<Mention>, b: seq<Mention>)
    ensures MentionKeys(a + b) == MentionKeys(a) + MentionKeys(b)
  {
  }

  // ----- the scan -----

  class Emitter {
    var known: set<Key>
    var synthetic: map<Key, Node>
    /** The dictionary's values in insertion order. */
    var values: seq<Node>

    constructor (known: set<Key>)
      ensures this.known == known && values == [] && Valid()
    {
      this.known, synthetic, values := known, map[], [];
    }

    ghost predicate Valid()
      reads this
    {
      synthetic.Keys == Keys(values)
    }

    method Emit(ref: NodeRef, end: End)
      requires Valid()
      modifies this`synthetic, this`values
      ensures Valid()
      ensures values == AddPlaceholder(old(values), Mention(ref, end), known)
    {
      var key := RefKey(ref);
      if key in known || key in synthetic { return; }
      var node := Placeholder(Mention(ref, end));
      KeysAppend(values, node);
      synthetic := synthetic[key := node];
      values := values + [node];
    }
  }

  lemma PlaceholdersStep(ms: seq<Mention>, m: Mention, known: set<Key>)
    ensures Placeholders(ms + [m], known) == AddPlaceholder(Placeholders(ms, known), m, known)
  {
    assert (ms + [m])[..|ms|] == ms;
  }

  /** One turn of the loop over the edges. */
  lemma ScanStep(edges: seq<Edge>, i: nat, known: set<Key>)
    requires i < |edges|
    ensures Placeholders(Mentions(edges[..i+1]), known)
         == AddPlaceholder(AddPlaceholder(Placeholders(Mentions(edges[..i]), known), Mention(edges[i].src, AsSource),
                                          known),
                           Mention(edges[i].dst, AsDestination), known)
  {
    hide Placeholders, AddPlaceholder;
    var ms, src, dst := Mentions(edges[..i]), Mention(edges[i].src, AsSource), Mention(edges[i].dst, AsDestination);
    assert edges[..i+1][..i] == edges[..i];
    assert Mentions(edges[..i+1]) == ms + [src] + [dst];
    PlaceholdersStep(ms, src, known);
    PlaceholdersStep(ms + [src], dst, known);
  }

  /** Sorted placeholders for every endpoint that no node has. None stands for the ValueError
      raised when one of them has no id. */
  method MaterializeDanglingEndpoints(nodes: seq<Node>, edges: seq<Edge>, sha: Hash) returns (r: Option<seq<Node>>)
    ensures r.None? <==> exists k :: k in EndpointKeys(edges) - Keys(nodes) && !KeyHasId(k)
    ensures r.Some? ==> r.value == SortBy(Placeholders(Mentions(edges), Keys(nodes)), NodeIdBy(sha))
  {
    hide Placeholders, AddPlaceholder, KeyHasId, SortBy, Mentions, EndpointKeys, MentionKeys;
    var known := set n | n in nodes :: KeyOf(n);
    var emitter := new Emitter(known);
    NothingMentioned(known);
    for i := 0 to |edges|
      invariant emitter.Valid() && emitter.known == known
      invariant emitter.values == Placeholders(Mentions(edges[..i]), known)
    {
      ScanStep(edges, i, known);
      emitter.Emit(edges[i].src, AsSource);
      emitter.Emit(edges[i].dst, AsDestination);
    }
    assert edges[..|edges|] == edges;
    MentionedEndpoints(edges);
    r := SortByNodeId(emitter.values, sha);
  }

  lemma NothingMentioned(known: set<Key>)
    ensures Placeholders(Mentions([]), known) == []
  {
  }

  /** The nodes in ascending order of their ids. None when some node has no id. */
  method SortByNodeId(values: seq<Node>, sha: Hash) returns (r: Option<seq<Node>>)
    ensures r.None? <==> exists k :: k in Keys(values) && !KeyHasId(k)
    ensures r.Some? ==> r.value == SortBy(values, NodeIdBy(sha))
  {
    hide KeyHasId, SortBy;
    for i := 0 to |values|
      invariant forall j | 0 <= j < i :: KeyHasId(KeyOf(values[j]))
    {
      if !KeyHasId(KeyOf(values[i])) {
        assert KeyOf(values[i]) in Keys(values);
        return None;
      }
    }
    return Some(SortBy(values, NodeIdBy(sha)));
  }

  /** The nodes of the scenario after materialisation. */
  function Completed(nodes: seq<Node>, edges: seq<Edge>, sha: Hash): seq<Node> {
    nodes + SortBy(Placeholders(Mentions(edges), Keys(nodes)), NodeIdBy(sha))
  }

  lemma KeysOfSorted(nodes: seq<Node>, sha: Hash)
    ensures Keys(SortBy(nodes, NodeIdBy(sha))) == Keys(nodes)
  {
    forall n { SortByMembers(nodes, NodeIdBy(sha), n); }
  }

  lemma KeysConcat(a: seq<Node>, b: seq<Node>)
    ensures Keys(a + b) == Keys(a) + Keys(b)
  {
  }

  /** Afterwards the node keys are exactly the collected ones and the endpoints: every edge
      endpoint resolves, and nothing is added that no edge mentions. */
  lemma CompletedKeys(nodes: seq<Node>, edges: seq<Edge>, sha: Hash)
    ensures Keys(Completed(nodes, edges, sha)) == Keys(nodes) + EndpointKeys(edges)
  {
    var ps := Placeholders(Mentions(edges), Keys(nodes));
    KeysOfSorted(ps, sha);
    KeysConcat(nodes, SortBy(ps, NodeIdBy(sha)));
    MentionedEndpoints(edges);
  }

  /** A second run adds nothing. */
  lemma SecondRunAddsNothing(nodes: seq<Node>, edges: seq<Edge>, sha: Hash)
    ensures Completed(Completed(nodes, edges, sha), edges, sha) == Completed(nodes, edges, sha)
  {
    var all := Completed(nodes, edges, sha);
    CompletedKeys(nodes, edges, sha);
    MentionedEndpoints(edges);
    NoKeys(Placeholders(Mentions(edges), Keys(all)));
  }

  // ----- when the node ids stay unique -----

  /** No two different keys of the set are hashed from the same text. */
  ghost predicate NoAliases(keys: set<Key>) {
    forall k, l | k in keys && l in keys && KeyText(k) == KeyText(l) :: k == l
  }

  /** Without NUL characters aliases are keys that differ only in surrounding white space and in
      the letter case of provider and type. */
  lemma NoAliasesMeans(keys: set<Key>)
    requires forall k | k in keys :: KeyNulFree(k)
    ensures NoAliases(keys) <==> forall k, l | k in keys && l in keys && CanonicalKey(k) == CanonicalKey(l) :: k == l
  {
    hide CanonicalKey, KeyNulFree, Join, KeyText;
    forall k, l | k in keys && l in keys ensures KeyText(k) == KeyText(l) <==> CanonicalKey(k) == CanonicalKey(l) {
      KeyTextMeans(k, l);
    }
  }

  lemma KeyTextMeans(k: Key, l: Key)
    requires KeyNulFree(k) && KeyNulFree(l)
    ensures KeyText(k) == KeyText(l) <==> CanonicalKey(k) == CanonicalKey(l)
  {
    hide Strip, Structural, NulFree, Join;
    if KeyText(k) == KeyText(l) { KeyTextReadsBack(k, l); }
  }

  lemma DistinctKeysConcat(a: seq<Node>, b: seq<Node>)
    requires DistinctKeys(a) && DistinctKeys(b) && Keys(a) !! Keys(b)
    ensures DistinctKeys(a + b)
  {
    forall i, j | 0 <= i < |a| && 0 <= j < |b| ensures KeyOf(a[i]) != KeyOf(b[j]) {
      assert KeyOf(a[i]) in Keys(a) && KeyOf(b[j]) in Keys(b);
    }
  }

  lemma DistinctIdsDistinctKeys(nodes: seq<Node>, sha: Hash)
    requires DistinctBy(nodes, NodeIdBy(sha))
    ensures DistinctKeys(nodes)
  {
    forall i, j | 0 <= i < j < |nodes| ensures KeyOf(nodes[i]) != KeyOf(nodes[j]) {
      assert NodeIdBy(sha)(nodes[i]) != NodeIdBy(sha)(nodes[j]);
    }
  }

  lemma SortKeepsDistinctKeys(nodes: seq<Node>, sha: Hash)
    requires DistinctKeys(nodes)
    ensures DistinctKeys(SortBy(nodes, NodeIdBy(sha)))
  {
    var s := SortBy(nodes, NodeIdBy(sha));
    forall i, j | 0 <= i < j < |s| ensures KeyOf(s[i]) != KeyOf(s[j]) {
      if KeyOf(s[i]) == KeyOf(s[j]) {
        SortByMembers(nodes, NodeIdBy(sha), s[i]);
        SortByMembers(nodes, NodeIdBy(sha), s[j]);
        var k :| 0 <= k < |nodes| && nodes[k] == s[i];
        var l :| 0 <= l < |nodes| && nodes[l] == s[j];
        assert k == l;
        TwiceCountsTwo(s, i, j);
        AtMostOnce(nodes, k);
      }
    }
  }

  lemma AtMostOnce(nodes: seq<Node>, k: nat)
    requires k < |nodes| && DistinctKeys(nodes)
    ensures multiset(nodes)[nodes[k]] == 1
  {
    assert nodes == nodes[..k] + [nodes[k]] + nodes[k+1..];
    assert nodes[k] !in nodes[..k] && nodes[k] !in nodes[k+1..];
  }

  lemma CompletedDistinctKeys(nodes: seq<Node>, edges: seq<Edge>, sha: Hash)
    requires DistinctKeys(nodes)
    ensures DistinctKeys(Completed(nodes, edges, sha))
  {
    var ps := Placeholders(Mentions(edges), Keys(nodes));
    PlaceholdersDistinct(Mentions(edges), Keys(nodes));
    SortKeepsDistinctKeys(ps, sha);
    KeysOfSorted(ps, sha);
    DistinctKeysConcat(nodes, SortBy(ps, NodeIdBy(sha)));
  }

  lemma UniqueIdsFromKeys(nodes: seq<Node>, sha: Hash)
    requires Injective(sha) && DistinctKeys(nodes)
    ensures DistinctBy(nodes, NodeIdBy(sha)) <==> NoAliases(Keys(nodes))
  {
    hide Injective, KeyNulFree, CanonicalKey, KeyText, KeyId;
    if NoAliases(Keys(nodes)) {
      forall i, j | 0 <= i < j < |nodes| ensures NodeIdBy(sha)(nodes[i]) != NodeIdBy(sha)(nodes[j]) {
        assert KeyOf(nodes[i]) in Keys(nodes) && KeyOf(nodes[j]) in Keys(nodes);
        SameNodeId(sha, KeyOf(nodes[i]), KeyOf(nodes[j]));
      }
    }
    if DistinctBy(nodes, NodeIdBy(sha)) {
      forall k, l | k in Keys(nodes) && l in Keys(nodes) && KeyText(k) == KeyText(l) ensures k == l {
        var m :| m in nodes && KeyOf(m) == k;
        var n :| n in nodes && KeyOf(n) == l;
        var i :| 0 <= i < |nodes| && nodes[i] == m;
        var j :| 0 <= j < |nodes| && nodes[j] == n;
        SameNodeId(sha, k, l);
        assert NodeIdBy(sha)(nodes[i]) == NodeIdBy(sha)(nodes[j]);
      }
    }
  }

  /** Node ids remain unique after materialisation exactly when no two different keys among
      the nodes and the endpoints are hashed from the same text. */
  lemma NodeIdsUniqueExactly(nodes: seq<Node>, edges: seq<Edge>, sha: Hash)
    requires Injective(sha) && DistinctBy(nodes, NodeIdBy(sha))
    ensures DistinctBy(Completed(nodes, edges, sha), NodeIdBy(sha)) <==> NoAliases(Keys(nodes) + EndpointKeys(edges))
  {
    hide Injective, KeyText, KeyId, Completed, DistinctBy;
    DistinctIdsDistinctKeys(nodes, sha);
    CompletedDistinctKeys(nodes, edges, sha);
    CompletedKeys(nodes, edges, sha);
    UniqueIdsFromKeys(Completed(nodes, edges, sha), sha);
  }

  /** An edge whose source names a collected role with a different provider spelling: the
      placeholder gets the id of the collected node. */
  lemma AliasBreaksUniqueness(sha: Hash)
    ensures
      var role := Node("aws", "IAMRole", "r", "-", map[]);
      var edge := Edge("sts:AssumeRole_trust", NodeRef("AWS", "IAMRole", "r", "-"), NodeRef("aws", "IAMRole", "r", "-"),
                       "-", "{}");
      !DistinctBy(Completed([role], [edge], sha), NodeIdBy(sha))
  {
    hide CanonicalKey, SortBy, Placeholders, Mentions;
    var role := Node("aws", "IAMRole", "r", "-", map[]);
    var edge := Edge("sts:AssumeRole_trust", NodeRef("AWS", "IAMRole", "r", "-"), NodeRef("aws", "IAMRole", "r", "-"),
                     "-", "{}");
    var all := Completed([role], [edge], sha);
    CompletedKeys([role], [edge], sha);
    var alias := Key("AWS", "IAMRole", "r");
    assert RefKey([edge][0].src) == alias;
    assert alias in Keys(all);
    var n :| n in all && KeyOf(n) == alias;
    var j :| 0 <= j < |all| && all[j] == n;
    assert all[0] == role && j > 0;
    AliasSameKey();
    assert NodeIdBy(sha)(all[0]) == NodeIdBy(sha)(all[j]);
  }

  lemma AliasSameKey()
    ensures CanonicalKey(Key("AWS", "IAMRole", "r")) == CanonicalKey(Key("aws", "IAMRole", "r"))
  {
    assert Strip("AWS") == "AWS" && Strip("aws") == "aws";
    assert Lower("AWS") == Lower("aws");
  }
}
