/** The records of a scenario and their deterministic ids (iamscope/models.py and
    iamscope/identity/deterministic_ids.py).

    An id is the SHA-256 of the stripped, partly lower-cased fields joined by NUL characters.
    The hash is a parameter `sha`; `Injective` says that it does not collide. */
module Models {
  datatype NodeRef = NodeRef(provider: string, nodeType: string, providerId: string, region: string)

  datatype Property = Text(text: string) | Flag(flag: bool)

  datatype Node = Node(provider: string, nodeType: string, providerId: string, region: string,
                       properties: map<string, Property>)

  /** `features` is the canonical JSON text of the feature dictionary. */
  datatype Edge = Edge(edgeType: string, src: NodeRef, dst: NodeRef, region: string, features: string)

  datatype Constraint = Constraint(provider: string, constraintType: string, scopeType: string, scopeId: string,
                                   policyId: string, statementId: string, properties: string)

  datatype EdgeConstraint = EdgeConstraint(edgeId: string, constraintId: string, governanceConfidence: string)

  /** What identifies a node: the key the materialiser and the validator compare. */
  datatype Key = Key(provider: string, nodeType: string, providerId: string)

  type Hash = string -> string

  ghost predicate Injective(sha: Hash) {
    forall s, t :: sha(s) == sha(t) ==> s == t
  }

  lemma NoCollision(sha: Hash, s: string, t: string)
    requires Injective(sha) && sha(s) == sha(t)
    ensures s == t
  {
  }

  function KeyOf(n: Node): Key { Key(n.provider, n.nodeType, n.providerId) }

  function RefKey(r: NodeRef): Key { Key(r.provider, r.nodeType, r.providerId) }

  // ----- canonical fields -----

  predicate IsSpace(c: char) {
    c == ' ' || '\t' <= c <= '\r' || '\U{1c}' <= c <= '\U{1f}'
  }

  function StripLeft(s: string): string {
    if s != "" && IsSpace(s[0]) then StripLeft(s[1..]) else s
  }

  function StripRight(s: string): string {
    if s != "" && IsSpace(s[|s|-1]) then StripRight(s[..|s|-1]) else s
  }

  function Strip(s: string): string { StripRight(StripLeft(s)) }

  function LowerChar(c: char): char {
    if 'A' <= c <= 'Z' then (c as int + 32) as char else c
  }

  function Lower(s: string): (r: string)
    ensures |r| == |s|
    ensures forall i | 0 <= i < |s| :: r[i] == LowerChar(s[i])
  {
    seq(|s|, i requires 0 <= i < |s| => LowerChar(s[i]))
  }

  function Structural(s: string): string { Lower(Strip(s)) }

  const NUL := "\0"

  function Join(fields: seq<string>): string {
    if fields == [] then ""
    else if |fields| == 1 then fields[0]
    else fields[0] + NUL + Join(fields[1..])
  }

  // ----- ids -----

  /** A field that is empty after stripping makes the id computation raise. */
  predicate Blank(s: string) { Strip(s) == "" }

  function CanonicalKey(k: Key): Key {
    Key(Structural(k.provider), Structural(k.nodeType), Strip(k.providerId))
  }

  predicate KeyHasId(k: Key) {
    !Blank(k.provider) && !Blank(k.nodeType) && !Blank(k.providerId)
  }

  /** The text that is hashed into a node id. */
  function KeyText(k: Key): string {
    var c := CanonicalKey(k);
    Join([c.provider, c.nodeType, c.providerId])
  }

  function KeyId(sha: Hash, k: Key): string { sha(KeyText(k)) }

  function NodeId(sha: Hash, n: Node): string { KeyId(sha, KeyOf(n)) }

  predicate EdgeHasId(e: Edge) {
    && !Blank(e.edgeType) && !Blank(e.src.providerId) && !Blank(e.dst.providerId)
    && !Blank(e.region) && !Blank(e.features)
  }

  function EdgeFields(e: Edge): seq<string> {
    [Structural(e.edgeType), Strip(e.src.providerId), Strip(e.dst.providerId), Structural(e.region), Strip(e.features)]
  }

  /** The text that is hashed into an edge id. */
  function EdgeText(e: Edge): string { Join(EdgeFields(e)) }

  function EdgeId(sha: Hash, e: Edge): string { sha(EdgeText(e)) }

  function ConstraintFields(c: Constraint): seq<string> {
    [Structural(c.provider), Structural(c.constraintType), Structural(c.scopeType), Structural(c.scopeId),
     Structural(c.policyId), Structural(c.statementId)]
  }

  predicate ConstraintHasId(c: Constraint) {
    forall f | f in [c.provider, c.constraintType, c.scopeType, c.scopeId, c.policyId, c.statementId] :: !Blank(f)
  }

  function ConstraintId(sha: Hash, c: Constraint): string { sha(Join(ConstraintFields(c))) }

  // The same as function values, for sorting and deduplication.
  function NodeIdBy(sha: Hash): Node -> string { n => NodeId(sha, n) }
  function EdgeIdBy(sha: Hash): Edge -> string { e => EdgeId(sha, e) }
  function ConstraintIdBy(sha: Hash): Constraint -> string { c => ConstraintId(sha, c) }

  // ----- what equal ids mean -----

  predicate NulFree(s: string) { '\0' !in s }

  lemma JoinHead(x: string, u: string, y: string, v: string)
    requires NulFree(x) && NulFree(y) && x + NUL + u == y + NUL + v
    ensures x == y && u == v
  {
    FirstNul(x, u);
    FirstNul(y, v);
    var l, r := x + NUL + u, y + NUL + v;
    assert x == l[..|x|] && y == r[..|y|];
    assert u == l[|x|+1..] && v == r[|y|+1..];
  }

  lemma FirstNul(x: string, u: string)
    requires NulFree(x)
    ensures (x + NUL + u)[|x|] == '\0'
    ensures forall k | 0 <= k < |x| :: (x + NUL + u)[k] != '\0'
  {
  }

  /** Fields without NUL characters can be read back from their joined form. */
  lemma {:induction false} JoinInjective(a: seq<string>, b: seq<string>)
    requires |a| == |b|
    requires forall s | s in a :: NulFree(s)
    requires forall s | s in b :: NulFree(s)
    requires Join(a) == Join(b)
    ensures a == b
  {
    if |a| > 1 {
      assert a[0] in a && b[0] in b;
      JoinHead(a[0], Join(a[1..]), b[0], Join(b[1..]));
      JoinInjective(a[1..], b[1..]);
      assert a == [a[0]] + a[1..] && b == [b[0]] + b[1..];
    }
  }

  lemma {:induction false} StripLeftKeeps(s: string)
    ensures NulFree(s) ==> NulFree(StripLeft(s))
  {
    if s != "" && IsSpace(s[0]) { StripLeftKeeps(s[1..]); }
  }

  lemma {:induction false} StripRightKeeps(s: string)
    ensures NulFree(s) ==> NulFree(StripRight(s))
  {
    if s != "" && IsSpace(s[|s|-1]) { StripRightKeeps(s[..|s|-1]); }
  }

  lemma StripKeeps(s: string)
    ensures NulFree(s) ==> NulFree(Strip(s)) && NulFree(Structural(s))
  {
    StripLeftKeeps(s);
    StripRightKeeps(StripLeft(s));
  }

  predicate KeyNulFree(k: Key) { NulFree(k.provider) && NulFree(k.nodeType) && NulFree(k.providerId) }

  /** Two keys share a node id exactly when the same text is hashed for both. Without NUL
      characters that means that they agree up to surrounding white space and, for provider and
      type, letter case. */
  lemma SameNodeId(sha: Hash, k: Key, l: Key)
    requires Injective(sha)
    ensures KeyId(sha, k) == KeyId(sha, l) <==> KeyText(k) == KeyText(l)
    ensures KeyNulFree(k) && KeyNulFree(l) ==> (KeyText(k) == KeyText(l) <==> CanonicalKey(k) == CanonicalKey(l))
  {
    hide Injective, Strip, Structural, NulFree, Join;
    if KeyId(sha, k) == KeyId(sha, l) { NoCollision(sha, KeyText(k), KeyText(l)); }
    if KeyNulFree(k) && KeyNulFree(l) && KeyText(k) == KeyText(l) { KeyTextReadsBack(k, l); }
  }

  lemma KeyTextReadsBack(k: Key, l: Key)
    requires KeyNulFree(k) && KeyNulFree(l) && KeyText(k) == KeyText(l)
    ensures CanonicalKey(k) == CanonicalKey(l)
  {
    hide Strip, Structural, NulFree;
    var c, d := CanonicalKey(k), CanonicalKey(l);
    var a, b := [c.provider, c.nodeType, c.providerId], [d.provider, d.nodeType, d.providerId];
    StripKeeps(k.provider);
    StripKeeps(k.nodeType);
    StripKeeps(k.providerId);
    StripKeeps(l.provider);
    StripKeeps(l.nodeType);
    StripKeeps(l.providerId);
    JoinInjective(a, b);
    assert c.provider == a[0] && c.nodeType == a[1] && c.providerId == a[2];
    assert d.provider == b[0] && d.nodeType == b[1] && d.providerId == b[2];
  }

  /** A NUL character inside a field can move the boundary between two fields. */
  lemma NulMovesBoundary()
    ensures KeyText(Key("a\0b", "c", "d")) == KeyText(Key("a", "b\0c", "d"))
    ensures CanonicalKey(Key("a\0b", "c", "d")) != CanonicalKey(Key("a", "b\0c", "d"))
  {
    StripIdle("a\0b");
    StripIdle("a");
    StripIdle("b\0c");
    StripIdle("c");
    LowerIdle("a\0b");
    LowerIdle("a");
    LowerIdle("b\0c");
    LowerIdle("c");
    assert "a\0b" + NUL + ("c" + NUL + Strip("d")) == "a" + NUL + ("b\0c" + NUL + Strip("d"));
    assert "a\0b" != "a";
  }

  lemma StripIdle(s: string)
    requires s != "" && !IsSpace(s[0]) && !IsSpace(s[|s|-1])
    ensures Strip(s) == s
  {
  }

  lemma LowerIdle(s: string)
    requires forall c | c in s :: LowerChar(c) == c
    ensures Lower(s) == s
  {
  }

  predicate EdgeNulFree(e: Edge) {
    NulFree(e.edgeType) && NulFree(e.src.providerId) && NulFree(e.dst.providerId) && NulFree(e.region) &&
    NulFree(e.features)
  }

  /** Two edges share an id exactly when the same text is hashed for both. Without NUL characters
      that means equal identifying fields. */
  lemma SameEdgeId(sha: Hash, e: Edge, f: Edge)
    requires Injective(sha)
    ensures EdgeId(sha, e) == EdgeId(sha, f) <==> EdgeText(e) == EdgeText(f)
    ensures EdgeNulFree(e) && EdgeNulFree(f) ==> (EdgeText(e) == EdgeText(f) <==> EdgeFields(e) == EdgeFields(f))
  {
    hide Injective, Strip, Structural, NulFree, Join, EdgeFields;
    if EdgeId(sha, e) == EdgeId(sha, f) { NoCollision(sha, EdgeText(e), EdgeText(f)); }
    if EdgeNulFree(e) && EdgeNulFree(f) && EdgeText(e) == EdgeText(f) { EdgeTextReadsBack(e, f); }
  }

  lemma EdgeTextReadsBack(e: Edge, f: Edge)
    requires EdgeNulFree(e) && EdgeNulFree(f) && EdgeText(e) == EdgeText(f)
    ensures EdgeFields(e) == EdgeFields(f)
  {
    hide Strip, Structural, NulFree;
    EdgeFieldsNulFree(e);
    EdgeFieldsNulFree(f);
    JoinInjective(EdgeFields(e), EdgeFields(f));
  }

  lemma {:induction false} JoinLast(fields: seq<string>)
    requires |fields| > 1
    ensures Join(fields) == Join(fields[..|fields|-1]) + NUL + fields[|fields|-1]
  {
    var rest := fields[1..];
    if |fields| > 2 {
      JoinLast(rest);
      assert rest[..|rest|-1] == fields[..|fields|-1][1..];
    }
  }

  lemma AfterLastNul(u: string, x: string, v: string, y: string)
    requires NulFree(x) && NulFree(y) && u + NUL + x == v + NUL + y
    ensures x == y
  {
    LastNul(u, x);
    LastNul(v, y);
    var s := u + NUL + x;
    assert |u| == |v|;
    assert x == s[|u|+1..] && y == s[|u|+1..];
  }

  lemma LastNul(u: string, x: string)
    requires NulFree(x)
    ensures (u + NUL + x)[|u|] == '\0' && forall k | |u| < k < |u| + 1 + |x| :: (u + NUL + x)[k] != '\0'
  {
  }

  /** The features come last in the text, so equal ids mean equal features whatever the other
      fields hold. */
  lemma SameIdSameFeatures(sha: Hash, e: Edge, f: Edge)
    requires Injective(sha) && EdgeId(sha, e) == EdgeId(sha, f)
    requires NulFree(e.features) && NulFree(f.features)
    ensures Strip(e.features) == Strip(f.features)
  {
    hide Injective, Strip, Structural, NulFree, Join;
    NoCollision(sha, EdgeText(e), EdgeText(f));
    StripKeeps(e.features);
    StripKeeps(f.features);
    var a, b := EdgeFields(e), EdgeFields(f);
    JoinLast(a);
    JoinLast(b);
    AfterLastNul(Join(a[..4]), a[4], Join(b[..4]), b[4]);
  }

  lemma EdgeFieldsNulFree(e: Edge)
    requires EdgeNulFree(e)
    ensures forall s | s in EdgeFields(e) :: NulFree(s)
  {
    hide Strip, Structural, NulFree;
    StripKeeps(e.edgeType);
    StripKeeps(e.src.providerId);
    StripKeeps(e.dst.providerId);
    StripKeeps(e.region);
    StripKeeps(e.features);
  }
}
