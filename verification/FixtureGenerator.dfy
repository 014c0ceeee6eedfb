/** The synthetic IAM graph generator of the scalability harness
    (benchmarks/scalability/harness.py, generate_fixture and the helpers it calls).

    Edge ids are truncated digests of an edge's fields; the digest is a parameter here, and
    `Injective` says that it does not collide. */
module FixtureGenerator {
  import opened Basics
  import opened Ordering
  import opened PathSearch
  import opened PathOrder

  datatype Config = Config(
    name: string,
    seed: nat,
    accounts: nat,
    principals: nat,
    roles: nat,
    depth: nat,
    branching: nat,
    constraints: nat,
    resourceEdges: nat,
    extraTrust: nat,
    disjoint: bool,
    omitTerminal: bool,
    expectedValidPaths: Option<nat>)

  datatype EdgeKey = EdgeKey(edgeType: string, source: string, target: string, action: string)

  type Digest = EdgeKey -> string

  const PERMISSION := "sts:AssumeRole_permission"
  const TRUST := "sts:AssumeRole_trust"
  const ASSUME := "sts:AssumeRole"
  const RESOURCE_ALLOW := "synthetic_resource_policy_allow"
  const GET_OBJECT := "synthetic:GetObject"

  ghost predicate Injective(digest: Digest) {
    forall k, l :: digest(k) == digest(l) ==> k == l
  }

  // ----- node ids -----

  function AccountId(c: Config, a: nat): string {
    Prefix(c) + Decimal(a)
  }

  function Prefix(c: Config): string { c.name + ":account:" }

  function MemberId(c: Config, a: nat, kind: string, i: nat): string {
    Prefix(c) + (Decimal(a) + ":" + Suffix(kind, i))
  }

  function Suffix(kind: string, i: nat): string { kind + ":" + Decimal(i) }

  function RoleId(c: Config, a: nat, r: nat): string { MemberId(c, a, "role", r) }

  function UserId(c: Config, a: nat, p: nat): string { MemberId(c, a, "user", p) }

  function ResourceId(c: Config, a: nat, e: nat): string { MemberId(c, a, "synthetic-resource", e) }

  lemma DecimalNoColon(n: nat)
    ensures ':' !in Decimal(n)
  {
    DecimalValue(n);
  }

  lemma FirstColon(u: string, v: string)
    requires ':' !in u
    ensures (u + ":" + v)[|u|] == ':'
    ensures forall k | 0 <= k < |u| :: (u + ":" + v)[k] != ':'
  {
  }

  lemma SplitAtColon(u: string, v: string, x: string, y: string)
    requires ':' !in u && ':' !in x && u + ":" + v == x + ":" + y
    ensures u == x && v == y
  {
    var l, r := u + ":" + v, x + ":" + y;
    FirstColon(u, v);
    FirstColon(x, y);
    assert u == l[..|u|] && x == r[..|x|];
    assert v == l[|u|+1..] && y == r[|x|+1..];
  }

  lemma DropPrefix(pre: string, x: string, y: string)
    requires pre + x == pre + y
    ensures x == y
  {
    assert x == (pre + x)[|pre|..];
    assert y == (pre + y)[|pre|..];
  }

  lemma SuffixInjective(kind: string, i: nat, kind': string, i': nat)
    requires ':' !in kind && ':' !in kind' && Suffix(kind, i) == Suffix(kind', i')
    ensures kind == kind' && i == i'
  {
    SplitAtColon(kind, Decimal(i), kind', Decimal(i'));
    DecimalInjective(i, i');
  }

  lemma MemberIdInjective(c: Config, a: nat, kind: string, i: nat, a': nat, kind': string, i': nat)
    requires ':' !in kind && ':' !in kind'
    requires MemberId(c, a, kind, i) == MemberId(c, a', kind', i')
    ensures a == a' && kind == kind' && i == i'
  {
    var s, s' := Suffix(kind, i), Suffix(kind', i');
    DropPrefix(Prefix(c), Decimal(a) + ":" + s, Decimal(a') + ":" + s');
    DecimalNoColon(a);
    DecimalNoColon(a');
    SplitAtColon(Decimal(a), s, Decimal(a'), s');
    DecimalInjective(a, a');
    SuffixInjective(kind, i, kind', i');
  }

  lemma AccountIdInjective(c: Config, a: nat, b: nat)
    requires AccountId(c, a) == AccountId(c, b)
    ensures a == b
  {
    DropPrefix(Prefix(c), Decimal(a), Decimal(b));
    DecimalInjective(a, b);
  }

  lemma AccountIsNoMember(c: Config, a: nat, b: nat, kind: string, i: nat)
    ensures AccountId(c, a) != MemberId(c, b, kind, i)
  {
    var rest := Decimal(b) + ":" + Suffix(kind, i);
    assert rest[|Decimal(b)|] == ':';
    DecimalNoColon(a);
    if AccountId(c, a) == MemberId(c, b, kind, i) {
      DropPrefix(Prefix(c), Decimal(a), rest);
    }
  }

  // ----- which nodes -----

  /** Decimal digits, padded with zeros on the left to six places. */
  function SixDigits(n: nat): string {
    var s := Decimal(n);
    if |s| < 6 then seq(6 - |s|, i => '0') + s else s
  }

  function AccountNumber(c: Config, a: nat): string { SixDigits(c.seed % 1000000) + SixDigits(a + 1) }

  function AccountNode(c: Config, a: nat): Node { Node(AccountId(c, a), "AWSAccount", AccountNumber(c, a)) }
  function UserNode(c: Config, a: nat, p: nat): Node { Node(UserId(c, a, p), USER, AccountNumber(c, a)) }
  function RoleNode(c: Config, a: nat, r: nat): Node { Node(RoleId(c, a, r), ROLE, AccountNumber(c, a)) }

  function ResourceNode(c: Config, e: nat): Node
    requires Divisible(c) && e < c.resourceEdges
  {
    Node(ResourceId(c, e % c.accounts, e), "SyntheticResource", AccountNumber(c, e % c.accounts))
  }

  /** Every remainder the generator takes has a nonzero divisor; otherwise it raises. */
  predicate Divisible(c: Config) {
    && (c.accounts > 0 && c.principals > 0 && (c.branching > 0 || c.extraTrust > 0) ==> c.roles > 0)
    && (c.resourceEdges > 0 ==> c.accounts > 0 && c.principals > 0)
  }

  /** The nodes of the first n accounts, then the first m members of the next one. */
  ghost function AccountNodes(c: Config, n: nat): set<Node> {
    (set a | 0 <= a < n :: AccountNode(c, a))
    + (set a, p | 0 <= a < n && 0 <= p < c.principals :: UserNode(c, a, p))
    + (set a, r | 0 <= a < n && 0 <= r < c.roles :: RoleNode(c, a, r))
  }

  ghost function UserNodes(c: Config, a: nat, n: nat): set<Node> {
    set p | 0 <= p < n :: UserNode(c, a, p)
  }

  ghost function RoleNodes(c: Config, a: nat, n: nat): set<Node> {
    set r | 0 <= r < n :: RoleNode(c, a, r)
  }

  ghost function ResourceNodes(c: Config, n: nat): set<Node>
    requires Divisible(c) && n <= c.resourceEdges
  {
    set e | 0 <= e < n :: ResourceNode(c, e)
  }

  ghost function NodesFor(c: Config): set<Node>
    requires Divisible(c)
  {
    AccountNodes(c, c.accounts) + ResourceNodes(c, c.resourceEdges)
  }

  ghost predicate NodeTable(nodes: map<string, Node>, s: set<Node>) {
    && (forall id | id in nodes :: nodes[id] in s && nodes[id].nodeId == id)
    && (forall n | n in s :: n.nodeId in nodes)
  }

  lemma NodeTablePut(nodes: map<string, Node>, s: set<Node>, n: Node)
    requires NodeTable(nodes, s)
    ensures NodeTable(nodes[n.nodeId := n], s + {n})
  {
  }

  ghost predicate HasForm(c: Config, n: Node, a: nat, kind: string, i: nat) {
    && n.accountId == AccountNumber(c, a)
    && ':' !in kind
    && n.nodeId == (if kind == "" then AccountId(c, a) else MemberId(c, a, kind, i))
    && n.kind == (if kind == "" then "AWSAccount" else if kind == "user" then USER
                  else if kind == "role" then ROLE else "SyntheticResource")
  }

  lemma NodeForm(c: Config, n: Node) returns (a: nat, kind: string, i: nat)
    requires Divisible(c) && n in NodesFor(c)
    ensures HasForm(c, n, a, kind, i)
  {
    hide AccountNumber, MemberId;
    if n in ResourceNodes(c, c.resourceEdges) {
      i :| 0 <= i < c.resourceEdges && n == ResourceNode(c, i);
      a, kind := i % c.accounts, "synthetic-resource";
    } else {
      a, kind, i := AccountNodeForm(c, n);
    }
  }

  lemma AccountNodeForm(c: Config, n: Node) returns (a: nat, kind: string, i: nat)
    requires n in AccountNodes(c, c.accounts)
    ensures HasForm(c, n, a, kind, i)
  {
    hide AccountNumber, MemberId;
    if x: nat :| 0 <= x < c.accounts && n == AccountNode(c, x) {
      a, kind, i := x, "", 0;
    } else if x: nat, p: nat :| 0 <= x < c.accounts && 0 <= p < c.principals && n == UserNode(c, x, p) {
      a, kind, i := x, "user", p;
    } else {
      kind := "role";
      a, i :| 0 <= a < c.accounts && 0 <= i < c.roles && n == RoleNode(c, a, i);
    }
  }

  /** An id determines its node. */
  lemma NodeIdsDistinct(c: Config, m: Node, n: Node)
    requires Divisible(c) && m in NodesFor(c) && n in NodesFor(c) && m.nodeId == n.nodeId
    ensures m == n
  {
    var a, k, i := NodeForm(c, m);
    var b, l, j := NodeForm(c, n);
    if k == "" && l == "" {
      AccountIdInjective(c, a, b);
    } else if k == "" {
      AccountIsNoMember(c, a, b, l, j);
    } else if l == "" {
      AccountIsNoMember(c, b, a, k, i);
    } else {
      MemberIdInjective(c, a, k, i, b, l, j);
    }
  }

  // ----- which edges -----

  function FlatIndex(c: Config, p: nat, b: nat): nat { p * c.branching + b }

  /** n modulo the number of roles. Without roles no remainder is taken, so the value does not
      matter. */
  function AmongRoles(c: Config, n: nat): nat {
    if c.roles == 0 then 0 else n % c.roles
  }

  function DisjointIndex(c: Config, p: nat, b: nat, d: nat): nat {
    AmongRoles(c, p * c.branching * c.depth + b * c.depth + d)
  }

  function FirstIndex(c: Config, p: nat, b: nat): nat
  {
    if c.disjoint then DisjointIndex(c, p, b, 0) else AmongRoles(c, p * c.branching + b)
  }

  /** The role number that branch b of principal p reaches at depth d. */
  function ChainIndex(c: Config, p: nat, b: nat, d: nat): nat
  {
    var first := FirstIndex(c, p, b);
    if d == 0 then first
    else
      var next := if c.disjoint then DisjointIndex(c, p, b, d) else AmongRoles(c, first + d * c.branching + b);
      if next == first then AmongRoles(c, next + 1) else next
  }

  function ChainRole(c: Config, a: nat, p: nat, b: nat, d: nat): string
  {
    RoleId(c, a, ChainIndex(c, p, b, d))
  }

  datatype Layer = Permission | Trust

  /** The last hop of a chain whose terminal pair is omitted. */
  predicate Gap(c: Config, d: nat) {
    c.omitTerminal && d > 0 && d == c.depth - 1
  }

  /** The permission or trust edge of a chain at depth d, as (source, target). At a gap the
      trust edge is a decoy that runs from the target to itself. */
  function Hop(c: Config, layer: Layer, a: nat, p: nat, b: nat, d: nat): (string, string)
  {
    var target := ChainRole(c, a, p, b, d);
    if layer == Trust && Gap(c, d) then (target, target)
    else (if d == 0 then UserId(c, a, p) else ChainRole(c, a, p, b, d - 1), target)
  }

  /** A chain always has its first hop, whatever the configured depth. */
  function Hops(c: Config): nat { if c.depth <= 1 then 1 else c.depth }

  function ExtraIndex(c: Config, p: nat, o: nat): nat
  {
    AmongRoles(c, p * c.branching + c.depth * c.branching + o)
  }

  function ExtraLink(c: Config, a: nat, p: nat, o: nat): (string, string)
  {
    (UserId(c, a, p), RoleId(c, a, ExtraIndex(c, p, o)))
  }

  type Pairs = set<(string, string)>

  function MakeEdge(digest: Digest, edgeType: string, action: string, pair: (string, string)): Edge {
    Edge(digest(EdgeKey(edgeType, pair.0, pair.1, action)), pair.0, pair.1, edgeType, action)
  }

  /** The table holds exactly the edges of `pairs`, up to digest collisions. */
  ghost predicate EdgeTable(edges: map<string, Edge>, digest: Digest, edgeType: string, action: string, pairs: Pairs) {
    && (forall id | id in edges ::
          var e := edges[id];
          e.edgeId == id && (e.source, e.target) in pairs &&
          e == MakeEdge(digest, edgeType, action, (e.source, e.target)))
    && (forall pair | pair in pairs :: MakeEdge(digest, edgeType, action, pair).edgeId in edges)
  }

  method AddEdge(edges: map<string, Edge>, digest: Digest, source: string, target: string, edgeType: string,
                 action: string, ghost pairs: Pairs)
    returns (r: map<string, Edge>)
    requires EdgeTable(edges, digest, edgeType, action, pairs)
    ensures EdgeTable(r, digest, edgeType, action, pairs + {(source, target)})
  {
    var edge := Edge(digest(EdgeKey(edgeType, source, target, action)), source, target, edgeType, action);
    r := edges[edge.edgeId := edge];
  }

  ghost predicate Tables(permission: map<string, Edge>, trust: map<string, Edge>, digest: Digest, ps: Pairs, ts: Pairs)
  {
    EdgeTable(permission, digest, PERMISSION, ASSUME, ps) && EdgeTable(trust, digest, TRUST, ASSUME, ts)
  }

  lemma NoTables(digest: Digest)
    ensures Tables(map[], map[], digest, {}, {})
  {
  }

  /** Both halves of an assume-role step. */
  method AddAssumeRolePair(permission: map<string, Edge>, trust: map<string, Edge>, digest: Digest, source: string,
                           target: string, ghost ps: Pairs, ghost ts: Pairs)
    returns (permission': map<string, Edge>, trust': map<string, Edge>)
    requires Tables(permission, trust, digest, ps, ts)
    ensures Tables(permission', trust', digest, ps + {(source, target)}, ts + {(source, target)})
  {
    permission' := AddEdge(permission, digest, source, target, PERMISSION, ASSUME, ps);
    trust' := AddEdge(trust, digest, source, target, TRUST, ASSUME, ts);
  }

  /** A permission edge whose trust half is a decoy. */
  method AddTerminalGapEdges(permission: map<string, Edge>, trust: map<string, Edge>, digest: Digest, source: string,
                             target: string, ghost ps: Pairs, ghost ts: Pairs)
    returns (permission': map<string, Edge>, trust': map<string, Edge>)
    requires Tables(permission, trust, digest, ps, ts)
    ensures Tables(permission', trust', digest, ps + {(source, target)}, ts + {(target, target)})
  {
    var decoySource := target;
    permission' := AddEdge(permission, digest, source, target, PERMISSION, ASSUME, ps);
    trust' := AddEdge(trust, digest, decoySource, target, TRUST, ASSUME, ts);
  }

  // The hops added so far, one loop level at a time.

  ghost function ChainHops(c: Config, layer: Layer, a: nat, p: nat, b: nat, n: nat): Pairs
  {
    set d | 0 <= d < n :: Hop(c, layer, a, p, b, d)
  }

  ghost function BranchHops(c: Config, layer: Layer, a: nat, p: nat, n: nat): Pairs
  {
    set b, d | 0 <= b < n && 0 <= d < Hops(c) :: Hop(c, layer, a, p, b, d)
  }

  ghost function PrincipalHops(c: Config, layer: Layer, a: nat, n: nat): Pairs
  {
    set p, b, d | 0 <= p < n && 0 <= b < c.branching && 0 <= d < Hops(c) :: Hop(c, layer, a, p, b, d)
  }

  ghost function AccountHops(c: Config, layer: Layer, n: nat): Pairs
  {
    set a, p, b, d | 0 <= a < n && 0 <= p < c.principals && 0 <= b < c.branching && 0 <= d < Hops(c) ::
      Hop(c, layer, a, p, b, d)
  }

  lemma ChainGrows(c: Config, layer: Layer, a: nat, p: nat, b: nat, d: nat)
    ensures ChainHops(c, layer, a, p, b, d + 1) == ChainHops(c, layer, a, p, b, d) + {Hop(c, layer, a, p, b, d)}
  {
    hide Hop;
  }

  lemma BranchGrows(c: Config, layer: Layer, a: nat, p: nat, b: nat)
    ensures BranchHops(c, layer, a, p, b + 1) == BranchHops(c, layer, a, p, b) + ChainHops(c, layer, a, p, b, Hops(c))
  {
    hide Hop;
  }

  lemma PrincipalGrows(c: Config, layer: Layer, a: nat, p: nat)
    ensures PrincipalHops(c, layer, a, p + 1) == PrincipalHops(c, layer, a, p) + BranchHops(c, layer, a, p, c.branching)
  {
    hide Hop;
  }

  lemma AccountGrows(c: Config, layer: Layer, a: nat)
    ensures AccountHops(c, layer, a + 1) == AccountHops(c, layer, a) + PrincipalHops(c, layer, a, c.principals)
  {
    hide Hop;
  }

  lemma NoHops(c: Config, layer: Layer, a: nat, p: nat, b: nat)
    ensures ChainHops(c, layer, a, p, b, 0) == {} && BranchHops(c, layer, a, p, 0) == {}
    ensures PrincipalHops(c, layer, a, 0) == {} && AccountHops(c, layer, 0) == {}
  {
    hide Hop;
  }

  /** One branch of one principal: the first hop, then one hop per further depth. */
  method AddChain(c: Config, digest: Digest, a: nat, p: nat, b: nat,
                  permission: map<string, Edge>, trust: map<string, Edge>, ghost ps: Pairs, ghost ts: Pairs)
    returns (permission': map<string, Edge>, trust': map<string, Edge>)
    requires c.roles > 0 && Tables(permission, trust, digest, ps, ts)
    ensures Tables(permission', trust', digest,
                   ps + ChainHops(c, Permission, a, p, b, Hops(c)), ts + ChainHops(c, Trust, a, p, b, Hops(c)))
  {
    hide ChainHops, Tables, EdgeTable, Prefix, MemberId, Suffix, Decimal;
    var source := UserId(c, a, p);
    var firstRoleIndex := if c.disjoint then DisjointIndex(c, p, b, 0) else (p * c.branching + b) % c.roles;
    var currentTarget := RoleId(c, a, firstRoleIndex);
    NoHops(c, Permission, a, p, b);
    NoHops(c, Trust, a, p, b);
    ChainGrows(c, Permission, a, p, b, 0);
    ChainGrows(c, Trust, a, p, b, 0);
    assert ps + ChainHops(c, Permission, a, p, b, 1) == ps + {(source, currentTarget)};
    assert ts + ChainHops(c, Trust, a, p, b, 1) == ts + {(source, currentTarget)};
    permission', trust' := AddAssumeRolePair(permission, trust, digest, source, currentTarget, ps, ts);
    var currentSource := currentTarget;
    var d := 1;
    while d < c.depth
      invariant 1 <= d <= Hops(c)
      invariant Tables(permission', trust', digest,
                       ps + ChainHops(c, Permission, a, p, b, d), ts + ChainHops(c, Trust, a, p, b, d))
      invariant currentSource == ChainRole(c, a, p, b, d - 1) || (d == Hops(c) && Gap(c, d - 1))
      decreases c.depth - d
    {
      var nextRoleIndex := if c.disjoint then DisjointIndex(c, p, b, d)
                           else (firstRoleIndex + d * c.branching + b) % c.roles;
      if nextRoleIndex == firstRoleIndex {
        nextRoleIndex := (nextRoleIndex + 1) % c.roles;
      }
      var nextTarget := RoleId(c, a, nextRoleIndex);
      ghost var ps', ts' := ps + ChainHops(c, Permission, a, p, b, d), ts + ChainHops(c, Trust, a, p, b, d);
      ChainGrows(c, Permission, a, p, b, d);
      ChainGrows(c, Trust, a, p, b, d);
      assert ps + ChainHops(c, Permission, a, p, b, d + 1) == ps' + {(currentSource, nextTarget)};
      if c.omitTerminal && d == c.depth - 1 {
        assert ts + ChainHops(c, Trust, a, p, b, d + 1) == ts' + {(nextTarget, nextTarget)};
        permission', trust' := AddTerminalGapEdges(permission', trust', digest, currentSource, nextTarget, ps', ts');
        d := d + 1;
        continue;
      }
      assert ts + ChainHops(c, Trust, a, p, b, d + 1) == ts' + {(currentSource, nextTarget)};
      permission', trust' := AddAssumeRolePair(permission', trust', digest, currentSource, nextTarget, ps', ts');
      currentSource := nextTarget;
      d := d + 1;
    }
  }

  /** The chains of every branch of every principal of every account. */
  method AddChains(c: Config, digest: Digest) returns (permission: map<string, Edge>, trust: map<string, Edge>)
    requires c.accounts > 0 && c.principals > 0 && c.branching > 0 ==> c.roles > 0
    ensures Tables(permission, trust, digest, AccountHops(c, Permission, c.accounts), AccountHops(c, Trust, c.accounts))
  {
    hide *;
    permission, trust := map[], map[];
    NoTables(digest);
    ghost var ps: Pairs, ts: Pairs := {}, {};
    NoHops(c, Permission, 0, 0, 0);
    NoHops(c, Trust, 0, 0, 0);
    for a := 0 to c.accounts
      invariant Tables(permission, trust, digest, ps, ts)
      invariant ps == AccountHops(c, Permission, a) && ts == AccountHops(c, Trust, a)
    {
      NoHops(c, Permission, a, 0, 0);
      NoHops(c, Trust, a, 0, 0);
      for p := 0 to c.principals
        invariant Tables(permission, trust, digest, ps, ts)
        invariant ps == AccountHops(c, Permission, a) + PrincipalHops(c, Permission, a, p)
        invariant ts == AccountHops(c, Trust, a) + PrincipalHops(c, Trust, a, p)
      {
        NoHops(c, Permission, a, p, 0);
        NoHops(c, Trust, a, p, 0);
        for b := 0 to c.branching
          invariant Tables(permission, trust, digest, ps, ts)
          invariant ps == AccountHops(c, Permission, a) + PrincipalHops(c, Permission, a, p) +
                    BranchHops(c, Permission, a, p, b)
          invariant ts == AccountHops(c, Trust, a) + PrincipalHops(c, Trust, a, p) + BranchHops(c, Trust, a, p, b)
        {
          permission, trust := AddChain(c, digest, a, p, b, permission, trust, ps, ts);
          ps, ts := ps + ChainHops(c, Permission, a, p, b, Hops(c)), ts + ChainHops(c, Trust, a, p, b, Hops(c));
          BranchGrows(c, Permission, a, p, b);
          BranchGrows(c, Trust, a, p, b);
        }
        PrincipalGrows(c, Permission, a, p);
        PrincipalGrows(c, Trust, a, p);
      }
      AccountGrows(c, Permission, a);
      AccountGrows(c, Trust, a);
    }
  }

  // ----- extra trust edges -----

  ghost function OffsetExtras(c: Config, a: nat, p: nat, n: nat): Pairs
  {
    set o | 0 <= o < n :: ExtraLink(c, a, p, o)
  }

  ghost function PrincipalExtras(c: Config, a: nat, n: nat): Pairs
  {
    set p, o | 0 <= p < n && 0 <= o < c.extraTrust :: ExtraLink(c, a, p, o)
  }

  ghost function AccountExtras(c: Config, n: nat): Pairs
  {
    set a, p, o | 0 <= a < n && 0 <= p < c.principals && 0 <= o < c.extraTrust :: ExtraLink(c, a, p, o)
  }

  lemma ExtrasGrow(c: Config, a: nat, p: nat, o: nat)
    ensures OffsetExtras(c, a, p, o + 1) == OffsetExtras(c, a, p, o) + {ExtraLink(c, a, p, o)}
    ensures PrincipalExtras(c, a, p + 1) == PrincipalExtras(c, a, p) + OffsetExtras(c, a, p, c.extraTrust)
    ensures AccountExtras(c, a + 1) == AccountExtras(c, a) + PrincipalExtras(c, a, c.principals)
    ensures OffsetExtras(c, a, p, 0) == {} && PrincipalExtras(c, a, 0) == {} && AccountExtras(c, 0) == {}
  {
    hide ExtraLink;
  }

  method AddExtraTrustEdges(c: Config, digest: Digest, trust: map<string, Edge>, ghost before: Pairs)
    returns (trust': map<string, Edge>)
    requires c.accounts > 0 && c.principals > 0 && c.extraTrust > 0 ==> c.roles > 0
    requires EdgeTable(trust, digest, TRUST, ASSUME, before)
    ensures EdgeTable(trust', digest, TRUST, ASSUME, before + AccountExtras(c, c.accounts))
  {
    hide AccountExtras, PrincipalExtras, OffsetExtras, EdgeTable, MemberId, Decimal;
    trust' := trust;
    ghost var ts := before;
    ExtrasGrow(c, 0, 0, 0);
    for a := 0 to c.accounts
      invariant EdgeTable(trust', digest, TRUST, ASSUME, ts)
      invariant ts == before + AccountExtras(c, a)
    {
      ExtrasGrow(c, a, 0, 0);
      for p := 0 to c.principals
        invariant EdgeTable(trust', digest, TRUST, ASSUME, ts)
        invariant ts == before + AccountExtras(c, a) + PrincipalExtras(c, a, p)
      {
        var source := UserId(c, a, p);
        ExtrasGrow(c, a, p, 0);
        for o := 0 to c.extraTrust
          invariant EdgeTable(trust', digest, TRUST, ASSUME, ts)
          invariant ts == before + AccountExtras(c, a) + PrincipalExtras(c, a, p) + OffsetExtras(c, a, p, o)
        {
          var roleIndex := (p * c.branching + c.depth * c.branching + o) % c.roles;
          var target := RoleId(c, a, roleIndex);
          trust' := AddEdge(trust', digest, source, target, TRUST, ASSUME, ts);
          ts := ts + {(source, target)};
          ExtrasGrow(c, a, p, o);
        }
      }
    }
  }

  // ----- nodes, resource edges and the finished fixture -----

  ghost function ResourceLinks(c: Config, n: nat): Pairs
    requires Divisible(c) && n <= c.resourceEdges
  {
    set e | 0 <= e < n :: (UserId(c, e % c.accounts, e % c.principals), ResourceId(c, e % c.accounts, e))
  }

  lemma NodesGrow(c: Config, a: nat)
    ensures AccountNodes(c, a + 1)
         == AccountNodes(c, a) + {AccountNode(c, a)} + UserNodes(c, a, c.principals) + RoleNodes(c, a, c.roles)
  {
    hide AccountNode, UserNode, RoleNode;
  }

  lemma MembersGrow(c: Config, a: nat, i: nat)
    ensures UserNodes(c, a, i + 1) == UserNodes(c, a, i) + {UserNode(c, a, i)}
    ensures RoleNodes(c, a, i + 1) == RoleNodes(c, a, i) + {RoleNode(c, a, i)}
  {
    hide AccountNode, UserNode, RoleNode;
  }

  lemma NoNodes(c: Config, a: nat)
    ensures AccountNodes(c, 0) == {} && UserNodes(c, a, 0) == {} && RoleNodes(c, a, 0) == {}
    ensures NodeTable(map[], {})
  {
    hide AccountNode, UserNode, RoleNode;
  }

  method AddAccountNodes(c: Config) returns (nodes: map<string, Node>)
    ensures NodeTable(nodes, AccountNodes(c, c.accounts))
  {
    hide AccountNodes, UserNodes, RoleNodes, NodeTable, MemberId, Decimal;
    nodes := map[];
    ghost var s: set<Node> := {};
    NoNodes(c, 0);
    for a := 0 to c.accounts
      invariant NodeTable(nodes, s) && s == AccountNodes(c, a)
    {
      NoNodes(c, a);
      NodeTablePut(nodes, s, AccountNode(c, a));
      nodes := nodes[AccountId(c, a) := AccountNode(c, a)];
      s := s + {AccountNode(c, a)};
      for p := 0 to c.principals
        invariant NodeTable(nodes, s) && s == AccountNodes(c, a) + {AccountNode(c, a)} + UserNodes(c, a, p)
      {
        MembersGrow(c, a, p);
        NodeTablePut(nodes, s, UserNode(c, a, p));
        nodes := nodes[UserId(c, a, p) := UserNode(c, a, p)];
        s := s + {UserNode(c, a, p)};
      }
      for r := 0 to c.roles
        invariant NodeTable(nodes, s)
        invariant s == AccountNodes(c, a) + {AccountNode(c, a)} + UserNodes(c, a, c.principals) + RoleNodes(c, a, r)
      {
        MembersGrow(c, a, r);
        NodeTablePut(nodes, s, RoleNode(c, a, r));
        nodes := nodes[RoleId(c, a, r) := RoleNode(c, a, r)];
        s := s + {RoleNode(c, a, r)};
      }
      NodesGrow(c, a);
    }
  }

  method AddResources(c: Config, digest: Digest, nodes: map<string, Node>, ghost s: set<Node>)
    returns (nodes': map<string, Node>, edges: map<string, Edge>)
    requires Divisible(c) && NodeTable(nodes, s)
    ensures NodeTable(nodes', s + ResourceNodes(c, c.resourceEdges))
    ensures EdgeTable(edges, digest, RESOURCE_ALLOW, GET_OBJECT, ResourceLinks(c, c.resourceEdges))
  {
    nodes', edges := nodes, map[];
    assert s + ResourceNodes(c, 0) == s;
    for e := 0 to c.resourceEdges
      invariant NodeTable(nodes', s + ResourceNodes(c, e))
      invariant EdgeTable(edges, digest, RESOURCE_ALLOW, GET_OBJECT, ResourceLinks(c, e))
    {
      var a := e % c.accounts;
      var p := e % c.principals;
      var source := UserId(c, a, p);
      var target := ResourceId(c, a, e);
      NodeTablePut(nodes', s + ResourceNodes(c, e), ResourceNode(c, e));
      assert s + ResourceNodes(c, e + 1) == s + ResourceNodes(c, e) + {ResourceNode(c, e)};
      assert ResourceLinks(c, e + 1) == ResourceLinks(c, e) + {(source, target)};
      nodes' := nodes'[target := Node(target, "SyntheticResource", AccountNumber(c, a))];
      edges := AddEdge(edges, digest, source, target, RESOURCE_ALLOW, GET_OBJECT, ResourceLinks(c, e));
    }
  }

  /** The values of a table, in ascending order of their ids. */
  function Values<T>(table: map<string, T>): (r: seq<T>)
    ensures |r| == |table|
  {
    var ks := Enumerate(table.Keys);
    seq(|ks|, i requires 0 <= i < |ks| => assert ks[i] in ks; table[ks[i]])
  }

  lemma ValuesHave<T>(table: map<string, T>, k: string)
    requires k in table
    ensures table[k] in Values(table)
  {
    var ks := Enumerate(table.Keys);
    assert k in ks;
    var i :| 0 <= i < |ks| && ks[i] == k;
    assert Values(table)[i] == table[k];
  }

  lemma ValuesDistinct<T>(table: map<string, T>, key: T -> string)
    requires forall k | k in table :: key(table[k]) == k
    ensures DistinctBy(Values(table), key)
  {
    var ks := Enumerate(table.Keys);
    forall i, j | 0 <= i < j < |ks| ensures key(Values(table)[i]) != key(Values(table)[j]) {
      assert ks[i] in ks && ks[j] in ks && StrLess(ks[i], ks[j]);
    }
  }

  lemma ValuesOnly<T>(table: map<string, T>, x: T) returns (k: string)
    requires x in Values(table)
    ensures k in table && table[k] == x
  {
    var ks := Enumerate(table.Keys);
    var i :| 0 <= i < |ks| && Values(table)[i] == x;
    k := ks[i];
    assert k in ks;
  }

  /** What generate_fixture promises, for every configuration. */
  ghost predicate FixtureFor(c: Config, digest: Digest, f: Fixture)
    requires Divisible(c)
  {
    && f.pathDepth == c.depth
    && (forall n :: n in f.nodes <==> n in NodesFor(c))
    && EdgeList(f.permissionEdges, digest, PERMISSION, ASSUME, AccountHops(c, Permission, c.accounts))
    && EdgeList(f.trustEdges, digest, TRUST, ASSUME, AccountHops(c, Trust, c.accounts) + AccountExtras(c, c.accounts))
    && EdgeList(f.resourcePolicyEdges, digest, RESOURCE_ALLOW, GET_OBJECT, ResourceLinks(c, c.resourceEdges))
    && f.constraintCount == c.constraints
  }

  ghost predicate EdgeList(edges: seq<Edge>, digest: Digest, edgeType: string, action: string, pairs: Pairs) {
    && (forall e | e in edges ::
          (e.source, e.target) in pairs && e == MakeEdge(digest, edgeType, action, (e.source, e.target)))
    && (forall pair | pair in pairs ::
          exists e :: e in edges && e.edgeId == MakeEdge(digest, edgeType, action, pair).edgeId)
  }

  lemma TableToList(table: map<string, Edge>, digest: Digest, edgeType: string, action: string, pairs: Pairs)
    requires EdgeTable(table, digest, edgeType, action, pairs)
    ensures EdgeList(Values(table), digest, edgeType, action, pairs)
  {
    hide Values;
    forall e | e in Values(table)
      ensures (e.source, e.target) in pairs && e == MakeEdge(digest, edgeType, action, (e.source, e.target))
    {
      var k := ValuesOnly(table, e);
    }
    forall pair | pair in pairs
      ensures exists e :: e in Values(table) && e.edgeId == MakeEdge(digest, edgeType, action, pair).edgeId
    {
      ValuesHave(table, MakeEdge(digest, edgeType, action, pair).edgeId);
    }
  }

  lemma TableDistinct(table: map<string, Edge>, digest: Digest, edgeType: string, action: string, pairs: Pairs)
    requires EdgeTable(table, digest, edgeType, action, pairs)
    ensures DistinctBy(Values(table), IdOf)
  {
    ValuesDistinct(table, IdOf);
  }

  lemma NodesToList(c: Config, table: map<string, Node>)
    requires Divisible(c) && NodeTable(table, NodesFor(c))
    ensures forall n :: n in Values(table) <==> n in NodesFor(c)
    ensures DistinctBy(Values(table), NodeIdOf)
  {
    forall n | n in NodesFor(c) ensures n in Values(table) {
      NodeIdsDistinct(c, n, table[n.nodeId]);
      ValuesHave(table, n.nodeId);
    }
    forall n | n in Values(table) ensures n in NodesFor(c) {
      var k := ValuesOnly(table, n);
    }
    ValuesDistinct(table, NodeIdOf);
  }

  method GenerateFixture(c: Config, digest: Digest) returns (f: Fixture)
    requires Divisible(c)
    ensures FixtureFor(c, digest, f)
    ensures DistinctIds(f)
  {
    hide Values, EdgeList, EdgeTable, NodeTable, AccountHops, AccountExtras, AccountNodes, ResourceNodes, ResourceLinks;
    var nodes := AddAccountNodes(c);
    var permission, trust := AddChains(c, digest);
    trust := AddExtraTrustEdges(c, digest, trust, AccountHops(c, Trust, c.accounts));
    var resource;
    nodes, resource := AddResources(c, digest, nodes, AccountNodes(c, c.accounts));
    NodesToList(c, nodes);
    TableToList(permission, digest, PERMISSION, ASSUME, AccountHops(c, Permission, c.accounts));
    TableDistinct(permission, digest, PERMISSION, ASSUME, AccountHops(c, Permission, c.accounts));
    TableToList(trust, digest, TRUST, ASSUME, AccountHops(c, Trust, c.accounts) + AccountExtras(c, c.accounts));
    TableToList(resource, digest, RESOURCE_ALLOW, GET_OBJECT, ResourceLinks(c, c.resourceEdges));
    f := Fixture(c.depth, Values(nodes), Values(permission), Values(trust), Values(resource), c.constraints);
  }

  lemma NoCollision(digest: Digest, k: EdgeKey, l: EdgeKey)
    requires Injective(digest) && digest(k) == digest(l)
    ensures k == l
  {
  }

  /** With a collision-free digest each edge list is exactly its set of pairs. */
  lemma ExactEdges(edges: seq<Edge>, digest: Digest, edgeType: string, action: string, pairs: Pairs,
                   pair: (string, string))
    requires Injective(digest) && EdgeList(edges, digest, edgeType, action, pairs)
    ensures MakeEdge(digest, edgeType, action, pair) in edges <==> pair in pairs
  {
    hide Injective;
    if pair in pairs {
      var e :| e in edges && e.edgeId == MakeEdge(digest, edgeType, action, pair).edgeId;
      NoCollision(digest, EdgeKey(edgeType, e.source, e.target, action), EdgeKey(edgeType, pair.0, pair.1, action));
    }
  }
}
