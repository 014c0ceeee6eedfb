/** The fixtures that omit the terminal assume-role pair: the harness records that they have
    no full-depth path (expected_valid_synthetic_paths = 0 in
    benchmarks/scalability/harness.py). This module proves exactly which configurations keep
    that promise, by putting the generator and the search together. */
module NegativeFixture {
  import opened Basics
  import opened PathSearch
  import opened PathOrder
  import opened FixtureGenerator

  /** Some recorded path is as long as the configured depth. */
  ghost predicate HasFullDepthPath(f: Fixture) {
    exists ids :: ids in PathsOf(CandidateList(f)) && |ids| == f.pathDepth
  }

  function Chains(c: Config): nat { c.principals * c.branching }

  /** Chains start `depth` roles apart, wrapping at `roles`. A full-depth path exists when the
      wrapped chains no longer line up with the first round. */
  predicate PromiseBroken(c: Config) {
    && c.accounts > 0 && Chains(c) > 0
    && (c.depth == 1
        || (3 <= c.depth <= c.roles && c.roles % c.depth != 0 && Chains(c) * c.depth > c.roles + 1))
  }

  // ----- arithmetic -----

  lemma MulLe(x: int, y: int, k: int)
    requires x <= y && k >= 0
    ensures x * k <= y * k
  {
  }

  lemma MulLtCancels(x: int, y: int, k: int)
    requires x * k < y * k && k > 0
    ensures x < y
  {
    if y <= x { MulLe(y, x, k); }
  }

  lemma QuotientUnique(a: int, b: int, r: int, s: int, n: int)
    requires n > 0 && a * n + r == b * n + s && 0 <= r < n && 0 <= s < n
    ensures a == b && r == s
  {
    assert (a + 1) * n == a * n + n && (b + 1) * n == b * n + n;
    if a < b { MulLe(a + 1, b, n); }
    if b < a { MulLe(b + 1, a, n); }
  }

  lemma ModIs(x: int, q: int, r: int, n: int)
    requires n > 0 && x == q * n + r && 0 <= r < n
    ensures x % n == r
  {
    assert x == (x / n) * n + x % n;
    QuotientUnique(x / n, q, x % n, r, n);
  }

  /** Equal remainders differ by a multiple. */
  lemma SameMod(x: int, y: int, n: int) returns (t: int)
    requires n > 0 && x % n == y % n
    ensures x == y + t * n
  {
    t := x / n - y / n;
    assert x == (x / n) * n + x % n;
    assert y == (y / n) * n + y % n;
    assert t * n == (x / n) * n - (y / n) * n;
  }

  lemma ModShift(x: int, t: int, n: int)
    requires n > 0
    ensures (x + t * n) % n == x % n
  {
    assert x == (x / n) * n + x % n;
    assert (x / n + t) * n == (x / n) * n + t * n;
    ModIs(x + t * n, x / n + t, x % n, n);
  }

  lemma ModStep(x: int, n: int)
    requires n > 0
    ensures (x % n + 1) % n == (x + 1) % n
  {
    assert x == (x / n) * n + x % n;
    ModShift(x % n + 1, x / n, n);
  }

  /** Chain l starts strictly inside the reach of chain k. */
  predicate Overlaps(k: int, l: int, depth: nat, roles: nat)
    requires roles > 0
  {
    1 <= ((l - k) * depth) % roles <= depth - 2
  }

  lemma OverlapWitness(depth: nat, roles: nat, chains: nat) returns (k: nat, l: nat)
    requires 3 <= depth <= roles && roles % depth != 0 && chains * depth > roles + 1
    ensures k < chains && l < chains && Overlaps(k, l, depth, roles)
  {
    var q, r := roles / depth, roles % depth;
    assert roles == q * depth + r;
    if r <= depth - 2 {
      k, l := q, 0;
      assert (l - k) * depth == (-1) * roles + r;
      ModIs((l - k) * depth, -1, r, roles);
      MulLtCancels(q, chains, depth);
    } else {
      k, l := 0, q + 1;
      assert (q + 1) * depth == q * depth + depth == 1 * roles + 1;
      ModIs((l - k) * depth, 1, 1, roles);
      MulLtCancels(q + 1, chains, depth);
    }
  }

  lemma NoOverlapDivisible(depth: nat, roles: nat, k: int, l: int)
    requires 2 <= depth <= roles && roles % depth == 0
    ensures !Overlaps(k, l, depth, roles)
  {
    var x := (l - k) * depth;
    var j, t, q := x % roles, x / roles, roles / depth;
    assert x == t * roles + j && roles == q * depth;
    assert t * roles == (t * q) * depth;
    var m := l - k - t * q;
    assert m * depth == (l - k) * depth - (t * q) * depth == j;
    if m >= 1 { MulLe(1, m, depth); }
    if m <= 0 { MulLe(m, 0, depth); }
  }

  lemma NoOverlapShort(depth: nat, roles: nat, chains: nat, k: nat, l: nat)
    requires 2 <= depth <= roles && chains * depth <= roles + 1 && k < chains && l < chains
    ensures !Overlaps(k, l, depth, roles)
  {
    var m := l - k;
    assert (chains - 1) * depth == chains * depth - depth;
    if m >= 0 {
      MulLe(m, chains - 1, depth);
      MulLe(0, m, depth);
      ModIs(m * depth, 0, m * depth, roles);
      if m >= 1 { MulLe(1, m, depth); }
    } else {
      MulLe(-m, chains - 1, depth);
      assert (-m) * depth == -(m * depth);
      MulLe(m, -1, depth);
      ModIs(m * depth, -1, roles + m * depth, roles);
    }
  }

  // ----- role numbers of the disjoint chains -----

  /** A configuration of the kind the promise is about. */
  predicate Negative(c: Config) { Divisible(c) && c.disjoint && c.omitTerminal }

  /** While a chain is no longer than the number of roles it simply counts up. */
  lemma ChainCountsUp(c: Config, p: nat, b: nat, d: nat)
    requires Negative(c) && d < c.depth <= c.roles
    ensures ChainIndex(c, p, b, d) == (FlatIndex(c, p, b) * c.depth + d) % c.roles
  {
    var k := FlatIndex(c, p, b);
    assert p * c.branching * c.depth + b * c.depth == k * c.depth;
    if d > 0 && (k * c.depth + d) % c.roles == (k * c.depth) % c.roles {
      var t := SameMod(k * c.depth + d, k * c.depth, c.roles);
      assert d == t * c.roles;
      if t >= 1 { MulLe(1, t, c.roles); } else { MulLe(t, 0, c.roles); }
    }
  }

  lemma FlatInRange(c: Config, p: nat, b: nat)
    requires p < c.principals && b < c.branching
    ensures FlatIndex(c, p, b) < Chains(c)
  {
    MulLe(p + 1, c.principals, c.branching);
    assert (p + 1) * c.branching == p * c.branching + c.branching;
  }

  lemma Unflatten(c: Config, k: nat) returns (p: nat, b: nat)
    requires k < Chains(c)
    ensures p < c.principals && b < c.branching && FlatIndex(c, p, b) == k
  {
    assert c.principals * 0 == 0;
    p, b := k / c.branching, k % c.branching;
    assert k == p * c.branching + b;
    MulLtCancels(p, c.principals, c.branching);
  }

  // ----- no full-depth path unless chains overlap -----

  ghost predicate InRange(c: Config, a: nat, p: nat, b: nat, d: nat) {
    a < c.accounts && p < c.principals && b < c.branching && d < Hops(c)
  }

  lemma HopWitness(c: Config, layer: Layer, pair: (string, string)) returns (a: nat, p: nat, b: nat, d: nat)
    requires pair in AccountHops(c, layer, c.accounts)
    ensures InRange(c, a, p, b, d) && pair == Hop(c, layer, a, p, b, d)
  {
    a, p, b, d :| 0 <= a < c.accounts && 0 <= p < c.principals && 0 <= b < c.branching && 0 <= d < Hops(c)
                  && pair == Hop(c, layer, a, p, b, d);
  }

  lemma UserNodeWitness(c: Config, n: Node) returns (a: nat, p: nat)
    requires Divisible(c) && n in NodesFor(c) && n.kind == USER
    ensures a < c.accounts && p < c.principals && n == UserNode(c, a, p)
  {
    a, p :| 0 <= a < c.accounts && 0 <= p < c.principals && n == UserNode(c, a, p);
  }

  /** Followed edges are chain hops that are not gaps: extra trust edges add nothing, because
      only a chain's first hop gives a user a permission edge. */
  lemma FollowedHop(c: Config, pair: (string, string)) returns (a: nat, p: nat, b: nat, d: nat)
    requires Divisible(c) && pair.0 != pair.1
    requires pair in AccountHops(c, Permission, c.accounts)
    requires pair in AccountHops(c, Trust, c.accounts) + AccountExtras(c, c.accounts)
    ensures InRange(c, a, p, b, d) && !Gap(c, d) && pair == Hop(c, Permission, a, p, b, d)
  {
    hide AccountHops, AccountExtras, ChainIndex;
    if pair in AccountHops(c, Trust, c.accounts) {
      a, p, b, d := HopWitness(c, Trust, pair);
    } else {
      a, p, b, d := HopWitness(c, Permission, pair);
      var user := ExtraWitness(c, pair);
      if d > 0 {
        MemberIdInjective(c, user.0, "user", user.1, a, "role", ChainIndex(c, p, b, d - 1));
      }
    }
  }

  lemma ExtraWitness(c: Config, pair: (string, string)) returns (user: (nat, nat))
    requires pair in AccountExtras(c, c.accounts)
    ensures pair.0 == UserId(c, user.0, user.1)
  {
    var a: nat, p: nat, o: nat :| 0 <= a < c.accounts && 0 <= p < c.principals && 0 <= o < c.extraTrust &&
                                  pair == ExtraLink(c, a, p, o);
    user := (a, p);
  }

  lemma EdgeFollowed(c: Config, digest: Digest, f: Fixture, e: Edge) returns (a: nat, p: nat, b: nat, d: nat)
    requires Divisible(c) && FixtureFor(c, digest, f)
    requires e in f.permissionEdges && (e.source, e.target) in TrustPairs(f.trustEdges) && e.target != e.source
    ensures InRange(c, a, p, b, d) && !Gap(c, d) && (e.source, e.target) == Hop(c, Permission, a, p, b, d)
  {
    hide AccountHops, AccountExtras, Hop, Gap, InRange, NodesFor;
    var t :| t in f.trustEdges && (t.source, t.target) == (e.source, e.target);
    a, p, b, d := FollowedHop(c, (e.source, e.target));
  }

  /** The role numbers a candidate path visits: the first of some chain, then along chain hops
      short of the gap, never the same one twice. */
  ghost predicate Trail(c: Config, x: seq<nat>) {
    && x != []
    && (exists p: nat, b: nat :: p < c.principals && b < c.branching && x[0] == ChainIndex(c, p, b, 0))
    && (forall i | 0 < i < |x| :: ChainStep(c, x[i-1], x[i]))
    && (forall i | 0 <= i < |x| :: x[i] < c.roles)
    && (forall i, j | 0 <= i < j < |x| :: x[i] != x[j])
  }

  ghost predicate ChainStep(c: Config, x: nat, y: nat) {
    exists p: nat, b: nat, d: nat ::
      p < c.principals && b < c.branching && 0 < d < Hops(c) && !Gap(c, d)
      && x == ChainIndex(c, p, b, d - 1) && y == ChainIndex(c, p, b, d)
  }

  lemma FirstHop(c: Config, digest: Digest, f: Fixture, a: nat, p: nat, e: Edge) returns (b: nat)
    requires Divisible(c) && FixtureFor(c, digest, f)
    requires e in f.permissionEdges && (e.source, e.target) in TrustPairs(f.trustEdges) && e.target != e.source
    requires e.source == UserId(c, a, p)
    ensures a < c.accounts && p < c.principals && b < c.branching && e.target == RoleId(c, a, ChainIndex(c, p, b, 0))
  {
    hide FixtureFor, ChainIndex, MemberId, TrustPairs;
    var a', p', d;
    a', p', b, d := EdgeFollowed(c, digest, f, e);
    if d == 0 {
      MemberIdInjective(c, a, "user", p, a', "user", p');
    } else {
      MemberIdInjective(c, a, "user", p, a', "role", ChainIndex(c, p', b, d - 1));
    }
  }

  lemma LaterHop(c: Config, digest: Digest, f: Fixture, a: nat, x: nat, e: Edge) returns (y: nat)
    requires Divisible(c) && FixtureFor(c, digest, f)
    requires e in f.permissionEdges && (e.source, e.target) in TrustPairs(f.trustEdges) && e.target != e.source
    requires e.source == RoleId(c, a, x)
    ensures e.target == RoleId(c, a, y) && ChainStep(c, x, y) && y < c.roles
  {
    hide FixtureFor, MemberId, TrustPairs;
    var a', p, b, d := EdgeFollowed(c, digest, f, e);
    if d == 0 {
      MemberIdInjective(c, a, "role", x, a', "user", p);
    } else {
      MemberIdInjective(c, a, "role", x, a', "role", ChainIndex(c, p, b, d - 1));
      y := ChainIndex(c, p, b, d);
    }
  }

  lemma ChainEdge(f: Fixture, start: string, p: seq<Edge>, i: nat)
    requires i < |p| && RoleChain(f, start, {start}, p)
    ensures p[i] in f.permissionEdges && (p[i].source, p[i].target) in TrustPairs(f.trustEdges)
    ensures p[i].source == Stop(start, p, i) && p[i].target != p[i].source
  {
  }

  /** The first n role numbers of a candidate path. */
  lemma {:induction false} TrailPrefix(c: Config, digest: Digest, f: Fixture, a: nat, u: nat, p: seq<Edge>, n: nat)
    returns (x: seq<nat>)
    requires Divisible(c) && FixtureFor(c, digest, f) && 0 < n <= |p|
    requires RoleChain(f, UserId(c, a, u), {UserId(c, a, u)}, p)
    ensures |x| == n && a < c.accounts
    ensures exists p': nat, b: nat :: p' < c.principals && b < c.branching && x[0] == ChainIndex(c, p', b, 0)
    ensures forall i | 0 < i < n :: ChainStep(c, x[i-1], x[i])
    ensures forall i | 0 <= i < n :: x[i] < c.roles && p[i].target == RoleId(c, a, x[i])
  {
    hide FixtureFor, MemberId, TrustPairs, ChainIndex, ChainStep, RoleChain;
    var e := p[n-1];
    ChainEdge(f, UserId(c, a, u), p, n - 1);
    if n == 1 {
      var b := FirstHop(c, digest, f, a, u, e);
      ChainIndexBelow(c, u, b, 0);
      x := [ChainIndex(c, u, b, 0)];
    } else {
      x := TrailPrefix(c, digest, f, a, u, p, n - 1);
      var y := LaterHop(c, digest, f, a, x[n-2], e);
      x := x + [y];
    }
  }

  lemma ChainIndexBelow(c: Config, p: nat, b: nat, d: nat)
    requires c.roles > 0
    ensures ChainIndex(c, p, b, d) < c.roles
  {
  }

  lemma CandidateTrail(c: Config, digest: Digest, f: Fixture, start: string, p: seq<Edge>) returns (x: seq<nat>)
    requires Divisible(c) && FixtureFor(c, digest, f) && CandidatePath(f, start, p)
    ensures |x| == |p| && Trail(c, x) && c.accounts > 0
  {
    hide NodesFor, EdgeList, MemberId, ChainIndex, ChainStep;
    var n :| n in f.nodes && n.kind == USER && n.nodeId == start;
    var a, u := UserNodeWitness(c, n);
    x := TrailPrefix(c, digest, f, a, u, p, |p|);
    forall i, j | 0 <= i < j < |x| ensures x[i] != x[j] {
      assert p[i].target != p[j].target;
    }
  }

  // ----- a full-length trail needs overlapping chains -----

  lemma {:induction false} DistinctCount(x: seq<nat>)
    requires forall i, j | 0 <= i < j < |x| :: x[i] != x[j]
    ensures |set i | 0 <= i < |x| :: x[i]| == |x|
  {
    if x != [] {
      var init, last := x[..|x|-1], x[|x|-1];
      DistinctCount(init);
      assert (set i | 0 <= i < |x| :: x[i]) == (set i | 0 <= i < |init| :: init[i]) + {last};
    }
  }

  function Below(n: nat): (s: set<nat>)
    ensures forall i: nat :: i in s <==> i < n
    ensures |s| == n
  {
    if n == 0 then {} else Below(n - 1) + {n - 1}
  }

  lemma {:induction false} SubsetCount<T>(a: set<T>, b: set<T>)
    requires a <= b
    ensures |a| <= |b|
  {
    if a != {} {
      var x :| x in a;
      SubsetCount(a - {x}, b - {x});
    }
  }

  lemma TrailFits(c: Config, x: seq<nat>)
    requires Trail(c, x)
    ensures |x| <= c.roles
  {
    DistinctCount(x);
    SubsetCount(set i | 0 <= i < |x| :: x[i], Below(c.roles));
  }

  lemma StepCountsUp(c: Config, x: nat, y: nat) returns (k: nat, d: nat)
    requires Negative(c) && 2 <= c.depth <= c.roles && ChainStep(c, x, y)
    ensures k < Chains(c) && 0 < d <= c.depth - 2
    ensures x == (k * c.depth + d - 1) % c.roles
    ensures y == (x + 1) % c.roles
  {
    hide ChainIndex;
    var p: nat, b: nat, d': nat :| p < c.principals && b < c.branching && 0 < d' < Hops(c) && !Gap(c, d')
      && x == ChainIndex(c, p, b, d' - 1) && y == ChainIndex(c, p, b, d');
    FlatInRange(c, p, b);
    k, d := FlatIndex(c, p, b), d';
    ChainCountsUp(c, p, b, d - 1);
    ChainCountsUp(c, p, b, d);
    ModStep(k * c.depth + d - 1, c.roles);
  }

  lemma {:induction false} TrailCountsUp(c: Config, x: seq<nat>, k: nat, i: nat)
    requires Negative(c) && 2 <= c.depth <= c.roles && i < |x|
    requires forall j | 0 < j < |x| :: ChainStep(c, x[j-1], x[j])
    requires x[0] == (k * c.depth) % c.roles
    ensures x[i] == (k * c.depth + i) % c.roles
  {
    if i > 0 {
      TrailCountsUp(c, x, k, i - 1);
      var _, _ := StepCountsUp(c, x[i-1], x[i]);
      ModStep(k * c.depth + (i - 1), c.roles);
    }
  }

  /** Chain k counted up to where hop d of chain l starts, so the two overlap. */
  lemma MeetingOverlaps(k: nat, l: nat, d: nat, depth: nat, roles: nat)
    requires 2 <= depth <= roles && 0 < d <= depth - 2
    requires (k * depth + (depth - 1 - 1)) % roles == (l * depth + d - 1) % roles
    ensures Overlaps(k, l, depth, roles)
  {
    var x, y := k * depth, l * depth;
    var t := SameMod(x + (depth - 2), y + d - 1, roles);
    assert (-t) * roles == -(t * roles);
    assert (l - k) * depth == y - x;
    ModIs((l - k) * depth, -t, depth - 1 - d, roles);
  }

  lemma FullTrailOverlaps(c: Config, x: seq<nat>) returns (k: nat, l: nat)
    requires Negative(c) && c.depth >= 2 && Trail(c, x) && |x| == c.depth
    ensures c.depth <= c.roles && k < Chains(c) && l < Chains(c) && Overlaps(k, l, c.depth, c.roles)
  {
    hide ChainIndex, ChainStep;
    TrailFits(c, x);
    var p: nat, b: nat :| p < c.principals && b < c.branching && x[0] == ChainIndex(c, p, b, 0);
    FlatInRange(c, p, b);
    ChainCountsUp(c, p, b, 0);
    k := FlatIndex(c, p, b);
    var n := c.depth - 1;
    TrailCountsUp(c, x, k, n - 1);
    var d;
    l, d := StepCountsUp(c, x[n-1], x[n]);
    MeetingOverlaps(k, l, d, c.depth, c.roles);
  }

  // ----- overlapping chains give a full-depth path -----

  /** The i-th edge of the path that starts with chain k and counts up. */
  function CountingPair(c: Config, a: nat, u: nat, k: nat, i: nat): (string, string)
    requires c.roles > 0
  {
    (if i == 0 then UserId(c, a, u) else RoleId(c, a, (k * c.depth + i - 1) % c.roles),
     RoleId(c, a, (k * c.depth + i) % c.roles))
  }

  function CountingPath(c: Config, digest: Digest, a: nat, u: nat, k: nat, n: nat): (p: seq<Edge>)
    requires c.roles > 0
    ensures |p| == n
    ensures forall i | 0 <= i < n :: p[i] == MakeEdge(digest, PERMISSION, ASSUME, CountingPair(c, a, u, k, i))
  {
    seq(n, i requires 0 <= i < n => MakeEdge(digest, PERMISSION, ASSUME, CountingPair(c, a, u, k, i)))
  }

  /** The pair has a permission edge and a trust edge in the fixture. */
  ghost predicate Usable(digest: Digest, f: Fixture, pair: (string, string)) {
    MakeEdge(digest, PERMISSION, ASSUME, pair) in f.permissionEdges && pair in TrustPairs(f.trustEdges)
  }

  lemma HopInSet(c: Config, layer: Layer, a: nat, p: nat, b: nat, d: nat)
    requires InRange(c, a, p, b, d)
    ensures Hop(c, layer, a, p, b, d) in AccountHops(c, layer, c.accounts)
  {
  }

  lemma HopUsable(c: Config, digest: Digest, f: Fixture, a: nat, p: nat, b: nat, d: nat)
    requires Divisible(c) && FixtureFor(c, digest, f) && Injective(digest)
    requires InRange(c, a, p, b, d) && !Gap(c, d)
    ensures Usable(digest, f, Hop(c, Permission, a, p, b, d))
  {
    hide AccountHops, AccountExtras, NodesFor, EdgeList, Injective, MakeEdge;
    var pair := Hop(c, Permission, a, p, b, d);
    assert pair == Hop(c, Trust, a, p, b, d);
    HopInSet(c, Permission, a, p, b, d);
    HopInSet(c, Trust, a, p, b, d);
    ExactEdges(f.permissionEdges, digest, PERMISSION, ASSUME, AccountHops(c, Permission, c.accounts), pair);
    var trusted := AccountHops(c, Trust, c.accounts) + AccountExtras(c, c.accounts);
    ExactEdges(f.trustEdges, digest, TRUST, ASSUME, trusted, pair);
    TrustPairOf(digest, f.trustEdges, pair);
  }

  lemma TrustPairOf(digest: Digest, edges: seq<Edge>, pair: (string, string))
    requires MakeEdge(digest, TRUST, ASSUME, pair) in edges
    ensures pair in TrustPairs(edges)
  {
  }

  lemma RoleHasKind(c: Config, digest: Digest, f: Fixture, a: nat, r: nat)
    requires Divisible(c) && FixtureFor(c, digest, f) && DistinctIds(f) && a < c.accounts && r < c.roles
    ensures HasKind(f, RoleId(c, a, r), ROLE)
  {
    assert RoleNode(c, a, r) in NodesFor(c);
    KindIndexHolds(f.nodes, RoleNode(c, a, r));
  }

  lemma CountingDistinct(c: Config, a: nat, k: nat, j: nat, i: nat)
    requires c.roles > 0 && j < i < c.roles
    ensures RoleId(c, a, (k * c.depth + j) % c.roles) != RoleId(c, a, (k * c.depth + i) % c.roles)
  {
    var x, y := k * c.depth + i, k * c.depth + j;
    if x % c.roles == y % c.roles {
      var t := SameMod(x, y, c.roles);
      if t >= 1 { MulLe(1, t, c.roles); } else { MulLe(t, 0, c.roles); }
    }
    if RoleId(c, a, y % c.roles) == RoleId(c, a, x % c.roles) {
      MemberIdInjective(c, a, "role", y % c.roles, a, "role", x % c.roles);
    }
  }

  lemma CountingStep(c: Config, digest: Digest, f: Fixture, a: nat, u: nat, k: nat, n: nat, i: nat)
    requires Divisible(c) && FixtureFor(c, digest, f) && DistinctIds(f)
    requires a < c.accounts && i < n <= c.roles && Usable(digest, f, CountingPair(c, a, u, k, i))
    ensures
      var start, p := UserId(c, a, u), CountingPath(c, digest, a, u, k, n);
      && p[i] in f.permissionEdges && p[i].source == Stop(start, p, i)
      && (p[i].source, p[i].target) in TrustPairs(f.trustEdges)
      && HasKind(f, p[i].target, ROLE) && p[i].target != start
      && forall j | 0 <= j < i :: p[j].target != p[i].target
  {
    hide FixtureFor, MemberId, HasKind, TrustPairs, DistinctIds;
    var start, p := UserId(c, a, u), CountingPath(c, digest, a, u, k, n);
    var r := (k * c.depth + i) % c.roles;
    RoleHasKind(c, digest, f, a, r);
    if RoleId(c, a, r) == start { MemberIdInjective(c, a, "role", r, a, "user", u); }
    forall j | 0 <= j < i ensures p[j].target != p[i].target { CountingDistinct(c, a, k, j, i); }
  }

  lemma CountingPathIsCandidate(c: Config, digest: Digest, f: Fixture, a: nat, u: nat, k: nat, n: nat)
    requires Divisible(c) && FixtureFor(c, digest, f) && DistinctIds(f)
    requires a < c.accounts && u < c.principals && 0 < n <= c.roles
    requires forall i | 0 <= i < n :: Usable(digest, f, CountingPair(c, a, u, k, i))
    ensures CandidatePath(f, UserId(c, a, u), CountingPath(c, digest, a, u, k, n))
  {
    hide FixtureFor, MemberId, HasKind, TrustPairs, Usable, CountingPath, CountingPair, DistinctIds;
    UserPresent(c, digest, f, a, u);
    forall i | 0 <= i < n { CountingStep(c, digest, f, a, u, k, n, i); }
  }

  lemma UserPresent(c: Config, digest: Digest, f: Fixture, a: nat, u: nat)
    requires Divisible(c) && FixtureFor(c, digest, f) && a < c.accounts && u < c.principals
    ensures exists n :: n in f.nodes && n.kind == USER && n.nodeId == UserId(c, a, u)
  {
    assert UserNode(c, a, u) in NodesFor(c);
  }

  /** Up to its gap a chain follows its own hops. */
  lemma OwnHop(c: Config, digest: Digest, f: Fixture, a: nat, p: nat, b: nat, i: nat)
    requires Negative(c) && FixtureFor(c, digest, f) && Injective(digest) && 0 < c.depth <= c.roles
    requires InRange(c, a, p, b, i) && !Gap(c, i)
    ensures Usable(digest, f, CountingPair(c, a, p, FlatIndex(c, p, b), i))
  {
    hide FixtureFor, MemberId, Usable, ChainIndex;
    HopUsable(c, digest, f, a, p, b, i);
    ChainCountsUp(c, p, b, i);
    if i > 0 { ChainCountsUp(c, p, b, i - 1); }
  }

  /** The hop over chain k's gap, borrowed from an overlapping chain l. */
  lemma BorrowedHop(c: Config, digest: Digest, f: Fixture, a: nat, u: nat, k: nat, l: nat)
    requires Negative(c) && FixtureFor(c, digest, f) && Injective(digest) && 3 <= c.depth <= c.roles
    requires a < c.accounts && l < Chains(c) && Overlaps(k, l, c.depth, c.roles)
    ensures Usable(digest, f, CountingPair(c, a, u, k, c.depth - 1))
  {
    hide FixtureFor, MemberId, Usable, ChainIndex;
    var x := (l - k) * c.depth;
    var j, t := x % c.roles, x / c.roles;
    assert x == t * c.roles + j;
    assert l * c.depth == k * c.depth + x;
    var d := c.depth - 1 - j;
    var p, b := Unflatten(c, l);
    HopUsable(c, digest, f, a, p, b, d);
    ChainCountsUp(c, p, b, d);
    ChainCountsUp(c, p, b, d - 1);
    ModShift(k * c.depth + c.depth - 1, t, c.roles);
    ModShift(k * c.depth + c.depth - 2, t, c.roles);
  }

  // ----- the theorems -----

  lemma PathIsRecorded(f: Fixture, start: string, p: seq<Edge>)
    requires CandidatePath(f, start, p) && |p| == f.pathDepth
    ensures HasFullDepthPath(f)
  {
    RecordedPathsAreExact(f, Ids(p));
    assert Ids(p) in PathsOf(CandidateList(f)) && |Ids(p)| == f.pathDepth;
  }

  /** Every recorded full-depth path breaks the promise, whatever the digest does. */
  lemma FullDepthOnlyIfBroken(c: Config, digest: Digest, f: Fixture)
    requires Negative(c) && FixtureFor(c, digest, f) && HasFullDepthPath(f)
    ensures PromiseBroken(c)
  {
    hide FixtureFor, MemberId, ChainIndex, Trail, CandidateList, PathsOf;
    var ids :| ids in PathsOf(CandidateList(f)) && |ids| == f.pathDepth;
    RecordedPathsAreExact(f, ids);
    var start, p :| CandidatePath(f, start, p) && |p| <= f.pathDepth && Ids(p) == ids;
    DepthOf(c, digest, f);
    var x := CandidateTrail(c, digest, f, start, p);
    TrailStarts(c, x);
    if c.depth >= 2 {
      var k, l := FullTrailOverlaps(c, x);
      if c.roles % c.depth == 0 { NoOverlapDivisible(c.depth, c.roles, k, l); }
      if Chains(c) * c.depth <= c.roles + 1 { NoOverlapShort(c.depth, c.roles, Chains(c), k, l); }
    }
  }

  lemma DepthOf(c: Config, digest: Digest, f: Fixture)
    requires Divisible(c) && FixtureFor(c, digest, f)
    ensures f.pathDepth == c.depth
  {
  }

  lemma TrailStarts(c: Config, x: seq<nat>)
    requires Trail(c, x)
    ensures x != [] && Chains(c) > 0
  {
    var p: nat, b: nat :| p < c.principals && b < c.branching && x[0] == ChainIndex(c, p, b, 0);
    FlatInRange(c, p, b);
  }

  lemma BrokenGivesFullDepth(c: Config, digest: Digest, f: Fixture)
    requires Negative(c) && FixtureFor(c, digest, f) && DistinctIds(f) && Injective(digest) && PromiseBroken(c)
    ensures HasFullDepthPath(f)
  {
    hide FixtureFor, MemberId, ChainIndex, Usable, CandidatePath, Injective;
    var k, l := 0, 0;
    if c.depth >= 3 { k, l := OverlapWitness(c.depth, c.roles, Chains(c)); }
    var p, b := Unflatten(c, k);
    forall i | 0 <= i < c.depth ensures Usable(digest, f, CountingPair(c, 0, p, k, i)) {
      if Gap(c, i) {
        BorrowedHop(c, digest, f, 0, p, k, l);
      } else {
        OwnHop(c, digest, f, 0, p, b, i);
      }
    }
    CountingPathIsCandidate(c, digest, f, 0, p, k, c.depth);
    DepthOf(c, digest, f);
    PathIsRecorded(f, UserId(c, 0, p), CountingPath(c, digest, 0, p, k, c.depth));
  }

  /** The promise "no full-depth candidate path" holds for exactly the configurations below. */
  lemma NegativePromiseExactly(c: Config, digest: Digest, f: Fixture)
    requires Negative(c) && FixtureFor(c, digest, f) && DistinctIds(f) && Injective(digest)
    ensures HasFullDepthPath(f) <==> PromiseBroken(c)
  {
    if HasFullDepthPath(f) { FullDepthOnlyIfBroken(c, digest, f); }
    if PromiseBroken(c) { BrokenGivesFullDepth(c, digest, f); }
  }

  /** The search still has work to do: one hop short of the full depth is always reached. */
  lemma OneHopShort(c: Config, digest: Digest, f: Fixture)
    requires Negative(c) && FixtureFor(c, digest, f) && DistinctIds(f) && Injective(digest)
    requires c.accounts > 0 && Chains(c) > 0 && 2 <= c.depth <= c.roles
    ensures exists ids :: ids in PathsOf(CandidateList(f)) && |ids| == c.depth - 1
  {
    hide FixtureFor, MemberId, ChainIndex, Usable, CandidatePath, Injective;
    var p, b := Unflatten(c, 0);
    var n := c.depth - 1;
    forall i | 0 <= i < n ensures Usable(digest, f, CountingPair(c, 0, p, 0, i)) {
      OwnHop(c, digest, f, 0, p, b, i);
    }
    CountingPathIsCandidate(c, digest, f, 0, p, 0, n);
    DepthOf(c, digest, f);
    var path := CountingPath(c, digest, 0, p, 0, n);
    assert CandidatePath(f, UserId(c, 0, p), path) && |path| <= f.pathDepth;
    RecordedPathsAreExact(f, Ids(path));
    assert |Ids(path)| == n;
  }

  // ----- running a fixture -----

  lemma HopTargetPresent(c: Config, digest: Digest, f: Fixture, e: Edge)
    requires Divisible(c) && FixtureFor(c, digest, f) && DistinctIds(f)
    requires e in f.permissionEdges && (e.source, e.target) in TrustPairs(f.trustEdges) && e.target != e.source
    ensures e.target in KindIndex(f.nodes)
  {
    hide FixtureFor, MemberId, TrustPairs, ChainIndex, DistinctIds, KindIndex;
    var a, p, b, d := EdgeFollowed(c, digest, f, e);
    ChainIndexBelow(c, p, b, d);
    RoleHasKind(c, digest, f, a, ChainIndex(c, p, b, d));
  }

  /** On a generated fixture no lookup of the search can fail. */
  lemma GeneratedSearchNeverRaises(c: Config, digest: Digest, f: Fixture)
    requires Divisible(c) && FixtureFor(c, digest, f) && DistinctIds(f)
    ensures !SearchRaises(f)
  {
    hide FixtureFor, KindIndex, TrustPairs, RoleChain, SearchRaises, Starts, DistinctIds;
    SearchRaisesExactlyOnMissingNodes(f);
    forall s, q, e | s in Starts(f) && LeadsNowhere(f, s, {s}, f.pathDepth, q, e) ensures false {
      assert Stop(s, q, |q|) in {s} + Targets(q);
      HopTargetPresent(c, digest, f, e);
    }
  }

  /** Generates a fixture and searches it. The last clause is the whole promise about
      negative fixtures. */
  method RunFixture(c: Config, digest: Digest) returns (f: Fixture, paths: seq<seq<string>>)
    requires Divisible(c)
    ensures FixtureFor(c, digest, f)
    ensures paths == PathsOf(CandidateList(f))
    ensures Negative(c) && Injective(digest) ==>
            ((exists ids :: ids in paths && |ids| == c.depth) <==> PromiseBroken(c))
  {
    hide FixtureFor, CandidateList, PathsOf, DistinctIds, Injective, SearchRaises;
    f := GenerateFixture(c, digest);
    GeneratedSearchNeverRaises(c, digest, f);
    var ok;
    ok, paths := CandidatePaths(f);
    DepthOf(c, digest, f);
    if Negative(c) && Injective(digest) { NegativePromiseExactly(c, digest, f); }
  }

  // ----- the configurations that ship with the harness -----

  function FixtureConfig(name: string): Option<Config> {
    match name
    case "small" => Some(Config(name, 20260509, 1, 1, 3, 2, 1, 0, 0, 0, false, false, None))
    case "medium" => Some(Config(name, 20260509, 2, 4, 10, 3, 2, 6, 4, 0, false, false, None))
    case "constraint_heavy" => Some(Config(name, 20260509, 2, 5, 12, 3, 2, 32, 6, 0, false, false, None))
    case "dense_trust" => Some(Config(name, 20260509, 2, 4, 12, 3, 3, 4, 4, 4, false, false, None))
    case "multihop_stress" => Some(Config(name, 20260509, 2, 3, 18, 6, 2, 4, 4, 0, false, false, None))
    case "negative_no_valid_path" => Some(Config(name, 20260509, 2, 4, 12, 4, 2, 4, 4, 0, true, true, Some(0)))
    case _ => None
  }

  /** Every shipped configuration can be generated, and the one that expects zero full-depth
      paths keeps its promise because 4 divides 12. */
  lemma ShippedConfigurations(name: string)
    requires FixtureConfig(name).Some?
    ensures Divisible(FixtureConfig(name).value)
    ensures FixtureConfig(name).value.expectedValidPaths == Some(0)
        ==> Negative(FixtureConfig(name).value) && !PromiseBroken(FixtureConfig(name).value)
  {
  }

  /** With 10 roles instead of 12 the same fixture would have full-depth paths. */
  lemma TenRolesBreakThePromise(digest: Digest, f: Fixture)
    requires Injective(digest)
    requires var c := FixtureConfig("negative_no_valid_path").value.(roles := 10);
             Divisible(c) && FixtureFor(c, digest, f)
    requires DistinctIds(f)
    ensures HasFullDepthPath(f)
  {
    hide FixtureFor, Injective, DistinctIds, HasFullDepthPath;
    var c := FixtureConfig("negative_no_valid_path").value.(roles := 10);
    assert c.roles % c.depth == 2;
    BrokenGivesFullDepth(c, digest, f);
  }
}
