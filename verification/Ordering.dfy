/** Lexicographic order on strings, as used by the built-in sorts of the modelled program,
    and the two sorts it relies on: a stable sort of a sequence by a string key, and the
    ascending enumeration of a set of strings. */
module Ordering {

  /** a <= b, comparing character by character; a proper prefix comes first. */
  predicate StrLe(a: string, b: string) {
    a == "" || (b != "" && (a[0] < b[0] || (a[0] == b[0] && StrLe(a[1..], b[1..]))))
  }

  predicate StrLess(a: string, b: string) {
    StrLe(a, b) && a != b
  }

  lemma {:induction false} StrLeRefl(a: string)
    ensures StrLe(a, a)
  {
    if a != "" { StrLeRefl(a[1..]); }
  }

  lemma {:induction false} StrLeTotal(a: string, b: string)
    ensures StrLe(a, b) || StrLe(b, a)
  {
    if a != "" && b != "" && a[0] == b[0] { StrLeTotal(a[1..], b[1..]); }
  }

  lemma {:induction false} StrLeAntisymmetric(a: string, b: string)
    requires StrLe(a, b) && StrLe(b, a)
    ensures a == b
  {
    if a != "" {
      StrLeAntisymmetric(a[1..], b[1..]);
      assert a == [a[0]] + a[1..] && b == [b[0]] + b[1..];
    }
  }

  lemma {:induction false} StrLeTransitive(a: string, b: string, c: string)
    requires StrLe(a, b) && StrLe(b, c)
    ensures StrLe(a, c)
  {
    if a != "" && a[0] == b[0] == c[0] { StrLeTransitive(a[1..], b[1..], c[1..]); }
  }

  // ----- stable sort of a sequence by a string key -----

  ghost predicate SortedBy<T>(s: seq<T>, key: T -> string) {
    forall i, j | 0 <= i < j < |s| :: StrLe(key(s[i]), key(s[j]))
  }

  ghost predicate DistinctBy<T, K>(s: seq<T>, key: T -> K) {
    forall i, j | 0 <= i < j < |s| :: key(s[i]) != key(s[j])
  }

  /** Puts x in front of the first element whose key is not smaller. */
  function Insert<T>(x: T, s: seq<T>, key: T -> string): (r: seq<T>)
    ensures multiset(r) == multiset{x} + multiset(s)
    ensures |r| == |s| + 1
  {
    if s == [] then [x]
    else if StrLe(key(x), key(s[0])) then [x] + s
    else
      assert s == [s[0]] + s[1..];
      [s[0]] + Insert(x, s[1..], key)
  }

  /** Stable sort: elements with equal keys keep their order. */
  function SortBy<T>(s: seq<T>, key: T -> string): (r: seq<T>)
    ensures multiset(r) == multiset(s)
    ensures |r| == |s|
  {
    if s == [] then []
    else
      assert s == [s[0]] + s[1..];
      Insert(s[0], SortBy(s[1..], key), key)
  }

  lemma SameMembers<T>(a: seq<T>, b: seq<T>, x: T)
    requires multiset(a) == multiset(b)
    ensures x in a <==> x in b
  {
    assert x in a <==> x in multiset(a);
    assert x in b <==> x in multiset(b);
  }

  lemma {:induction false} InsertSorted<T>(x: T, s: seq<T>, key: T -> string)
    requires SortedBy(s, key)
    ensures SortedBy(Insert(x, s, key), key)
  {
    if s == [] {
    } else if StrLe(key(x), key(s[0])) {
      forall j | 0 <= j < |s| ensures StrLe(key(x), key(s[j])) {
        if j > 0 { StrLeTransitive(key(x), key(s[0]), key(s[j])); }
      }
    } else {
      InsertSorted(x, s[1..], key);
      StrLeTotal(key(x), key(s[0]));
      var rest := Insert(x, s[1..], key);
      forall j | 0 <= j < |rest| ensures StrLe(key(s[0]), key(rest[j])) {
        assert rest[j] in multiset(rest);
        assert rest[j] == x || rest[j] in s[1..];
      }
    }
  }

  lemma {:induction false} SortBySorted<T>(s: seq<T>, key: T -> string)
    ensures SortedBy(SortBy(s, key), key)
  {
    if s != [] {
      SortBySorted(s[1..], key);
      InsertSorted(s[0], SortBy(s[1..], key), key);
    }
  }

  lemma SortByMembers<T>(s: seq<T>, key: T -> string, x: T)
    ensures x in SortBy(s, key) <==> x in s
  {
    SameMembers(SortBy(s, key), s, x);
  }

  /** Sorting loses no information about which keys are distinct. */
  lemma DistinctTransfers<T, K>(a: seq<T>, b: seq<T>, key: T -> K)
    requires multiset(a) == multiset(b) && DistinctBy(a, key)
    ensures DistinctBy(b, key)
  {
    forall i, j | 0 <= i < j < |b| ensures key(b[i]) != key(b[j]) {
      if key(b[i]) == key(b[j]) {
        SameMembers(a, b, b[i]);
        SameMembers(a, b, b[j]);
        var k :| 0 <= k < |a| && a[k] == b[i];
        var l :| 0 <= l < |a| && a[l] == b[j];
        assert k == l;
        TwiceCountsTwo(b, i, j);
        OnceCountsOne(a, k, key);
      }
    }
  }

  lemma TwiceCountsTwo<T>(s: seq<T>, i: nat, j: nat)
    requires i < j < |s| && s[i] == s[j]
    ensures multiset(s)[s[i]] >= 2
  {
    assert s == s[..j] + [s[j]] + s[j+1..];
    assert s[i] in s[..j];
  }

  lemma OnceCountsOne<T, K>(s: seq<T>, k: nat, key: T -> K)
    requires k < |s| && DistinctBy(s, key)
    ensures multiset(s)[s[k]] == 1
  {
    assert s == s[..k] + [s[k]] + s[k+1..];
    assert s[k] !in s[..k] && s[k] !in s[k+1..];
  }

  lemma TailSorted<T>(s: seq<T>, key: T -> string)
    requires s != [] && SortedBy(s, key)
    ensures SortedBy(s[1..], key) && (DistinctBy(s, key) ==> DistinctBy(s[1..], key))
  {
    hide StrLe;
  }

  lemma TailsHoldTheSame<T>(a: seq<T>, b: seq<T>)
    requires a != [] && b != [] && multiset(a) == multiset(b) && a[0] == b[0]
    ensures multiset(a[1..]) == multiset(b[1..])
  {
    assert a == [a[0]] + a[1..] && b == [b[0]] + b[1..];
    assert multiset(a[1..]) == multiset(a) - multiset{a[0]};
  }

  /** Two sequences sorted by a key that is distinct on them and holding the same elements
      are equal: a sort result does not depend on the order of its input. */
  lemma {:induction false} SortedUnique<T>(a: seq<T>, b: seq<T>, key: T -> string)
    requires multiset(a) == multiset(b)
    requires SortedBy(a, key) && SortedBy(b, key) && DistinctBy(a, key)
    ensures a == b
  {
    hide SortedBy, DistinctBy;
    assert |a| == |multiset(a)| == |multiset(b)| == |b|;
    if a != [] {
      SortedSameHead(a, b, key);
      TailSorted(a, key);
      TailSorted(b, key);
      TailsHoldTheSame(a, b);
      SortedUnique(a[1..], b[1..], key);
      assert a == [a[0]] + a[1..] && b == [b[0]] + b[1..];
    }
  }

  lemma SortedSameHead<T>(a: seq<T>, b: seq<T>, key: T -> string)
    requires a != [] && b != [] && multiset(a) == multiset(b)
    requires SortedBy(a, key) && SortedBy(b, key) && DistinctBy(a, key)
    ensures a[0] == b[0]
  {
    SameMembers(a, b, a[0]);
    SameMembers(a, b, b[0]);
    var i :| 0 <= i < |b| && b[i] == a[0];
    var j :| 0 <= j < |a| && a[j] == b[0];
    if j > 0 && i > 0 {
      assert StrLe(key(a[0]), key(a[j])) && StrLe(key(b[0]), key(b[i]));
      StrLeAntisymmetric(key(a[0]), key(b[0]));
    }
  }

  lemma SortByCanonical<T>(a: seq<T>, b: seq<T>, key: T -> string)
    requires multiset(a) == multiset(b) && DistinctBy(a, key)
    ensures SortBy(a, key) == SortBy(b, key)
  {
    SortBySorted(a, key);
    SortBySorted(b, key);
    DistinctTransfers(a, SortBy(a, key), key);
    SortedUnique(SortBy(a, key), SortBy(b, key), key);
  }

  // ----- ascending enumeration of a set of strings -----

  ghost predicate Ascending(s: seq<string>) {
    forall i, j | 0 <= i < j < |s| :: StrLess(s[i], s[j])
  }

  predicate IsLeast(m: string, keys: set<string>) {
    m in keys && forall k | k in keys :: StrLe(m, k)
  }

  lemma {:induction false} LeastExists(keys: set<string>) returns (m: string)
    requires keys != {}
    ensures IsLeast(m, keys)
  {
    var x :| x in keys;
    StrLeRefl(x);
    if keys == {x} {
      m := x;
    } else {
      m := LeastExists(keys - {x});
      StrLeTotal(m, x);
      if !StrLe(m, x) {
        forall k | k in keys ensures StrLe(x, k) {
          if k != x { StrLeTransitive(x, m, k); }
        }
        m := x;
      }
    }
  }

  lemma LeastUnique(keys: set<string>)
    requires keys != {}
    ensures exists m :: IsLeast(m, keys)
    ensures forall m, n :: IsLeast(m, keys) && IsLeast(n, keys) ==> m == n
  {
    var l := LeastExists(keys);
    forall m, n | IsLeast(m, keys) && IsLeast(n, keys) ensures m == n {
      StrLeAntisymmetric(m, n);
    }
  }

  /** The elements of a set in ascending order. */
  function Enumerate(keys: set<string>): (s: seq<string>)
    ensures Ascending(s)
    ensures forall k :: k in s <==> k in keys
    ensures |s| == |keys|
  {
    if keys == {} then []
    else
      LeastUnique(keys);
      var m :| IsLeast(m, keys);
      [m] + Enumerate(keys - {m})
  }

  /** An ascending sequence is determined by the set of its elements. */
  lemma {:induction false} AscendingUnique(a: seq<string>, b: seq<string>)
    requires Ascending(a) && Ascending(b)
    requires forall k :: k in a <==> k in b
    ensures a == b
  {
    assert a != [] ==> a[0] in b;
    assert b != [] ==> b[0] in a;
    if a != [] {
      if a[0] != b[0] {
        assert StrLe(b[0], a[0]) && StrLe(a[0], b[0]);
        StrLeAntisymmetric(a[0], b[0]);
      }
      forall k ensures k in a[1..] <==> k in b[1..] {
        assert k in a[1..] ==> k in a && k != a[0];
        assert k in b[1..] ==> k in b && k != b[0];
        assert k in a && k != a[0] ==> k in a[1..];
        assert k in b && k != b[0] ==> k in b[1..];
      }
      AscendingUnique(a[1..], b[1..]);
    }
  }
}
