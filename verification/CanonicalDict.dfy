/** The canonical key order of emitted dicts (iamscope/models.py, _sorted_dict).

    Dicts are sequences of members, so that their insertion order can be told apart. */
module CanonicalDict {
  import opened Basics
  import opened Ordering
  import opened JsonTree

  function KeyOf(m: Member): string { m.key }

  /** The members in ascending order of their keys. */
  function InOrder(ms: seq<Member>): (r: seq<Member>)
    ensures |r| == |ms| && forall m :: m in r <==> m in ms
  {
    var r := SortBy(ms, KeyOf);
    assert forall m :: m in r <==> m in ms by { forall m { SortByMembers(ms, KeyOf, m); } }
    r
  }

  function SortedMember(d: Json, m: Member): Member
    requires d.Object? && m in d.members
    decreases d, 0
  {
    Member(m.key, SortedValue(m.value))
  }

  /** What _sorted_dict returns for a dict. */
  function SortedDict(d: Json): (r: Json)
    requires d.Object?
    ensures r.Object?
    decreases d, 1
  {
    var s := InOrder(d.members);
    Object(seq(|s|, i requires 0 <= i < |s| => SortedMember(d, s[i])))
  }

  function SortedItem(x: Json): Json
    decreases x, 2
  {
    if x.Object? then SortedDict(x) else x
  }

  /** What it stores for a value: dicts are sorted, also directly inside a list; a list inside a
      list is left as it is. */
  function SortedValue(v: Json): Json
    decreases v, 3
  {
    match v
    case Object(_) => SortedDict(v)
    case List(items) => List(seq(|items|, i requires 0 <= i < |items| => SortedItem(items[i])))
    case _ => v
  }

  method SortDict(d: Json) returns (r: Json)
    requires d.Object?
    ensures r == SortedDict(d)
    decreases d, 1
  {
    var order := InOrder(d.members);
    var result: seq<Member> := [];
    for i := 0 to |order|
      invariant |result| == i && forall k | 0 <= k < i :: result[k] == SortedMember(d, order[k])
    {
      var value := order[i].value;
      assert order[i] in d.members;
      if value.Object? {
        value := SortDict(value);
      } else if value.List? {
        value := SortItems(value);
      }
      result := result + [Member(order[i].key, value)];
    }
    r := Object(result);
  }

  method SortItems(v: Json) returns (r: Json)
    requires v.List?
    ensures r == SortedValue(v)
    decreases v, 0
  {
    var items: seq<Json> := [];
    for i := 0 to |v.items|
      invariant |items| == i && forall k | 0 <= k < i :: items[k] == SortedItem(v.items[k])
    {
      var item := v.items[i];
      if item.Object? { item := SortDict(item); }
      items := items + [item];
    }
    r := List(items);
  }

  // ----- equality up to the order of keys -----

  /** Equal up to the order of the members of the dicts that are sorted. */
  ghost predicate Equivalent(v: Json, w: Json)
    decreases v, 1
  {
    if v.Object? && w.Object? then
      && Keys(v.members) == Keys(w.members)
      && forall m, n | m in v.members && n in w.members && m.key == n.key :: Equivalent(m.value, n.value)
    else if v.List? && w.List? then
      |v.items| == |w.items| && forall i | 0 <= i < |v.items| :: EquivalentItem(v.items[i], w.items[i])
    else v == w
  }

  ghost predicate EquivalentItem(x: Json, y: Json)
    decreases x, 2
  {
    if x.Object? && y.Object? then Equivalent(x, y) else x == y
  }

  lemma {:induction false} InOrderAscends(ms: seq<Member>)
    requires DistinctKeys(ms)
    ensures Ascending(seq(|ms|, i requires 0 <= i < |ms| => InOrder(ms)[i].key))
    ensures DistinctKeys(InOrder(ms))
  {
    var s := SortBy(ms, KeyOf);
    SortBySorted(ms, KeyOf);
    assert DistinctBy(ms, KeyOf);
    DistinctTransfers(ms, s, KeyOf);
    assert forall i | 0 <= i < |s| :: KeyOf(s[i]) == s[i].key;
  }

  /** Two dicts with the same keys list them in the same order. */
  lemma SameOrder(a: seq<Member>, b: seq<Member>)
    requires DistinctKeys(a) && DistinctKeys(b) && Keys(a) == Keys(b)
    ensures |a| == |b| && forall i | 0 <= i < |a| :: InOrder(a)[i].key == InOrder(b)[i].key
  {
    hide InOrder, Keys, StrLe, DistinctKeys;
    var s, t := InOrder(a), InOrder(b);
    var ks, kt := seq(|a|, i requires 0 <= i < |a| => s[i].key), seq(|b|, i requires 0 <= i < |b| => t[i].key);
    InOrderAscends(a);
    InOrderAscends(b);
    OrderedKeys(a, ks);
    OrderedKeys(b, kt);
    AscendingUnique(ks, kt);
    assert forall i | 0 <= i < |a| :: ks[i] == kt[i];
  }

  lemma OrderedKeys(ms: seq<Member>, ks: seq<string>)
    requires |ks| == |ms| && forall i | 0 <= i < |ms| :: ks[i] == InOrder(ms)[i].key
    ensures forall k :: k in ks <==> k in Keys(ms)
  {
    var s := InOrder(ms);
    forall k | k in Keys(ms) ensures k in ks {
      var m :| m in ms && m.key == k;
      var i :| 0 <= i < |s| && s[i] == m;
      assert ks[i] == k;
    }
    forall k | k in ks ensures k in Keys(ms) {
      var i :| 0 <= i < |ks| && ks[i] == k;
      assert s[i] in ms;
    }
  }

  /** The key order of the result does not depend on the input order, and nothing else is lost:
      two values become the same exactly when they are equal up to the order of sorted dicts. */
  lemma {:induction false} CanonicalExactly(v: Json, w: Json)
    requires Proper(v) && Proper(w)
    ensures SortedValue(v) == SortedValue(w) <==> Equivalent(v, w)
    decreases v, 1
  {
    if v.Object? && w.Object? {
      CanonicalDicts(v, w);
    } else if v.List? && w.List? {
      SameLists(v, w);
      forall i | 0 <= i < |v.items| && i < |w.items|
        ensures SortedItem(v.items[i]) == SortedItem(w.items[i]) <==> EquivalentItem(v.items[i], w.items[i])
      {
        CanonicalItem(v.items[i], w.items[i]);
      }
    }
  }

  lemma SameLists(v: Json, w: Json)
    requires v.List? && w.List?
    ensures SortedValue(v) == SortedValue(w) <==>
              |v.items| == |w.items| && forall i | 0 <= i < |v.items| ::
                SortedItem(v.items[i]) == SortedItem(w.items[i])
  {
    hide SortedItem;
    var a, b := SortedValue(v).items, SortedValue(w).items;
    assert |a| == |v.items| && forall i | 0 <= i < |a| :: a[i] == SortedItem(v.items[i]);
    assert |b| == |w.items| && forall i | 0 <= i < |b| :: b[i] == SortedItem(w.items[i]);
    if |v.items| == |w.items| && forall i | 0 <= i < |v.items| :: SortedItem(v.items[i]) == SortedItem(w.items[i]) {
      assert a == b;
    }
  }

  lemma {:induction false} CanonicalItem(x: Json, y: Json)
    requires Proper(x) && Proper(y)
    ensures SortedItem(x) == SortedItem(y) <==> EquivalentItem(x, y)
    decreases x, 2
  {
    if x.Object? && y.Object? { CanonicalExactly(x, y); }
  }

  lemma SortedDictAt(d: Json)
    requires d.Object?
    ensures var a, s := SortedDict(d).members, InOrder(d.members);
            |a| == |s| && forall i | 0 <= i < |s| :: a[i].key == s[i].key && a[i].value == SortedValue(s[i].value)
  {
    hide InOrder, SortedValue;
  }

  lemma {:induction false} CanonicalDicts(v: Json, w: Json)
    requires v.Object? && w.Object? && Proper(v) && Proper(w)
    ensures SortedDict(v) == SortedDict(w) <==> Equivalent(v, w)
    decreases v, 0
  {
    hide InOrder, SortedValue, SortedDict;
    forall m, n | m in v.members && n in w.members
      ensures SortedValue(m.value) == SortedValue(n.value) <==> Equivalent(m.value, n.value)
    {
      CanonicalExactly(m.value, n.value);
    }
    if Equivalent(v, w) { SameDicts(v, w); }
    if SortedDict(v) == SortedDict(w) { EqualDictsAgree(v, w); }
  }

  lemma SameDicts(v: Json, w: Json)
    requires v.Object? && w.Object? && Proper(v) && Proper(w) && Keys(v.members) == Keys(w.members)
    requires forall m, n | m in v.members && n in w.members && m.key == n.key ::
               SortedValue(m.value) == SortedValue(n.value)
    ensures SortedDict(v) == SortedDict(w)
  {
    hide InOrder, SortedValue, SortedDict;
    SortedDictAt(v);
    SortedDictAt(w);
    SameOrder(v.members, w.members);
    var s, t, a, b := InOrder(v.members), InOrder(w.members), SortedDict(v).members, SortedDict(w).members;
    forall i | 0 <= i < |s| ensures a[i] == b[i] { assert s[i] in v.members && t[i] in w.members; }
    assert a == b;
  }

  lemma EqualDictsAgree(v: Json, w: Json)
    requires v.Object? && w.Object? && Proper(v) && Proper(w) && SortedDict(v) == SortedDict(w)
    ensures Keys(v.members) == Keys(w.members)
    ensures forall m, n | m in v.members && n in w.members && m.key == n.key ::
              SortedValue(m.value) == SortedValue(n.value)
  {
    hide InOrder, SortedValue, SortedDict;
    SortedDictAt(v);
    SortedDictAt(w);
    var s, t := InOrder(v.members), InOrder(w.members);
    forall m | m in v.members
      ensures exists n :: n in w.members && n.key == m.key && SortedValue(m.value) == SortedValue(n.value)
    {
      var i :| 0 <= i < |s| && s[i] == m;
      assert t[i] in w.members;
    }
    forall n | n in w.members ensures exists m :: m in v.members && n.key == m.key {
      var i :| 0 <= i < |t| && t[i] == n;
      assert s[i] in v.members;
    }
    UniqueByKey(w.members);
  }

  lemma UniqueByKey(ms: seq<Member>)
    requires DistinctKeys(ms)
    ensures forall m, n | m in ms && n in ms && m.key == n.key :: m == n
  {
  }

  // ----- what sorting keeps -----

  /** Sorting changes only the order of members, and keeps keys distinct. */
  lemma {:induction false} SortingKeepsContent(v: Json)
    requires Proper(v)
    ensures Equivalent(v, SortedValue(v)) && Proper(SortedValue(v))
    decreases v, 1
  {
    match v
    case Object(ms) => DictKeepsContent(v);
    case List(items) =>
      var r := SortedValue(v).items;
      forall i | 0 <= i < |items| ensures EquivalentItem(items[i], r[i]) && Proper(r[i]) {
        assert r[i] == SortedItem(items[i]);
        SortingKeepsContent(items[i]);
      }
      forall x | x in r ensures Proper(x) {
        var i :| 0 <= i < |r| && r[i] == x;
      }
    case _ =>
  }

  lemma {:induction false} DictKeepsContent(v: Json)
    requires v.Object? && Proper(v)
    ensures Equivalent(v, SortedDict(v)) && Proper(SortedDict(v))
    decreases v, 0
  {
    hide InOrder, SortedValue, SortedDict;
    SortedDictAt(v);
    InOrderAscends(v.members);
    UniqueByKey(v.members);
    var s, a := InOrder(v.members), SortedDict(v).members;
    forall m | m in v.members ensures Equivalent(m.value, SortedValue(m.value)) && Proper(SortedValue(m.value)) {
      SortingKeepsContent(m.value);
    }
    forall n | n in a ensures exists m :: m in v.members && m.key == n.key && n.value == SortedValue(m.value) {
      var i :| 0 <= i < |a| && a[i] == n;
      assert s[i] in v.members;
    }
    forall m | m in v.members ensures exists n :: n in a && n.key == m.key {
      var i :| 0 <= i < |s| && s[i] == m;
      assert a[i] in a;
    }
  }

  /** Sorting twice is sorting once. */
  lemma SortingIsIdempotent(v: Json)
    requires Proper(v)
    ensures SortedValue(SortedValue(v)) == SortedValue(v)
  {
    SortingKeepsContent(v);
    CanonicalExactly(v, SortedValue(v));
  }

  lemma {:induction false} FindIs(ms: seq<Member>, m: Member)
    requires DistinctKeys(ms) && m in ms
    ensures Find(ms, m.key) == Some(m.value)
  {
    if ms[0] != m {
      assert m in ms[1..];
      var i :| 0 < i < |ms| && ms[i] == m;
      FindIs(ms[1..], m);
    }
  }

  lemma {:induction false} FindNothing(ms: seq<Member>, key: string)
    ensures Find(ms, key).None? <==> key !in Keys(ms)
  {
    if ms != [] {
      assert forall m :: m in ms <==> m == ms[0] || m in ms[1..];
      FindNothing(ms[1..], key);
    }
  }

  /** Every key is found as before, with the sorted form of its value. */
  lemma LookupsSurvive(d: Json, key: string)
    requires d.Object? && Proper(d)
    ensures var before, after := Find(d.members, key), Find(SortedDict(d).members, key);
            after == match before case None => None case Some(v) => Some(SortedValue(v))
  {
    hide InOrder, SortedValue, SortedDict, Find;
    SortedDictAt(d);
    DictKeepsContent(d);
    var s, a := InOrder(d.members), SortedDict(d).members;
    FindNothing(d.members, key);
    FindNothing(a, key);
    if key in Keys(d.members) {
      var m :| m in d.members && m.key == key;
      var i :| 0 <= i < |s| && s[i] == m;
      FindIs(d.members, m);
      FindIs(a, a[i]);
    }
  }

  // ----- lists directly inside lists -----

  /** Equal up to the order of the members of all dicts. */
  ghost predicate SameContent(v: Json, w: Json)
    decreases v
  {
    if v.Object? && w.Object? then
      && Keys(v.members) == Keys(w.members)
      && forall m, n | m in v.members && n in w.members && m.key == n.key :: SameContent(m.value, n.value)
    else if v.List? && w.List? then
      |v.items| == |w.items| && forall i | 0 <= i < |v.items| :: SameContent(v.items[i], w.items[i])
    else v == w
  }

  ghost predicate NoListInList(v: Json) {
    match v
    case Object(ms) => forall m | m in ms :: NoListInList(m.value)
    case List(items) => forall x | x in items :: !x.List? && NoListInList(x)
    case _ => true
  }

  lemma {:induction false} ContentIsReflexive(v: Json)
    requires Proper(v)
    ensures SameContent(v, v)
  {
    match v
    case Object(ms) =>
      UniqueByKey(ms);
      forall m | m in ms { ContentIsReflexive(m.value); }
    case List(items) => forall x | x in items { ContentIsReflexive(x); }
    case _ =>
  }

  lemma {:induction false} EquivalentIsContent(v: Json, w: Json)
    requires Proper(v) && Equivalent(v, w)
    ensures SameContent(v, w)
  {
    if v.Object? && w.Object? {
      forall m, n | m in v.members && n in w.members && m.key == n.key { EquivalentIsContent(m.value, n.value); }
    } else if v.List? && w.List? {
      forall i | 0 <= i < |v.items| ensures SameContent(v.items[i], w.items[i]) {
        assert EquivalentItem(v.items[i], w.items[i]);
        if v.items[i].Object? && w.items[i].Object? {
          EquivalentIsContent(v.items[i], w.items[i]);
        } else {
          ContentIsReflexive(v.items[i]);
        }
      }
    } else {
      ContentIsReflexive(v);
    }
  }

  lemma {:induction false} ContentIsEquivalent(v: Json, w: Json)
    requires NoListInList(v) && SameContent(v, w)
    ensures Equivalent(v, w)
  {
    if v.Object? && w.Object? {
      forall m, n | m in v.members && n in w.members && m.key == n.key { ContentIsEquivalent(m.value, n.value); }
    } else if v.List? && w.List? {
      forall i | 0 <= i < |v.items| ensures EquivalentItem(v.items[i], w.items[i]) {
        assert v.items[i] in v.items;
        ContentIsEquivalent(v.items[i], w.items[i]);
      }
    }
  }

  /** Without lists directly inside lists, values become the same exactly when they have the same
      content. */
  lemma SameContentSortsAlike(v: Json, w: Json)
    requires Proper(v) && Proper(w) && NoListInList(v)
    ensures SortedValue(v) == SortedValue(w) <==> SameContent(v, w)
  {
    CanonicalExactly(v, w);
    if SameContent(v, w) { ContentIsEquivalent(v, w); }
    if Equivalent(v, w) { EquivalentIsContent(v, w); }
  }

  /** No dict in the value, at any depth, has two members: its content has only one order. */
  ghost predicate Rigid(v: Json) {
    match v
    case Object(ms) => |ms| <= 1 && forall m | m in ms :: Rigid(m.value)
    case List(items) => forall x | x in items :: Rigid(x)
    case _ => true
  }

  /** Every dict with two or more members is one that is sorted: none sits in or below a list
      directly inside a list. */
  ghost predicate Reached(v: Json) {
    match v
    case Object(ms) => forall m | m in ms :: Reached(m.value)
    case List(items) => forall x | x in items :: if x.Object? then Reached(x) else Rigid(x)
    case _ => true
  }

  lemma {:induction false} RigidHasOneOrder(x: Json, y: Json)
    requires Rigid(x) && Proper(y) && SameContent(x, y)
    ensures x == y
  {
    if x.Object? && y.Object? {
      KeysCount(x.members, y.members);
      if x.members != [] {
        assert x.members[0] in x.members && y.members[0] in y.members;
        RigidHasOneOrder(x.members[0].value, y.members[0].value);
      }
    } else if x.List? && y.List? {
      forall i | 0 <= i < |x.items| ensures x.items[i] == y.items[i] {
        assert x.items[i] in x.items && y.items[i] in y.items;
        RigidHasOneOrder(x.items[i], y.items[i]);
      }
      assert x.items == y.items;
    }
  }

  lemma KeysCount(a: seq<Member>, b: seq<Member>)
    requires |a| <= 1 && DistinctKeys(b) && Keys(a) == Keys(b)
    ensures |b| == |a| && (a != [] ==> a[0].key == b[0].key)
  {
    TwoKeysDiffer(b);
    if a != [] { assert a[0] in a && a[0].key in Keys(b); }
  }

  lemma TwoKeysDiffer(ms: seq<Member>)
    requires DistinctKeys(ms)
    ensures |ms| > 0 ==> ms[0].key in Keys(ms)
    ensures |ms| > 1 ==> ms[1].key in Keys(ms) && ms[0].key != ms[1].key
  {
    assert |ms| > 0 ==> ms[0] in ms;
    assert |ms| > 1 ==> ms[1] in ms;
  }

  lemma {:induction false} ReachedIsEquivalent(v: Json, w: Json)
    requires Reached(v) && Proper(w) && SameContent(v, w)
    ensures Equivalent(v, w)
  {
    if v.Object? && w.Object? {
      forall m, n | m in v.members && n in w.members && m.key == n.key ensures Equivalent(m.value, n.value) {
        ReachedIsEquivalent(m.value, n.value);
      }
    } else if v.List? && w.List? {
      forall i | 0 <= i < |v.items| ensures EquivalentItem(v.items[i], w.items[i]) {
        assert v.items[i] in v.items && w.items[i] in w.items;
        if v.items[i].Object? {
          ReachedIsEquivalent(v.items[i], w.items[i]);
        } else {
          RigidHasOneOrder(v.items[i], w.items[i]);
        }
      }
    }
  }

  /** Another order of a value that is not rigid. */
  lemma {:induction false} Shuffle(x: Json) returns (y: Json)
    requires Proper(x) && !Rigid(x)
    ensures Proper(y) && SameContent(x, y) && y != x && (y.Object? <==> x.Object?)
  {
    if x.Object? {
      if |x.members| >= 2 {
        y := SwapMembers(x);
      } else {
        var m :| m in x.members && !Rigid(m.value);
        var i :| 0 <= i < |x.members| && x.members[i] == m;
        var z := Shuffle(m.value);
        y := ReplaceMember(x, i, z);
      }
    } else {
      var item :| item in x.items && !Rigid(item);
      var i :| 0 <= i < |x.items| && x.items[i] == item;
      var z := Shuffle(item);
      y := ReplaceItem(x, i, z);
    }
  }

  lemma SwapMembers(x: Json) returns (y: Json)
    requires x.Object? && |x.members| >= 2 && Proper(x)
    ensures y.Object? && Proper(y) && SameContent(x, y) && y != x
  {
    var ms := x.members;
    y := Object(ms[0 := ms[1]][1 := ms[0]]);
    assert forall m :: m in y.members <==> m in ms by {
      forall m | m in ms ensures m in y.members {
        var i :| 0 <= i < |ms| && ms[i] == m;
        assert y.members[if i == 0 then 1 else if i == 1 then 0 else i] == m;
      }
    }
    UniqueByKey(ms);
    forall m, n | m in ms && n in y.members && m.key == n.key ensures SameContent(m.value, n.value) {
      ContentIsReflexive(m.value);
    }
    assert y.members[0] != ms[0];
  }

  lemma ReplaceMember(x: Json, i: nat, z: Json) returns (y: Json)
    requires x.Object? && i < |x.members| && Proper(x) && Proper(z)
    requires SameContent(x.members[i].value, z) && z != x.members[i].value
    ensures y == Object(x.members[i := Member(x.members[i].key, z)])
    ensures Proper(y) && SameContent(x, y) && y != x
  {
    var ms, put := x.members, Member(x.members[i].key, z);
    y := Object(ms[i := put]);
    assert forall k | 0 <= k < |ms| :: y.members[k].key == ms[k].key;
    forall n | n in y.members ensures n == put || n in ms {
      var k :| 0 <= k < |ms| && y.members[k] == n;
    }
    forall key ensures key in Keys(ms) <==> key in Keys(y.members) {
      if key in Keys(ms) {
        var m :| m in ms && m.key == key;
        var k :| 0 <= k < |ms| && ms[k] == m;
        assert y.members[k] in y.members && y.members[k].key == key;
      }
    }
    forall m, n | m in ms && n in y.members && m.key == n.key ensures SameContent(m.value, n.value) {
      ReplacedContent(ms, i, put, m, n);
    }
    assert y.members[i] != ms[i];
  }

  lemma ReplacedContent(ms: seq<Member>, i: nat, put: Member, m: Member, n: Member)
    requires i < |ms| && DistinctKeys(ms) && (forall x | x in ms :: Proper(x.value))
    requires put.key == ms[i].key && SameContent(ms[i].value, put.value)
    requires m in ms && n in ms[i := put] && m.key == n.key
    ensures SameContent(m.value, n.value)
  {
    var k :| 0 <= k < |ms| && ms[k] == m;
    var l :| 0 <= l < |ms| && ms[i := put][l] == n;
    assert ms[l].key == n.key;
    assert k == l;
    if l != i { ContentIsReflexive(m.value); }
  }

  lemma ReplaceItem(x: Json, i: nat, z: Json) returns (y: Json)
    requires x.List? && i < |x.items| && Proper(x) && Proper(z) && SameContent(x.items[i], z) && z != x.items[i]
    ensures y == List(x.items[i := z])
    ensures Proper(y) && SameContent(x, y) && y != x
  {
    y := List(x.items[i := z]);
    forall n | n in y.items ensures Proper(n) {
      var k :| 0 <= k < |y.items| && y.items[k] == n;
      assert k != i ==> n in x.items;
    }
    forall k | 0 <= k < |x.items| ensures SameContent(x.items[k], y.items[k]) {
      assert x.items[k] in x.items;
      if k != i { ContentIsReflexive(x.items[k]); }
    }
    assert y.items[i] != x.items[i];
  }

  /** Another order that sorting does not undo. */
  lemma {:induction false} Unreached(v: Json) returns (w: Json)
    requires Proper(v) && !Reached(v)
    ensures Proper(w) && SameContent(v, w) && !Equivalent(v, w) && (w.Object? <==> v.Object?)
  {
    if v.Object? {
      var m :| m in v.members && !Reached(m.value);
      var i :| 0 <= i < |v.members| && v.members[i] == m;
      var z := Unreached(m.value);
      EquivalentIsReflexive(m.value);
      w := ReplaceMember(v, i, z);
      assert w.members[i] in w.members && w.members[i] == Member(m.key, z);
    } else {
      var x :| x in v.items && !(if x.Object? then Reached(x) else Rigid(x));
      var i :| 0 <= i < |v.items| && v.items[i] == x;
      var z;
      if x.Object? { z := Unreached(x); EquivalentIsReflexive(x); } else { z := Shuffle(x); }
      w := ReplaceItem(v, i, z);
      assert !EquivalentItem(v.items[i], w.items[i]);
    }
  }

  lemma EquivalentIsReflexive(v: Json)
    requires Proper(v)
    ensures Equivalent(v, v)
  {
    CanonicalExactly(v, v);
  }

  /** Canonical form: every reordering of a value sorts to the same result exactly when every
      dict with two or more members is reached. */
  lemma CanonicalForm(v: Json)
    requires Proper(v)
    ensures (forall w | Proper(w) && SameContent(v, w) :: SortedValue(w) == SortedValue(v)) <==> Reached(v)
  {
    hide SortedValue;
    if Reached(v) {
      forall w | Proper(w) && SameContent(v, w) ensures SortedValue(w) == SortedValue(v) {
        ReachedIsEquivalent(v, w);
        CanonicalExactly(v, w);
      }
    } else {
      var w := Unreached(v);
      CanonicalExactly(v, w);
    }
  }

  lemma HiddenDictSameContent(a: Member, b: Member)
    requires a.value == Null == b.value && a.key != b.key
    ensures var x, y := Object([a, b]), Object([b, a]);
            Proper(List([List([x])])) && Proper(List([List([y])])) && SameContent(List([List([x])]), List([List([y])]))
  {
    hide Keys;
    var x, y := Object([a, b]), Object([b, a]);
    TwoKeys(a, b);
    TwoKeys(b, a);
    assert Proper(x) && Proper(y) && SameContent(x, y);
    assert Proper(List([x])) && Proper(List([y]));
  }

  lemma TwoKeys(a: Member, b: Member)
    ensures Keys([a, b]) == {a.key, b.key}
  {
    assert [a, b][0] == a && [a, b][1] == b;
  }

  lemma ListOfListKept(x: Json)
    ensures SortedValue(List([List([x])])) == List([List([x])])
  {
    var v := List([List([x])]);
    assert SortedItem(v.items[0]) == List([x]);
    assert SortedValue(v).items == [List([x])];
  }

  /** A dict in a list in a list keeps its insertion order. */
  lemma HiddenDictKeepsOrder()
    ensures var a, b := Member("a", Null), Member("b", Null);
            var v, w := List([List([Object([a, b])])]), List([List([Object([b, a])])]);
            Proper(v) && Proper(w) && SameContent(v, w) && SortedValue(v) != SortedValue(w)
  {
    hide SortedValue, Proper, SameContent;
    var a, b := Member("a", Null), Member("b", Null);
    var x, y := Object([a, b]), Object([b, a]);
    HiddenDictSameContent(a, b);
    ListOfListKept(x);
    ListOfListKept(y);
    assert x.members[0] != y.members[0];
    assert List([List([x])]).items[0].items[0] != List([List([y])]).items[0].items[0];
  }
}
