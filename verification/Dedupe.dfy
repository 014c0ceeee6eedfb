/** Keeping the first element of every key, as the deduplication loops do. */
module Dedupe {
  import opened Ordering

  /** The keys that occur in a sequence. */
  ghost function IdSet<T, K>(s: seq<T>, id: T -> K): set<K> {
    set i | 0 <= i < |s| :: id(s[i])
  }

  lemma IdSetConcat<T, K>(a: seq<T>, b: seq<T>, id: T -> K)
    ensures IdSet(a + b, id) == IdSet(a, id) + IdSet(b, id)
  {
    var l, r := IdSet(a + b, id), IdSet(a, id) + IdSet(b, id);
    forall x | x in r ensures x in l {
      if x in IdSet(a, id) {
        var i :| 0 <= i < |a| && id(a[i]) == x;
        assert (a + b)[i] == a[i];
      } else {
        var i :| 0 <= i < |b| && id(b[i]) == x;
        assert (a + b)[|a| + i] == b[i];
      }
    }
  }

  lemma IdSetAppend<T, K>(a: seq<T>, x: T, id: T -> K)
    ensures IdSet(a + [x], id) == IdSet(a, id) + {id(x)}
  {
    IdSetConcat(a, [x], id);
    assert id([x][0]) in IdSet([x], id);
    assert IdSet([x], id) == {id(x)};
  }

  /** Keeps the first element of every id. */
  ghost function KeepFirst<T, K>(s: seq<T>, id: T -> K): seq<T> {
    if s == [] then []
    else
      var init, last := s[..|s|-1], s[|s|-1];
      if id(last) in IdSet(init, id) then KeepFirst(init, id) else KeepFirst(init, id) + [last]
  }

  lemma {:induction false} KeepFirstIds<T, K>(s: seq<T>, id: T -> K)
    ensures IdSet(KeepFirst(s, id), id) == IdSet(s, id)
  {
    if s != [] {
      var init, last := s[..|s|-1], s[|s|-1];
      assert s == init + [last];
      KeepFirstIds(init, id);
      IdSetAppend(init, last, id);
      IdSetAppend(KeepFirst(init, id), last, id);
    }
  }

  lemma {:induction false} KeepFirstDistinct<T, K>(s: seq<T>, id: T -> K)
    ensures DistinctBy(KeepFirst(s, id), id)
  {
    if s != [] {
      var init, last := s[..|s|-1], s[|s|-1];
      KeepFirstDistinct(init, id);
      KeepFirstIds(init, id);
      var kept := KeepFirst(init, id);
      if id(last) !in IdSet(init, id) {
        forall i | 0 <= i < |kept| ensures id(kept[i]) != id(last) {
          assert id(kept[i]) in IdSet(kept, id);
        }
      }
    }
  }

  /** An element survives exactly when some occurrence of it is the first with its id. */
  lemma {:induction false} KeepFirstMeaning<T, K>(s: seq<T>, id: T -> K, x: T)
    ensures x in KeepFirst(s, id) <==> exists i :: 0 <= i < |s| && s[i] == x && id(x) !in IdSet(s[..i], id)
  {
    if s != [] {
      var init, last := s[..|s|-1], s[|s|-1];
      assert s == init + [last];
      KeepFirstMeaning(init, id, x);
      assert forall i | 0 <= i < |init| :: s[..i] == init[..i];
      if i :| 0 <= i < |s| && s[i] == x && id(x) !in IdSet(s[..i], id) {
        if i < |init| { assert init[i] == x; }
      }
      if i :| 0 <= i < |init| && init[i] == x && id(x) !in IdSet(init[..i], id) {
        assert s[i] == x && id(x) !in IdSet(s[..i], id);
      }
      if x == last && id(last) !in IdSet(init, id) {
        assert s[|init|] == x && s[..|init|] == init;
      }
    }
  }
}
