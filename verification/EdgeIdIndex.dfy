/** The reverse index from relation identity to original edge id
    (tools/serim_arf_rt_compare.py, build_original_edge_id_index and resolve_original_edge_id). */
module EdgeIdIndex {
  import opened Basics
  import opened Values

  datatype Edge = Edge(id: Field, edgeType: Field, src: Endpoint, dst: Endpoint, region: Field)

  datatype Key =
    | Exact(edgeType: Value, src: Value, dst: Value, region: Value)
    | Regionless(edgeType: Value, src: Value, dst: Value)

  function ProviderOf(p: Endpoint): Value {
    match p
    case Dict(fields) => Get(Entry(fields, "provider_id"), Null)
    case Plain(v) => v
  }

  function ExactKey(e: Edge): Key {
    Exact(Get(e.edgeType, Null), ProviderOf(e.src), ProviderOf(e.dst), Get(e.region, Text("-")))
  }

  function RegionlessKey(e: Edge): Key {
    Regionless(Get(e.edgeType, Null), ProviderOf(e.src), ProviderOf(e.dst))
  }

  predicate HasId(e: Edge) { Truthy(Get(e.id, Null)) }

  function IdOf(e: Edge): string { Str(Get(e.id, Null)) }

  // ----- what the index means -----

  /** e carries an id and is indexed under k. */
  predicate Under(e: Edge, k: Key) {
    HasId(e) && (k == ExactKey(e) || k == RegionlessKey(e))
  }

  ghost predicate Seen(edges: seq<Edge>, k: Key) {
    exists i :: 0 <= i < |edges| && Under(edges[i], k)
  }

  /** Some edge is indexed under k, and all of them have the id x. */
  ghost predicate Agreed(edges: seq<Edge>, k: Key, x: string) {
    Seen(edges, k) && forall i | 0 <= i < |edges| && Under(edges[i], k) :: IdOf(edges[i]) == x
  }

  /** Two edges under k have different ids. */
  ghost predicate Contested(edges: seq<Edge>, k: Key) {
    exists i, j :: 0 <= i < j < |edges| && Under(edges[i], k) && Under(edges[j], k) && IdOf(edges[i]) != IdOf(edges[j])
  }

  ghost predicate Indexes(mapping: map<Key, string>, edges: seq<Edge>) {
    forall k, x :: k in mapping && mapping[k] == x <==> Agreed(edges, k, x)
  }

  lemma SeenKeys(edges: seq<Edge>, k: Key)
    ensures Seen(edges, k) ==> (Contested(edges, k) <==> !exists x :: Agreed(edges, k, x))
    ensures !Seen(edges, k) ==> !Contested(edges, k)
  {
    if Seen(edges, k) && !Contested(edges, k) {
      var i :| 0 <= i < |edges| && Under(edges[i], k);
      assert Agreed(edges, k, IdOf(edges[i]));
    }
    if x :| Agreed(edges, k, x) { assert !Contested(edges, k); }
  }

  // ----- building the index -----

  /** During the scan, for one key: what was found is the id of an edge seen under it, and the
      key is marked as soon as another id turns up. */
  ghost predicate Right(edges: seq<Edge>, k: Key, found: Option<string>, marked: bool) {
    && (found.Some? <==> Seen(edges, k))
    && (found.Some? ==> exists i :: 0 <= i < |edges| && Under(edges[i], k) && IdOf(edges[i]) == found.value)
    && (marked ==> Contested(edges, k))
    && (found.Some? && !marked ==> Agreed(edges, k, found.value))
  }

  lemma RightStep(edges: seq<Edge>, e: Edge, k: Key, found: Option<string>, marked: bool)
    requires Right(edges, k, found, marked)
    ensures Right(edges + [e], k,
                  if Under(e, k) && found.None? then Some(IdOf(e)) else found,
                  marked || (Under(e, k) && found.Some? && found.value != IdOf(e)))
  {
    var all := edges + [e];
    assert all[|edges|] == e;
    assert forall i | 0 <= i < |edges| :: all[i] == edges[i];
    if marked {
      var i, j :| 0 <= i < j < |edges| && Under(edges[i], k) && Under(edges[j], k) && IdOf(edges[i]) != IdOf(edges[j]);
      assert Under(all[i], k) && Under(all[j], k);
    }
    if found.Some? {
      var first :| 0 <= first < |edges| && Under(edges[first], k) && IdOf(edges[first]) == found.value;
      assert Under(all[first], k);
    } else {
      assert forall i | 0 <= i < |edges| :: !Under(edges[i], k);
    }
  }

  function Found(mapping: map<Key, string>, k: Key): Option<string> {
    if k in mapping then Some(mapping[k]) else None
  }

  lemma RightAtEnd(edges: seq<Edge>, k: Key, found: Option<string>, marked: bool)
    requires Right(edges, k, found, marked)
    ensures marked <==> Contested(edges, k)
    ensures found.Some? <==> Seen(edges, k)
    ensures marked ==> found.Some?
    ensures forall x :: found == Some(x) && !marked <==> Agreed(edges, k, x)
  {
    SeenKeys(edges, k);
  }

  datatype Counts = Counts(inputEdges: nat, unique: nat, ambiguous: nat, regionlessUnique: nat,
                           regionlessAmbiguous: nat)

  function ExactPart(keys: set<Key>): set<Key> { set k | k in keys && k.Exact? }

  function SeenUnder(edges: seq<Edge>): set<Key> {
    (set e | e in edges && HasId(e) :: ExactKey(e)) + (set e | e in edges && HasId(e) :: RegionlessKey(e))
  }

  ghost function ContestedKeys(edges: seq<Edge>): set<Key> { set k | k in SeenUnder(edges) && Contested(edges, k) }

  /** Drops every key of the set. */
  method PopAll(mapping: map<Key, string>, keys: set<Key>) returns (r: map<Key, string>)
    ensures r == mapping - keys
  {
    r := mapping;
    var todo := keys;
    while todo != {}
      invariant todo <= keys && r == mapping - (keys - todo)
    {
      var k :| k in todo;
      r, todo := r - {k}, todo - {k};
    }
  }

  lemma SeenUnderMeans(edges: seq<Edge>, k: Key)
    ensures k in SeenUnder(edges) <==> Seen(edges, k)
  {
    if Seen(edges, k) {
      var i :| 0 <= i < |edges| && Under(edges[i], k);
      assert edges[i] in edges;
    }
  }

  /** The first id seen under each key, and the keys of either kind with a second one. */
  ghost predicate Scanned(edges: seq<Edge>, mapping: map<Key, string>, exact: set<Key>, regionless: set<Key>) {
    && (forall k: Key | k in exact :: k.Exact?)
    && (forall k: Key | k in regionless :: k.Regionless?)
    && (forall k :: Right(edges, k, Found(mapping, k), k in exact + regionless))
  }

  method ScanEdges(edges: seq<Edge>)
    returns (mapping: map<Key, string>, ambiguous: set<Key>, regionlessAmbiguous: set<Key>)
    ensures Scanned(edges, mapping, ambiguous, regionlessAmbiguous)
  {
    hide Right, IdOf, HasId, ExactKey, RegionlessKey;
    mapping, ambiguous, regionlessAmbiguous := map[], {}, {};
    forall k { RightAtStart(k); }
    for n := 0 to |edges|
      invariant Scanned(edges[..n], mapping, ambiguous, regionlessAmbiguous)
    {
      var edge := edges[n];
      assert edges[..n+1] == edges[..n] + [edge];
      KeyKinds(edge);
      ghost var before, marked := mapping, ambiguous + regionlessAmbiguous;
      if HasId(edge) {
        var id, exactKey, regionlessKey := IdOf(edge), ExactKey(edge), RegionlessKey(edge);
        if exactKey !in mapping {
          mapping := mapping[exactKey := id];
        } else if mapping[exactKey] != id {
          ambiguous := ambiguous + {exactKey};
        }
        if regionlessKey !in mapping {
          mapping := mapping[regionlessKey := id];
        } else if mapping[regionlessKey] != id {
          regionlessAmbiguous := regionlessAmbiguous + {regionlessKey};
        }
      }
      forall k ensures Right(edges[..n+1], k, Found(mapping, k), k in ambiguous + regionlessAmbiguous) {
        RightStep(edges[..n], edge, k, Found(before, k), k in marked);
      }
    }
    assert edges[..|edges|] == edges;
  }

  lemma KeyKinds(e: Edge)
    ensures ExactKey(e).Exact? && RegionlessKey(e).Regionless?
  {
  }

  lemma ScannedMeans(edges: seq<Edge>, mapping: map<Key, string>, exact: set<Key>, regionless: set<Key>)
    requires Scanned(edges, mapping, exact, regionless)
    ensures Indexes(mapping - exact - regionless, edges)
    ensures mapping.Keys == SeenUnder(edges)
    ensures ContestedKeys(edges) == exact + regionless && exact + regionless <= mapping.Keys
  {
    hide Right, Seen, Contested, Agreed, Under, SeenUnder;
    forall k
      ensures k in exact + regionless <==> Contested(edges, k)
      ensures forall x :: Found(mapping, k) == Some(x) && k !in exact + regionless <==> Agreed(edges, k, x)
      ensures k in SeenUnder(edges) <==> k in mapping
      ensures k in exact + regionless ==> k in mapping
    {
      RightAtEnd(edges, k, Found(mapping, k), k in exact + regionless);
      SeenUnderMeans(edges, k);
    }
    forall k, x ensures k in mapping - exact - regionless && mapping[k] == x <==> Agreed(edges, k, x) { }
  }

  /** A key leads to an id exactly when all the edges under it that carry an id carry that one. */
  method BuildOriginalEdgeIdIndex(edges: seq<Edge>) returns (mapping: map<Key, string>, counts: Counts)
    ensures Indexes(mapping, edges)
    ensures counts.inputEdges == |edges|
    ensures counts.ambiguous == |ExactPart(ContestedKeys(edges))|
    ensures counts.regionlessAmbiguous == |ContestedKeys(edges) - ExactPart(ContestedKeys(edges))|
    ensures counts.unique + counts.ambiguous == |ExactPart(SeenUnder(edges))|
    ensures counts.regionlessUnique + counts.regionlessAmbiguous == |SeenUnder(edges) - ExactPart(SeenUnder(edges))|
  {
    hide *;
    var all, ambiguous, regionlessAmbiguous := ScanEdges(edges);
    ScannedMeans(edges, all, ambiguous, regionlessAmbiguous);
    mapping := PopAll(all, ambiguous);
    mapping := PopAll(mapping, regionlessAmbiguous);
    var exact := set k | k in mapping && k.Exact?;
    var regionless := set k | k in mapping && k.Regionless?;
    counts := Counts(|edges|, |exact|, |ambiguous|, |regionless|, |regionlessAmbiguous|);
    ScannedKinds(edges, all, ambiguous, regionlessAmbiguous);
    Partition(all.Keys, ambiguous, regionlessAmbiguous);
    assert exact == ExactPart(mapping.Keys) by { AreExact(exact, mapping.Keys); }
    assert regionless == mapping.Keys - exact;
  }

  lemma AreExact(exact: set<Key>, keys: set<Key>)
    requires exact == set k | k in keys && k.Exact?
    ensures exact == ExactPart(keys)
  {
  }

  lemma ScannedKinds(edges: seq<Edge>, mapping: map<Key, string>, exact: set<Key>, regionless: set<Key>)
    requires Scanned(edges, mapping, exact, regionless)
    ensures forall k: Key | k in exact :: k.Exact?
    ensures forall k: Key | k in regionless :: k.Regionless?
  {
  }

  lemma Partition(keys: set<Key>, exact: set<Key>, regionless: set<Key>)
    requires (forall k: Key | k in exact :: k.Exact?) && (forall k: Key | k in regionless :: k.Regionless?)
    requires exact + regionless <= keys
    ensures ExactPart(exact + regionless) == exact && exact + regionless - exact == regionless
    ensures var left := keys - exact - regionless;
            |ExactPart(left)| + |exact| == |ExactPart(keys)| &&
            |left - ExactPart(left)| + |regionless| == |keys - ExactPart(keys)|
  {
    var left := keys - exact - regionless;
    assert ExactPart(keys) == ExactPart(left) + exact && ExactPart(left) !! exact;
    assert keys - ExactPart(keys) == (left - ExactPart(left)) + regionless && (left - ExactPart(left)) !! regionless;
  }

  lemma RightAtStart(k: Key)
    ensures Right([], k, None, false)
  {
  }

  // ----- looking an edge up -----

  function ResolveOriginalEdgeId(e: Edge, mapping: map<Key, string>): Option<string> {
    if ExactKey(e) in mapping then Some(mapping[ExactKey(e)])
    else if RegionlessKey(e) in mapping then Some(mapping[RegionlessKey(e)])
    else None
  }

  /** The id under a more precise key is contested only if it is contested without the region. */
  lemma ExactContestedIsRegionlessContested(edges: seq<Edge>, e: Edge)
    ensures Contested(edges, ExactKey(e)) ==> Contested(edges, RegionlessKey(e))
    ensures Seen(edges, ExactKey(e)) ==> Seen(edges, RegionlessKey(e))
    ensures forall x :: Agreed(edges, RegionlessKey(e), x) && Seen(edges, ExactKey(e)) ==> Agreed(edges, ExactKey(e), x)
  {
    assert forall f: Edge :: Under(f, ExactKey(e)) ==> Under(f, RegionlessKey(e));
    if Contested(edges, ExactKey(e)) {
      var i, j :| 0 <= i < j < |edges| && Under(edges[i], ExactKey(e)) && Under(edges[j], ExactKey(e)) &&
                  IdOf(edges[i]) != IdOf(edges[j]);
      assert Under(edges[i], RegionlessKey(e)) && Under(edges[j], RegionlessKey(e));
    }
  }

  /** What a lookup returns, over all edges: the id shared by the edges with the same type,
      endpoints and region; without such edges, the id shared by those with the same type and
      endpoints. An edge whose exact key is contested is never resolved. */
  lemma ResolveMeans(edges: seq<Edge>, mapping: map<Key, string>, e: Edge, x: string)
    requires Indexes(mapping, edges)
    ensures ResolveOriginalEdgeId(e, mapping) == Some(x) <==>
              Agreed(edges, ExactKey(e), x) || (!Seen(edges, ExactKey(e)) && Agreed(edges, RegionlessKey(e), x))
    ensures Contested(edges, ExactKey(e)) ==> ResolveOriginalEdgeId(e, mapping).None?
  {
    ExactContestedIsRegionlessContested(edges, e);
    IndexedKeys(edges, mapping, ExactKey(e), x);
    IndexedKeys(edges, mapping, RegionlessKey(e), x);
  }

  lemma IndexedKeys(edges: seq<Edge>, mapping: map<Key, string>, k: Key, x: string)
    requires Indexes(mapping, edges)
    ensures k in mapping <==> Seen(edges, k) && !Contested(edges, k)
    ensures k in mapping && mapping[k] == x <==> Agreed(edges, k, x)
  {
    SeenKeys(edges, k);
    if k in mapping { assert Agreed(edges, k, mapping[k]); }
  }

  /** A resolved id belongs to an edge of the scenario with the same type and endpoints. */
  lemma ResolvedEdgeExists(edges: seq<Edge>, mapping: map<Key, string>, e: Edge)
    requires Indexes(mapping, edges) && ResolveOriginalEdgeId(e, mapping).Some?
    ensures exists i :: 0 <= i < |edges| && HasId(edges[i]) &&
                        IdOf(edges[i]) == ResolveOriginalEdgeId(e, mapping).value &&
                        RegionlessKey(edges[i]) == RegionlessKey(e)
  {
    var x := ResolveOriginalEdgeId(e, mapping).value;
    ResolveMeans(edges, mapping, e, x);
    var k := if Agreed(edges, ExactKey(e), x) then ExactKey(e) else RegionlessKey(e);
    var i :| 0 <= i < |edges| && Under(edges[i], k);
  }

  /** Round trip: an edge of the scenario is mapped back to its own id exactly when no other id
      competes for its exact key, whatever happens without the region. */
  lemma RoundTripExactly(edges: seq<Edge>, mapping: map<Key, string>, i: nat)
    requires Indexes(mapping, edges) && i < |edges| && HasId(edges[i])
    ensures ResolveOriginalEdgeId(edges[i], mapping) == Some(IdOf(edges[i])) <==> !Contested(edges, ExactKey(edges[i]))
  {
    var k := ExactKey(edges[i]);
    assert Under(edges[i], k);
    SeenKeys(edges, k);
    ResolveMeans(edges, mapping, edges[i], IdOf(edges[i]));
    if x :| Agreed(edges, k, x) { assert x == IdOf(edges[i]); }
  }
}
