/** Answering queries from the local replica: queryLocalDB, the raw-bytes shortcut and the QUERY branch of the
    request handler (app/service.go, app/query_fastpath.go). */
module QueryEngine {

  import opened Prelude
  import opened JsonValues
  import opened Documents
  import opened Matching
  import opened DocumentIndex
  import opened DocumentStore
  import Merging

  /** idOnlyCriteria: the id of criteria of the form [{"_id": "<id>"}]. */
  function IdOnly(criteria: seq<Fields>): Option<string> {
    if |criteria| == 1 && criteria[0].Keys == {"_id"} && criteria[0]["_id"].Str? then Some(criteria[0]["_id"].s) else None
  }

  /** The keys of the documents a scan with criteriaFilter finds. */
  function Scan(lib: Library, criteria: seq<Fields>, docs: Docs): set<string> {
    set k | k in docs && Passes(lib, criteria, docs[k])
  }

  /** The keys of the documents the lookup by id finds. */
  function Found(id: string, docs: Docs): set<string> {
    if SearchKey(id) in docs then {SearchKey(id)} else {}
  }

  lemma PassesIdOnly(lib: Library, id: string, doc: Json)
    ensures Passes(lib, [map["_id" := Str(id)]], doc) <==> KeyOf(doc) == Some(id)
  {
    var crit: Fields := map["_id" := Str(id)];
    if doc.Obj? {
      PlainPathIsField(doc.fields, "_id");
      assert AllKeysHold(lib, doc.fields, crit) <==> Lookup(doc.fields, "_id") == Str(id) by {
        assert "_id" in crit;
      }
      assert [crit][0] == crit;
    }
  }

  /** A lookup by id is a query with this one criterion. */
  lemma IdOnlyCriteria(criteria: seq<Fields>)
    ensures forall id :: IdOnly(criteria) == Some(id) <==> criteria == [map["_id" := Str(id)]]
  {
    forall id ensures criteria == [map["_id" := Str(id)]] ==> IdOnly(criteria) == Some(id) {
      if criteria == [map["_id" := Str(id)]] {
        var c: Fields := map["_id" := Str(id)];
        assert criteria[0] == c && c.Keys == {"_id"};
      }
    }
    if IdOnly(criteria).None? { return; }
    var c := criteria[0];
    assert c == map["_id" := c["_id"]] by { assert "_id" in c; }
  }

  lemma ScanById(lib: Library, id: string, docs: Docs)
    requires Keyed(docs)
    ensures Scan(lib, [map["_id" := Str(id)]], docs) == if id in docs then {id} else {}
  {
    forall k | k in docs ensures Passes(lib, [map["_id" := Str(id)]], docs[k]) <==> k == id {
      PassesIdOnly(lib, id, docs[k]);
    }
  }

  /** The lookup by id finds what the scan finds, on every store keyed by _id, exactly when the id does not contain
      both a space and a dot. */
  lemma IdRouteExact(lib: Library, id: string)
    ensures (forall docs :: Keyed(docs) ==> Found(id, docs) == Scan(lib, [map["_id" := Str(id)]], docs))
       <==> !(' ' in id && '.' in id)
  {
    if ' ' in id && '.' in id {
      var docs: Docs := map[id := Obj(map["_id" := Str(id)])];
      assert Keyed(docs);
      ScanById(lib, id, docs);
      assert id in docs && SearchKey(id) !in docs;
      assert id !in Found(id, docs);
    } else {
      forall docs | Keyed(docs) ensures Found(id, docs) == Scan(lib, [map["_id" := Str(id)]], docs) {
        ScanById(lib, id, docs);
      }
    }
  }

  /** The criteria are not a lookup of an id with both a space and a dot. */
  predicate Routable(criteria: seq<Fields>) {
    match IdOnly(criteria)
    case Some(id) => !(' ' in id && '.' in id)
    case None => true
  }

  lemma SelectedIsScan(store: Store, lib: Library, criteria: seq<Fields>)
    ensures store.Selected(FilterOf(lib, criteria)) == Scan(lib, criteria, store.Contents())
  {
  }

  lemma FilterImplies(store: Store, lib: Library, criteria: seq<Fields>, equal: map<string, string>)
    requires forall lib: Library, doc: Fields :: Passes(lib, criteria, Obj(doc)) ==> Satisfies(doc, equal)
    ensures store.Implies(FilterOf(lib, criteria), equal)
  {
    forall d: Json | FilterOf(lib, criteria)(d) ensures store.HasAll(d, equal) {
      assert Passes(lib, criteria, Obj(d.fields));
    }
  }

  /** The documents are those under the selected keys, one for each. */
  ghost predicate IsAnswer(store: Store, docs: seq<Json>, selected: set<string>)
    reads store, store.index
  {
    && |docs| == |selected|
    && (forall d :: d in docs ==> exists k :: k in selected && k in store.Contents() && store.Contents()[k] == d)
    && (forall k :: k in selected ==> k in store.Contents() && store.Contents()[k] in docs)
  }

  lemma ListingIsAnswer(store: Store, docs: seq<Json>, keys: seq<string>, selected: set<string>)
    requires store.Lists(docs, keys, selected)
    ensures IsAnswer(store, docs, selected)
  {
    NoDupSize(keys);
    forall d | d in docs ensures exists k :: k in selected && k in store.Contents() && store.Contents()[k] == d {
      var i :| 0 <= i < |docs| && docs[i] == d;
      assert keys[i] in Elems(keys) && store.Contents()[keys[i]] == d;
    }
    forall k | k in selected ensures k in store.Contents() && store.Contents()[k] in docs {
      assert k in Elems(keys);
      var i :| 0 <= i < |keys| && keys[i] == k;
      assert docs[i] in docs;
    }
  }

  /** toDocMaps. */
  method ToDocMaps(results: seq<Json>) returns (docs: seq<Json>)
    ensures (forall d :: d in results ==> d.Obj?) ==> docs == results
    ensures forall d :: d in docs ==> d.Obj?
  {
    docs := [];
    for i := 0 to |results|
      invariant (forall d :: d in results ==> d.Obj?) ==> docs == results[..i]
      invariant forall d :: d in docs ==> d.Obj?
    {
      if results[i].Obj? { docs := docs + [results[i]]; }
    }
  }

  /** queryLocalDB, for every criteria list. On a store keyed by _id an answer is that of a scan with criteriaFilter,
      on every route; the two routes that filter also agree with the scan on any other store. Only ill-typed filters
      panic, and only a value that is not JSON makes a read fail. */
  method QueryLocalDB(lib: Library, store: Store, criteria: seq<Fields>)
    returns (r: Outcome<seq<Json>>, ghost keys: seq<string>)
    requires store.Valid()
    ensures store.WellKeyed() && Routable(criteria) && r.Answered? ==>
              && IsAnswer(store, r.value, Scan(lib, criteria, store.Contents()))
              && store.Lists(r.value, keys, Scan(lib, criteria, store.Contents()))
    ensures store.WellKeyed() && r.Answered? ==> store.Lists(r.value, keys, Elems(keys)) && forall d :: d in r.value ==> d.Obj?
    ensures IdOnly(criteria).None? && r.Answered? ==> store.Lists(r.value, keys, Scan(lib, criteria, store.Contents()))
    ensures store.WellKeyed() ==> !r.Failed?
    ensures r.Failed? ==> exists k :: store.Undecodable(k)
    ensures WellTypedFilters(criteria) || IdOnly(criteria).Some? ==> !r.Panicked?
  {
    var id := IdOnly(criteria);
    if id.Some? {
      var got := store.Get(id.value);
      if got.Error? {
        assert store.Undecodable(SearchKey(id.value));
        return Outcome.Failed, [];
      }
      var maps := ToDocMaps(got.value);
      keys := if got.value == [] then [] else [SearchKey(id.value)];
      r := Answered(maps);
      if store.WellKeyed() {
        FoundKeysAre(store, SearchKey(id.value), got.value, keys);
        if Routable(criteria) {
          IdOnlyCriteria(criteria);
          ScanById(lib, id.value, store.Contents());
          ListingIsAnswer(store, maps, keys, Scan(lib, criteria, store.Contents()));
        }
      }
      return;
    }
    var equal := IndexableEqualities(criteria);
    FilterImplies(store, lib, criteria, equal);
    SelectedIsScan(store, lib, criteria);
    var indexed := false;
    keys, r := [], Answered([]);
    if equal != map[] {
      r, indexed, keys := store.QueryIndexed(equal, lib, criteria);
    }
    if !indexed {
      r, keys := store.Query(lib, criteria);
    }
    if !r.Answered? { return; }
    ScanIsObjects(lib, criteria, store, r.value, keys);
    var maps := ToDocMaps(r.value);
    r := Answered(maps);
    ListingIsAnswer(store, maps, keys, Scan(lib, criteria, store.Contents()));
  }

  lemma FoundKeysAre(store: Store, k: string, docs: seq<Json>, keys: seq<string>)
    requires store.Valid() && store.WellKeyed()
    requires if k in store.index.index then store.Decode(store.index.index[k]).Some?
               && docs == [store.Decode(store.index.index[k]).value] && keys == [k]
             else docs == [] && keys == []
    ensures store.Lists(docs, keys, Elems(keys)) && Elems(keys) == if k in store.Contents() then {k} else {}
    ensures forall d :: d in docs ==> d.Obj?
  {
    if k in store.index.index {
      assert k in store.Contents().Keys;
      assert KeyOf(store.Contents()[k]) == Some(k);
      assert Elems(keys) == {k};
    }
  }

  lemma ScanIsObjects(lib: Library, criteria: seq<Fields>, store: Store, docs: seq<Json>, keys: seq<string>)
    requires store.Lists(docs, keys, Scan(lib, criteria, store.Contents()))
    ensures forall d :: d in docs ==> d.Obj?
  {
    forall i | 0 <= i < |docs| ensures docs[i].Obj? {
      assert keys[i] in Elems(keys);
    }
  }

  // ---------------------------------------------------------------------------------------------
  // Stored bytes as answer
  // ---------------------------------------------------------------------------------------------

  /** The stored bytes of documents listed by keys. */
  ghost predicate RawLists(store: Store, raws: seq<Raw>, keys: seq<string>, selected: set<string>)
    reads store, store.index
  {
    NoDup(keys) && Elems(keys) == selected && store.BytesOf(raws, keys)
  }

  /** queryLocalRaw, for every criteria list: ok says whether it takes the query on; an answer has the bytes of exactly
      the documents a scan finds. */
  method QueryLocalRaw(lib: Library, store: Store, criteria: seq<Fields>)
    returns (r: Outcome<seq<Raw>>, ok: bool, ghost keys: seq<string>)
    requires store.Valid()
    ensures store.WellKeyed() && ok && r.Answered? ==>
              RawLists(store, r.value, keys, Scan(lib, criteria, store.Contents())) && Routable(criteria)
    ensures store.WellKeyed() ==> !r.Failed?
    ensures WellTypedFilters(criteria) || IdOnly(criteria).Some? ==> !r.Panicked?
    ensures IdOnly(criteria).None? ==> ok
    ensures store.WellKeyed() && IdOnly(criteria).Some? ==> (ok <==> ' ' !in IdOnly(criteria).value)
  {
    var id := IdOnly(criteria);
    if id.Some? {
      r, ok, keys := RawById(lib, store, criteria, id.value);
      return;
    }
    ok := true;
    SelectedIsScan(store, lib, criteria);
    var equal, exact := ExactEqualities(criteria);
    if exact {
      var raws, answered;
      raws, answered, keys := store.QueryRawExact(equal);
      if answered {
        ExactIsScan(store, lib, criteria, equal);
        return Answered(raws), true, keys;
      }
    }
    var indexable := IndexableEqualities(criteria);
    FilterImplies(store, lib, criteria, indexable);
    assert store.WellKeyed() ==> forall k :: k in store.index.index.Keys ==> !store.Undecodable(k);
    ghost var docs;
    r, docs, keys := store.QueryRaw(indexable, lib, criteria);
  }

  /** The id route of queryLocalRaw. */
  method RawById(lib: Library, store: Store, criteria: seq<Fields>, id: string)
    returns (r: Outcome<seq<Raw>>, ok: bool, ghost keys: seq<string>)
    requires store.Valid() && IdOnly(criteria) == Some(id)
    ensures r.Answered?
    ensures store.WellKeyed() ==> (ok <==> ' ' !in id)
    ensures store.WellKeyed() && ok ==> RawLists(store, r.value, keys, Scan(lib, criteria, store.Contents())) && Routable(criteria)
  {
    r, keys := Answered([]), [];
    if ' ' in id { return r, false, keys; }
    var raw := store.GetRaw(id);
    ok := true;
    if store.WellKeyed() {
      IdOnlyCriteria(criteria);
      ScanById(lib, id, store.Contents());
      assert id in store.Contents().Keys <==> id in store.index.index.Keys;
      assert raw.Some? ==> KeyOf(store.Contents()[id]) == Some(id);
    }
    if raw.Some? {
      if !(store.Decode(raw.value).Some? && store.Decode(raw.value).value.Obj?) { return Answered([]), false, []; }
      r, keys := Answered([raw.value]), [id];
    }
    assert Elems(keys) == if raw.Some? then {id} else {};
  }

  lemma ExactIsScan(store: Store, lib: Library, criteria: seq<Fields>, equal: map<string, string>)
    requires forall lib: Library, doc: Fields :: Passes(lib, criteria, Obj(doc)) <==> Satisfies(doc, equal)
    ensures (set k | k in store.Contents() && store.HasAll(store.Contents()[k], equal)) == Scan(lib, criteria, store.Contents())
  {
    forall k | k in store.Contents() ensures store.HasAll(store.Contents()[k], equal) <==> Passes(lib, criteria, store.Contents()[k]) {
      var d := store.Contents()[k];
      if d.Obj? { assert Passes(lib, criteria, Obj(d.fields)) <==> Satisfies(d.fields, equal); }
    }
  }

  /** LocalDocRaw: the document with an id, as the query [{"_id": id}] finds it. */
  method LocalDocRaw(lib: Library, store: Store, id: string) returns (doc: Raw, found: bool, ok: bool)
    requires store.Valid()
    ensures store.WellKeyed() ==>
              && (ok <==> ' ' !in id)
              && (ok ==> (found <==> id in store.Contents()))
              && (ok && found ==> store.Decode(doc) == Some(store.Contents()[id]))
  {
    var criteria: seq<Fields> := [map["_id" := Str(id)]];
    assert criteria[0].Keys == {"_id"} && IdOnly(criteria) == Some(id);
    var r, answered, keys := QueryLocalRaw(lib, store, criteria);
    if store.WellKeyed() { ScanById(lib, id, store.Contents()); }
    if !answered || !r.Answered? { return "", false, false; }
    if |r.value| == 0 {
      assert store.WellKeyed() ==> Elems(keys) == {};
      return "", false, true;
    }
    if store.WellKeyed() { assert keys[0] in Elems(keys); }
    return r.value[0], true, true;
  }
}
