/** The document store over the index: Put, PutAll, Get and the query methods of the patched go-orbit-db
    (stores/documentstore/document.go). */
module DocumentStore {

  import opened Prelude
  import opened JsonValues
  import opened Documents
  import opened DocumentIndex
  import opened Matching

  /** json.Marshal and json.Unmarshal. */
  datatype Codec = Codec(encode: Json -> Raw, decode: Raw -> Option<Json>)

  ghost predicate Lawful(codec: Codec) {
    forall v :: codec.decode(codec.encode(v)) == Some(v)
  }

  /** The outcome of appending an operation to the log: the new entry's hash and stamp, or an error. */
  datatype Append = Appended(hash: string, stamp: Stamp) | AppendFails

  /** What a read does: answer, fail on a stored value that is not JSON, or panic in the filter. */
  datatype Outcome<+T> = Answered(value: T) | Failed | Panicked

  /** strings.ReplaceAll(key, ".", " "). */
  function DotsToSpaces(key: string): (r: string)
    ensures '.' !in key <==> r == key
    ensures '.' !in r
    ensures |r| == |key| && forall i :: 0 <= i < |key| ==> r[i] == if key[i] == '.' then ' ' else key[i]
  {
    if key == "" then ""
    else
      var rest := DotsToSpaces(key[1..]);
      assert key == [key[0]] + key[1..];
      [if key[0] == '.' then ' ' else key[0]] + rest
  }

  /** The key Get looks for: dots count as spaces when there is a space in the key. */
  function SearchKey(key: string): string {
    if ' ' in key then DotsToSpaces(key) else key
  }

  class Store {
    const codec: Codec
    const index: Index

    ghost predicate Valid()
      reads this, index
    {
      index.Valid() && index.decode == codec.decode && Lawful(codec)
    }

    function Decode(raw: Raw): Option<Json> {
      codec.decode(raw)
    }

    /** The documents stored, by key. */
    ghost function Contents(): Docs
      reads this, index
    {
      Decoded(codec, index.index)
    }

    static ghost function Decoded(codec: Codec, cells: map<string, Raw>): Docs {
      map k | k in cells && codec.decode(cells[k]).Some? :: codec.decode(cells[k]).value
    }

    static lemma DecodedAdd(codec: Codec, cells: map<string, Raw>, toAdd: map<string, Raw>, latest: Docs)
      requires Lawful(codec) && toAdd.Keys == latest.Keys
      requires forall k :: k in toAdd ==> toAdd[k] == codec.encode(latest[k])
      ensures Decoded(codec, cells + toAdd) == Decoded(codec, cells) + latest
    {
    }

    /** Every stored value is JSON and the document under key k has _id k. */
    ghost predicate WellKeyed()
      reads this, index
    {
      Contents().Keys == index.index.Keys && Keyed(Contents())
    }

    /** A local append gets a clock above every clock in the log. */
    ghost predicate Fresh(a: Append)
      reads this, index
    {
      a.Appended? ==>
        a.hash !in index.seen && forall k :: k in index.clocks ==> Later(a.stamp, index.clocks[k])
    }

    constructor (codec: Codec, fields: set<string>)
      requires Lawful(codec)
      ensures Valid() && fresh(index) && Contents() == map[] && WellKeyed()
    {
      this.codec := codec;
      index := new Index(codec.decode, fields);
    }

    method Put(doc: Json, a: Append) returns (ok: bool)
      requires Valid() && Fresh(a)
      modifies index
      ensures Valid()
      ensures StoreCall(HasNoKey, a.AppendFails?, old(Contents()), [doc], Contents(), ok)
      ensures ok <==> KeyOf(doc).Some? && a.Appended?
      ensures ok ==> Contents() == PutDoc(old(Contents()), doc)
      ensures !ok ==> index.Snap() == old(index.Snap())
      ensures old(WellKeyed()) ==> WellKeyed()
    {
      var key := KeyOf(doc);
      assert PutDocs(Contents(), [doc]) == PutDocs(PutDoc(Contents(), doc), []);
      assert doc in [doc];
      if key.None? || a.AppendFails? { return false; }
      var raw := codec.encode(doc);
      assert Decode(raw) == Some(doc);
      ok := index.UpdateLocal([Entry(a.hash, a.stamp, Op.Put(key.value, raw))]);
      assert AppliedAll(old(index.Snap()), [Entry(a.hash, a.stamp, Op.Put(key.value, raw))])
          == AppliedAll(Applied(old(index.Snap()), Entry(a.hash, a.stamp, Op.Put(key.value, raw))), []);
    }

    /** latest maps each key to its last document, so storing docs one by one is storing latest. */
    static ghost predicate SameEffect(docs: seq<Json>, latest: Docs) {
      forall m: Docs :: PutDocs(m, docs) == m + (latest - {""})
    }

    static lemma ExtendEffect(docs: seq<Json>, latest: Docs, d: Json)
      requires SameEffect(docs, latest) && KeyOf(d).Some?
      ensures SameEffect(docs + [d], latest[KeyOf(d).value := d])
    {
      forall m: Docs {:trigger PutDocs(m, docs + [d])}
        ensures PutDocs(m, docs + [d]) == m + (latest[KeyOf(d).value := d] - {""})
      {
        PutDocsSnoc(m, docs, d);
        assert PutDocs(m, docs) == m + (latest - {""});
      }
    }

    /** The map PutAll builds: of several documents with one _id the last stays. */
    method Collect(docs: seq<Json>) returns (toAdd: map<string, Raw>, ok: bool, ghost latest: Docs)
      requires Valid()
      ensures ok <==> forall d :: d in docs ==> KeyOf(d).Some?
      ensures ok ==> toAdd.Keys == latest.Keys && Keyed(latest) && SameEffect(docs, latest)
      ensures ok ==> forall k :: k in toAdd ==> toAdd[k] == codec.encode(latest[k])
    {
      toAdd, latest := map[], map[];
      for i := 0 to |docs|
        invariant forall d :: d in docs[..i] ==> KeyOf(d).Some?
        invariant toAdd.Keys == latest.Keys && forall k :: k in toAdd ==> toAdd[k] == codec.encode(latest[k])
        invariant Keyed(latest) && SameEffect(docs[..i], latest)
      {
        var key := KeyOf(docs[i]);
        if key.None? {
          assert docs[i] in docs;
          return toAdd, false, latest;
        }
        assert docs[..i + 1] == docs[..i] + [docs[i]];
        ExtendEffect(docs[..i], latest, docs[i]);
        toAdd := toAdd[key.value := codec.encode(docs[i])];
        latest := latest[key.value := docs[i]];
      }
      assert docs[..|docs|] == docs;
      ok := true;
    }

    /** The documents of the PUTALL operation, in the arbitrary order of the map. */
    method Listing(toAdd: map<string, Raw>) returns (list: seq<(string, Raw)>, ghost keys: seq<string>)
      ensures NoDup(keys) && Elems(keys) == toAdd.Keys && |list| == |keys|
      ensures forall i :: 0 <= i < |keys| ==> keys[i] in toAdd && list[i] == (keys[i], toAdd[keys[i]])
    {
      var order := ListSet(toAdd.Keys);
      keys, list := order, [];
      for i := 0 to |order|
        invariant |list| == i
        invariant forall j :: 0 <= j < i ==> keys[j] in toAdd && list[j] == (keys[j], toAdd[keys[j]])
      {
        assert order[i] in Elems(order);
        list := list + [(order[i], toAdd[order[i]])];
      }
    }

    /** PutAll: one log entry for all documents, none when one of them has no key. */
    method PutAll(docs: seq<Json>, a: Append) returns (ok: bool)
      requires Valid() && Fresh(a)
      modifies index
      ensures Valid()
      ensures StoreCall(HasNoKey, a.AppendFails?, old(Contents()), docs, Contents(), ok)
      ensures ok <==> (forall d :: d in docs ==> KeyOf(d).Some?) && a.Appended?
      ensures ok ==> Contents() == PutDocs(old(Contents()), docs)
      ensures !ok ==> index.Snap() == old(index.Snap())
      ensures old(WellKeyed()) ==> WellKeyed()
    {
      var toAdd, complete, latest := Collect(docs);
      if !complete || a.AppendFails? { return false; }
      var list, keys := Listing(toAdd);
      var e := Entry(a.hash, a.stamp, Op.PutAll(list));
      ok := index.UpdateLocal([e]);
      assert AppliedAll(old(index.Snap()), [e]) == AppliedAll(Applied(old(index.Snap()), e), []);
      NewestDocsLand(old(index.Snap()), e, toAdd, keys);
      DecodedAdd(codec, old(index.index), toAdd - {""}, latest - {""});
      assert PutDocs(old(Contents()), docs) == old(Contents()) + (latest - {""});
    }

    static lemma NewestDocLands(s: Snapshot, e: Entry, toAdd: map<string, Raw>, keys: seq<string>, k: string)
      requires e.hash !in s.seen && forall k :: k in s.clocks ==> Later(e.stamp, s.clocks[k])
      requires e.op.PutAll? && NoDup(keys) && Elems(keys) == toAdd.Keys && |e.op.docs| == |keys|
      requires forall i :: 0 <= i < |keys| ==> keys[i] in toAdd && e.op.docs[i] == (keys[i], toAdd[keys[i]])
      ensures CellAt(Applied(s, e), k) == if k in toAdd && k != "" then Live(toAdd[k]) else CellAt(s, k)
    {
      ApplyAt(s, e, k);
      FirstDocIs(e.op.docs, k);
      if k in toAdd {
        assert k in Elems(keys);
        var i :| 0 <= i < |keys| && keys[i] == k;
        assert e.op.docs[i].0 == k;
        FirstDocUnique(e.op.docs, k, i);
      }
    }

    /** A PUTALL newer than everything, with one document per key, overwrites exactly its non-empty keys. */
    static lemma NewestDocsLand(s: Snapshot, e: Entry, toAdd: map<string, Raw>, keys: seq<string>)
      requires e.hash !in s.seen && forall k :: k in s.clocks ==> Later(e.stamp, s.clocks[k])
      requires e.op.PutAll? && NoDup(keys) && Elems(keys) == toAdd.Keys && |e.op.docs| == |keys|
      requires forall i :: 0 <= i < |keys| ==> keys[i] in toAdd && e.op.docs[i] == (keys[i], toAdd[keys[i]])
      ensures Applied(s, e).cells == s.cells + (toAdd - {""})
    {
      var t := Applied(s, e);
      var u := s.(cells := s.cells + (toAdd - {""}));
      forall k ensures (k in t.cells <==> k in u.cells) && (k in t.cells ==> t.cells[k] == u.cells[k]) {
        NewestDocLands(s, e, toAdd, keys, k);
      }
    }

    static lemma {:induction false} FirstDocUnique(docs: seq<(string, Raw)>, k: string, i: nat)
      requires i < |docs| && docs[i].0 == k
      requires forall j :: 0 <= j < |docs| && j != i ==> docs[j].0 != k
      ensures FirstDoc(docs, k) == Some(Live(docs[i].1))
    {
      if i > 0 { FirstDocUnique(docs[1..], k, i - 1); }
    }

    // -------------------------------------------------------------------------------------------
    // Reads
    // -------------------------------------------------------------------------------------------

    /** docs are the documents under the keys of selected, each once, in some order. */
    ghost predicate Lists(docs: seq<Json>, keys: seq<string>, selected: set<string>)
      reads this, index
    {
      && NoDup(keys) && Elems(keys) == selected && |docs| == |keys|
      && forall i :: 0 <= i < |keys| ==> keys[i] in index.index && Decode(index.index[keys[i]]) == Some(docs[i])
    }

    ghost predicate Undecodable(k: string)
      reads this, index
    {
      k in index.index && Decode(index.index[k]).None?
    }

    ghost function Selected(filter: Json -> bool): set<string>
      reads this, index
    {
      set k | k in Contents() && filter(Contents()[k])
    }

    /** Get with default options: the document under the search key. */
    method Get(key: string) returns (r: Result<seq<Json>>)
      requires Valid()
      ensures ' ' !in key && key in index.index ==> r == match Decode(index.index[key]) case Some(d) => Ok([d]) case None => Error
      ensures ' ' !in key && key !in index.index ==> r == Ok([])
      ensures SearchKey(key) !in index.index ==> r == Ok([])
      ensures SearchKey(key) in index.index ==>
                r == (match Decode(index.index[SearchKey(key)]) case Some(d) => Ok([d]) case None => Error)
    {
      var k := SearchKey(key);
      if ' ' !in key {
        if k !in index.index { return Ok([]); }
        var d := Decode(index.index[k]);
        return if d.Some? then Ok([d.value]) else Error;
      }
      var docs: seq<Json> := [];
      var keys := index.Keys();
      for i := 0 to |keys|
        invariant k in keys[..i] ==> k in index.index && Decode(index.index[k]).Some?
        invariant docs == if k in keys[..i] then [Decode(index.index[k]).value] else []
      {
        assert keys[i] in Elems(keys);
        assert keys[..i + 1] == keys[..i] + [keys[i]];
        if keys[i] == k {
          assert k !in keys[..i];
          var d := Decode(index.index[k]);
          if d.None? { return Error; }
          docs := docs + [d.value];
        }
      }
      assert keys[..|keys|] == keys;
      assert k in index.index.Keys <==> k in Elems(keys);
      r := Ok(docs);
    }

    /** One more key looked at. */
    lemma ListOneMore(docs: seq<Json>, keys: seq<string>, filter: Json -> bool, among: seq<string>, k: string, d: Json)
      requires Lists(docs, keys, Selected(filter) * Elems(among)) && k !in among
      requires k in index.index && Decode(index.index[k]) == Some(d)
      ensures if filter(d) then Lists(docs + [d], keys + [k], Selected(filter) * Elems(among + [k]))
              else Lists(docs, keys, Selected(filter) * Elems(among + [k]))
    {
      assert Elems(among + [k]) == Elems(among) + {k};
      assert k in Contents() && Contents()[k] == d;
      if filter(d) {
        assert k !in Elems(keys) && Elems([k]) == {k};
        NoDupJoin(keys, [k]);
      } else {
        assert k !in Selected(filter);
      }
    }

    /** filterKeys with criteriaFilter: the documents among keys that pass it. It fails on a value that cannot be
        decoded, and panics only on ill-typed filters. */
    method FilterKeys(among: seq<string>, lib: Library, criteria: seq<Fields>)
      returns (r: Outcome<seq<Json>>, ghost keys: seq<string>)
      requires Valid() && NoDup(among) && Elems(among) <= index.index.Keys
      ensures r.Answered? ==> Lists(r.value, keys, Selected(FilterOf(lib, criteria)) * Elems(among))
      ensures r.Answered? ==> forall k :: k in among ==> !Undecodable(k)
      ensures r.Failed? ==> exists k :: k in among && Undecodable(k)
      ensures WellTypedFilters(criteria) ==> !r.Panicked?
    {
      var docs: seq<Json> := [];
      keys := [];
      ghost var filter := FilterOf(lib, criteria);
      for i := 0 to |among|
        invariant forall k :: k in among[..i] ==> !Undecodable(k)
        invariant Lists(docs, keys, Selected(filter) * Elems(among[..i]))
      {
        var k := among[i];
        assert k in Elems(among);
        assert among[..i + 1] == among[..i] + [k];
        assert k !in among[..i];
        var d := Decode(index.index[k]);
        if d.None? {
          assert Undecodable(k);
          return Failed, keys;
        }
        var v := CriteriaFilter(lib, criteria, d.value);
        if v == Panics { return Panicked, keys; }
        ListOneMore(docs, keys, filter, among[..i], k, d.value);
        if v == Verdict.Holds { docs, keys := docs + [d.value], keys + [k]; }
      }
      assert among[..|among|] == among;
      r := Answered(docs);
    }

    method Query(lib: Library, criteria: seq<Fields>) returns (r: Outcome<seq<Json>>, ghost keys: seq<string>)
      requires Valid()
      ensures r.Answered? ==> Lists(r.value, keys, Selected(FilterOf(lib, criteria))) && forall k :: !Undecodable(k)
      ensures r.Failed? ==> exists k :: Undecodable(k)
      ensures WellTypedFilters(criteria) ==> !r.Panicked?
    {
      var all := index.Keys();
      r, keys := FilterKeys(all, lib, criteria);
      assert Selected(FilterOf(lib, criteria)) * Elems(all) == Selected(FilterOf(lib, criteria));
      assert forall k :: Undecodable(k) ==> k in Elems(all);
    }

    /** The filter passes only objects that satisfy the equalities. */
    ghost predicate Implies(filter: Json -> bool, equal: map<string, string>) {
      forall d: Json :: filter(d) ==> HasAll(d, equal)
    }

    /** While the inverted index is in use, every stored value can be decoded. */
    lemma IndexedMeansDecodable(equal: map<string, string>)
      requires Valid() && !index.fieldsOff && equal.Keys * index.fields != {}
      ensures forall k :: !Undecodable(k)
    {
      assert index.Indexing();
    }

    /** QueryIndexed: an answer is that of Query, for a filter that implies the equalities; nothing fails to decode. */
    method QueryIndexed(equal: map<string, string>, lib: Library, criteria: seq<Fields>)
      returns (r: Outcome<seq<Json>>, indexed: bool, ghost keys: seq<string>)
      requires Valid() && Implies(FilterOf(lib, criteria), equal)
      ensures indexed <==> !index.fieldsOff && equal.Keys * index.fields != {}
      ensures indexed ==> !r.Failed? && forall k :: !Undecodable(k)
      ensures indexed && r.Answered? ==> Lists(r.value, keys, Selected(FilterOf(lib, criteria)))
      ensures WellTypedFilters(criteria) ==> !r.Panicked?
    {
      keys := [];
      var candidates, found := index.KeysByFields(equal);
      if !found { return Answered([]), false, []; }
      indexed := true;
      IndexedMeansDecodable(equal);
      r, keys := FilterKeys(candidates, lib, criteria);
      assert Selected(FilterOf(lib, criteria)) * Elems(candidates) == Selected(FilterOf(lib, criteria));
    }

    /** rawMatches: FilterKeys with the stored bytes as answer. */
    method RawMatches(among: seq<string>, lib: Library, criteria: seq<Fields>)
      returns (r: Outcome<seq<Raw>>, ghost docs: seq<Json>, ghost keys: seq<string>)
      requires Valid() && NoDup(among) && Elems(among) <= index.index.Keys
      ensures r.Answered? ==> Lists(docs, keys, Selected(FilterOf(lib, criteria)) * Elems(among)) && BytesOf(r.value, keys)
      ensures r.Answered? ==> forall k :: k in among ==> !Undecodable(k)
      ensures r.Failed? ==> exists k :: k in among && Undecodable(k)
      ensures WellTypedFilters(criteria) ==> !r.Panicked?
    {
      docs, keys := [], [];
      var raws: seq<Raw> := [];
      ghost var filter := FilterOf(lib, criteria);
      for i := 0 to |among|
        invariant forall k :: k in among[..i] ==> !Undecodable(k)
        invariant Lists(docs, keys, Selected(filter) * Elems(among[..i])) && BytesOf(raws, keys)
      {
        var k := among[i];
        assert k in Elems(among);
        assert among[..i + 1] == among[..i] + [k];
        assert k !in among[..i];
        var d := Decode(index.index[k]);
        if d.None? {
          assert Undecodable(k);
          return Failed, docs, keys;
        }
        var v := CriteriaFilter(lib, criteria, d.value);
        if v == Panics { return Panicked, docs, keys; }
        ListOneMore(docs, keys, filter, among[..i], k, d.value);
        if v == Verdict.Holds { raws, docs, keys := raws + [index.index[k]], docs + [d.value], keys + [k]; }
      }
      assert among[..|among|] == among;
      r := Answered(raws);
    }

    /** QueryRaw: Query with the stored bytes as answer, through the inverted index when it covers a field. */
    method QueryRaw(equal: map<string, string>, lib: Library, criteria: seq<Fields>)
      returns (r: Outcome<seq<Raw>>, ghost docs: seq<Json>, ghost keys: seq<string>)
      requires Valid() && Implies(FilterOf(lib, criteria), equal)
      ensures r.Answered? ==> Lists(docs, keys, Selected(FilterOf(lib, criteria))) && BytesOf(r.value, keys)
      ensures r.Answered? ==> forall k :: !Undecodable(k)
      ensures r.Failed? ==> exists k :: Undecodable(k)
      ensures WellTypedFilters(criteria) ==> !r.Panicked?
    {
      var among, indexed := index.KeysByFields(equal);
      if equal == map[] || !indexed {
        among := index.Keys();
        assert forall k :: Undecodable(k) ==> k in Elems(among);
      } else {
        IndexedMeansDecodable(equal);
      }
      assert Selected(FilterOf(lib, criteria)) * Elems(among) == Selected(FilterOf(lib, criteria));
      r, docs, keys := RawMatches(among, lib, criteria);
    }

    ghost predicate BytesOf(raws: seq<Raw>, keys: seq<string>)
      reads index
    {
      |raws| == |keys| && forall i :: 0 <= i < |keys| ==> keys[i] in index.index && raws[i] == index.index[keys[i]]
    }

    ghost predicate HasAll(d: Json, equal: map<string, string>) {
      d.Obj? && forall f :: f in equal ==> f in d.fields && d.fields[f] == Str(equal[f])
    }

    lemma MatchingIsHasAll(equal: map<string, string>)
      requires Valid() && !index.fieldsOff && equal != map[] && equal.Keys <= index.fields
      ensures index.Matching(equal) == set k | k in Contents() && HasAll(Contents()[k], equal)
    {
      var f :| f in equal;
      assert f in equal.Keys * index.fields;
      IndexedMeansDecodable(equal);
      forall k ensures k in index.Matching(equal) <==> k in Contents() && HasAll(Contents()[k], equal) {
        if k in index.index {
          assert !Undecodable(k);
          if k in index.Matching(equal) { assert index.FieldIs(index.index[k], f, equal[f]); }
        }
      }
    }

    /** QueryRawExact: answered by the index alone; exact for a filter equivalent to the equalities. */
    method QueryRawExact(equal: map<string, string>) returns (raws: seq<Raw>, ok: bool, ghost keys: seq<string>)
      requires Valid()
      ensures ok <==> !index.fieldsOff && equal != map[] && equal.Keys <= index.fields
      ensures ok ==> NoDup(keys) && BytesOf(raws, keys)
      ensures ok ==> Elems(keys) == set k | k in Contents() && HasAll(Contents()[k], equal)
    {
      raws, ok, keys := index.RawsByFields(equal);
      if ok { MatchingIsHasAll(equal); }
    }

    method GetRaw(key: string) returns (raw: Option<Raw>)
      ensures raw == if key in index.index then Some(index.index[key]) else None
    {
      raw := if key in index.index then Some(index.index[key]) else None;
    }

    method HasKey(key: string) returns (has: bool)
      ensures has <==> key in index.index
    {
      has := key in index.index;
    }
  }
}
