/** Documents and the contract of a document store: a map keyed by the documents' "_id". */
module Documents {

  import opened Prelude
  import opened JsonValues

  type Docs = map<string, Json>

  /** MapKeyExtractor("_id"). */
  function KeyOf(doc: Json): Option<string> {
    if doc.Obj? && "_id" in doc.fields && doc.fields["_id"].Str? then Some(doc.fields["_id"].s) else None
  }

  /** A document is kept under its _id, which has to be a text. */
  lemma KeyOfIs(doc: Json, k: string)
    ensures KeyOf(doc) == Some(k) <==> doc.Obj? && "_id" in doc.fields && doc.fields["_id"] == Str(k)
  {
  }

  /** The effect of a successful Put: a document with an empty _id is accepted but not indexed. */
  function PutDoc(m: Docs, doc: Json): Docs {
    match KeyOf(doc)
    case Some(k) => if k == "" then m else m[k := doc]
    case None => m
  }

  function PutDocs(m: Docs, docs: seq<Json>): Docs
    decreases docs
  {
    if docs == [] then m else PutDocs(PutDoc(m, docs[0]), docs[1..])
  }

  ghost predicate Keyed(m: Docs) {
    forall k :: k in m ==> KeyOf(m[k]) == Some(k)
  }

  lemma {:induction false} PutDocsConcat(m: Docs, a: seq<Json>, b: seq<Json>)
    ensures PutDocs(m, a + b) == PutDocs(PutDocs(m, a), b)
    decreases a
  {
    if a == [] {
      assert a + b == b;
    } else {
      assert (a + b)[1..] == a[1..] + b;
      PutDocsConcat(PutDoc(m, a[0]), a[1..], b);
    }
  }

  lemma PutDocsSnoc(m: Docs, a: seq<Json>, d: Json)
    ensures PutDocs(m, a + [d]) == PutDoc(PutDocs(m, a), d)
  {
    PutDocsConcat(m, a, [d]);
    assert PutDocs(PutDocs(m, a), [d]) == PutDocs(PutDoc(PutDocs(m, a), d), []);
  }

  /** d is the document stored under k after a and was put later than every other document of a with that key. */
  ghost predicate LastFor(a: seq<Json>, k: string, i: int) {
    0 <= i < |a| && KeyOf(a[i]) == Some(k) && forall j :: i < j < |a| ==> KeyOf(a[j]) != Some(k)
  }

  /** After putting documents one by one, a key holds the last of them with that _id, or what it held before. */
  lemma {:induction false} PutDocsAt(m: Docs, a: seq<Json>, k: string)
    ensures k != "" && (exists i :: LastFor(a, k, i)) ==>
              exists i :: LastFor(a, k, i) && k in PutDocs(m, a) && PutDocs(m, a)[k] == a[i]
    ensures k == "" || !(exists i :: LastFor(a, k, i)) ==>
              (k in PutDocs(m, a) <==> k in m) && (k in m ==> PutDocs(m, a)[k] == m[k])
    ensures (exists i :: LastFor(a, k, i)) <==> (exists d :: d in a && KeyOf(d) == Some(k))
    decreases |a|
  {
    if a != [] {
      var n := |a| - 1;
      var b := a[..n];
      assert a == b + [a[n]];
      PutDocsSnoc(m, b, a[n]);
      PutDocsAt(m, b, k);
      if KeyOf(a[n]) == Some(k) {
        assert LastFor(a, k, n);
        forall i | LastFor(a, k, i) ensures i == n {}
      } else {
        forall i ensures LastFor(a, k, i) <==> LastFor(b, k, i) {
          if LastFor(a, k, i) { assert forall j :: i < j < |b| ==> b[j] == a[j]; }
          if LastFor(b, k, i) { assert forall j :: i < j < |b| ==> b[j] == a[j]; }
        }
      }
    }
  }

  /** after differs from before only in keys of docs, which then hold one of docs. */
  ghost predicate Partial(before: Docs, docs: seq<Json>, after: Docs) {
    forall k :: Kept(before, after, k) || (k != "" && exists i :: 0 <= i < |docs| && Holds(after, k, docs[i]))
  }

  ghost predicate Kept(before: Docs, after: Docs, k: string) {
    (k in before <==> k in after) && (k in before ==> after[k] == before[k])
  }

  ghost predicate Holds(m: Docs, k: string, d: Json) {
    KeyOf(d) == Some(k) && k in m && m[k] == d
  }

  lemma PutDocsPartial(before: Docs, ds: seq<Json>)
    ensures Partial(before, ds, PutDocs(before, ds))
  {
    var after := PutDocs(before, ds);
    forall k ensures Kept(before, after, k) || (k != "" && exists i :: 0 <= i < |ds| && Holds(after, k, ds[i])) {
      PutDocsAt(before, ds, k);
      if k != "" && exists i :: LastFor(ds, k, i) {
        var i :| LastFor(ds, k, i) && k in after && after[k] == ds[i];
        assert Holds(after, k, ds[i]);
      }
    }
  }

  /** The contract of a store call: a call that succeeds contains no rejected document and has the effect of putting its
      documents one by one; one that fails contains a rejected document or meets a failing store, which may have stored
      any part of them. */
  ghost predicate StoreCall(rejects: Json -> bool, mayFail: bool, before: Docs, ds: seq<Json>, after: Docs, ok: bool) {
    && (ok ==> (forall d :: d in ds ==> !rejects(d)) && after == PutDocs(before, ds))
    && (!ok ==> (mayFail || exists d :: d in ds && rejects(d)) && Partial(before, ds, after))
    && (!ok && !mayFail ==> after == before)
  }

  predicate HasNoKey(doc: Json) {
    KeyOf(doc).None?
  }
}
