/** The three ways documents reach a store: one by one and batched (app/batch_put.go) and through the store's
    writer (storeWriter.write, app/group_commit.go). */
module WriteRoutes {

  import opened Prelude
  import opened JsonValues
  import opened Documents
  import opened Chunking

  function Good(docs: seq<Json>, rejects: Json -> bool): (good: seq<Json>)
    ensures |good| <= |docs|
  {
    if docs == [] then []
    else
      var rest := Good(docs[..|docs| - 1], rejects);
      if rejects(docs[|docs| - 1]) then rest else rest + [docs[|docs| - 1]]
  }

  lemma {:induction false} GoodConcat(a: seq<Json>, b: seq<Json>, rejects: Json -> bool)
    ensures Good(a + b, rejects) == Good(a, rejects) + Good(b, rejects)
    decreases b
  {
    if b == [] {
      assert a + b == a;
    } else {
      var n := |b| - 1;
      assert (a + b)[..|a| + n] == a + b[..n] && (a + b)[|a| + n] == b[n];
      GoodConcat(a, b[..n], rejects);
    }
  }

  lemma {:induction false} AllGood(a: seq<Json>, rejects: Json -> bool)
    requires forall d :: d in a ==> !rejects(d)
    ensures Good(a, rejects) == a
  {
    if a != [] {
      AllGood(a[..|a| - 1], rejects);
      assert a == a[..|a| - 1] + [a[|a| - 1]];
    }
  }

  /** Exactly the documents not rejected, and all of them exactly when none is rejected. */
  lemma {:induction false} GoodIsFilter(a: seq<Json>, rejects: Json -> bool)
    ensures forall d :: d in Good(a, rejects) <==> d in a && !rejects(d)
    ensures |Good(a, rejects)| == |a| <==> forall d :: d in a ==> !rejects(d)
  {
    if a != [] {
      var n := |a| - 1;
      GoodIsFilter(a[..n], rejects);
      assert a == a[..n] + [a[n]];
    }
  }

  /** Keys that no document of ds has are as before. */
  ghost predicate Frame(before: Docs, ds: seq<Json>, after: Docs) {
    forall k :: Kept(before, after, k) || exists d :: d in ds && KeyOf(d) == Some(k)
  }

  ghost predicate Among(xs: seq<Json>, ds: seq<Json>) {
    forall d :: d in xs ==> d in ds
  }

  lemma PartialFrames(before: Docs, ds: seq<Json>, after: Docs)
    requires Partial(before, ds, after)
    ensures Frame(before, ds, after)
  {
    forall k ensures Kept(before, after, k) || exists d :: d in ds && KeyOf(d) == Some(k) {
      if !Kept(before, after, k) {
        var i :| 0 <= i < |ds| && Holds(after, k, ds[i]);
        assert ds[i] in ds;
      }
    }
  }

  lemma FrameStep(a: Docs, ds: seq<Json>, b: Docs, xs: seq<Json>, c: Docs)
    requires Frame(a, ds, b) && Frame(b, xs, c) && Among(xs, ds)
    ensures Frame(a, ds, c)
  {
    forall k ensures Kept(a, c, k) || exists d :: d in ds && KeyOf(d) == Some(k) {
      assert Kept(a, b, k) || exists d :: d in ds && KeyOf(d) == Some(k);
      assert Kept(b, c, k) || exists d :: d in xs && KeyOf(d) == Some(k);
    }
  }

  lemma PartialPut(before: Docs, docs: seq<Json>, m: Docs, i: nat)
    requires Partial(before, docs, m) && i < |docs|
    ensures Partial(before, docs, PutDoc(m, docs[i]))
  {
    var after := PutDoc(m, docs[i]);
    forall k ensures Kept(before, after, k) || (k != "" && exists i :: 0 <= i < |docs| && Holds(after, k, docs[i])) {
      if KeyOf(docs[i]) == Some(k) && k != "" {
        assert Holds(after, k, docs[i]);
      } else if !Kept(before, m, k) {
        var j :| 0 <= j < |docs| && Holds(m, k, docs[j]);
        assert Holds(after, k, docs[j]);
      }
    }
  }

  /** A document store as its callers see it. Some documents are rejected by every call, without effect: at
      least those without a string _id. A flaky store may also fail at will, having stored any part of the
      documents. entries are the log entries written. */
  class DocStore {
    const rejects: Json -> bool
    const flaky: bool
    var docs: Docs
    ghost var entries: seq<seq<Json>>

    ghost predicate Valid() {
      forall d :: KeyOf(d).None? ==> rejects(d)
    }

    constructor (rejects: Json -> bool, flaky: bool)
      requires forall d :: KeyOf(d).None? ==> rejects(d)
      ensures Valid() && docs == map[] && entries == [] && this.flaky == flaky && this.rejects == rejects
    {
      this.rejects, this.flaky := rejects, flaky;
      docs, entries := map[], [];
    }

    method Put(doc: Json) returns (ok: bool)
      requires Valid()
      modifies this
      ensures ok ==> !rejects(doc) && docs == PutDoc(old(docs), doc) && entries == old(entries) + [[doc]]
      ensures !ok ==> (flaky || rejects(doc)) && entries == old(entries) && Partial(old(docs), [doc], docs)
      ensures !ok && !flaky ==> docs == old(docs)
      ensures StoreCall(rejects, flaky, old(docs), [doc], docs, ok) && Frame(old(docs), [doc], docs)
    {
      assert PutDocs(docs, [doc]) == PutDocs(PutDoc(docs, doc), []);
      if rejects(doc) { return false; }
      if flaky {
        ok := *;
        if !ok {
          if * {
            PartialPut(docs, [doc], docs, 0);
            docs := PutDoc(docs, doc);
            PartialFrames(old(docs), [doc], docs);
          }
          return;
        }
      }
      PartialPut(docs, [doc], docs, 0);
      docs, entries, ok := PutDoc(docs, doc), entries + [[doc]], true;
      PartialFrames(old(docs), [doc], docs);
    }

    method PutAll(ds: seq<Json>) returns (ok: bool)
      requires Valid()
      modifies this
      ensures ok ==> (forall d :: d in ds ==> !rejects(d)) && docs == PutDocs(old(docs), ds) && entries == old(entries) + [ds]
      ensures !ok ==> (flaky || exists d :: d in ds && rejects(d)) && entries == old(entries) && Partial(old(docs), ds, docs)
      ensures !ok && !flaky ==> docs == old(docs)
      ensures StoreCall(rejects, flaky, old(docs), ds, docs, ok) && Frame(old(docs), ds, docs)
    {
      if exists d :: d in ds && rejects(d) { return false; }
      if flaky {
        ok := *;
        if !ok {
          for i := 0 to |ds|
            invariant Partial(old(docs), ds, docs) && entries == old(entries)
          {
            if * {
              PartialPut(old(docs), ds, docs, i);
              docs := PutDoc(docs, ds[i]);
            }
          }
          PartialFrames(old(docs), ds, docs);
          return;
        }
      }
      PutDocsPartial(docs, ds);
      docs, entries, ok := PutDocs(docs, ds), entries + [ds], true;
      PartialFrames(old(docs), ds, docs);
    }
  }

  lemma AllGoodIffSame(ds: seq<Json>, rejects: Json -> bool)
    ensures Good(ds, rejects) == ds <==> |Good(ds, rejects)| == |ds|
  {
    GoodIsFilter(ds, rejects);
    if |Good(ds, rejects)| == |ds| { AllGood(ds, rejects); }
  }

  /** Storing the good documents of a and then those of b is storing those of a + b. */
  lemma GoodInSteps(m: Docs, a: seq<Json>, b: seq<Json>, rejects: Json -> bool)
    ensures Good(a + b, rejects) == Good(a, rejects) + Good(b, rejects)
    ensures PutDocs(m, Good(a + b, rejects)) == PutDocs(PutDocs(m, Good(a, rejects)), Good(b, rejects))
    ensures Good(a + b, rejects) == a + b <==> Good(a, rejects) == a && Good(b, rejects) == b
  {
    GoodConcat(a, b, rejects);
    PutDocsConcat(m, Good(a, rejects), Good(b, rejects));
    AllGoodIffSame(a, rejects);
    AllGoodIffSame(b, rejects);
    AllGoodIffSame(a + b, rejects);
  }

  // ---------------------------------------------------------------------------------------------
  // The writer
  // ---------------------------------------------------------------------------------------------

  /** An answer of nil means the document is stored, or a later one of the batch with the same _id is. */
  ghost predicate AnswersHold(batch: seq<Json>, answers: seq<bool>, m: Docs) {
    |answers| <= |batch| && forall i :: 0 <= i < |answers| && answers[i] ==> StoredOrLater(batch, i, m)
  }

  ghost predicate StoredOrLater(batch: seq<Json>, i: nat, m: Docs)
    requires i < |batch|
  {
    match KeyOf(batch[i])
    case None => false
    case Some(k) => k == "" || exists j :: i <= j < |batch| && Holds(m, k, batch[j])
  }

  /** Whatever becomes of later documents of the batch, answers given stay true. */
  lemma AnswersStay(batch: seq<Json>, answers: seq<bool>, before: Docs, start: nat, end: nat, after: Docs)
    requires |answers| <= start <= end <= |batch| && AnswersHold(batch, answers, before)
    requires Partial(before, batch[start..end], after)
    ensures AnswersHold(batch, answers, after)
  {
    forall i | 0 <= i < |answers| && answers[i] ensures StoredOrLater(batch, i, after) {
      assert StoredOrLater(batch, i, before);
      var k := KeyOf(batch[i]).value;
      if k != "" {
        if Kept(before, after, k) {
          var j :| i <= j < |batch| && Holds(before, k, batch[j]);
          assert Holds(after, k, batch[j]);
        } else {
          var j :| 0 <= j < end - start && Holds(after, k, batch[start..end][j]);
          assert Holds(after, k, batch[start + j]);
        }
      }
    }
  }

  /** A successful PutAll of a chunk answers each of its documents truthfully. */
  lemma ChunkStored(batch: seq<Json>, start: nat, end: nat, before: Docs)
    requires start <= end <= |batch| && forall i :: start <= i < end ==> KeyOf(batch[i]).Some?
    ensures forall i :: start <= i < end ==> StoredOrLater(batch, i, PutDocs(before, batch[start..end]))
  {
    var chunk := batch[start..end];
    var after := PutDocs(before, chunk);
    forall i | start <= i < end ensures StoredOrLater(batch, i, after) {
      var k := KeyOf(batch[i]).value;
      PutDocsAt(before, chunk, k);
      if k != "" {
        assert chunk[i - start] == batch[i];
        assert chunk[i - start] in chunk;
        var j :| LastFor(chunk, k, j) && k in after && after[k] == chunk[j];
        assert Holds(after, k, batch[start + j]);
      }
    }
  }

  /** On a reliable store that held m: the documents from start to end are written and answered. */
  ghost predicate Settled(m: Docs, batch: seq<Json>, start: nat, end: nat, answers: seq<bool>, docs: Docs, rejects: Json -> bool)
    requires start <= end <= |batch| && end <= |answers|
  {
    && docs == PutDocs(m, Good(batch[start..end], rejects))
    && forall i :: start <= i < end ==> (answers[i] <==> !rejects(batch[i]))
  }

  lemma SettledInSteps(m: Docs, batch: seq<Json>, start: nat, mid: nat, end: nat, answers: seq<bool>, docs: Docs, more: seq<bool>,
                       after: Docs, rejects: Json -> bool)
    requires start <= mid <= end <= |batch| && |answers| == mid && |more| == end && answers <= more
    requires Settled(m, batch, start, mid, answers, docs, rejects)
    requires Settled(docs, batch, mid, end, more, after, rejects)
    ensures Settled(m, batch, start, end, more, after, rejects)
  {
    assert batch[start..end] == batch[start..mid] + batch[mid..end];
    GoodInSteps(m, batch[start..mid], batch[mid..end], rejects);
    forall i | start <= i < end ensures more[i] <==> !rejects(batch[i]) {
      if i < mid { assert more[i] == answers[i]; }
    }
  }

  lemma NothingSettled(m: Docs, batch: seq<Json>, start: nat, answers: seq<bool>, rejects: Json -> bool)
    requires start <= |batch| && start <= |answers|
    ensures Settled(m, batch, start, start, answers, m, rejects)
  {
    assert batch[start..start] == [];
  }

  /** A Put of document i, whose outcome answers it. */
  method PutAndAnswer(store: DocStore, batch: seq<Json>, i: nat, ghost answered: seq<bool>) returns (ok: bool, ghost answers: seq<bool>)
    requires store.Valid() && |answered| == i < |batch| && AnswersHold(batch, answered, store.docs)
    modifies store
    ensures answers == answered + [ok] && AnswersHold(batch, answers, store.docs)
    ensures !store.flaky ==> Settled(old(store.docs), batch, i, i + 1, answers, store.docs, store.rejects)
    ensures store.entries == if ok then old(store.entries) + [[batch[i]]] else old(store.entries)
    ensures Frame(old(store.docs), [batch[i]], store.docs)
  {
    ghost var before := store.docs;
    ok := store.Put(batch[i]);
    answers := answered + [ok];
    OneAnswered(batch, i, before, answered, ok, store.docs);
    if !store.flaky { OneSettled(batch, i, before, answers, ok, store.docs, store.rejects); }
  }

  lemma OneAnswered(batch: seq<Json>, i: nat, before: Docs, answered: seq<bool>, ok: bool, docs: Docs)
    requires |answered| == i < |batch| && AnswersHold(batch, answered, before)
    requires if ok then KeyOf(batch[i]).Some? && docs == PutDoc(before, batch[i]) else Partial(before, [batch[i]], docs)
    ensures AnswersHold(batch, answered + [ok], docs)
  {
    assert batch[i..i + 1] == [batch[i]];
    PutDocsPartial(before, [batch[i]]);
    assert PutDocs(before, [batch[i]]) == PutDocs(PutDoc(before, batch[i]), []);
    AnswersStay(batch, answered, before, i, i + 1, docs);
    if ok { assert KeyOf(batch[i]).value != "" ==> Holds(docs, KeyOf(batch[i]).value, batch[i]); }
  }

  lemma OneSettled(batch: seq<Json>, i: nat, before: Docs, answers: seq<bool>, ok: bool, docs: Docs, rejects: Json -> bool)
    requires i < |batch| && |answers| == i + 1 && answers[i] == ok == !rejects(batch[i])
    requires docs == if ok then PutDoc(before, batch[i]) else before
    ensures Settled(before, batch, i, i + 1, answers, docs, rejects)
  {
    assert batch[i..i + 1] == [batch[i]];
    assert Good([batch[i]], rejects) == if rejects(batch[i]) then [] else [batch[i]];
    assert PutDocs(before, [batch[i]]) == PutDocs(PutDoc(before, batch[i]), []);
  }

  /** What putting documents start to end one at a time has achieved so far, on a store that held m. */
  ghost predicate Progress(m: Docs, batch: seq<Json>, start: nat, answers: seq<bool>, docs: Docs, rejects: Json -> bool, flaky: bool) {
    && start <= |answers| <= |batch| && AnswersHold(batch, answers, docs) && Frame(m, batch, docs)
    && (!flaky ==> Settled(m, batch, start, |answers|, answers, docs, rejects))
  }

  /** The next document of a loop of Puts. */
  method AnswerNext(store: DocStore, batch: seq<Json>, ghost m: Docs, ghost start: nat, i: nat, ghost answered: seq<bool>)
    returns (ok: bool, ghost answers: seq<bool>)
    requires store.Valid() && |answered| == i < |batch|
    requires Progress(m, batch, start, answered, store.docs, store.rejects, store.flaky)
    modifies store
    ensures answers == answered + [ok]
    ensures Progress(m, batch, start, answers, store.docs, store.rejects, store.flaky)
    ensures store.entries == if ok then old(store.entries) + [[batch[i]]] else old(store.entries)
  {
    ghost var before := store.docs;
    ok, answers := PutAndAnswer(store, batch, i, answered);
    FrameStep(m, batch, before, [batch[i]], store.docs);
    if !store.flaky { SettledInSteps(m, batch, start, i, i + 1, answered, before, answers, store.docs, store.rejects); }
  }

  lemma NoProgress(batch: seq<Json>, answers: seq<bool>, docs: Docs, rejects: Json -> bool, flaky: bool)
    requires |answers| <= |batch| && AnswersHold(batch, answers, docs)
    ensures Progress(docs, batch, |answers|, answers, docs, rejects, flaky)
  {
    NothingSettled(docs, batch, |answers|, answers, rejects);
  }

  method PutEach(store: DocStore, batch: seq<Json>, start: nat, end: nat, answered: seq<bool>) returns (answers: seq<bool>)
    requires store.Valid() && |answered| == start <= end <= |batch| && AnswersHold(batch, answered, store.docs)
    modifies store
    ensures |answers| == end && answered <= answers
    ensures Progress(old(store.docs), batch, start, answers, store.docs, store.rejects, store.flaky)
  {
    answers := answered;
    ghost var m := store.docs;
    NoProgress(batch, answers, m, store.rejects, store.flaky);
    for i := start to end
      invariant |answers| == i && answered <= answers
      invariant Progress(m, batch, start, answers, store.docs, store.rejects, store.flaky)
    {
      var ok, more := AnswerNext(store, batch, m, start, i, answers);
      answers := answers + [ok];
    }
  }

  /** One chunk: a Put for a single document, a PutAll for several, and the fallback when that fails. */
  method WriteChunk(store: DocStore, batch: seq<Json>, start: nat, end: nat, answered: seq<bool>) returns (answers: seq<bool>)
    requires store.Valid() && |answered| == start < end <= |batch| && AnswersHold(batch, answered, store.docs)
    modifies store
    ensures |answers| == end && answered <= answers && AnswersHold(batch, answers, store.docs)
    ensures !store.flaky ==> Settled(old(store.docs), batch, start, end, answers, store.docs, store.rejects)
    ensures !store.flaky && (forall d :: d in batch[start..end] ==> !store.rejects(d)) ==>
              store.entries == old(store.entries) + [batch[start..end]]
    ensures Frame(old(store.docs), batch, store.docs)
  {
    var chunk := batch[start..end];
    ghost var before := store.docs;
    if |chunk| == 1 {
      assert chunk == [batch[start]] && chunk[0] in chunk;
      var one, more := PutAndAnswer(store, batch, start, answered);
      answers := answered + [one];
      FrameStep(before, batch, before, [batch[start]], store.docs);
      return;
    }
    var ok := store.PutAll(chunk);
    FrameStep(before, batch, before, chunk, store.docs);
    if !ok {
      ghost var mid := store.docs;
      AnswersStay(batch, answered, before, start, end, store.docs);
      answers := PutEach(store, batch, start, end, answered);
      FrameStep(before, batch, mid, batch, store.docs);
      return;
    }
    answers := answered + seq(end - start, _ => true);
    ChunkAnswered(batch, start, end, before, answered, answers, store.rejects);
  }

  /** A chunk stored in one entry: all its requests are answered nil. */
  lemma ChunkAnswered(batch: seq<Json>, start: nat, end: nat, before: Docs, answered: seq<bool>, answers: seq<bool>,
                      rejects: Json -> bool)
    requires |answered| == start < end <= |batch| && AnswersHold(batch, answered, before)
    requires forall d :: d in batch[start..end] ==> KeyOf(d).Some? && !rejects(d)
    requires answers == answered + seq(end - start, _ => true)
    ensures AnswersHold(batch, answers, PutDocs(before, batch[start..end]))
    ensures Settled(before, batch, start, end, answers, PutDocs(before, batch[start..end]), rejects)
  {
    var chunk := batch[start..end];
    AllGood(chunk, rejects);
    assert forall i :: start <= i < end ==> batch[i] in chunk by {
      assert forall i :: start <= i < end ==> batch[i] == chunk[i - start];
    }
    PutDocsPartial(before, chunk);
    AnswersStay(batch, answered, before, start, end, PutDocs(before, chunk));
    ChunkStored(batch, start, end, before);
  }

  /** The entries written so far, then the chunks of what is left, are the chunks of the whole batch. */
  ghost predicate Planned(batch: seq<Json>, start: nat, before: seq<seq<Json>>, now: seq<seq<Json>>, size: Json -> nat, lim: Limits)
    requires start <= |batch|
  {
    now + Chunks(batch[start..], size, lim) == before + Chunks(batch, size, lim)
  }

  lemma PlannedStep(batch: seq<Json>, start: nat, end: nat, before: seq<seq<Json>>, now: seq<seq<Json>>, size: Json -> nat, lim: Limits)
    requires start < |batch| && end == start + Cut(batch[start..], size, lim)
    requires Planned(batch, start, before, now, size, lim)
    ensures Planned(batch, end, before, now + [batch[start..end]], size, lim)
  {
    var rest := batch[start..];
    assert rest[..end - start] == batch[start..end] && rest[end - start..] == batch[end..];
    assert Chunks(rest, size, lim) == [batch[start..end]] + Chunks(batch[end..], size, lim);
    assert now + [batch[start..end]] + Chunks(batch[end..], size, lim) == now + Chunks(rest, size, lim);
  }

  /** write: stores the batch entry by entry and answers every request. */
  method Write(store: DocStore, batch: seq<Json>, size: Json -> nat, lim: Limits) returns (answers: seq<bool>)
    requires store.Valid()
    modifies store
    ensures |answers| == |batch| && AnswersHold(batch, answers, store.docs)
    ensures !store.flaky ==> Settled(old(store.docs), batch, 0, |batch|, answers, store.docs, store.rejects)
    ensures !store.flaky && (forall d :: d in batch ==> !store.rejects(d)) ==>
              store.entries == old(store.entries) + Chunks(batch, size, lim)
    ensures Frame(old(store.docs), batch, store.docs)
  {
    answers := [];
    ghost var m, entries, written := store.docs, store.entries, store.entries;
    ghost var allGood := !store.flaky && forall d :: d in batch ==> !store.rejects(d);
    NothingSettled(m, batch, 0, answers, store.rejects);
    assert batch[0..] == batch;
    var start := 0;
    while start < |batch|
      invariant start <= |batch| && |answers| == start && AnswersHold(batch, answers, store.docs)
      invariant !store.flaky ==> Settled(m, batch, 0, start, answers, store.docs, store.rejects)
      invariant Planned(batch, start, entries, written, size, lim)
      invariant (allGood ==> store.entries == written) && Frame(m, batch, store.docs)
    {
      var end := ChunkEnd(batch, start, size, lim);
      PlannedStep(batch, start, end, entries, written, size, lim);
      ghost var before, had := store.docs, answers;
      answers := WriteChunk(store, batch, start, end, answers);
      FrameStep(m, batch, before, batch, store.docs);
      if !store.flaky { SettledInSteps(m, batch, 0, start, end, had, before, answers, store.docs, store.rejects); }
      written := written + [batch[start..end]];
      start := end;
    }
  }

  // ---------------------------------------------------------------------------------------------
  // The routes
  // ---------------------------------------------------------------------------------------------

  /** The documents answered nil. */
  function Picked(ds: seq<Json>, answers: seq<bool>): seq<Json>
    requires |answers| == |ds|
  {
    if ds == [] then []
    else
      var n := |ds| - 1;
      Picked(ds[..n], answers[..n]) + if answers[n] then [ds[n]] else []
  }

  lemma PickedSnoc(ds: seq<Json>, answers: seq<bool>, d: Json, ok: bool)
    requires |answers| == |ds|
    ensures Picked(ds + [d], answers + [ok]) == Picked(ds, answers) + if ok then [d] else []
  {
    assert (ds + [d])[..|ds|] == ds && (answers + [ok])[..|ds|] == answers;
  }

  lemma {:induction false} PickedConcat(a: seq<Json>, x: seq<bool>, b: seq<Json>, y: seq<bool>)
    requires |x| == |a| && |y| == |b|
    ensures Picked(a + b, x + y) == Picked(a, x) + Picked(b, y)
    decreases |b|
  {
    if b == [] {
      assert a + b == a && x + y == x;
    } else {
      var n := |b| - 1;
      PickedConcat(a, x, b[..n], y[..n]);
      assert (a + b)[..|a| + n] == a + b[..n] && (x + y)[..|a| + n] == x + y[..n];
    }
  }

  /** On a reliable store the documents answered nil are the good ones. */
  lemma {:induction false} PickedIsGood(ds: seq<Json>, answers: seq<bool>, rejects: Json -> bool)
    requires |answers| == |ds| && forall i :: 0 <= i < |ds| ==> (answers[i] <==> !rejects(ds[i]))
    ensures Picked(ds, answers) == Good(ds, rejects)
    ensures false in answers <==> exists d :: d in ds && rejects(d)
  {
    if ds != [] {
      var n := |ds| - 1;
      PickedIsGood(ds[..n], answers[..n], rejects);
      GoodConcat(ds[..n], [ds[n]], rejects);
      assert Good([ds[n]], rejects) == if rejects(ds[n]) then [] else [ds[n]];
      assert ds == ds[..n] + [ds[n]] && answers == answers[..n] + [answers[n]];
    }
  }

  /** The result of a route: the documents put successfully, an error exactly when there were others. */
  ghost predicate Reports(ds: seq<Json>, answers: seq<bool>, stored: seq<Json>, failed: bool) {
    |answers| == |ds| && stored == Picked(ds, answers) && (failed <==> false in answers)
  }

  lemma ReportsInSteps(ds: seq<Json>, start: nat, mid: nat, end: nat, answered: seq<bool>, answers: seq<bool>,
                       had: seq<Json>, hadFailed: bool, more: seq<Json>, e: bool)
    requires start <= mid <= end <= |ds| && |answered| == mid && |answers| == end && answered <= answers
    requires Reports(ds[start..mid], answered[start..], had, hadFailed) && Reports(ds[mid..end], answers[mid..], more, e)
    ensures Reports(ds[start..end], answers[start..], had + more, hadFailed || e)
  {
    assert ds[start..end] == ds[start..mid] + ds[mid..end];
    assert answers[start..] == answered[start..] + answers[mid..];
    PickedConcat(ds[start..mid], answered[start..], ds[mid..end], answers[mid..]);
  }

  lemma ReportOne(ds: seq<Json>, i: nat, answers: seq<bool>, ok: bool)
    requires i < |ds| && |answers| == i + 1 && answers[i] == ok
    ensures Reports(ds[i..i + 1], answers[i..], if ok then [ds[i]] else [], !ok)
  {
    assert ds[i..i + 1] == [ds[i]] && answers[i..] == [ok];
    PickedSnoc([], [], ds[i], ok);
    assert [] + [ds[i]] == [ds[i]] && [] + [ok] == [ok];
  }

  /** putDocumentsOneByOne, of the documents of ds from start to end. */
  method PutOneByOne(store: DocStore, ds: seq<Json>, start: nat, end: nat, ghost answered: seq<bool>)
    returns (stored: seq<Json>, failed: bool, ghost answers: seq<bool>)
    requires store.Valid() && |answered| == start <= end <= |ds| && AnswersHold(ds, answered, store.docs)
    modifies store
    ensures |answers| == end && answered <= answers && Reports(ds[start..end], answers[start..], stored, failed)
    ensures Progress(old(store.docs), ds, start, answers, store.docs, store.rejects, store.flaky)
    ensures |store.entries| == old(|store.entries|) + |stored|
  {
    stored, failed, answers := [], false, answered;
    ghost var m := store.docs;
    NoProgress(ds, answers, m, store.rejects, store.flaky);
    for i := start to end
      invariant |answers| == i && answered <= answers && Reports(ds[start..i], answers[start..], stored, failed)
      invariant Progress(m, ds, start, answers, store.docs, store.rejects, store.flaky)
      invariant |store.entries| == old(|store.entries|) + |stored|
    {
      ghost var before, had, hadFailed := answers, stored, failed;
      var ok;
      ok, answers := AnswerNext(store, ds, m, start, i, answers);
      if ok { stored := stored + [ds[i]]; } else { failed := true; }
      ReportOne(ds, i, answers, ok);
      ReportsInSteps(ds, start, i, i + 1, before, answers, had, hadFailed, if ok then [ds[i]] else [], !ok);
      assert had + [] == had;
    }
  }

  predicate Accepted(ds: seq<Json>, rejects: Json -> bool) {
    forall d :: d in ds ==> !rejects(d)
  }

  lemma SliceAccepted(ds: seq<Json>, start: nat, end: nat, rejects: Json -> bool)
    requires start <= end <= |ds|
    ensures Accepted(ds, rejects) ==> Accepted(ds[start..end], rejects)
  {
  }

  /** One batch: a PutAll, or one Put per document when that fails. */
  method PutBatch(store: DocStore, ds: seq<Json>, start: nat, end: nat, ghost answered: seq<bool>)
    returns (stored: seq<Json>, failed: bool, ghost answers: seq<bool>)
    requires store.Valid() && |answered| == start < end <= |ds| && AnswersHold(ds, answered, store.docs)
    modifies store
    ensures |answers| == end && answered <= answers && Reports(ds[start..end], answers[start..], stored, failed)
    ensures Progress(old(store.docs), ds, start, answers, store.docs, store.rejects, store.flaky)
    ensures !store.flaky && Accepted(ds[start..end], store.rejects) ==>
              store.entries == old(store.entries) + [ds[start..end]]
  {
    var batch := ds[start..end];
    ghost var before := store.docs;
    var ok := store.PutAll(batch);
    FrameStep(before, ds, before, batch, store.docs);
    if ok {
      answers := answered + seq(end - start, _ => true);
      ChunkAnswered(ds, start, end, before, answered, answers, store.rejects);
      AllPicked(batch, answers[start..]);
      return batch, false, answers;
    }
    ghost var mid := store.docs;
    AnswersStay(ds, answered, before, start, end, store.docs);
    stored, failed, answers := PutOneByOne(store, ds, start, end, answered);
    FrameStep(before, ds, mid, ds, store.docs);
  }

  lemma {:induction false} AllPicked(ds: seq<Json>, answers: seq<bool>)
    requires |answers| == |ds| && false !in answers
    ensures Picked(ds, answers) == ds
  {
    if ds != [] {
      var n := |ds| - 1;
      assert answers[n] in answers;
      AllPicked(ds[..n], answers[..n]);
      assert ds == ds[..n] + [ds[n]];
    }
  }

  lemma FlattenPrefix<T>(ss: seq<seq<T>>, b: nat)
    requires b < |ss|
    ensures Flatten(ss[..b + 1]) == Flatten(ss[..b]) + ss[b]
  {
    assert ss[..b + 1] == ss[..b] + [ss[b]];
    FlattenConcat(ss[..b], [ss[b]]);
    assert Flatten([ss[b]]) == ss[b] + Flatten([ss[b]][1..]);
  }

  /** Batch b is where the batches before it end. */
  lemma BatchAt<T>(ss: seq<seq<T>>, b: nat)
    requires b < |ss|
    ensures var start := |Flatten(ss[..b])|;
            && start + |ss[b]| <= |Flatten(ss)| && Flatten(ss)[start..start + |ss[b]|] == ss[b]
            && |Flatten(ss[..b + 1])| == start + |ss[b]|
  {
    FlattenPrefix(ss, b);
    FlattenConcat(ss[..b + 1], ss[b + 1..]);
    assert ss == ss[..b + 1] + ss[b + 1..];
  }

  /** The batched route, one log entry per batch: where it stands after some batches. */
  ghost predicate BatchesDone(m: Docs, ds: seq<Json>, answers: seq<bool>, store: DocStore, stored: seq<Json>, failed: bool)
    reads store
  {
    && |answers| <= |ds| && Reports(ds[..|answers|], answers, stored, failed)
    && Progress(m, ds, 0, answers, store.docs, store.rejects, store.flaky)
  }

  /** The same with one log entry per batch, if every document is good. */
  ghost predicate Batched(m: Docs, entries: seq<seq<Json>>, ds: seq<Json>, batches: seq<seq<Json>>, b: nat,
                          answers: seq<bool>, store: DocStore, stored: seq<Json>, failed: bool)
    requires b <= |batches|
    reads store
  {
    && BatchesDone(m, ds, answers, store, stored, failed)
    && (!store.flaky && Accepted(ds, store.rejects) ==> store.entries == entries + batches[..b])
  }

  method PutNextBatch(store: DocStore, ds: seq<Json>, ghost m: Docs, start: nat, end: nat, ghost answered: seq<bool>,
                      had: seq<Json>, hadFailed: bool)
    returns (stored: seq<Json>, failed: bool, ghost answers: seq<bool>)
    requires store.Valid() && |answered| == start < end <= |ds| && BatchesDone(m, ds, answered, store, had, hadFailed)
    modifies store
    ensures |answers| == end && BatchesDone(m, ds, answers, store, stored, failed)
    ensures !store.flaky && Accepted(ds[start..end], store.rejects) ==>
              store.entries == old(store.entries) + [ds[start..end]]
  {
    ghost var before := store.docs;
    var more, e;
    more, e, answers := PutBatch(store, ds, start, end, answered);
    stored, failed := had + more, hadFailed || e;
    assert ds[..start] == ds[0..start] && ds[..end] == ds[0..end] && answered[0..] == answered && answers[0..] == answers;
    ReportsInSteps(ds, 0, start, end, answered, answers, had, hadFailed, more, e);
    FrameStep(m, ds, before, ds, store.docs);
    if !store.flaky { SettledInSteps(m, ds, 0, start, end, answered, before, answers, store.docs, store.rejects); }
  }

  /** One turn of the batched route. */
  method PutBatchNumber(store: DocStore, ds: seq<Json>, batches: seq<seq<Json>>, b: nat, start: nat, ghost m: Docs,
                        ghost entries: seq<seq<Json>>, ghost answered: seq<bool>, had: seq<Json>, hadFailed: bool)
    returns (stored: seq<Json>, failed: bool, ghost answers: seq<bool>)
    requires store.Valid() && b < |batches| && start == |answered| && batches[b] != []
    requires start + |batches[b]| <= |ds| && ds[start..start + |batches[b]|] == batches[b]
    requires Batched(m, entries, ds, batches, b, answered, store, had, hadFailed)
    modifies store
    ensures |answers| == start + |batches[b]| && Batched(m, entries, ds, batches, b + 1, answers, store, stored, failed)
  {
    ghost var before := store.entries;
    stored, failed, answers := PutNextBatch(store, ds, m, start, start + |batches[b]|, answered, had, hadFailed);
    if !store.flaky && Accepted(ds, store.rejects) {
      SliceAccepted(ds, start, start + |batches[b]|, store.rejects);
      EntriesGrow(entries, batches, b);
      assert store.entries == before + [batches[b]];
    }
  }

  method PutBatches(store: DocStore, ds: seq<Json>, size: Json -> nat, lim: Limits)
    returns (stored: seq<Json>, failed: bool, ghost answers: seq<bool>)
    requires store.Valid()
    modifies store
    ensures |answers| == |ds| && BatchesDone(old(store.docs), ds, answers, store, stored, failed)
    ensures !store.flaky && Accepted(ds, store.rejects) ==>
              store.entries == old(store.entries) + Chunks(ds, size, lim)
  {
    var batches := SplitBatches(ds, size, lim);
    ChunksPartition(ds, size, lim);
    stored, failed, answers := [], false, [];
    ghost var m, entries := store.docs, store.entries;
    NoProgress(ds, answers, m, store.rejects, store.flaky);
    assert Picked(ds[..0], []) == [] && entries + batches[..0] == entries;
    var start := 0;
    for b := 0 to |batches|
      invariant start == |Flatten(batches[..b])| == |answers|
      invariant Batched(m, entries, ds, batches, b, answers, store, stored, failed)
    {
      BatchOf(ds, batches, b, start);
      stored, failed, answers := PutBatchNumber(store, ds, batches, b, start, m, entries, answers, stored, failed);
      start := start + |batches[b]|;
    }
    assert batches[..|batches|] == batches;
  }

  lemma EntriesGrow(entries: seq<seq<Json>>, batches: seq<seq<Json>>, b: nat)
    requires b < |batches|
    ensures entries + batches[..b + 1] == entries + batches[..b] + [batches[b]]
  {
    assert batches[..b + 1] == batches[..b] + [batches[b]];
  }

  lemma BatchOf(ds: seq<Json>, batches: seq<seq<Json>>, b: nat, start: nat)
    requires Flatten(batches) == ds && b < |batches| && start == |Flatten(batches[..b])|
    ensures start + |batches[b]| <= |ds| && ds[start..start + |batches[b]|] == batches[b]
    ensures |Flatten(batches[..b + 1])| == start + |batches[b]| && batches[b] in batches
  {
    BatchAt(batches, b);
  }

  /** The documents answered nil, and whether some were not. */
  method Report(ds: seq<Json>, answers: seq<bool>) returns (stored: seq<Json>, failed: bool)
    requires |answers| == |ds|
    ensures Reports(ds, answers, stored, failed)
  {
    stored, failed := [], false;
    for i := 0 to |ds|
      invariant Reports(ds[..i], answers[..i], stored, failed)
    {
      assert ds[..i + 1] == ds[..i] + [ds[i]] && answers[..i + 1] == answers[..i] + [answers[i]];
      PickedSnoc(ds[..i], answers[..i], ds[i], answers[i]);
      if answers[i] { stored := stored + [ds[i]]; } else { failed := true; }
    }
    assert ds[..|ds|] == ds && answers[..|ds|] == answers;
  }

  /** PutManyCoalesced on an idle store: its writer finds these documents in the queue and writes them. */
  method PutCoalescedAlone(store: DocStore, ds: seq<Json>, size: Json -> nat, lim: Limits)
    returns (stored: seq<Json>, failed: bool, answers: seq<bool>)
    requires store.Valid()
    modifies store
    ensures |answers| == |ds| && BatchesDone(old(store.docs), ds, answers, store, stored, failed)
  {
    answers := Write(store, ds, size, lim);
    stored, failed := Report(ds, answers);
    assert ds[..|ds|] == ds;
  }

  /** The size limits, and which routes are switched on. */
  datatype Settings = Settings(batchPut: bool, groupCommit: bool, groupCommitMaxDocs: nat, limits: Limits)

  /** PutDocumentsBatched. However the store fails, the documents returned as stored are those whose call succeeded, each
      of them is stored or replaced by a later one with its _id, an error is returned exactly when there were others, and
      other ids are untouched. On a reliable store, whichever route the settings choose, exactly the good documents are
      put in order and returned. */
  method PutDocumentsBatched(store: DocStore, ds: seq<Json>, size: Json -> nat, settings: Settings)
    returns (stored: seq<Json>, failed: bool, ghost answers: seq<bool>)
    requires store.Valid()
    modifies store
    ensures Reports(ds, answers, stored, failed) && AnswersHold(ds, answers, store.docs)
    ensures Frame(old(store.docs), ds, store.docs)
    ensures !store.flaky ==> store.docs == PutDocs(old(store.docs), Good(ds, store.rejects))
    ensures !store.flaky ==> stored == Good(ds, store.rejects) && (failed <==> exists d :: d in ds && store.rejects(d))
  {
    ghost var m := store.docs;
    if !settings.batchPut {
      stored, failed, answers := PutOneByOne(store, ds, 0, |ds|, []);
    } else if settings.groupCommit && |ds| <= settings.groupCommitMaxDocs {
      stored, failed, answers := PutCoalescedAlone(store, ds, size, settings.limits);
    } else {
      stored, failed, answers := PutBatches(store, ds, size, settings.limits);
    }
    assert ds[0..|ds|] == ds[..|ds|] == ds && answers[0..] == answers;
    if !store.flaky { PickedIsGood(ds, answers, store.rejects); }
  }
}
