/** Group commit (app/group_commit.go): callers append to a store's queue, one writer at a time drains it into log
    entries and answers every caller. First the writer object, then the protocol over all interleavings. */
module GroupCommit {

  import opened Prelude
  import opened JsonValues
  import opened Documents
  import opened Chunking
  import opened WriteRoutes

  /** putRequest; id numbers the requests in arrival order and names the one-slot channel done. */
  datatype Request = Request(id: nat, doc: Json)

  function DocsOf(rs: seq<Request>): (ds: seq<Json>)
    ensures |ds| == |rs| && forall i :: 0 <= i < |rs| ==> ds[i] == rs[i].doc
  {
    seq(|rs|, i requires 0 <= i < |rs| => rs[i].doc)
  }

  /** The fields of a storeWriter guarded by its mutex. */
  datatype Queue = Queue(waiting: seq<Request>, running: bool)

  /** PutManyCoalesced under the mutex: append, and start a writer if none is running. */
  function Arrival(q: Queue, rs: seq<Request>): Queue {
    Queue(q.waiting + rs, true)
  }

  /** The top of run's loop under the mutex: take everything, or stop. */
  function Drained(q: Queue): Queue {
    Queue([], q.waiting != [])
  }

  class StoreWriter {
    var queue: seq<Request>
    var running: bool

    ghost function State(): Queue
      reads this
    {
      Queue(queue, running)
    }

    constructor ()
      ensures State() == Queue([], false)
    {
      queue, running := [], false;
    }

    method Enqueue(rs: seq<Request>) returns (spawn: bool)
      modifies this
      ensures State() == Arrival(old(State()), rs) && spawn == !old(running)
    {
      queue := queue + rs;
      spawn := !running;
      running := true;
    }

    method Drain() returns (batch: seq<Request>)
      requires running
      modifies this
      ensures State() == Drained(old(State())) && batch == old(queue)
    {
      batch := queue;
      queue := [];
      if batch == [] { running := false; }
    }

    /** run, when nothing more arrives: stops with an empty queue, every request answered, in order. */
    method Run(store: DocStore, size: Json -> nat, lim: Limits) returns (answers: seq<bool>)
      requires running && store.Valid()
      modifies this, store
      ensures State() == Queue([], false)
      ensures |answers| == |old(queue)| && AnswersHold(DocsOf(old(queue)), answers, store.docs)
      ensures !store.flaky ==>
                Settled(old(store.docs), DocsOf(old(queue)), 0, |old(queue)|, answers, store.docs, store.rejects)
      ensures !store.flaky && Accepted(DocsOf(old(queue)), store.rejects) ==>
                store.entries == old(store.entries) + Chunks(DocsOf(old(queue)), size, lim)
      ensures Frame(old(store.docs), DocsOf(old(queue)), store.docs)
    {
      answers := [];
      ghost var first := true;
      NothingSettled(store.docs, [], 0, [], store.rejects);
      while true
        invariant running
        invariant if first then queue == old(queue) && answers == [] else queue == []
        invariant first ==> store.docs == old(store.docs) && store.entries == old(store.entries)
        invariant !first ==> |answers| == |old(queue)| && AnswersHold(DocsOf(old(queue)), answers, store.docs)
        invariant !first && !store.flaky ==>
                    Settled(old(store.docs), DocsOf(old(queue)), 0, |old(queue)|, answers, store.docs, store.rejects)
        invariant !first && !store.flaky && Accepted(DocsOf(old(queue)), store.rejects) ==>
                    store.entries == old(store.entries) + Chunks(DocsOf(old(queue)), size, lim)
        invariant !first ==> Frame(old(store.docs), DocsOf(old(queue)), store.docs)
        decreases first
      {
        var batch := Drain();
        if batch == [] {
          assert first ==> DocsOf(old(queue)) == [] && store.entries + [] == store.entries;
          return;
        }
        answers := Write(store, DocsOf(batch), size, lim);
        first := false;
      }
    }
  }

  // ---------------------------------------------------------------------------------------------
  // The protocol
  // ---------------------------------------------------------------------------------------------

  /** Where a writer goroutine is in run and write. */
  datatype Writer =
    | AtTop
    | Cutting(batch: seq<Request>, start: nat)                        // before the next chunk
    | Putting(batch: seq<Request>, end: nat, next: nat)               // before a Put of the chunk
    | Answering(batch: seq<Request>, end: nat, next: nat, ok: bool)   // before sending that Put's outcome
    | Confirming(batch: seq<Request>, end: nat, next: nat)            // after a PutAll, before sending a nil
    | Exited

  datatype Config = Config(rejects: Json -> bool, size: Json -> nat, limits: Limits)

  /** One store. arrived lists all documents in arrival order; answers holds every answer sent and slots the
      channels whose answer is not yet received; failed says that some store call has failed. */
  datatype State = State(
    queue: Queue,
    writers: seq<Writer>,
    docs: Docs,
    slots: set<nat>,
    arrived: seq<Json>,
    answers: map<nat, bool>,
    failed: bool)

  datatype Step = Arrive(ds: seq<Json>) | Receive(id: nat) | Work(w: nat)

  ghost predicate Init(c: Config, s: State) {
    && (forall d :: KeyOf(d).None? ==> c.rejects(d))
    && s == State(Queue([], false), [], s.docs, {}, [], map[], false)
  }

  function Requests(first: nat, ds: seq<Json>): seq<Request> {
    seq(|ds|, i requires 0 <= i < |ds| => Request(first + i, ds[i]))
  }

  function SizeOf(c: Config): Request -> nat {
    (r: Request) => c.size(r.doc)
  }

  function ChunkEndOf(c: Config, batch: seq<Request>, start: nat): (end: nat)
    requires start < |batch|
    ensures start < end <= |batch|
  {
    start + Cut(batch[start..], SizeOf(c), c.limits)
  }

  function Send(s: State, w: nat, id: nat, ok: bool, next: Writer): State
    requires w < |s.writers|
  {
    s.(slots := s.slots + {id}, answers := s.answers[id := ok], writers := s.writers[w := next])
  }

  ghost predicate WorkTo(c: Config, s: State, w: nat, t: State) {
    && w < |s.writers|
    && match s.writers[w]
       case AtTop =>
         t == s.(queue := Drained(s.queue),
                 writers := s.writers[w := if s.queue.waiting == [] then Exited else Cutting(s.queue.waiting, 0)])
       case Cutting(batch, start) =>
         if start >= |batch| then t == s.(writers := s.writers[w := AtTop])
         else
           var end := ChunkEndOf(c, batch, start);
           if end == start + 1 then t == s.(writers := s.writers[w := Putting(batch, end, start)])
           else PutAllTo(c, s, w, DocsOf(batch[start..end]), Confirming(batch, end, start), Putting(batch, end, start), t)
       case Putting(batch, end, next) =>
         if next >= end || end > |batch| then t == s.(writers := s.writers[w := Cutting(batch, end)])
         else PutTo(c, s, w, batch[next].doc, Answering(batch, end, next, true), Answering(batch, end, next, false), t)
       case Answering(batch, end, next, ok) =>
         next < |batch| && batch[next].id !in s.slots
         && t == Send(s, w, batch[next].id, ok, Putting(batch, end, next + 1))
       case Confirming(batch, end, next) =>
         if next >= end || end > |batch| then t == s.(writers := s.writers[w := Cutting(batch, end)])
         else batch[next].id !in s.slots && t == Send(s, w, batch[next].id, true, Confirming(batch, end, next + 1))
       case Exited => false
  }

  /** A store call succeeds in full or fails having stored any part; the choice is the store's. */
  ghost predicate PutAllTo(c: Config, s: State, w: nat, ds: seq<Json>, good: Writer, bad: Writer, t: State)
    requires w < |s.writers|
  {
    || ((forall d :: d in ds ==> !c.rejects(d)) && t == s.(docs := PutDocs(s.docs, ds), writers := s.writers[w := good]))
    || (t == s.(docs := t.docs, failed := true, writers := s.writers[w := bad]) && Partial(s.docs, ds, t.docs))
  }

  ghost predicate PutTo(c: Config, s: State, w: nat, d: Json, good: Writer, bad: Writer, t: State)
    requires w < |s.writers|
  {
    || (!c.rejects(d) && t == s.(docs := PutDoc(s.docs, d), writers := s.writers[w := good]))
    || (t == s.(docs := t.docs, failed := true, writers := s.writers[w := bad]) && Partial(s.docs, [d], t.docs))
  }

  ghost predicate Next(c: Config, s: State, step: Step, t: State) {
    match step
    case Arrive(ds) =>
      t == s.(queue := Arrival(s.queue, Requests(|s.arrived|, ds)),
              arrived := s.arrived + ds,
              writers := if s.queue.running then s.writers else s.writers + [AtTop])
    case Receive(id) => id in s.slots && t == s.(slots := s.slots - {id})
    case Work(w) => WorkTo(c, s, w, t)
  }

  ghost predicate IsRun(c: Config, states: seq<State>, steps: seq<Step>) {
    && |states| == |steps| + 1
    && Init(c, states[0])
    && forall i :: 0 <= i < |steps| ==> Next(c, states[i], steps[i], states[i + 1])
  }

  // ---------------------------------------------------------------------------------------------
  // The invariant
  // ---------------------------------------------------------------------------------------------

  /** Requests a writer holds that are not answered yet. */
  function Held(w: Writer): seq<Request> {
    match w
    case Cutting(batch, start) => if start <= |batch| then batch[start..] else []
    case Putting(batch, _, next) => if next <= |batch| then batch[next..] else []
    case Answering(batch, _, next, _) => if next <= |batch| then batch[next..] else []
    case Confirming(batch, _, next) => if next <= |batch| then batch[next..] else []
    case _ => []
  }

  /** How many of those are already stored. */
  function Ahead(w: Writer): nat {
    match w
    case Answering(_, _, _, _) => 1
    case Confirming(_, end, next) => if next <= end then end - next else 0
    case _ => 0
  }

  predicate Proper(w: Writer) {
    match w
    case Cutting(batch, start) => start <= |batch|
    case Putting(batch, end, next) => next <= end <= |batch|
    case Answering(batch, end, next, _) => next < end <= |batch|
    case Confirming(batch, end, next) => next <= end <= |batch|
    case _ => true
  }

  /** The latest writer; all others have exited. */
  function Latest(s: State): Writer {
    if s.writers == [] then Exited else s.writers[|s.writers| - 1]
  }

  function Unanswered(s: State): seq<Request> {
    Held(Latest(s)) + s.queue.waiting
  }

  /** The number of requests answered. */
  function Answered(s: State): int {
    |s.arrived| - |Unanswered(s)|
  }

  ghost predicate OneWriter(s: State) {
    && (forall i :: 0 <= i < |s.writers| - 1 ==> s.writers[i].Exited?)
    && (s.queue.running <==> !Latest(s).Exited?)
    && (!s.queue.running ==> s.queue.waiting == [])
    && Proper(Latest(s))
  }

  /** u are the last requests to arrive, in order. */
  ghost predicate Numbered(u: seq<Request>, arrived: seq<Json>) {
    && |u| <= |arrived|
    && forall i :: 0 <= i < |u| ==> u[i] == Request(|arrived| - |u| + i, arrived[|arrived| - |u| + i])
  }

  /** Requests are answered in arrival order, each once: those before Answered(s), and no others. */
  ghost predicate InOrder(s: State) {
    && Numbered(Unanswered(s), s.arrived)
    && (forall id: nat :: id in s.answers <==> id < Answered(s))
    && s.slots <= s.answers.Keys
  }

  /** While no store call has failed, the store holds the documents written so far, put one by one. */
  ghost predicate Faithful(init: Docs, s: State) {
    !s.failed ==>
      && 0 <= Answered(s) + Ahead(Latest(s)) <= |s.arrived|
      && s.docs == PutDocs(init, s.arrived[..Answered(s) + Ahead(Latest(s))])
  }

  /** A nil answer to request id has been sent or is about to be. */
  ghost predicate Promised(s: State, id: nat) {
    || (id in s.answers && s.answers[id])
    || (Latest(s).Answering? && Latest(s).ok && id == Answered(s))
    || (Latest(s).Confirming? && Answered(s) <= id < Answered(s) + Ahead(Latest(s)))
  }

  ghost predicate Truthful(s: State) {
    forall id: nat :: Promised(s, id) ==> id < |s.arrived| && StoredOrLater(s.arrived, id, s.docs)
  }

  ghost predicate Inv(c: Config, init: Docs, s: State) {
    && (forall d :: KeyOf(d).None? ==> c.rejects(d))
    && OneWriter(s) && InOrder(s) && Faithful(init, s) && Truthful(s)
  }

  lemma InitInv(c: Config, s: State)
    requires Init(c, s)
    ensures Inv(c, s.docs, s)
  {
    assert Unanswered(s) == [];
    assert s.arrived[..0] == [];
  }

  /** StoredOrLater for a longer batch and a store changed only by documents from start on. */
  lemma StaysTrue(arrived: seq<Json>, id: nat, before: Docs, ds: seq<Json>, start: nat, after: Docs)
    requires id < |arrived| && StoredOrLater(arrived, id, before) && id <= start && start + |ds| <= |arrived|
    requires ds == arrived[start..start + |ds|] && Partial(before, ds, after)
    ensures StoredOrLater(arrived, id, after)
  {
    var k := KeyOf(arrived[id]).value;
    if k != "" {
      if Kept(before, after, k) {
        var j :| id <= j < |arrived| && Holds(before, k, arrived[j]);
        assert Holds(after, k, arrived[j]);
      } else {
        var j :| 0 <= j < |ds| && Holds(after, k, ds[j]);
        assert Holds(after, k, arrived[start + j]);
      }
    }
  }

  lemma StaysTrueOnArrival(arrived: seq<Json>, more: seq<Json>, id: nat, m: Docs)
    requires id < |arrived| && StoredOrLater(arrived, id, m)
    ensures StoredOrLater(arrived + more, id, m)
  {
    var k := KeyOf(arrived[id]).value;
    if k != "" {
      var j :| id <= j < |arrived| && Holds(m, k, arrived[j]);
      assert (arrived + more)[j] == arrived[j];
      assert Holds(m, k, (arrived + more)[j]);
    }
  }

  lemma NumberedOnArrival(u: seq<Request>, arrived: seq<Json>, ds: seq<Json>)
    requires Numbered(u, arrived)
    ensures Numbered(u + Requests(|arrived|, ds), arrived + ds)
  {
  }

  lemma TruthfulOnArrival(s: State, ds: seq<Json>, t: State)
    requires Truthful(s)
    requires t.arrived == s.arrived + ds && t.docs == s.docs && t.answers == s.answers
    requires Answered(t) == Answered(s) && (Latest(t) == Latest(s) || Latest(t).AtTop?)
    ensures Truthful(t)
  {
    forall id: nat | Promised(t, id) ensures id < |t.arrived| && StoredOrLater(t.arrived, id, t.docs) {
      assert Promised(s, id);
      StaysTrueOnArrival(s.arrived, ds, id, s.docs);
    }
  }

  /** An arrival leaves the position of the latest writer, or starts one where there is none. */
  lemma ArriveKeepsWriter(c: Config, s: State, ds: seq<Json>, t: State)
    requires OneWriter(s) && Next(c, s, Arrive(ds), t)
    ensures OneWriter(t) && Held(Latest(t)) == Held(Latest(s)) && Ahead(Latest(t)) == Ahead(Latest(s))
    ensures Latest(t) == Latest(s) || Latest(t).AtTop?
    ensures Unanswered(t) == Unanswered(s) + Requests(|s.arrived|, ds)
  {
  }

  lemma ArriveInv(c: Config, init: Docs, s: State, ds: seq<Json>, t: State)
    requires Inv(c, init, s) && Next(c, s, Arrive(ds), t)
    ensures Inv(c, init, t)
  {
    ArriveKeepsWriter(c, s, ds, t);
    NumberedOnArrival(Unanswered(s), s.arrived, ds);
    assert Answered(t) == Answered(s);
    TruthfulOnArrival(s, ds, t);
    if !s.failed {
      var n := Answered(s) + Ahead(Latest(s));
      assert t.arrived[..n] == s.arrived[..n];
    }
  }

  lemma LiveIsLatest(s: State, w: nat)
    requires OneWriter(s) && w < |s.writers| && !s.writers[w].Exited?
    ensures w == |s.writers| - 1 && Latest(s) == s.writers[w] && s.queue.running
  {
  }

  /** t differs from s in the writer's position only, and the writer has stored nothing it has not answered. */
  lemma SilentInv(c: Config, init: Docs, s: State, t: State)
    requires Inv(c, init, s) && OneWriter(t)
    requires t.docs == s.docs && t.slots == s.slots && t.arrived == s.arrived && t.answers == s.answers && t.failed == s.failed
    requires Unanswered(t) == Unanswered(s) && Ahead(Latest(s)) == 0 == Ahead(Latest(t))
    requires !Latest(t).Answering?
    ensures Inv(c, init, t)
  {
  }

  /** The first n unanswered documents have been stored in full, and nothing else has happened. */
  ghost predicate StoresNext(c: Config, s: State, n: nat, t: State) {
    && n > 0 && |Unanswered(s)| <= |s.arrived| && Answered(s) + n <= |s.arrived|
    && t.slots == s.slots && t.arrived == s.arrived && t.answers == s.answers && t.failed == s.failed
    && Unanswered(t) == Unanswered(s) && Ahead(Latest(s)) == 0 && Ahead(Latest(t)) == n
    && var ds := s.arrived[Answered(s)..Answered(s) + n];
       (forall d :: d in ds ==> !c.rejects(d)) && t.docs == PutDocs(s.docs, ds)
  }

  lemma FaithfulWhenStored(c: Config, init: Docs, s: State, n: nat, t: State)
    requires Faithful(init, s) && StoresNext(c, s, n, t)
    ensures Faithful(init, t)
  {
    var p := Answered(s);
    if !s.failed {
      PutDocsConcat(init, s.arrived[..p], s.arrived[p..p + n]);
      assert s.arrived[..p + n] == s.arrived[..p] + s.arrived[p..p + n];
    }
  }

  lemma TruthfulWhenStored(c: Config, s: State, n: nat, t: State)
    requires (forall d :: KeyOf(d).None? ==> c.rejects(d)) && InOrder(s) && Truthful(s) && StoresNext(c, s, n, t)
    ensures Truthful(t)
  {
    var p := Answered(s);
    var ds := s.arrived[p..p + n];
    PutDocsPartial(s.docs, ds);
    assert forall i :: p <= i < p + n ==> s.arrived[i] == ds[i - p];
    ChunkStored(s.arrived, p, p + n, s.docs);
    forall id: nat | Promised(t, id) ensures id < |t.arrived| && StoredOrLater(t.arrived, id, t.docs) {
      if id < p {
        assert Promised(s, id);
        StaysTrue(s.arrived, id, s.docs, ds, p, t.docs);
      }
    }
  }

  lemma StoredInv(c: Config, init: Docs, s: State, n: nat, t: State)
    requires Inv(c, init, s) && OneWriter(t) && StoresNext(c, s, n, t)
    ensures Inv(c, init, t)
  {
    FaithfulWhenStored(c, init, s, n, t);
    TruthfulWhenStored(c, s, n, t);
  }

  /** A store call for the first n unanswered documents has failed, with any effect on those. */
  lemma FailedInv(c: Config, init: Docs, s: State, n: nat, t: State)
    requires Inv(c, init, s) && OneWriter(t) && Answered(s) + n <= |s.arrived|
    requires t.slots == s.slots && t.arrived == s.arrived && t.answers == s.answers && t.failed
    requires Unanswered(t) == Unanswered(s)
    requires Partial(s.docs, s.arrived[Answered(s)..Answered(s) + n], t.docs)
    requires !Latest(t).Confirming? && (Latest(t).Answering? ==> !Latest(t).ok)
    ensures Inv(c, init, t)
  {
    var p := Answered(s);
    var ds := s.arrived[p..p + n];
    assert Answered(t) == p && InOrder(t);
    forall id: nat | Promised(t, id) ensures id < |t.arrived| && StoredOrLater(t.arrived, id, t.docs) {
      assert Promised(s, id);
      StaysTrue(s.arrived, id, s.docs, ds, p, t.docs);
    }
  }

  /** The first unanswered request has been answered; its channel was empty. */
  lemma SentInv(c: Config, init: Docs, s: State, ok: bool, t: State)
    requires Inv(c, init, s) && OneWriter(t) && Unanswered(s) != []
    requires t.docs == s.docs && t.arrived == s.arrived && t.failed == s.failed
    requires t.answers == s.answers[Unanswered(s)[0].id := ok] && t.slots == s.slots + {Unanswered(s)[0].id}
    requires Unanswered(t) == Unanswered(s)[1..]
    requires !Latest(t).Answering?
    requires Answered(t) + Ahead(Latest(t)) == Answered(s) + Ahead(Latest(s)) || s.failed
    requires Latest(t).Confirming? ==> Latest(s).Confirming? && Ahead(Latest(t)) + 1 == Ahead(Latest(s))
    requires ok ==> StoredOrLater(s.arrived, Answered(s), s.docs)
    ensures Inv(c, init, t)
  {
    var p := Answered(s);
    assert Unanswered(s)[0] == Request(p, s.arrived[p]);
    assert Answered(t) == p + 1;
    assert InOrder(t);
    forall id: nat | Promised(t, id) ensures id < |t.arrived| && StoredOrLater(t.arrived, id, t.docs) {
      if id != p { assert Promised(s, id); }
    }
  }

  lemma DocsOfUnanswered(s: State, batch: seq<Request>, next: nat, end: nat)
    requires InOrder(s) && next <= end <= |batch| && Unanswered(s) == batch[next..] + s.queue.waiting
    ensures Answered(s) + (end - next) <= |s.arrived|
    ensures DocsOf(batch[next..end]) == s.arrived[Answered(s)..Answered(s) + (end - next)]
  {
    forall i | 0 <= i < end - next ensures batch[next..end][i].doc == s.arrived[Answered(s) + i] {
      assert Unanswered(s)[i] == batch[next + i];
    }
  }

  /** The writer w, in position p, is the live one. */
  ghost predicate WritesAt(s: State, w: nat, p: Writer) {
    w < |s.writers| && s.writers[w] == p && !p.Exited?
  }

  lemma DrainInv(c: Config, init: Docs, s: State, w: nat, t: State)
    requires Inv(c, init, s) && WritesAt(s, w, AtTop) && WorkTo(c, s, w, t)
    ensures Inv(c, init, t)
  {
    LiveIsLatest(s, w);
    assert Unanswered(t) == Unanswered(s);
    SilentInv(c, init, s, t);
  }

  lemma CutInv(c: Config, init: Docs, s: State, w: nat, batch: seq<Request>, start: nat, t: State)
    requires Inv(c, init, s) && WritesAt(s, w, Cutting(batch, start)) && WorkTo(c, s, w, t)
    requires start >= |batch| || ChunkEndOf(c, batch, start) == start + 1
    ensures Inv(c, init, t)
  {
    LiveIsLatest(s, w);
    if start >= |batch| { assert batch[start..] == []; }
    SilentInv(c, init, s, t);
  }

  /** After a PutAll the writer holds the same requests: those of the chunk are to be confirmed, or put one by one. */
  lemma PutAllPosition(c: Config, s: State, w: nat, batch: seq<Request>, start: nat, end: nat, t: State)
    requires OneWriter(s) && WritesAt(s, w, Cutting(batch, start)) && start < end <= |batch|
    requires PutAllTo(c, s, w, DocsOf(batch[start..end]), Confirming(batch, end, start), Putting(batch, end, start), t)
    ensures OneWriter(t) && Latest(t) == t.writers[w] && Unanswered(t) == Unanswered(s) == batch[start..] + s.queue.waiting
  {
    LiveIsLatest(s, w);
  }

  lemma PutAllInv(c: Config, init: Docs, s: State, w: nat, batch: seq<Request>, start: nat, end: nat, t: State)
    requires Inv(c, init, s) && WritesAt(s, w, Cutting(batch, start)) && start < end <= |batch|
    requires PutAllTo(c, s, w, DocsOf(batch[start..end]), Confirming(batch, end, start), Putting(batch, end, start), t)
    ensures Inv(c, init, t)
  {
    LiveIsLatest(s, w);
    PutAllPosition(c, s, w, batch, start, end, t);
    DocsOfUnanswered(s, batch, start, end);
    if t.writers[w].Putting? {
      FailedInv(c, init, s, end - start, t);
    } else {
      assert StoresNext(c, s, end - start, t);
      StoredInv(c, init, s, end - start, t);
    }
  }

  lemma ChunkWrittenInv(c: Config, init: Docs, s: State, w: nat, batch: seq<Request>, end: nat, next: nat, t: State)
    requires Inv(c, init, s) && WritesAt(s, w, Putting(batch, end, next)) && next >= end
    requires t == s.(writers := s.writers[w := Cutting(batch, end)])
    ensures Inv(c, init, t)
  {
    LiveIsLatest(s, w);
    SilentInv(c, init, s, t);
  }

  lemma PutInv(c: Config, init: Docs, s: State, w: nat, batch: seq<Request>, end: nat, next: nat, t: State)
    requires Inv(c, init, s) && WritesAt(s, w, Putting(batch, end, next)) && next < end <= |batch|
    requires PutTo(c, s, w, batch[next].doc, Answering(batch, end, next, true), Answering(batch, end, next, false), t)
    ensures Inv(c, init, t)
  {
    LiveIsLatest(s, w);
    DocsOfUnanswered(s, batch, next, next + 1);
    assert DocsOf(batch[next..next + 1]) == [batch[next].doc];
    if t.writers[w].ok {
      assert PutDocs(s.docs, [batch[next].doc]) == PutDocs(PutDoc(s.docs, batch[next].doc), []);
      StoredInv(c, init, s, 1, t);
    } else {
      FailedInv(c, init, s, 1, t);
    }
  }

  lemma AnswerInv(c: Config, init: Docs, s: State, w: nat, batch: seq<Request>, end: nat, next: nat, ok: bool, t: State)
    requires Inv(c, init, s) && WritesAt(s, w, Answering(batch, end, next, ok)) && WorkTo(c, s, w, t)
    ensures Inv(c, init, t)
  {
    LiveIsLatest(s, w);
    assert Unanswered(s)[0] == batch[next];
    if ok { assert Promised(s, Answered(s)); }
    SentInv(c, init, s, ok, t);
  }

  lemma ConfirmInv(c: Config, init: Docs, s: State, w: nat, batch: seq<Request>, end: nat, next: nat, t: State)
    requires Inv(c, init, s) && WritesAt(s, w, Confirming(batch, end, next)) && WorkTo(c, s, w, t)
    ensures Inv(c, init, t)
  {
    LiveIsLatest(s, w);
    if next >= end {
      SilentInv(c, init, s, t);
    } else {
      assert Unanswered(s)[0] == batch[next];
      assert Promised(s, Answered(s));
      SentInv(c, init, s, true, t);
    }
  }

  lemma NextInv(c: Config, init: Docs, s: State, step: Step, t: State)
    requires Inv(c, init, s) && Next(c, s, step, t)
    ensures Inv(c, init, t)
  {
    match step {
      case Arrive(ds) => ArriveInv(c, init, s, ds, t);
      case Receive(id) => ReceiveInv(c, init, s, id, t);
      case Work(w) =>
        match s.writers[w] {
          case AtTop => DrainInv(c, init, s, w, t);
          case Cutting(batch, start) =>
            if start >= |batch| || ChunkEndOf(c, batch, start) == start + 1 {
              CutInv(c, init, s, w, batch, start, t);
            } else {
              PutAllInv(c, init, s, w, batch, start, ChunkEndOf(c, batch, start), t);
            }
          case Putting(batch, end, next) =>
            LiveIsLatest(s, w);
            if next >= end {
              ChunkWrittenInv(c, init, s, w, batch, end, next, t);
            } else {
              PutInv(c, init, s, w, batch, end, next, t);
            }
          case Answering(batch, end, next, ok) => AnswerInv(c, init, s, w, batch, end, next, ok, t);
          case Confirming(batch, end, next) => ConfirmInv(c, init, s, w, batch, end, next, t);
        }
    }
  }

  lemma ReceiveInv(c: Config, init: Docs, s: State, id: nat, t: State)
    requires Inv(c, init, s) && Next(c, s, Receive(id), t)
    ensures Inv(c, init, t)
  {
    assert Unanswered(t) == Unanswered(s) && Latest(t) == Latest(s);
    forall id: nat | Promised(t, id) ensures id < |t.arrived| && StoredOrLater(t.arrived, id, t.docs) {
      assert Promised(s, id);
    }
  }

  // ---------------------------------------------------------------------------------------------
  // What holds in every run
  // ---------------------------------------------------------------------------------------------

  lemma {:induction false} RunInv(c: Config, states: seq<State>, steps: seq<Step>, n: nat)
    requires IsRun(c, states, steps) && n < |states|
    ensures Inv(c, states[0].docs, states[n])
  {
    if n == 0 {
      InitInv(c, states[0]);
    } else {
      RunInv(c, states, steps, n - 1);
      NextInv(c, states[0].docs, states[n - 1], steps[n - 1], states[n]);
    }
  }

  ghost predicate Live(s: State, w: nat) {
    w < |s.writers| && !s.writers[w].Exited?
  }

  /** There is never more than one writer, and a waiting request always has one. */
  lemma OneLiveWriter(c: Config, states: seq<State>, steps: seq<Step>, n: nat)
    requires IsRun(c, states, steps) && n < |states|
    ensures forall v, w :: Live(states[n], v) && Live(states[n], w) ==> v == w
    ensures states[n].queue.waiting != [] ==> exists w :: Live(states[n], w)
  {
    RunInv(c, states, steps, n);
    var s := states[n];
    if s.queue.waiting != [] { assert Live(s, |s.writers| - 1); }
  }

  /** Each request is answered at most once, in arrival order; an answer once given is not changed. */
  lemma AnsweredOnce(c: Config, states: seq<State>, steps: seq<Step>, n: nat)
    requires IsRun(c, states, steps) && n < |steps|
    ensures var s, t := states[n], states[n + 1];
            (t.answers == s.answers && t.slots <= s.slots)
            || (|s.answers| !in s.answers && |s.answers| < |s.arrived|
                && (t.answers == s.answers[|s.answers| := true] || t.answers == s.answers[|s.answers| := false]))
  {
    RunInv(c, states, steps, n);
    var s, t := states[n], states[n + 1];
    AnswersAreInitial(s);
    match steps[n] {
      case Work(w) =>
        LiveIsLatest(s, w);
        match s.writers[w] {
          case Answering(batch, end, next, ok) => assert Unanswered(s)[0] == batch[next];
          case Confirming(batch, end, next) => if next < end { assert Unanswered(s)[0] == batch[next]; }
          case _ =>
        }
      case _ =>
    }
  }

  lemma AnswersAreInitial(s: State)
    requires InOrder(s)
    ensures |s.answers| == Answered(s)
  {
    InitialCount(s.answers, Answered(s));
  }

  lemma {:induction false} InitialCount(m: map<nat, bool>, n: nat)
    requires forall id: nat :: id in m <==> id < n
    ensures |m| == n
  {
    if n == 0 {
      assert m == map[];
    } else {
      var rest := m - {n - 1};
      InitialCount(rest, n - 1);
      assert m == rest[n - 1 := m[n - 1]];
    }
  }

  /** A live writer can always move: in particular its send on a done channel never blocks. */
  lemma WriterNeverBlocks(c: Config, states: seq<State>, steps: seq<Step>, n: nat, w: nat)
    requires IsRun(c, states, steps) && n < |states| && Live(states[n], w)
    ensures exists t :: Next(c, states[n], Work(w), t)
  {
    RunInv(c, states, steps, n);
    var t := Move(c, states[n], w);
  }

  lemma Move(c: Config, s: State, w: nat) returns (t: State)
    requires OneWriter(s) && InOrder(s) && Live(s, w)
    ensures Next(c, s, Work(w), t)
  {
    LiveIsLatest(s, w);
    match s.writers[w] {
      case AtTop =>
        t := s.(queue := Drained(s.queue),
                writers := s.writers[w := if s.queue.waiting == [] then Exited else Cutting(s.queue.waiting, 0)]);
      case Cutting(batch, start) =>
        if start >= |batch| {
          t := s.(writers := s.writers[w := AtTop]);
        } else {
          var end := ChunkEndOf(c, batch, start);
          t := if end == start + 1 then s.(writers := s.writers[w := Putting(batch, end, start)])
               else s.(failed := true, writers := s.writers[w := Putting(batch, end, start)]);
        }
      case Putting(batch, end, next) =>
        t := if next >= end then s.(writers := s.writers[w := Cutting(batch, end)])
             else s.(failed := true, writers := s.writers[w := Answering(batch, end, next, false)]);
      case Answering(batch, end, next, ok) =>
        assert Unanswered(s)[0] == batch[next];
        t := Send(s, w, batch[next].id, ok, Putting(batch, end, next + 1));
      case Confirming(batch, end, next) =>
        if next >= end {
          t := s.(writers := s.writers[w := Cutting(batch, end)]);
        } else {
          assert Unanswered(s)[0] == batch[next];
          t := Send(s, w, batch[next].id, true, Confirming(batch, end, next + 1));
        }
    }
  }

  /** A writer cuts its batch into log entries that stay within the limits, and as long as the limits allow: one more
      document would be over one of them. Only a single document may be larger. */
  lemma EntryIsGreedy(c: Config, s: State, w: nat, t: State, batch: seq<Request>, start: nat)
    requires Next(c, s, Work(w), t) && s.writers[w] == Cutting(batch, start) && start < |batch|
    ensures exists end :: start < end <= |batch|
              && (t.writers[w] == Putting(batch, end, start) || t.writers[w] == Confirming(batch, end, start))
              && WithinLimits(c, batch, start, end)
              && (end < |batch| ==> !WithinLimits(c, batch, start, end + 1))
    ensures t.writers[w].Confirming? ==> t.writers[w].end > start + 1
  {
    var end := ChunkEndOf(c, batch, start);
    CutIsLongest(batch[start..], SizeOf(c), c.limits);
    assert batch[start..end] == batch[start..][..end - start];
    if end < |batch| {
      assert batch[start..end + 1] == batch[start..][..end + 1 - start];
      assert !Fits(batch[start..end + 1], SizeOf(c), c.limits);
      assert !WithinLimits(c, batch, start, end + 1);
    }
    assert WithinLimits(c, batch, start, end);
    assert t.writers[w] == Putting(batch, end, start) || t.writers[w] == Confirming(batch, end, start);
  }

  /** One document, or at most so many, of at most so many bytes together. */
  ghost predicate WithinLimits(c: Config, batch: seq<Request>, start: nat, end: nat)
    requires start < end <= |batch|
  {
    || end == start + 1
    || (end - start <= c.limits.maxDocs && Total(batch[start..end], SizeOf(c)) <= c.limits.maxBytes)
  }

  /** Work left for the writers. */
  function Measure(s: State): nat {
    12 * |Unanswered(s)| + (if s.queue.waiting == [] then 0 else 6) + Rank(Latest(s))
  }

  function Rank(w: Writer): nat {
    match w
    case Exited => 0
    case AtTop => 1
    case Cutting(_, _) => 4
    case Putting(_, end, next) => if next < end then 3 else 5
    case Answering(_, _, _, _) => 2
    case Confirming(_, end, next) => if next < end then 3 else 5
  }

  /** A step of the writer to position p that keeps what is unanswered and waiting lowers the rank. */
  lemma PositionDecreases(s: State, w: nat, p: Writer, t: State)
    requires OneWriter(s) && Live(s, w) && t.writers == s.writers[w := p] && t.queue == s.queue
    requires Held(p) == Held(s.writers[w]) && Rank(p) < Rank(s.writers[w])
    ensures Measure(t) < Measure(s)
  {
    LiveIsLatest(s, w);
  }

  lemma SendDecreases(s: State, w: nat, id: nat, ok: bool, p: Writer, t: State)
    requires OneWriter(s) && Live(s, w) && t == Send(s, w, id, ok, p)
    requires Held(s.writers[w]) != [] && Held(p) == Held(s.writers[w])[1..]
    ensures Measure(t) < Measure(s)
  {
    LiveIsLatest(s, w);
  }

  lemma DrainDecreases(s: State, w: nat, t: State)
    requires OneWriter(s) && Live(s, w) && s.writers[w].AtTop? && t.queue == Drained(s.queue)
    requires t.writers == s.writers[w := if s.queue.waiting == [] then Exited else Cutting(s.queue.waiting, 0)]
    ensures Measure(t) < Measure(s)
  {
    LiveIsLatest(s, w);
    assert Unanswered(t) == Unanswered(s);
  }

  lemma CutDecreases(c: Config, s: State, w: nat, batch: seq<Request>, start: nat, t: State)
    requires OneWriter(s) && WritesAt(s, w, Cutting(batch, start)) && WorkTo(c, s, w, t)
    ensures Measure(t) < Measure(s)
  {
    LiveIsLatest(s, w);
    if start >= |batch| {
      assert batch[start..] == [];
      PositionDecreases(s, w, AtTop, t);
    } else {
      var end := ChunkEndOf(c, batch, start);
      assert t.writers[w] == Putting(batch, end, start) || t.writers[w] == Confirming(batch, end, start);
      PositionDecreases(s, w, t.writers[w], t);
    }
  }

  lemma PutDecreases(c: Config, s: State, w: nat, batch: seq<Request>, end: nat, next: nat, t: State)
    requires OneWriter(s) && WritesAt(s, w, Putting(batch, end, next)) && WorkTo(c, s, w, t)
    ensures Measure(t) < Measure(s)
  {
    LiveIsLatest(s, w);
    PositionDecreases(s, w, t.writers[w], t);
  }

  lemma WorkDecreases(c: Config, s: State, w: nat, t: State)
    requires OneWriter(s) && Next(c, s, Work(w), t)
    ensures Measure(t) < Measure(s)
  {
    LiveIsLatest(s, w);
    match s.writers[w] {
      case AtTop => DrainDecreases(s, w, t);
      case Cutting(batch, start) => CutDecreases(c, s, w, batch, start, t);
      case Putting(batch, end, next) => PutDecreases(c, s, w, batch, end, next, t);
      case Answering(batch, end, next, ok) =>
        SendDecreases(s, w, batch[next].id, ok, Putting(batch, end, next + 1), t);
      case Confirming(batch, end, next) =>
        if next < end {
          SendDecreases(s, w, batch[next].id, true, Confirming(batch, end, next + 1), t);
        } else {
          PositionDecreases(s, w, t.writers[w], t);
        }
    }
  }

  function WorkSteps(steps: seq<Step>, from: nat, n: nat): nat
    requires n <= |steps|
  {
    if n <= from then 0 else WorkSteps(steps, from, n - 1) + if steps[n - 1].Work? then 1 else 0
  }

  ghost predicate Decreases(states: seq<State>, steps: seq<Step>, i: nat)
    requires i < |steps| < |states|
  {
    Measure(states[i + 1]) + (if steps[i].Work? then 1 else 0) <= Measure(states[i])
  }

  lemma {:induction false} DecreaseSum(states: seq<State>, steps: seq<Step>, from: nat, n: nat)
    requires from <= n <= |steps| < |states| && forall i :: from <= i < n ==> Decreases(states, steps, i)
    ensures WorkSteps(steps, from, n) + Measure(states[n]) <= Measure(states[from])
  {
    if from < n {
      DecreaseSum(states, steps, from, n - 1);
      assert Decreases(states, steps, n - 1);
    }
  }

  /** Once nothing more arrives, the writers take at most Measure more steps. */
  lemma WritersStop(c: Config, states: seq<State>, steps: seq<Step>, from: nat, n: nat)
    requires IsRun(c, states, steps) && from <= n <= |steps|
    requires forall i :: from <= i < n ==> !steps[i].Arrive?
    ensures WorkSteps(steps, from, n) + Measure(states[n]) <= Measure(states[from])
  {
    forall i | from <= i < n ensures Decreases(states, steps, i) { StepDecreases(c, states, steps, i); }
    DecreaseSum(states, steps, from, n);
  }

  lemma StepDecreases(c: Config, states: seq<State>, steps: seq<Step>, n: nat)
    requires IsRun(c, states, steps) && n < |steps| && !steps[n].Arrive?
    ensures Decreases(states, steps, n)
  {
    RunInv(c, states, steps, n);
    LastStepDecreases(c, states[n], steps[n], states[n + 1]);
  }

  lemma LastStepDecreases(c: Config, s: State, step: Step, t: State)
    requires OneWriter(s) && Next(c, s, step, t) && !step.Arrive?
    ensures Measure(t) + (if step.Work? then 1 else 0) <= Measure(s)
  {
    if step.Work? {
      WorkDecreases(c, s, step.w, t);
    } else {
      assert Unanswered(t) == Unanswered(s) && Latest(t) == Latest(s);
    }
  }

  /** When no writer can move, every request is answered; and if no store call failed, the store is what
      putting all documents one at a time in arrival order makes of it. */
  lemma QuietMeansDone(c: Config, states: seq<State>, steps: seq<Step>, n: nat)
    requires IsRun(c, states, steps) && n < |states|
    requires forall w, t :: !Next(c, states[n], Work(w), t)
    ensures states[n].queue == Queue([], false)
    ensures forall id: nat :: id in states[n].answers <==> id < |states[n].arrived|
    ensures !states[n].failed ==> states[n].docs == PutDocs(states[0].docs, states[n].arrived)
  {
    RunInv(c, states, steps, n);
    var s := states[n];
    if w :| Live(s, w) {
      WriterNeverBlocks(c, states, steps, n, w);
    }
    assert s.writers != [] ==> !Live(s, |s.writers| - 1);
    assert Unanswered(s) == [];
    assert s.arrived[..|s.arrived|] == s.arrived;
  }

  /** No step stores anything under the empty key. */
  lemma NoEmptyKeyStep(c: Config, s: State, step: Step, t: State)
    requires "" !in s.docs && Next(c, s, step, t)
    ensures "" !in t.docs
  {
    if step.Work? {
      match s.writers[step.w] {
        case Cutting(batch, start) =>
          if start < |batch| && ChunkEndOf(c, batch, start) > start + 1 {
            PutDocsPartial(s.docs, DocsOf(batch[start..ChunkEndOf(c, batch, start)]));
          }
          assert Kept(s.docs, t.docs, "");
        case Putting(batch, end, next) => assert Kept(s.docs, t.docs, "");
        case _ =>
      }
    }
  }

  lemma {:induction false} NoEmptyKey(c: Config, states: seq<State>, steps: seq<Step>, n: nat)
    requires IsRun(c, states, steps) && n < |states| && "" !in states[0].docs
    ensures "" !in states[n].docs
  {
    if n > 0 {
      NoEmptyKey(c, states, steps, n - 1);
      NoEmptyKeyStep(c, states[n - 1], steps[n - 1], states[n]);
    }
  }

  /** The document of request id, or one that arrived later with its _id, is stored. */
  ghost predicate ItOrLaterStored(s: State, id: nat)
    requires id < |s.arrived| && KeyOf(s.arrived[id]).Some?
  {
    exists j :: id <= j < |s.arrived| && Holds(s.docs, KeyOf(s.arrived[id]).value, s.arrived[j])
  }

  /** A nil answer means that the document has a string _id and that it, or a document that arrived later with the same
      _id, is stored, at the time of the answer and ever after: exactly unless the _id is empty. */
  lemma NilMeansStored(c: Config, states: seq<State>, steps: seq<Step>, n: nat, id: nat)
    requires IsRun(c, states, steps) && n < |states| && id in states[n].answers && states[n].answers[id]
    ensures var s := states[n];
            && id < |s.arrived| && KeyOf(s.arrived[id]).Some?
            && (KeyOf(s.arrived[id]) != Some("") ==> ItOrLaterStored(s, id))
            && ("" !in states[0].docs && KeyOf(s.arrived[id]) == Some("") ==> !ItOrLaterStored(s, id))
  {
    RunInv(c, states, steps, n);
    assert Promised(states[n], id);
    if "" !in states[0].docs { NoEmptyKey(c, states, steps, n); }
  }

  /** The exception is real: a run in which a document with an empty _id is answered nil and is nowhere stored. */
  lemma EmptyIdIsLost(c: Config, doc: Json) returns (states: seq<State>, steps: seq<Step>)
    requires KeyOf(doc) == Some("") && !c.rejects(doc) && forall d :: KeyOf(d).None? ==> c.rejects(d)
    ensures IsRun(c, states, steps) && |states| == 6
    ensures states[5].arrived == [doc] && states[5].answers == map[0 := true] && !states[5].failed && states[5].docs == map[]
  {
    var batch := Requests(0, [doc]);
    var s0 := State(Queue([], false), [], map[], {}, [], map[], false);
    var s1 := s0.(queue := Queue(batch, true), arrived := [doc], writers := [AtTop]);
    var s2 := s1.(queue := Queue([], true), writers := [Cutting(batch, 0)]);
    var s3 := s2.(writers := [Putting(batch, 1, 0)]);
    var s4 := s3.(writers := [Answering(batch, 1, 0, true)]);
    var s5 := s4.(writers := [Putting(batch, 1, 1)], answers := map[0 := true], slots := {0});
    states, steps := [s0, s1, s2, s3, s4, s5], [Arrive([doc]), Work(0), Work(0), Work(0), Work(0)];
    assert s0.queue.waiting + batch == batch && s0.arrived + [doc] == [doc];
    assert Next(c, s0, steps[0], s1);
    assert Next(c, s1, steps[1], s2);
    assert ChunkEndOf(c, batch, 0) == 1;
    assert Next(c, s2, steps[2], s3);
    LastTwoSteps(c, doc, batch, s3, s4, s5);
  }

  lemma LastTwoSteps(c: Config, doc: Json, batch: seq<Request>, s: State, t: State, u: State)
    requires KeyOf(doc) == Some("") && !c.rejects(doc) && batch == [Request(0, doc)]
    requires s.writers == [Putting(batch, 1, 0)] && s.docs == map[] && s.answers == map[] && s.slots == {}
    requires t == s.(writers := [Answering(batch, 1, 0, true)])
    requires u == t.(writers := [Putting(batch, 1, 1)], answers := map[0 := true], slots := {0})
    ensures Next(c, s, Work(0), t) && Next(c, t, Work(0), u)
  {
    assert PutDoc(s.docs, doc) == s.docs;
    assert s.writers[0 := Answering(batch, 1, 0, true)] == t.writers;
    assert t.writers[0 := Putting(batch, 1, 1)] == u.writers;
  }
}
