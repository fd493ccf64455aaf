/** The coalescing queue of lineage updates (app/lineage_queue.go): the latest version of each waiting document, an
    order of keys, and one worker. */
module LineageQueue {

  import opened Prelude
  import opened JsonValues
  import StoreRegistry

  const NUL: char := '\0'

  /** storeName + "\x00" + docID. */
  function KeyFor(store: string, docID: string): string {
    store + [NUL] + docID
  }

  /** Store names contain no NUL, so different documents get different keys. */
  lemma {:induction false} KeysAreDistinct(s: string, id: string, s': string, id': string)
    requires NUL !in s && NUL !in s'
    ensures KeyFor(s, id) == KeyFor(s', id') <==> s == s' && id == id'
    decreases |s|
  {
    var k, k' := KeyFor(s, id), KeyFor(s', id');
    assert (s != [] ==> s[0] in s) && (s' != [] ==> s'[0] in s');
    if k == k' {
      if s == [] || s' == [] {
        assert k[0] == k'[0];
        assert s == [] && s' == [];
        assert k[1..] == id && k'[1..] == id';
      } else {
        assert s[0] == k[0] == k'[0] == s'[0];
        assert k[1..] == KeyFor(s[1..], id) && k'[1..] == KeyFor(s'[1..], id');
        KeysAreDistinct(s[1..], id, s'[1..], id');
        assert s == [s[0]] + s[1..] && s' == [s'[0]] + s'[1..];
      }
    }
  }

  /** Names of document stores contain no NUL, so the keys of two documents of two stores differ. */
  lemma DocumentKeysAreDistinct(s: string, id: string, s': string, id': string)
    requires StoreRegistry.IsStoreName(s) && StoreRegistry.IsStoreName(s')
    ensures KeyFor(s, id) == KeyFor(s', id') <==> s == s' && id == id'
  {
    KeysAreDistinct(s, id, s', id');
  }

  datatype Queue = Queue(pending: map<string, Json>, order: seq<string>, running: bool)

  /** enqueueLineage under the mutex. */
  function Enqueued(q: Queue, key: string, doc: Json): Queue {
    Queue(q.pending[key := doc], if key in q.pending then q.order else q.order + [key], true)
  }

  /** One turn of lineageWorker under the mutex: the first key's latest version, or stop. */
  function Taken(q: Queue): Queue {
    if q.order == [] then q.(running := false)
    else q.(pending := q.pending - {q.order[0]}, order := q.order[1..])
  }

  ghost predicate QueueOk(q: Queue) {
    && NoDup(q.order)
    && Elems(q.order) == q.pending.Keys
    && (q.order != [] ==> q.running)
  }

  class CoalescingQueue {
    var pending: map<string, Json>
    var order: seq<string>
    var running: bool

    ghost function State(): Queue
      reads this
    {
      Queue(pending, order, running)
    }

    ghost predicate Valid()
      reads this
    {
      QueueOk(State())
    }

    constructor ()
      ensures Valid() && State() == Queue(map[], [], false)
    {
      pending, order, running := map[], [], false;
    }

    method Enqueue(store: string, docID: string, doc: Json) returns (spawn: bool)
      requires Valid()
      modifies this
      ensures Valid() && State() == Enqueued(old(State()), KeyFor(store, docID), doc) && spawn == !old(running)
    {
      var key := KeyFor(store, docID);
      if key !in pending { order := order + [key]; }
      pending := pending[key := doc];
      spawn := !running;
      running := true;
    }

    method Take() returns (job: Option<(string, Json)>)
      requires Valid() && running
      modifies this
      ensures Valid() && State() == Taken(old(State()))
      ensures job == if old(order) == [] then None else Some((old(order)[0], old(pending)[old(order)[0]]))
    {
      TakenOk(State());
      if order == [] {
        running := false;
        return None;
      }
      var key := order[0];
      assert key in Elems(order);
      job := Some((key, pending[key]));
      order := order[1..];
      pending := pending - {key};
    }
  }

  lemma TakenOk(q: Queue)
    requires QueueOk(q)
    ensures QueueOk(Taken(q))
  {
    if q.order != [] {
      assert q.order == [q.order[0]] + q.order[1..];
      assert Elems(q.order) == {q.order[0]} + Elems(q.order[1..]);
      assert q.order[0] !in Elems(q.order[1..]);
    }
  }

  // ---------------------------------------------------------------------------------------------
  // Runs
  // ---------------------------------------------------------------------------------------------

  /** Where the worker goroutine is; busy holds the job it took out of the queue. */
  datatype Worker = NoWorker | AtTop | Busy(key: string, doc: Json)

  /** entered and done are the histories of updates put in and processed, in order. */
  datatype State = State(
    queue: Queue,
    worker: Worker,
    entered: seq<(string, Json)>,
    done: seq<(string, Json)>)

  datatype Step = Enqueue(key: string, doc: Json) | Take | Process

  const START := State(Queue(map[], [], false), NoWorker, [], [])

  ghost predicate Next(s: State, step: Step, t: State) {
    match step
    case Enqueue(key, doc) =>
      t == s.(queue := Enqueued(s.queue, key, doc), entered := s.entered + [(key, doc)],
              worker := if s.queue.running then s.worker else AtTop)
    case Take =>
      && s.worker.AtTop?
      && if s.queue.order == [] then t == s.(queue := Taken(s.queue), worker := NoWorker)
         else
           var key := s.queue.order[0];
           key in s.queue.pending && t == s.(queue := Taken(s.queue), worker := Busy(key, s.queue.pending[key]))
    case Process =>
      s.worker.Busy? && t == s.(worker := AtTop, done := s.done + [(s.worker.key, s.worker.doc)])
  }

  ghost predicate IsRun(states: seq<State>, steps: seq<Step>) {
    && |states| == |steps| + 1 && states[0] == START
    && forall i :: 0 <= i < |steps| ==> Next(states[i], steps[i], states[i + 1])
  }

  /** The versions of one key in a history. */
  function Versions(h: seq<(string, Json)>, k: string): seq<Json> {
    if h == [] then []
    else
      var last := h[|h| - 1];
      Versions(h[..|h| - 1], k) + if last.0 == k then [last.1] else []
  }

  lemma VersionsSnoc(h: seq<(string, Json)>, u: (string, Json), k: string)
    ensures Versions(h + [u], k) == Versions(h, k) + if u.0 == k then [u.1] else []
  {
    assert (h + [u])[..|h|] == h;
  }

  /** p is e with versions left out, but never the last one. */
  ghost predicate Coalesced(p: seq<Json>, e: seq<Json>) {
    && Subsequence(p, e)
    && (e != [] ==> p != [] && p[|p| - 1] == e[|e| - 1])
  }

  /** Processed, in the worker's hands, waiting. */
  function Flow(s: State, k: string): seq<Json> {
    Versions(s.done, k) + InHand(s.worker, k) + Waiting(s.queue, k)
  }

  function InHand(w: Worker, k: string): seq<Json> {
    if w.Busy? && w.key == k then [w.doc] else []
  }

  function Waiting(q: Queue, k: string): seq<Json> {
    if k in q.pending then [q.pending[k]] else []
  }

  ghost predicate Inv(s: State) {
    && QueueOk(s.queue)
    && (s.queue.running <==> s.worker != NoWorker)
    && forall k :: Coalesced(Flow(s, k), Versions(s.entered, k))
  }

  lemma StartInv()
    ensures Inv(START)
  {
    forall k ensures Coalesced(Flow(START, k), Versions(START.entered, k)) {
      assert Flow(START, k) == [] && Versions(START.entered, k) == [];
      assert Picks<Json>([], [], []);
    }
  }

  /** A newer version takes the place of the waiting one, or joins. */
  lemma NewVersion(p: seq<Json>, waiting: seq<Json>, e: seq<Json>, doc: Json)
    requires Subsequence(p + waiting, e)
    ensures Coalesced(p + [doc], e + [doc])
  {
    var at :| Picks(p + waiting, e, at);
    assert Picks(p + [doc], e + [doc], at[..|p|] + [|e|]) by {
      assert forall i :: 0 <= i < |p| ==> (p + waiting)[i] == p[i];
    }
  }

  lemma EnqueueFlow(s: State, key: string, doc: Json, t: State, k: string)
    requires Next(s, Enqueue(key, doc), t) && (s.queue.running <==> s.worker != NoWorker)
    requires Coalesced(Flow(s, k), Versions(s.entered, k))
    ensures Coalesced(Flow(t, k), Versions(t.entered, k))
  {
    VersionsSnoc(s.entered, (key, doc), k);
    assert InHand(t.worker, k) == InHand(s.worker, k);
    var p := Versions(s.done, k) + InHand(s.worker, k);
    if k == key {
      NewVersion(p, Waiting(s.queue, k), Versions(s.entered, k), doc);
      assert Flow(t, k) == p + [doc];
    } else {
      assert Flow(t, k) == p + Waiting(s.queue, k);
      assert Versions(t.entered, k) == Versions(s.entered, k);
    }
  }

  lemma EnqueueInv(s: State, key: string, doc: Json, t: State)
    requires Inv(s) && Next(s, Enqueue(key, doc), t)
    ensures Inv(t)
  {
    forall k ensures Coalesced(Flow(t, k), Versions(t.entered, k)) {
      EnqueueFlow(s, key, doc, t, k);
    }
  }

  lemma TakeInv(s: State, t: State)
    requires Inv(s) && Next(s, Take, t)
    ensures Inv(t)
  {
    TakenOk(s.queue);
    forall k ensures Coalesced(Flow(t, k), Versions(t.entered, k)) {
      assert Coalesced(Flow(s, k), Versions(s.entered, k));
      assert Flow(t, k) == Flow(s, k);
    }
  }

  lemma ProcessInv(s: State, t: State)
    requires Inv(s) && Next(s, Process, t)
    ensures Inv(t)
  {
    forall k ensures Coalesced(Flow(t, k), Versions(t.entered, k)) {
      assert Coalesced(Flow(s, k), Versions(s.entered, k));
      VersionsSnoc(s.done, (s.worker.key, s.worker.doc), k);
      assert Flow(t, k) == Flow(s, k);
    }
  }

  lemma NextInv(s: State, step: Step, t: State)
    requires Inv(s) && Next(s, step, t)
    ensures Inv(t)
  {
    match step {
      case Enqueue(key, doc) => EnqueueInv(s, key, doc, t);
      case Take => TakeInv(s, t);
      case Process => ProcessInv(s, t);
    }
  }

  lemma {:induction false} RunInv(states: seq<State>, steps: seq<Step>, n: nat)
    requires IsRun(states, steps) && n < |states|
    ensures Inv(states[n])
  {
    if n == 0 {
      StartInv();
    } else {
      RunInv(states, steps, n - 1);
      NextInv(states[n - 1], steps[n - 1], states[n]);
    }
  }

  /** In every run: the order is without duplicates and lists the pending keys, waiting keys have a worker, and the
      versions of a key processed so far are entered versions in their order. */
  lemma ProcessedInOrder(states: seq<State>, steps: seq<Step>, n: nat)
    requires IsRun(states, steps) && n < |states|
    ensures var s := states[n];
            NoDup(s.queue.order) && Elems(s.queue.order) == s.queue.pending.Keys
            && (s.queue.order != [] ==> s.worker != NoWorker)
            && forall k :: Subsequence(Versions(s.done, k), Versions(s.entered, k))
  {
    RunInv(states, steps, n);
    var s := states[n];
    forall k ensures Subsequence(Versions(s.done, k), Versions(s.entered, k)) {
      assert Coalesced(Flow(s, k), Versions(s.entered, k));
      var at :| Picks(Flow(s, k), Versions(s.entered, k), at);
      var p := Versions(s.done, k);
      assert Picks(p, Versions(s.entered, k), at[..|p|]) by {
        assert forall i :: 0 <= i < |p| ==> Flow(s, k)[i] == p[i];
      }
    }
  }

  ghost predicate IsDrained(s: State) {
    s.queue.pending == map[] && !s.worker.Busy?
  }

  /** The outcome of processing that overwrites what is under the key, whatever it was: later results over earlier ones. */
  function Outcome<V>(h: seq<(string, Json)>, process: Json -> V): map<string, V> {
    if h == [] then map[]
    else
      var last := h[|h| - 1];
      Outcome(h[..|h| - 1], process)[last.0 := process(last.1)]
  }

  lemma {:induction false} OutcomeIsLast<V>(h: seq<(string, Json)>, process: Json -> V, k: string)
    ensures k in Outcome(h, process) <==> Versions(h, k) != []
    ensures k in Outcome(h, process) ==> Outcome(h, process)[k] == process(Versions(h, k)[|Versions(h, k)| - 1])
  {
    if h != [] { OutcomeIsLast(h[..|h| - 1], process, k); }
  }

  /** Once drained, the last version of every key has been processed last, and processing that overwrites has the outcome
      of processing every update in order. The catalog's processing does not overwrite: see LineageCoalescing. */
  lemma DrainedOutcome<V>(states: seq<State>, steps: seq<Step>, n: nat, process: Json -> V)
    requires IsRun(states, steps) && n < |states| && IsDrained(states[n])
    ensures Outcome(states[n].done, process) == Outcome(states[n].entered, process)
    ensures forall k :: Coalesced(Versions(states[n].done, k), Versions(states[n].entered, k))
  {
    RunInv(states, steps, n);
    var s := states[n];
    forall k ensures Coalesced(Versions(s.done, k), Versions(s.entered, k))
      && (k in Outcome(s.done, process) <==> k in Outcome(s.entered, process))
      && (k in Outcome(s.done, process) ==> Outcome(s.done, process)[k] == Outcome(s.entered, process)[k])
    {
      assert Flow(s, k) == Versions(s.done, k);
      assert Coalesced(Flow(s, k), Versions(s.entered, k));
      OutcomeIsLast(s.done, process, k);
      OutcomeIsLast(s.entered, process, k);
      var at :| Picks(Flow(s, k), Versions(s.entered, k), at);
    }
  }

  /** Turns left for the worker. */
  function Measure(s: State): nat {
    2 * |s.queue.order| + match s.worker case NoWorker => 0 case AtTop => 1 case Busy(_, _) => 2
  }

  /** A worker can always move, and without one the queue is drained. */
  lemma WorkerNeverStuck(states: seq<State>, steps: seq<Step>, n: nat)
    requires IsRun(states, steps) && n < |states|
    ensures if states[n].worker == NoWorker then IsDrained(states[n])
            else exists step: Step, t :: !step.Enqueue? && Next(states[n], step, t)
  {
    RunInv(states, steps, n);
    var s := states[n];
    if s.worker != NoWorker {
      var step, t := Turn(s);
    } else {
      assert s.queue.pending.Keys == {} by { assert Elems(s.queue.order) == s.queue.pending.Keys; }
    }
  }

  /** The next step of a worker. */
  lemma Turn(s: State) returns (step: Step, t: State)
    requires QueueOk(s.queue) && s.worker != NoWorker
    ensures !step.Enqueue? && Next(s, step, t)
  {
    if s.worker.Busy? {
      step, t := Process, s.(worker := AtTop, done := s.done + [(s.worker.key, s.worker.doc)]);
    } else {
      step := Take;
      if s.queue.order == [] {
        t := s.(queue := Taken(s.queue), worker := NoWorker);
      } else {
        var key := s.queue.order[0];
        assert key in Elems(s.queue.order);
        t := s.(queue := Taken(s.queue), worker := Busy(key, s.queue.pending[key]));
      }
    }
  }

  /** Once nothing more is enqueued, the queue is drained after exactly Measure more steps. */
  lemma {:induction false} WorkerStops(states: seq<State>, steps: seq<Step>, from: nat, n: nat)
    requires IsRun(states, steps) && from <= n <= |steps| && forall i :: from <= i < n ==> !steps[i].Enqueue?
    ensures Measure(states[n]) + (n - from) == Measure(states[from])
  {
    if from < n {
      WorkerStops(states, steps, from, n - 1);
    }
  }

  ghost predicate WaitsAt(s: State, k: string, i: nat) {
    i < |s.queue.order| && s.queue.order[i] == k
  }

  /** No step moves a waiting key back: it keeps its place, moves up by one, or is taken. */
  lemma PlaceKept(s: State, step: Step, t: State, k: string, i: nat)
    requires Inv(s) && Next(s, step, t) && WaitsAt(s, k, i)
    ensures if !step.Take? then WaitsAt(t, k, i)
            else if i > 0 then WaitsAt(t, k, i - 1)
            else t.worker.Busy? && t.worker.key == k
  {
  }

  function Takes(steps: seq<Step>, from: nat, n: nat): nat
    requires n <= |steps|
  {
    if n <= from then 0 else Takes(steps, from, n - 1) + if steps[n - 1].Take? then 1 else 0
  }

  ghost predicate TakenAt(states: seq<State>, steps: seq<Step>, k: string, m: nat) {
    m < |steps| && m + 1 < |states| && steps[m].Take? && states[m + 1].worker.Busy? && states[m + 1].worker.key == k
  }

  /** However often keys are enqueued again, a key waiting in place i is taken by the (i+1)st turn of the worker. */
  lemma {:induction false} TurnComes(states: seq<State>, steps: seq<Step>, from: nat, n: nat, k: string, i: nat)
    requires IsRun(states, steps) && from <= n <= |steps| && WaitsAt(states[from], k, i)
    ensures (exists m :: from <= m < n && TakenAt(states, steps, k, m))
            || (Takes(steps, from, n) <= i && WaitsAt(states[n], k, i - Takes(steps, from, n)))
  {
    if from < n {
      TurnComes(states, steps, from, n - 1, k, i);
      if !(exists m :: from <= m < n - 1 && TakenAt(states, steps, k, m)) {
        RunInv(states, steps, n - 1);
        PlaceKept(states[n - 1], steps[n - 1], states[n], k, i - Takes(steps, from, n - 1));
        if steps[n - 1].Take? && Takes(steps, from, n - 1) == i { assert TakenAt(states, steps, k, n - 1); }
      }
    }
  }
}
