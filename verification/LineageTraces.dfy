/** Which versions the coalescing queue processes, and in what order (app/lineage_queue.go). A job stands for a stretch of
    the updates of one document, from the one that put its key in line to the one it is processed with. The lists of jobs
    a drained queue can have processed are exactly the traces defined here. */
module LineageTraces {

  import opened Prelude
  import opened JsonValues
  import opened LineageQueue

  /** An update: the key of a document, and its new version. */
  type Job = (string, Json)

  type History = seq<Job>

  /** A job: the update that put its key in line, and the one whose version is processed. */
  datatype Stretch = Stretch(from: nat, at: nat)

  ghost predicate In(h: History, js: seq<Stretch>) {
    forall x :: 0 <= x < |js| ==> js[x].from <= js[x].at < |h| && h[js[x].from].0 == h[js[x].at].0
  }

  function Key(h: History, j: Stretch): string
    requires j.at < |h|
  {
    h[j.at].0
  }

  /** Jobs come in the order in which they got in line. */
  ghost predicate Lined(js: seq<Stretch>) {
    forall x, y :: 0 <= x < y < |js| ==> js[x].from < js[y].from
  }

  /** Job z is the same document's as the earlier job y. */
  ghost predicate Again(h: History, js: seq<Stretch>, y: int, z: int)
    requires In(h, js)
  {
    0 <= y < z < |js| && Key(h, js[y]) == Key(h, js[z])
  }

  ghost predicate TakenBy(js: seq<Stretch>, y: int, n: int) {
    forall x :: 0 <= x <= y < |js| ==> js[x].at < n
  }

  /** A key gets in line again only after its last job, and all jobs before that one, were taken. */
  ghost predicate Fifo(h: History, js: seq<Stretch>)
    requires In(h, js)
  {
    forall y, z :: Again(h, js, y, z) ==> TakenBy(js, y, js[z].from)
  }

  ghost predicate Holds(h: History, j: Stretch, i: int)
    requires j.at < |h|
  {
    j.from <= i <= j.at && h[i].0 == Key(h, j)
  }

  /** Update i is part of a job. */
  ghost predicate Held(h: History, js: seq<Stretch>, i: int)
    requires In(h, js)
  {
    exists x :: 0 <= x < |js| && Holds(h, js[x], i)
  }

  ghost predicate IsTrace(h: History, js: seq<Stretch>) {
    && In(h, js) && Lined(js) && Fifo(h, js)
    && forall i :: 0 <= i < |h| ==> Held(h, js, i)
  }

  function Jobs(h: History, js: seq<Stretch>): History
    requires forall x :: 0 <= x < |js| ==> js[x].at < |h|
  {
    seq(|js|, x requires 0 <= x < |js| => h[js[x].at])
  }

  // ---------------------------------------------------------------------------------------------
  // Every run gives a trace
  // ---------------------------------------------------------------------------------------------

  /** The jobs done, in hand and waiting, in the order in which they are processed. */
  function Pipeline(s: State): History {
    s.done + Hand(s.worker) + Line(s.queue)
  }

  function Hand(w: LineageQueue.Worker): History {
    if w.Busy? then [(w.key, w.doc)] else []
  }

  function Line(q: Queue): History {
    seq(|q.order|, i requires 0 <= i < |q.order| => (q.order[i], if q.order[i] in q.pending then q.pending[q.order[i]] else Null))
  }

  lemma TurnKeepsPipeline(s: State, step: Step, t: State)
    requires QueueOk(s.queue) && Next(s, step, t) && !step.Enqueue?
    ensures Pipeline(t) == Pipeline(s)
  {
    if step.Take? && s.queue.order != [] {
      var key := s.queue.order[0];
      var rest := Line(t.queue);
      assert Line(s.queue) == [(key, s.queue.pending[key])] + rest;
    }
  }

  /** An update joins at the end of the pipeline. */
  lemma EnqueueJoins(s: State, key: string, doc: Json, t: State)
    requires QueueOk(s.queue) && Next(s, Step.Enqueue(key, doc), t) && (s.queue.running <==> s.worker != NoWorker)
    requires key !in s.queue.pending
    ensures Pipeline(t) == Pipeline(s) + [(key, doc)]
  {
    assert Hand(t.worker) == Hand(s.worker);
    assert key !in Elems(s.queue.order);
    assert Line(t.queue) == Line(s.queue) + [(key, doc)];
  }

  /** Or takes the place of the waiting version. */
  lemma EnqueueReplaces(s: State, key: string, doc: Json, t: State) returns (z: nat)
    requires QueueOk(s.queue) && Next(s, Step.Enqueue(key, doc), t) && (s.queue.running <==> s.worker != NoWorker)
    requires key in s.queue.pending
    ensures z < |Pipeline(s)| && Pipeline(s)[z].0 == key && Pipeline(t) == Pipeline(s)[z := (key, doc)]
    ensures forall y, y' :: z <= y < y' < |Pipeline(s)| ==> Pipeline(s)[y].0 != Pipeline(s)[y'].0
  {
    assert Hand(t.worker) == Hand(s.worker);
    assert key in Elems(s.queue.order);
    var i :| 0 <= i < |s.queue.order| && s.queue.order[i] == key;
    var n := |s.done + Hand(s.worker)|;
    z := n + i;
    assert Line(t.queue) == Line(s.queue)[i := (key, doc)];
    forall y, y' | z <= y < y' < |Pipeline(s)| ensures Pipeline(s)[y].0 != Pipeline(s)[y'].0 {
      assert Pipeline(s)[y].0 == s.queue.order[y - n] && Pipeline(s)[y'].0 == s.queue.order[y' - n];
    }
  }

  lemma HeldStays(h: History, js: seq<Stretch>, h': History, js': seq<Stretch>, i: int)
    requires In(h, js) && In(h', js') && h <= h' && |js| <= |js'| && Held(h, js, i)
    requires forall x :: 0 <= x < |js| ==> js'[x].from == js[x].from && js'[x].at >= js[x].at && Key(h', js'[x]) == Key(h, js[x])
    ensures Held(h', js', i)
  {
    var x :| 0 <= x < |js| && Holds(h, js[x], i);
    assert Holds(h', js'[x], i);
  }

  lemma TraceJoins(h: History, js: seq<Stretch>, u: Job)
    requires IsTrace(h, js)
    ensures IsTrace(h + [u], js + [Stretch(|h|, |h|)])
    ensures Jobs(h + [u], js + [Stretch(|h|, |h|)]) == Jobs(h, js) + [u]
  {
    var h', js' := h + [u], js + [Stretch(|h|, |h|)];
    assert In(h', js');
    forall y, z | Again(h', js', y, z) ensures TakenBy(js', y, js'[z].from) {
      if z < |js| { assert Again(h, js, y, z); }
    }
    forall i | 0 <= i < |h'| ensures Held(h', js', i) {
      if i < |h| { HeldStays(h, js, h', js', i); } else { assert Holds(h', js'[|js|], i); }
    }
  }

  lemma TraceReplaces(h: History, js: seq<Stretch>, u: Job, z: nat)
    requires IsTrace(h, js) && z < |js| && Key(h, js[z]) == u.0
    requires forall y, y' :: z <= y < y' < |js| ==> Key(h, js[y]) != Key(h, js[y'])
    ensures var js' := js[z := js[z].(at := |h|)];
            IsTrace(h + [u], js') && Jobs(h + [u], js') == Jobs(h, js)[z := u]
  {
    var h', js' := h + [u], js[z := js[z].(at := |h|)];
    assert In(h', js');
    forall y, y' | Again(h', js', y, y') ensures TakenBy(js', y, js'[y'].from) {
      assert Again(h, js, y, y') && y < z;
      assert TakenBy(js, y, js[y'].from);
    }
    forall i | 0 <= i < |h'| ensures Held(h', js', i) {
      if i < |h| { HeldStays(h, js, h', js', i); } else { assert Holds(h', js'[z], i); }
    }
    assert Jobs(h', js') == Jobs(h, js)[z := u];
  }

  lemma TraceStep(s: State, step: Step, t: State, js: seq<Stretch>) returns (js': seq<Stretch>)
    requires Inv(s) && Next(s, step, t) && IsTrace(s.entered, js) && Pipeline(s) == Jobs(s.entered, js)
    ensures IsTrace(t.entered, js') && Pipeline(t) == Jobs(t.entered, js')
  {
    match step {
      case Enqueue(key, doc) => js' := TraceEnqueue(s, key, doc, t, js);
      case _ =>
        TurnKeepsPipeline(s, step, t);
        js' := js;
    }
  }

  lemma TraceEnqueue(s: State, key: string, doc: Json, t: State, js: seq<Stretch>) returns (js': seq<Stretch>)
    requires Inv(s) && Next(s, Step.Enqueue(key, doc), t) && IsTrace(s.entered, js) && Pipeline(s) == Jobs(s.entered, js)
    ensures IsTrace(t.entered, js') && Pipeline(t) == Jobs(t.entered, js')
  {
    if key in s.queue.pending {
      var z := EnqueueReplaces(s, key, doc, t);
      assert forall x :: 0 <= x < |js| ==> Key(s.entered, js[x]) == Pipeline(s)[x].0;
      TraceReplaces(s.entered, js, (key, doc), z);
      js' := js[z := js[z].(at := |s.entered|)];
    } else {
      EnqueueJoins(s, key, doc, t);
      TraceJoins(s.entered, js, (key, doc));
      js' := js + [Stretch(|s.entered|, |s.entered|)];
    }
  }

  /** What has been processed, is in hand or waits is a trace of what has been enqueued. */
  lemma {:induction false} RunTraces(states: seq<State>, steps: seq<Step>, n: nat) returns (js: seq<Stretch>)
    requires IsRun(states, steps) && n < |states|
    ensures IsTrace(states[n].entered, js) && Pipeline(states[n]) == Jobs(states[n].entered, js)
  {
    if n == 0 {
      js := [];
    } else {
      js := RunTraces(states, steps, n - 1);
      RunInv(states, steps, n - 1);
      js := TraceStep(states[n - 1], steps[n - 1], states[n], js);
    }
  }

  ghost predicate DrainedRun(states: seq<State>, steps: seq<Step>, entered: History) {
    IsRun(states, steps) && states[|steps|].entered == entered && IsDrained(states[|steps|])
  }

  /** A drained queue has processed a trace of what was enqueued. */
  lemma DrainedTrace(states: seq<State>, steps: seq<Step>, h: History) returns (js: seq<Stretch>)
    requires DrainedRun(states, steps, h)
    ensures IsTrace(h, js) && states[|steps|].done == Jobs(h, js)
  {
    js := RunTraces(states, steps, |steps|);
    RunInv(states, steps, |steps|);
    var s := states[|steps|];
    NoElements(s.queue.order);
    assert Pipeline(s) == s.done;
  }

  // ---------------------------------------------------------------------------------------------
  // Every trace is that of a run
  // ---------------------------------------------------------------------------------------------

  lemma ExtendRun(states: seq<State>, steps: seq<Step>, step: Step, t: State)
    requires IsRun(states, steps) && Next(states[|steps|], step, t)
    ensures IsRun(states + [t], steps + [step])
  {
    var states', steps' := states + [t], steps + [step];
    forall i | 0 <= i < |steps'| ensures Next(states'[i], steps'[i], states'[i + 1]) {
      assert states'[|steps|] == states[|steps|] && states'[|steps'|] == t;
      if i < |steps| {
        assert states'[i] == states[i] && states'[i + 1] == states[i + 1] && steps'[i] == steps[i];
        assert Next(states[i], steps[i], states[i + 1]);
      }
    }
  }

  /** The last version of a key in a history. */
  function Latest(h: History, k: string): Json {
    if h == [] then Null else if h[|h| - 1].0 == k then h[|h| - 1].1 else Latest(h[..|h| - 1], k)
  }

  lemma {:induction false} LatestIs(h: History, k: string, i: nat)
    requires i < |h| && h[i].0 == k && forall i' :: i < i' < |h| ==> h[i'].0 != k
    ensures Latest(h, k) == h[i].1
  {
    if i < |h| - 1 { LatestIs(h[..|h| - 1], k, i); }
  }

  /** What waits is the last version that was enqueued. */
  lemma {:induction false} WaitingIsLatest(states: seq<State>, steps: seq<Step>, n: nat)
    requires IsRun(states, steps) && n < |states|
    ensures forall k :: k in states[n].queue.pending ==> states[n].queue.pending[k] == Latest(states[n].entered, k)
  {
    if n > 0 {
      WaitingIsLatest(states, steps, n - 1);
      assert Next(states[n - 1], steps[n - 1], states[n]);
      if steps[n - 1].Enqueue? {
        assert states[n].entered[..|states[n].entered| - 1] == states[n - 1].entered;
      }
    }
  }

  /** After n updates, d jobs of the trace are done, and those up to c wait. */
  ghost predicate Simulates(s: State, h: History, js: seq<Stretch>, n: nat, d: nat, c: nat)
    requires In(h, js)
  {
    && n <= |h| && d <= c <= |js|
    && s.entered == h[..n] && s.done == Jobs(h, js[..d]) && !s.worker.Busy?
    && |s.queue.order| == c - d && (forall x :: d <= x < c ==> s.queue.order[x - d] == Key(h, js[x]))
    && (forall x :: 0 <= x < c ==> js[x].from < n) && (forall x :: c <= x < |js| ==> js[x].from >= n)
    && (forall x :: 0 <= x < d ==> js[x].at < n)
  }

  /** No later update of a waiting document has come than the one its job is to be processed with. */
  lemma NothingNewer(s: State, h: History, js: seq<Stretch>, n: nat, d: nat, c: nat, i: nat)
    requires IsTrace(h, js) && Simulates(s, h, js, n, d, c) && QueueOk(s.queue)
    requires d < c && js[d].at < i < n
    ensures h[i].0 != Key(h, js[d])
  {
    if h[i].0 == Key(h, js[d]) {
      assert Held(h, js, i);
      var x :| 0 <= x < |js| && Holds(h, js[x], i);
      assert x < d ==> Again(h, js, x, d);
      assert false;
    }
  }

  /** The worker processes the first waiting job of the trace. */
  lemma TakeOne(states: seq<State>, steps: seq<Step>, h: History, js: seq<Stretch>, n: nat, d: nat, c: nat)
    returns (states': seq<State>, steps': seq<Step>)
    requires IsTrace(h, js) && IsRun(states, steps) && Simulates(states[|steps|], h, js, n, d, c)
    requires d < c && js[d].at < n
    ensures IsRun(states', steps') && Simulates(states'[|steps'|], h, js, n, d + 1, c)
  {
    var s := states[|steps|];
    RunInv(states, steps, |steps|);
    WaitingIsLatest(states, steps, |steps|);
    var key := Key(h, js[d]);
    assert s.queue.order[0] == key && key in Elems(s.queue.order);
    forall i | js[d].at < i < n ensures h[..n][i].0 != key { NothingNewer(s, h, js, n, d, c, i); }
    LatestIs(h[..n], key, js[d].at);
    assert s.worker.AtTop?;
    var mid := s.(queue := Taken(s.queue), worker := Busy(key, s.queue.pending[key]));
    var t := mid.(worker := LineageQueue.Worker.AtTop, done := mid.done + [(key, mid.worker.doc)]);
    ExtendRun(states, steps, Take, mid);
    ExtendRun(states + [mid], steps + [Take], Process, t);
    states', steps' := states + [mid] + [t], steps + [Take] + [Process];
    assert Jobs(h, js[..d + 1]) == Jobs(h, js[..d]) + [h[js[d].at]];
    assert h[js[d].at] == (key, s.queue.pending[key]);
  }

  lemma {:induction false} TakeMany(states: seq<State>, steps: seq<Step>, h: History, js: seq<Stretch>, n: nat, d: nat,
                                    c: nat, to: nat)
    returns (states': seq<State>, steps': seq<Step>)
    requires IsTrace(h, js) && IsRun(states, steps) && Simulates(states[|steps|], h, js, n, d, c)
    requires d <= to <= c && forall x :: d <= x < to ==> js[x].at < n
    ensures IsRun(states', steps') && Simulates(states'[|steps'|], h, js, n, to, c)
    decreases if d < to then to - d else 0
  {
    states', steps' := states, steps;
    if d < to {
      states', steps' := TakeOne(states, steps, h, js, n, d, c);
      states', steps' := TakeMany(states', steps', h, js, n, d + 1, c, to);
    }
  }

  /** Before a document gets in line again, the worker catches up with its last job. */
  lemma CatchUp(states: seq<State>, steps: seq<Step>, h: History, js: seq<Stretch>, n: nat, d: nat, c: nat)
    returns (states': seq<State>, steps': seq<Step>, d': nat)
    requires IsTrace(h, js) && IsRun(states, steps) && Simulates(states[|steps|], h, js, n, d, c)
    requires c < |js| && js[c].from == n
    ensures IsRun(states', steps') && Simulates(states'[|steps'|], h, js, n, d', c)
    ensures forall x :: d' <= x < c ==> Key(h, js[x]) != Key(h, js[c])
    decreases if d < c then c - d else 0
  {
    states', steps', d' := states, steps, d;
    if y :| d <= y < c && Key(h, js[y]) == Key(h, js[c]) {
      assert Again(h, js, y, c) && TakenBy(js, y, n);
      states', steps' := TakeMany(states, steps, h, js, n, d, c, y + 1);
      states', steps', d' := CatchUp(states', steps', h, js, n, y + 1, c);
    }
  }

  /** The next update starts a job of the trace, and no earlier one of its document waits; or it is part of a waiting one. */
  lemma Prepare(states: seq<State>, steps: seq<Step>, h: History, js: seq<Stretch>, n: nat, d: nat, c: nat)
    returns (states': seq<State>, steps': seq<Step>, d': nat)
    requires IsTrace(h, js) && IsRun(states, steps) && Simulates(states[|steps|], h, js, n, d, c) && n < |h|
    ensures IsRun(states', steps') && Simulates(states'[|steps'|], h, js, n, d', c)
    ensures if c < |js| && js[c].from == n then h[n].0 !in states'[|steps'|].queue.order
            else h[n].0 in states'[|steps'|].queue.order && forall x :: c <= x < |js| ==> js[x].from > n
  {
    states', steps', d' := states, steps, d;
    if c < |js| && js[c].from == n {
      states', steps', d' := CatchUp(states, steps, h, js, n, d, c);
      var order := states'[|steps'|].queue.order;
      assert forall i :: 0 <= i < |order| ==> order[i] == Key(h, js[d' + i]);
    } else {
      assert Held(h, js, n);
      var z :| 0 <= z < |js| && Holds(h, js[z], n);
      assert c < |js| ==> forall x :: c < x < |js| ==> js[c].from < js[x].from;
      assert d <= z < c;
      assert states[|steps|].queue.order[z - d] == h[n].0;
    }
  }

  lemma EnqueueNext(states: seq<State>, steps: seq<Step>, h: History, js: seq<Stretch>, n: nat, d: nat, c: nat)
    returns (states': seq<State>, steps': seq<Step>, d': nat, c': nat)
    requires IsTrace(h, js) && IsRun(states, steps) && Simulates(states[|steps|], h, js, n, d, c) && n < |h|
    ensures IsRun(states', steps') && Simulates(states'[|steps'|], h, js, n + 1, d', c')
  {
    states', steps', d' := Prepare(states, steps, h, js, n, d, c);
    c' := if c < |js| && js[c].from == n then c + 1 else c;
    var s := states'[|steps'|];
    RunInv(states', steps', |steps'|);
    var (key, doc) := h[n];
    var t := s.(queue := Enqueued(s.queue, key, doc), entered := s.entered + [(key, doc)],
                worker := if s.queue.running then s.worker else LineageQueue.Worker.AtTop);
    ExtendRun(states', steps', Step.Enqueue(key, doc), t);
    states', steps' := states' + [t], steps' + [Step.Enqueue(key, doc)];
    Entered(s, t, h, js, n, d', c);
  }

  lemma Entered(s: State, t: State, h: History, js: seq<Stretch>, n: nat, d: nat, c: nat)
    requires IsTrace(h, js) && n < |h| && Simulates(s, h, js, n, d, c) && QueueOk(s.queue)
    requires t == s.(queue := Enqueued(s.queue, h[n].0, h[n].1), entered := s.entered + [h[n]],
                     worker := if s.queue.running then s.worker else LineageQueue.Worker.AtTop)
    requires if c < |js| && js[c].from == n then h[n].0 !in s.queue.order
             else h[n].0 in s.queue.order && forall x :: c <= x < |js| ==> js[x].from > n
    ensures Simulates(t, h, js, n + 1, d, if c < |js| && js[c].from == n then c + 1 else c)
  {
    assert h[..n + 1] == h[..n] + [h[n]];
    assert h[n].0 in s.queue.order <==> h[n].0 in Elems(s.queue.order);
    if c < |js| && js[c].from == n {
      assert forall x :: c < x < |js| ==> js[c].from < js[x].from;
    }
  }

  lemma {:induction false} Simulate(h: History, js: seq<Stretch>, n: nat) returns (states: seq<State>, steps: seq<Step>,
                                    d: nat, c: nat)
    requires IsTrace(h, js) && n <= |h|
    ensures IsRun(states, steps) && Simulates(states[|steps|], h, js, n, d, c)
  {
    if n == 0 {
      states, steps, d, c := [START], [], 0, 0;
    } else {
      states, steps, d, c := Simulate(h, js, n - 1);
      states, steps, d, c := EnqueueNext(states, steps, h, js, n - 1, d, c);
    }
  }

  /** Every trace is what some drained run has processed. */
  lemma Realize(h: History, js: seq<Stretch>) returns (states: seq<State>, steps: seq<Step>)
    requires IsTrace(h, js)
    ensures DrainedRun(states, steps, h) && states[|steps|].done == Jobs(h, js)
  {
    var d, c;
    states, steps, d, c := Simulate(h, js, |h|);
    assert js != [] ==> js[|js| - 1].from <= js[|js| - 1].at < |h|;
    assert c == |js| && h[..|h|] == h && js[..|js|] == js;
    states, steps := TakeMany(states, steps, h, js, |h|, d, c, c);
    RunInv(states, steps, |steps|);
    assert states[|steps|].queue.order == [];
    assert states[|steps|].queue.pending.Keys == Elems([]);
  }

  /** The drained runs are the traces. */
  lemma RunsAreTraces(h: History, done: History)
    ensures (exists states: seq<State>, steps: seq<Step> :: DrainedRun(states, steps, h) && states[|steps|].done == done)
       <==> (exists js :: IsTrace(h, js) && done == Jobs(h, js))
  {
    if states: seq<State>, steps: seq<Step> :| DrainedRun(states, steps, h) && states[|steps|].done == done {
      var js := DrainedTrace(states, steps, h);
    }
    if js :| IsTrace(h, js) && done == Jobs(h, js) {
      var states, steps := Realize(h, js);
    }
  }

  // ---------------------------------------------------------------------------------------------
  // Making traces
  // ---------------------------------------------------------------------------------------------

  /** The updates from lo to hi, cut into jobs. */
  ghost predicate TraceOf(h: History, lo: nat, hi: nat, js: seq<Stretch>) {
    && In(h, js) && Lined(js) && Fifo(h, js) && lo <= hi <= |h|
    && (forall x :: 0 <= x < |js| ==> lo <= js[x].from && js[x].at < hi)
    && forall i :: lo <= i < hi ==> Held(h, js, i)
  }

  /** One job for every key. */
  ghost predicate Distinct(h: History, js: seq<Stretch>)
    requires In(h, js)
  {
    forall y, z :: !Again(h, js, y, z)
  }

  lemma JoinHeld(h: History, a: seq<Stretch>, b: seq<Stretch>, i: int)
    requires In(h, a) && In(h, b)
    ensures In(h, a + b)
    ensures Held(h, a, i) || Held(h, b, i) <==> Held(h, a + b, i)
  {
    var c := a + b;
    if x :| 0 <= x < |a| && Holds(h, a[x], i) { assert Holds(h, c[x], i); }
    if x :| 0 <= x < |b| && Holds(h, b[x], i) { assert Holds(h, c[|a| + x], i); }
    if x :| 0 <= x < |c| && Holds(h, c[x], i) { assert x < |a| ==> Holds(h, a[x], i); assert x >= |a| ==> Holds(h, b[x - |a|], i); }
  }

  lemma JoinTraces(h: History, lo: nat, mid: nat, hi: nat, a: seq<Stretch>, b: seq<Stretch>)
    requires TraceOf(h, lo, mid, a) && TraceOf(h, mid, hi, b)
    ensures TraceOf(h, lo, hi, a + b)
  {
    var c := a + b;
    forall y, z | Again(h, c, y, z) ensures TakenBy(c, y, c[z].from) {
      if z < |a| {
        assert Again(h, a, y, z);
      } else if y >= |a| {
        assert Again(h, b, y - |a|, z - |a|) && TakenBy(b, y - |a|, c[z].from);
        assert forall x :: |a| <= x <= y ==> c[x] == b[x - |a|];
      }
    }
    forall i | lo <= i < hi ensures Held(h, c, i) { JoinHeld(h, a, b, i); }
  }

  /** Every update processed before the next one comes. */
  lemma InOrder(h: History, n: nat) returns (js: seq<Stretch>)
    requires n <= |h|
    ensures TraceOf(h, 0, n, js) && js == seq(n, i requires 0 <= i < n => Stretch(i, i))
    ensures n == |h| ==> Jobs(h, js) == h
  {
    js := seq(n, i requires 0 <= i < n => Stretch(i, i));
    forall i | 0 <= i < n ensures Held(h, js, i) { assert Holds(h, js[i], i); }
  }

  /** The updates from lo to hi enqueued before the worker's next turn. */
  lemma {:induction false} Batch(h: History, lo: nat, hi: nat) returns (js: seq<Stretch>)
    requires lo <= hi <= |h|
    ensures TraceOf(h, lo, hi, js) && Distinct(h, js)
    decreases hi
  {
    if lo == hi {
      js := [];
    } else {
      var n := hi - 1;
      js := Batch(h, lo, n);
      if z :| 0 <= z < |js| && Key(h, js[z]) == h[n].0 {
        ExtendBatch(h, lo, n, js, z);
        js := js[z := js[z].(at := n)];
      } else {
        GrowBatch(h, lo, n, js);
        js := js + [Stretch(n, n)];
      }
    }
  }

  lemma ExtendBatch(h: History, lo: nat, n: nat, js: seq<Stretch>, z: nat)
    requires TraceOf(h, lo, n, js) && Distinct(h, js) && n < |h| && z < |js| && Key(h, js[z]) == h[n].0
    ensures var js' := js[z := js[z].(at := n)]; TraceOf(h, lo, n + 1, js') && Distinct(h, js')
  {
    var js' := js[z := js[z].(at := n)];
    assert forall x :: 0 <= x < |js| ==> Key(h, js'[x]) == Key(h, js[x]);
    forall y, y' ensures !Again(h, js', y, y') { assert !Again(h, js, y, y'); }
    forall i | lo <= i < n + 1 ensures Held(h, js', i) {
      if i < n { HeldStays(h, js, h, js', i); } else { assert Holds(h, js'[z], i); }
    }
  }

  lemma GrowBatch(h: History, lo: nat, n: nat, js: seq<Stretch>)
    requires TraceOf(h, lo, n, js) && Distinct(h, js) && n < |h|
    requires forall z :: 0 <= z < |js| ==> Key(h, js[z]) != h[n].0
    ensures var js' := js + [Stretch(n, n)]; TraceOf(h, lo, n + 1, js') && Distinct(h, js')
  {
    var js' := js + [Stretch(n, n)];
    forall y, y' ensures !Again(h, js', y, y') { if y' < |js| { assert !Again(h, js, y, y'); } }
    forall i | lo <= i < n + 1 ensures Held(h, js', i) {
      if i < n { HeldStays(h, js, h, js', i); } else { assert Holds(h, js'[|js|], i); }
    }
  }

  // ---------------------------------------------------------------------------------------------
  // The jobs of one document
  // ---------------------------------------------------------------------------------------------

  /** The first update of k from i on. */
  function FirstFrom(h: History, k: string, i: nat): (f: nat)
    requires i <= |h|
    ensures i <= f <= |h| && (f < |h| ==> h[f].0 == k) && forall x :: i <= x < f ==> h[x].0 != k
    decreases |h| - i
  {
    if i == |h| || h[i].0 == k then i else FirstFrom(h, k, i + 1)
  }

  /** The last update of k, if there is one. */
  function LastOf(h: History, k: string): (m: int)
    ensures -1 <= m < |h| && (m >= 0 ==> h[m].0 == k) && forall x :: m < x < |h| ==> h[x].0 != k
  {
    if h == [] then -1
    else if h[|h| - 1].0 == k then |h| - 1
    else
      var m := LastOf(h[..|h| - 1], k);
      assert m >= 0 ==> h[..|h| - 1][m] == h[m];
      assert forall x :: m < x < |h| - 1 ==> h[x] == h[..|h| - 1][x];
      m
  }

  /** The last job of a document is processed with its last version. */
  lemma LastJob(h: History, js: seq<Stretch>, k: string) returns (x: nat)
    requires IsTrace(h, js) && LastOf(h, k) >= 0
    ensures x < |js| && Key(h, js[x]) == k && js[x].at == LastOf(h, k)
    ensures forall y :: x < y < |js| ==> Key(h, js[y]) != k
  {
    assert Held(h, js, LastOf(h, k));
    x :| 0 <= x < |js| && Holds(h, js[x], LastOf(h, k));
    forall y | x < y < |js| ensures Key(h, js[y]) != k {
      assert Key(h, js[y]) == k ==> Again(h, js, x, y);
    }
  }

  // ---------------------------------------------------------------------------------------------
  // What has been processed before
  // ---------------------------------------------------------------------------------------------

  /** A document that has the property in one version has it in all. */
  ghost predicate Steady(h: History, has: Job -> bool) {
    forall i, i' :: 0 <= i < |h| && 0 <= i' < |h| && h[i].0 == h[i'].0 && has(h[i]) ==> has(h[i'])
  }

  /** Something with the property has been processed before job y, exactly when it was enqueued before y got in line. */
  lemma SeenBefore(h: History, js: seq<Stretch>, y: nat, has: Job -> bool)
    requires IsTrace(h, js) && y < |js| && Steady(h, has)
    ensures (exists x :: 0 <= x < y && has(h[js[x].at])) <==> (exists i :: 0 <= i < js[y].from && has(h[i]))
  {
    if x :| 0 <= x < y && has(h[js[x].at]) {
      assert js[x].from < js[y].from && has(h[js[x].from]);
    }
    if i :| 0 <= i < js[y].from && has(h[i]) {
      assert Held(h, js, i);
      var x :| 0 <= x < |js| && Holds(h, js[x], i);
      assert has(h[js[x].at]);
      assert x < y;
    }
  }

  // ---------------------------------------------------------------------------------------------
  // Choosing the jobs of one document
  // ---------------------------------------------------------------------------------------------

  /** From its update p on, the document k can be processed in jobs that are all good. */
  ghost predicate Escapes(h: History, k: string, good: Stretch -> bool, p: nat)
    requires p <= |h|
    decreases |h| - p
  {
    p == |h| || exists a :: p <= a < |h| && h[a].0 == k && good(Stretch(p, a)) && Escapes(h, k, good, FirstFrom(h, k, a + 1))
  }

  ghost predicate AllGood(h: History, js: seq<Stretch>, k: string, good: Stretch -> bool)
    requires In(h, js)
  {
    forall x :: 0 <= x < |js| && Key(h, js[x]) == k ==> good(js[x])
  }

  /** In a batch that starts with an update of k and ends with another, or the same, these are the ends of its job. */
  lemma BatchFor(h: History, k: string, p: nat, a: nat) returns (js: seq<Stretch>, x: nat)
    requires p <= a < |h| && h[p].0 == k == h[a].0
    ensures TraceOf(h, p, a + 1, js) && x < |js| && js[x] == Stretch(p, a)
    ensures forall z :: 0 <= z < |js| && z != x ==> Key(h, js[z]) != k
  {
    js := Batch(h, p, a + 1);
    assert Held(h, js, p) && Held(h, js, a);
    x :| 0 <= x < |js| && Holds(h, js[x], p);
    var z :| 0 <= z < |js| && Holds(h, js[z], a);
    assert !Again(h, js, x, z) && !Again(h, js, z, x);
    forall y | 0 <= y < |js| && y != x ensures Key(h, js[y]) != k {
      assert !Again(h, js, x, y) && !Again(h, js, y, x);
    }
  }

  /** A stretch without updates of k. */
  lemma BatchWithout(h: History, k: string, lo: nat, hi: nat) returns (js: seq<Stretch>)
    requires lo <= hi <= |h| && forall i :: lo <= i < hi ==> h[i].0 != k
    ensures TraceOf(h, lo, hi, js) && forall x :: 0 <= x < |js| ==> Key(h, js[x]) != k
  {
    js := Batch(h, lo, hi);
  }

  lemma {:induction false} EscapeTrace(h: History, k: string, good: Stretch -> bool, p: nat) returns (js: seq<Stretch>)
    requires p <= |h| && (p < |h| ==> h[p].0 == k) && Escapes(h, k, good, p)
    ensures TraceOf(h, p, |h|, js) && AllGood(h, js, k, good)
    decreases |h| - p
  {
    if p == |h| {
      js := [];
    } else {
      var a :| p <= a < |h| && h[a].0 == k && good(Stretch(p, a)) && Escapes(h, k, good, FirstFrom(h, k, a + 1));
      var f := FirstFrom(h, k, a + 1);
      var job, x := BatchFor(h, k, p, a);
      var gap := BatchWithout(h, k, a + 1, f);
      var rest := EscapeTrace(h, k, good, f);
      JoinTraces(h, p, a + 1, f, job, gap);
      JoinTraces(h, p, f, |h|, job + gap, rest);
      js := job + gap + rest;
    }
  }

  lemma {:induction false} TraceEscapes(h: History, js: seq<Stretch>, k: string, good: Stretch -> bool, x: nat)
    requires IsTrace(h, js) && AllGood(h, js, k, good) && x < |js| && Key(h, js[x]) == k
    ensures Escapes(h, k, good, js[x].from)
    decreases |js| - x
  {
    var f := FirstFrom(h, k, js[x].at + 1);
    if f < |h| {
      assert Held(h, js, f);
      var z :| 0 <= z < |js| && Holds(h, js[z], f);
      assert z < x ==> Again(h, js, z, x);
      assert x < z && Again(h, js, x, z) && TakenBy(js, x, js[z].from);
      assert js[z].from == f;
      TraceEscapes(h, js, k, good, z);
    }
    assert good(Stretch(js[x].from, js[x].at));
  }

  lemma EscapeRun(h: History, k: string, good: Stretch -> bool) returns (js: seq<Stretch>)
    requires Escapes(h, k, good, FirstFrom(h, k, 0))
    ensures IsTrace(h, js) && AllGood(h, js, k, good)
  {
    var f := FirstFrom(h, k, 0);
    var start := BatchWithout(h, k, 0, f);
    var rest := EscapeTrace(h, k, good, f);
    JoinTraces(h, 0, f, |h|, start, rest);
    js := start + rest;
  }

  lemma FirstJob(h: History, js: seq<Stretch>, k: string) returns (x: nat)
    requires IsTrace(h, js) && FirstFrom(h, k, 0) < |h|
    ensures x < |js| && Key(h, js[x]) == k && js[x].from == FirstFrom(h, k, 0)
  {
    var f := FirstFrom(h, k, 0);
    assert Held(h, js, f);
    x :| 0 <= x < |js| && Holds(h, js[x], f);
  }

  lemma RunEscapes(h: History, js: seq<Stretch>, k: string, good: Stretch -> bool)
    requires IsTrace(h, js) && AllGood(h, js, k, good)
    ensures Escapes(h, k, good, FirstFrom(h, k, 0))
  {
    if FirstFrom(h, k, 0) < |h| {
      var x := FirstJob(h, js, k);
      TraceEscapes(h, js, k, good, x);
    }
  }

  /** A schedule in which all jobs of k are good. */
  lemma EscapesIff(h: History, k: string, good: Stretch -> bool)
    ensures (exists js :: IsTrace(h, js) && AllGood(h, js, k, good)) <==> Escapes(h, k, good, FirstFrom(h, k, 0))
  {
    if Escapes(h, k, good, FirstFrom(h, k, 0)) {
      var js := EscapeRun(h, k, good);
    }
    if js :| IsTrace(h, js) && AllGood(h, js, k, good) {
      RunEscapes(h, js, k, good);
    }
  }

  // ---------------------------------------------------------------------------------------------
  // The worker pauses
  // ---------------------------------------------------------------------------------------------

  ghost predicate Apart(h: History, done: seq<Stretch>, n: nat, j: Stretch)
    requires In(h, done)
  {
    j.at < n && !Held(h, done, j.from) && !Held(h, done, j.at)
  }

  ghost predicate HeldBy(h: History, done: seq<Stretch>, rest: seq<Stretch>, i: int)
    requires In(h, done) && In(h, rest)
  {
    Held(h, done, i) || Held(h, rest, i)
  }

  /** What is enqueued up to n and not part of the jobs in done, in one batch. */
  ghost predicate RestOf(h: History, done: seq<Stretch>, n: nat, rest: seq<Stretch>)
    requires In(h, done)
  {
    && In(h, rest) && Lined(rest) && Distinct(h, rest) && n <= |h|
    && (forall b :: 0 <= b < |rest| ==> Apart(h, done, n, rest[b]))
    && forall i :: 0 <= i < n ==> HeldBy(h, done, rest, i)
  }

  lemma {:induction false} RestBatch(h: History, done: seq<Stretch>, n: nat) returns (rest: seq<Stretch>)
    requires In(h, done) && n <= |h|
    ensures RestOf(h, done, n, rest)
  {
    if n == 0 {
      rest := [];
    } else {
      rest := RestBatch(h, done, n - 1);
      rest := RestNext(h, done, n - 1, rest);
    }
  }

  lemma RestNext(h: History, done: seq<Stretch>, n: nat, rest: seq<Stretch>) returns (rest': seq<Stretch>)
    requires In(h, done) && RestOf(h, done, n, rest) && n < |h|
    ensures RestOf(h, done, n + 1, rest')
  {
    if Held(h, done, n) {
      rest' := rest;
      forall b | 0 <= b < |rest| ensures Apart(h, done, n + 1, rest[b]) { assert Apart(h, done, n, rest[b]); }
      forall i | 0 <= i < n + 1 ensures HeldBy(h, done, rest, i) { assert i < n ==> HeldBy(h, done, rest, i); }
    } else if z :| 0 <= z < |rest| && Key(h, rest[z]) == h[n].0 {
      rest' := rest[z := rest[z].(at := n)];
      ExtendRest(h, done, n, rest, z);
    } else {
      rest' := rest + [Stretch(n, n)];
      GrowRest(h, done, n, rest);
    }
  }

  lemma ExtendRest(h: History, done: seq<Stretch>, n: nat, rest: seq<Stretch>, z: nat)
    requires In(h, done) && RestOf(h, done, n, rest) && n < |h| && !Held(h, done, n) && z < |rest| && Key(h, rest[z]) == h[n].0
    ensures RestOf(h, done, n + 1, rest[z := rest[z].(at := n)])
  {
    var rest' := rest[z := rest[z].(at := n)];
    assert Apart(h, done, n, rest[z]);
    assert forall x :: 0 <= x < |rest| ==> Key(h, rest'[x]) == Key(h, rest[x]);
    forall y, y' ensures !Again(h, rest', y, y') { assert !Again(h, rest, y, y'); }
    forall b | 0 <= b < |rest'| ensures Apart(h, done, n + 1, rest'[b]) { assert Apart(h, done, n, rest[b]); }
    forall i | 0 <= i < n + 1 ensures HeldBy(h, done, rest', i) {
      if i == n {
        assert Holds(h, rest'[z], i);
      } else {
        assert HeldBy(h, done, rest, i);
        if Held(h, rest, i) { HeldStays(h, rest, h, rest', i); }
      }
    }
  }

  lemma GrowRest(h: History, done: seq<Stretch>, n: nat, rest: seq<Stretch>)
    requires In(h, done) && RestOf(h, done, n, rest) && n < |h| && !Held(h, done, n)
    requires forall z :: 0 <= z < |rest| ==> Key(h, rest[z]) != h[n].0
    ensures RestOf(h, done, n + 1, rest + [Stretch(n, n)])
  {
    var rest' := rest + [Stretch(n, n)];
    forall b | 0 <= b < |rest'| ensures Apart(h, done, n + 1, rest'[b]) { assert b < |rest| ==> Apart(h, done, n, rest[b]); }
    forall y, y' ensures !Again(h, rest', y, y') { if y' < |rest| { assert !Again(h, rest, y, y'); } }
    forall i | 0 <= i < n + 1 ensures HeldBy(h, done, rest', i) {
      if i == n {
        assert Holds(h, rest'[|rest|], i);
      } else {
        assert HeldBy(h, done, rest, i);
        if Held(h, rest, i) { HeldStays(h, rest, h, rest', i); }
      }
    }
  }

  /** A job of the rest reaches over all updates of its document that are not done. */
  lemma RestEnds(h: History, done: seq<Stretch>, n: nat, rest: seq<Stretch>, b: nat, i: nat)
    requires In(h, done) && RestOf(h, done, n, rest) && b < |rest| && i < n && h[i].0 == Key(h, rest[b]) && !Held(h, done, i)
    ensures rest[b].from <= i <= rest[b].at
  {
    assert HeldBy(h, done, rest, i);
    var z :| 0 <= z < |rest| && Holds(h, rest[z], i);
    assert !Again(h, rest, b, z) && !Again(h, rest, z, b);
  }

  /** Update i comes after these jobs got in line, and after any of its document, and all before that, were taken. */
  ghost predicate Later(h: History, done: seq<Stretch>, i: int)
    requires In(h, done) && 0 <= i < |h|
  {
    forall x :: 0 <= x < |done| ==> done[x].from < i && (Key(h, done[x]) == h[i].0 ==> TakenBy(done, x, i))
  }

  /** Jobs after which all other updates can still be processed. */
  ghost predicate Ready(h: History, done: seq<Stretch>) {
    && In(h, done) && Lined(done) && Fifo(h, done)
    && forall i :: 0 <= i < |h| && !Held(h, done, i) ==> Later(h, done, i)
  }

  lemma PrefixHeld(h: History, js: seq<Stretch>, n: nat, i: int)
    requires In(h, js) && n <= |js|
    ensures In(h, js[..n]) && (Held(h, js[..n], i) <==> exists x :: 0 <= x < n && Holds(h, js[x], i))
  {
    if x :| 0 <= x < n && Holds(h, js[x], i) { assert Holds(h, js[..n][x], i); }
    if x :| 0 <= x < n && Holds(h, js[..n][x], i) { assert Holds(h, js[x], i); }
  }

  lemma PrefixLater(h: History, js: seq<Stretch>, q: nat, n: nat, i: nat)
    requires TraceOf(h, 0, q, js) && n <= |js| && i < |h| && In(h, js[..n]) && !Held(h, js[..n], i)
    ensures Later(h, js[..n], i)
  {
    PrefixHeld(h, js, n, i);
    if i < q {
      assert Held(h, js, i);
      var z :| 0 <= z < |js| && Holds(h, js[z], i);
      forall x | 0 <= x < n ensures js[x].from < i && (Key(h, js[x]) == h[i].0 ==> TakenBy(js[..n], x, i)) {
        assert js[x].from < js[z].from;
        if Key(h, js[x]) == h[i].0 { assert Again(h, js, x, z) && TakenBy(js, x, js[z].from); }
      }
    }
  }

  /** The worker may pause after any job of a trace of the first q updates. */
  lemma PrefixReady(h: History, js: seq<Stretch>, q: nat, n: nat)
    requires TraceOf(h, 0, q, js) && n <= |js|
    ensures Ready(h, js[..n])
  {
    var done := js[..n];
    forall y, z | Again(h, done, y, z) ensures TakenBy(done, y, done[z].from) { assert Again(h, js, y, z) && TakenBy(js, y, js[z].from); }
    forall i | 0 <= i < |h| && !Held(h, done, i) ensures Later(h, done, i) { PrefixLater(h, js, q, n, i); }
  }

  /** After the jobs in done, what else has been enqueued is one batch. */
  lemma Paused(h: History, done: seq<Stretch>, n: nat, rest: seq<Stretch>)
    requires Ready(h, done) && RestOf(h, done, n, rest) && AllTaken(done, n)
    ensures TraceOf(h, 0, n, done + rest)
  {
    PausedLined(h, done, n, rest);
    forall x, z | Again(h, done + rest, x, z) ensures TakenBy(done + rest, x, (done + rest)[z].from) {
      PausedAgain(h, done, n, rest, x, z);
    }
    forall i | 0 <= i < n ensures Held(h, done + rest, i) {
      assert HeldBy(h, done, rest, i);
      JoinHeld(h, done, rest, i);
    }
    forall x | 0 <= x < |done + rest| ensures (done + rest)[x].at < n {
      assert x >= |done| ==> Apart(h, done, n, rest[x - |done|]);
    }
  }

  lemma PausedLined(h: History, done: seq<Stretch>, n: nat, rest: seq<Stretch>)
    requires Ready(h, done) && RestOf(h, done, n, rest)
    ensures In(h, done + rest) && Lined(done + rest)
  {
    forall x, b | 0 <= x < |done| && 0 <= b < |rest| ensures done[x].from < rest[b].from {
      assert Apart(h, done, n, rest[b]) && Later(h, done, rest[b].from);
    }
  }

  lemma PausedAgain(h: History, done: seq<Stretch>, n: nat, rest: seq<Stretch>, x: int, z: int)
    requires Ready(h, done) && RestOf(h, done, n, rest) && In(h, done + rest) && Again(h, done + rest, x, z)
    ensures TakenBy(done + rest, x, (done + rest)[z].from)
  {
    if z < |done| {
      assert Again(h, done, x, z) && TakenBy(done, x, done[z].from);
      TakenStays(done, rest, x, done[z].from);
    } else {
      var b := z - |done|;
      assert !Again(h, rest, x - |done|, b);
      assert Apart(h, done, n, rest[b]) && Later(h, done, rest[b].from);
      TakenStays(done, rest, x, rest[b].from);
    }
  }

  lemma TakenStays(done: seq<Stretch>, rest: seq<Stretch>, x: int, n: int)
    requires 0 <= x < |done| && TakenBy(done, x, n)
    ensures TakenBy(done + rest, x, n)
  {
  }

  // ---------------------------------------------------------------------------------------------
  // Which job comes last
  // ---------------------------------------------------------------------------------------------

  /** Job y is the last one that sets something. */
  ghost predicate Setter(h: History, js: seq<Stretch>, sets: Job -> bool, y: int)
    requires In(h, js)
  {
    0 <= y < |js| && sets(h[js[y].at]) && forall z :: y < z < |js| ==> !sets(h[js[z].at])
  }

  lemma FindSetter(h: History, js: seq<Stretch>, sets: Job -> bool) returns (y: int)
    requires In(h, js)
    ensures if y < 0 then forall x :: 0 <= x < |js| ==> !sets(h[js[x].at]) else Setter(h, js, sets, y)
  {
    y := |js| - 1;
    while y >= 0 && !sets(h[js[y].at])
      invariant -1 <= y < |js| && forall z :: y < z < |js| ==> !sets(h[js[z].at])
    {
      y := y - 1;
    }
  }

  /** Update i is the last one of another document, comes after p and sets it. */
  ghost predicate Rival(h: History, sets: Job -> bool, p: int, i: int)
    requires 0 <= p < |h|
  {
    p < i < |h| && sets(h[i]) && i == LastOf(h, h[i].0) && h[i].0 != h[p].0
  }

  ghost predicate Between(h: History, k: string, lo: int, hi: int) {
    exists i :: 0 <= i < |h| && lo < i < hi && h[i].0 == k
  }

  /** The first update of the document, if p is not that. */
  function Since(h: History, p: nat): int
    requires p < |h|
  {
    var f := FirstFrom(h, h[p].0, 0);
    if f == p then -1 else f
  }

  function NextOf(h: History, a: nat): nat
    requires a < |h|
  {
    FirstFrom(h, h[a].0, a + 1)
  }

  /** The job can be the last to set it: it does, and later versions of its document need not; and all other documents that
      will set it can be in line before, with their last versions. Those that do so after this job got in line must have been
      enqueued before that (and, if this is not the document's first job, after its first update), and their last updates
      must come before the document's next. */
  ghost predicate CanSet(h: History, sets: Job -> bool, j: Stretch) {
    && j.from <= j.at < |h| && h[j.from].0 == h[j.at].0 && sets(h[j.at])
    && (sets(h[LastOf(h, h[j.at].0)]) ==> j.at == LastOf(h, h[j.at].0))
    && forall i :: Rival(h, sets, j.from, i) ==> i < NextOf(h, j.at) && Between(h, h[i].0, Since(h, j.from), j.from)
  }

  lemma SetterCanSet(h: History, js: seq<Stretch>, sets: Job -> bool, y: nat)
    requires IsTrace(h, js) && Setter(h, js, sets, y)
    ensures CanSet(h, sets, js[y])
  {
    var p, a, k := js[y].from, js[y].at, Key(h, js[y]);
    var last := LastJob(h, js, k);
    assert y <= last && (sets(h[LastOf(h, k)]) ==> last == y);
    forall i | Rival(h, sets, p, i) ensures i < NextOf(h, a) && Between(h, h[i].0, Since(h, p), p) {
      RivalBefore(h, js, sets, y, i);
      RivalEnds(h, js, sets, y, i);
    }
  }

  lemma RivalBefore(h: History, js: seq<Stretch>, sets: Job -> bool, y: nat, i: int)
    requires IsTrace(h, js) && Setter(h, js, sets, y) && Rival(h, sets, js[y].from, i)
    ensures Between(h, h[i].0, Since(h, js[y].from), js[y].from)
  {
    var p, f := js[y].from, FirstFrom(h, Key(h, js[y]), 0);
    var x := LastJob(h, js, h[i].0);
    assert x < y && js[x].from < p;
    if f < p {
      var z := FirstJob(h, js, Key(h, js[y]));
      assert Again(h, js, z, y) && TakenBy(js, z, p);
      assert z < x && js[z].from == f < js[x].from;
    }
    assert Since(h, p) < js[x].from < p;
  }

  lemma RivalEnds(h: History, js: seq<Stretch>, sets: Job -> bool, y: nat, i: int)
    requires IsTrace(h, js) && Setter(h, js, sets, y) && Rival(h, sets, js[y].from, i)
    ensures i < NextOf(h, js[y].at)
  {
    var q := NextOf(h, js[y].at);
    var x := LastJob(h, js, h[i].0);
    assert x < y;
    if q < |h| {
      var z := NextJob(h, js, y);
      assert Again(h, js, y, z) && TakenBy(js, y, js[z].from);
    }
  }

  /** The job that starts with the document's next update. */
  lemma NextJob(h: History, js: seq<Stretch>, y: nat) returns (z: nat)
    requires IsTrace(h, js) && y < |js| && NextOf(h, js[y].at) < |h|
    ensures y < z < |js| && Key(h, js[z]) == Key(h, js[y]) && js[z].from == NextOf(h, js[y].at)
  {
    var q := NextOf(h, js[y].at);
    assert Held(h, js, q);
    z :| 0 <= z < |js| && Holds(h, js[z], q);
    assert z < y ==> Again(h, js, z, y);
    assert y < z ==> Again(h, js, y, z) && TakenBy(js, y, js[z].from);
  }

  /** A job of a batch reaches over all updates of its document there. */
  lemma BatchReaches(h: History, lo: nat, hi: nat, js: seq<Stretch>, x: nat, i: nat)
    requires TraceOf(h, lo, hi, js) && Distinct(h, js) && x < |js| && lo <= i < hi && h[i].0 == Key(h, js[x])
    ensures js[x].from <= i <= js[x].at
  {
    assert Held(h, js, i);
    var z :| 0 <= z < |js| && Holds(h, js[z], i);
    assert !Again(h, js, x, z) && !Again(h, js, z, x);
  }

  lemma BatchEnds(h: History, js: seq<Stretch>, x: nat)
    requires IsTrace(h, js) && Distinct(h, js) && x < |js|
    ensures js[x].at == LastOf(h, Key(h, js[x]))
  {
    BatchReaches(h, 0, |h|, js, x, LastOf(h, Key(h, js[x])));
  }

  ghost predicate FreshJob(h: History, j: Stretch, p: nat)
    requires j.at < |h| && p < |h|
  {
    Key(h, j) != h[p].0 && !Between(h, Key(h, j), Since(h, p), p)
  }

  /** The jobs in line after y are of other documents, first enqueued after p or before Since. */
  ghost predicate Fresh(h: History, js: seq<Stretch>, y: nat, p: nat)
    requires In(h, js) && y < |js| && p < |h|
  {
    forall x :: y < x < |js| ==> FreshJob(h, js[x], p)
  }

  /** The document's first job, in one batch up to its next update. */
  lemma FirstJobRun(h: History, j: Stretch) returns (js: seq<Stretch>, y: nat)
    requires j.from <= j.at < |h| && h[j.from].0 == h[j.at].0 && Since(h, j.from) == -1
    ensures TraceOf(h, 0, NextOf(h, j.at), js) && y < |js| && js[y] == j && Fresh(h, js, y, j.from)
  {
    var q := NextOf(h, j.at);
    js := Batch(h, 0, q);
    assert Held(h, js, j.from);
    y :| 0 <= y < |js| && Holds(h, js[y], j.from);
    BatchReaches(h, 0, q, js, y, j.at);
    forall x | y < x < |js| ensures FreshJob(h, js[x], j.from) { BatchFresh(h, j.from, q, js, y, x); }
  }

  lemma BatchFresh(h: History, p: nat, q: nat, js: seq<Stretch>, y: nat, x: nat)
    requires TraceOf(h, 0, q, js) && Distinct(h, js) && p < q && y < x < |js| && Key(h, js[y]) == h[p].0 && js[y].from == p
    requires Since(h, p) == -1
    ensures FreshJob(h, js[x], p)
  {
    assert !Again(h, js, y, x);
    forall i | 0 <= i < p ensures h[i].0 != Key(h, js[x]) {
      if h[i].0 == Key(h, js[x]) { BatchReaches(h, 0, q, js, x, i); }
    }
  }

  /** The document's first job, from f to before, processed after all updates before f. */
  lemma UpToFirst(h: History, k: string, f: nat, before: nat) returns (done: seq<Stretch>)
    requires f <= before < |h| && h[f].0 == k == h[before].0 && forall i :: 0 <= i < f ==> h[i].0 != k
    ensures Ready(h, done) && EndsWith(h, done, f, before)
  {
    var start := BatchWithout(h, k, 0, f);
    var job, x := BatchFor(h, k, f, before);
    assert job[0].from >= f;
    assert x == 0;
    JoinTraces(h, 0, f, before + 1, start, job);
    PrefixReady(h, start + job, before + 1, |start| + 1);
    done := (start + job)[..|start| + 1];
  }

  ghost predicate AllTaken(done: seq<Stretch>, n: nat) {
    forall x :: 0 <= x < |done| ==> done[x].at < n
  }

  lemma EndsTaken(h: History, done: seq<Stretch>, f: nat, before: nat, p: nat)
    requires In(h, done) && EndsWith(h, done, f, before) && f <= before < p
    ensures AllTaken(done, p)
  {
  }

  /** Jobs that end before f, and one of k from f to before. */
  ghost predicate EndsWith(h: History, done: seq<Stretch>, f: nat, before: nat)
    requires In(h, done)
  {
    && done != [] && done[|done| - 1] == Stretch(f, before)
    && forall x :: 0 <= x < |done| - 1 ==> done[x].at < f
  }

  lemma HeldAtEnd(h: History, done: seq<Stretch>, f: nat, before: nat, i: nat)
    requires In(h, done) && EndsWith(h, done, f, before) && i < |h|
    ensures f <= i <= before && h[i].0 == h[before].0 ==> Held(h, done, i)
    ensures f <= i && Held(h, done, i) ==> i <= before && h[i].0 == h[before].0
  {
    if f <= i <= before && h[i].0 == h[before].0 { assert Holds(h, done[|done| - 1], i); }
    if x :| 0 <= x < |done| && Holds(h, done[x], i) {
      if f <= i { assert x == |done| - 1; }
    }
  }

  /** Of the updates from the document's first one to p, those of the document are done. */
  ghost predicate DoneUntil(h: History, done: seq<Stretch>, p: nat)
    requires In(h, done) && p < |h|
  {
    forall i :: FirstFrom(h, h[p].0, 0) <= i < p ==> (Held(h, done, i) <==> h[i].0 == h[p].0)
  }

  lemma EndsUntil(h: History, done: seq<Stretch>, p: nat, before: nat)
    requires In(h, done) && p < |h| && EndsWith(h, done, FirstFrom(h, h[p].0, 0), before) && before < p && h[before].0 == h[p].0
    requires forall i :: before < i < p ==> h[i].0 != h[p].0
    ensures DoneUntil(h, done, p)
  {
    var f := FirstFrom(h, h[p].0, 0);
    forall i | f <= i < p ensures Held(h, done, i) <==> h[i].0 == h[p].0 { HeldAtEnd(h, done, f, before, i); }
  }

  /** The document's first job, processed just before p. */
  lemma UntilAgain(h: History, p: nat) returns (done: seq<Stretch>)
    requires p < |h| && Since(h, p) >= 0
    ensures Ready(h, done) && DoneUntil(h, done, p) && AllTaken(done, p)
  {
    var before := PreviousUpdate(h, p);
    done := UpToFirst(h, h[p].0, FirstFrom(h, h[p].0, 0), before);
    EndsUntil(h, done, p, before);
    EndsTaken(h, done, FirstFrom(h, h[p].0, 0), before, p);
  }

  lemma PreviousUpdate(h: History, p: nat) returns (before: nat)
    requires p < |h| && Since(h, p) >= 0
    ensures FirstFrom(h, h[p].0, 0) <= before < p && h[before].0 == h[p].0 && forall i :: before < i < p ==> h[i].0 != h[p].0
  {
    var f := FirstFrom(h, h[p].0, 0);
    before := p - 1;
    while h[before].0 != h[p].0
      invariant f <= before < p && forall i :: before < i < p ==> h[i].0 != h[p].0
      decreases before
    {
      before := before - 1;
    }
  }

  /** A later job of the document: its first is taken just before, and the rest up to its next update is one batch. */
  lemma LaterJobRun(h: History, j: Stretch) returns (js: seq<Stretch>, y: nat)
    requires j.from <= j.at < |h| && h[j.from].0 == h[j.at].0 && Since(h, j.from) >= 0
    ensures TraceOf(h, 0, NextOf(h, j.at), js) && y < |js| && js[y] == j && Fresh(h, js, y, j.from)
  {
    var p, q := j.from, NextOf(h, j.at);
    var done := UntilAgain(h, p);
    var rest := RestBatch(h, done, q);
    Paused(h, done, q, rest);
    var b := RestJob(h, done, j, rest);
    js, y := done + rest, |done| + b;
    RestIsFresh(h, done, j, rest, b);
    assert forall x :: y < x < |js| ==> js[x] == rest[x - |done|];
  }

  lemma RestJob(h: History, done: seq<Stretch>, j: Stretch, rest: seq<Stretch>) returns (b: nat)
    requires j.from <= j.at < |h| && h[j.from].0 == h[j.at].0 && In(h, done) && RestOf(h, done, NextOf(h, j.at), rest)
    requires DoneUntil(h, done, j.from) && AllTaken(done, j.from)
    ensures b < |rest| && rest[b] == j
  {
    forall i | j.from <= i < |h| ensures !Held(h, done, i) {}
    assert HeldBy(h, done, rest, j.from);
    b :| 0 <= b < |rest| && Holds(h, rest[b], j.from);
    RestEnds(h, done, NextOf(h, j.at), rest, b, j.at);
  }

  lemma RestIsFresh(h: History, done: seq<Stretch>, j: Stretch, rest: seq<Stretch>, b: nat)
    requires j.from <= j.at < |h| && h[j.from].0 == h[j.at].0 && In(h, done) && RestOf(h, done, NextOf(h, j.at), rest)
    requires b < |rest| && rest[b] == j && Since(h, j.from) >= 0 && DoneUntil(h, done, j.from)
    ensures forall c :: b < c < |rest| ==> FreshJob(h, rest[c], j.from)
  {
    forall c | b < c < |rest| ensures FreshJob(h, rest[c], j.from) {
      assert rest[b].from < rest[c].from;
      RestFresh(h, done, j, rest, b, c);
    }
  }

  lemma RestFresh(h: History, done: seq<Stretch>, j: Stretch, rest: seq<Stretch>, b: nat, c: nat)
    requires j.from <= j.at < |h| && h[j.from].0 == h[j.at].0 && In(h, done) && RestOf(h, done, NextOf(h, j.at), rest)
    requires b < c < |rest| && rest[b] == j && j.from < rest[c].from && Since(h, j.from) >= 0 && DoneUntil(h, done, j.from)
    ensures FreshJob(h, rest[c], j.from)
  {
    assert !Again(h, rest, b, c);
    forall i | Since(h, j.from) < i < j.from ensures h[i].0 != Key(h, rest[c]) {
      if h[i].0 == Key(h, rest[c]) {
        assert !Held(h, done, i);
        RestEnds(h, done, NextOf(h, j.at), rest, c, i);
      }
    }
  }

  /** The worker pauses after the job; the rest of the updates are one batch, and set nothing. */
  lemma FinishRun(h: History, sets: Job -> bool, j: Stretch, early: seq<Stretch>, y: nat) returns (js: seq<Stretch>)
    requires CanSet(h, sets, j) && TraceOf(h, 0, NextOf(h, j.at), early) && y < |early| && early[y] == j
    requires Fresh(h, early, y, j.from)
    ensures IsTrace(h, js) && Setter(h, js, sets, y) && js[y] == j
  {
    var done := early[..y + 1];
    PrefixReady(h, early, NextOf(h, j.at), y + 1);
    var rest := RestBatch(h, done, |h|);
    Paused(h, done, |h|, rest);
    js := done + rest;
    forall z | y < z < |js| ensures !sets(h[js[z].at]) {
      assert js[z] == rest[z - |done|];
      RestUnset(h, sets, j, early, y, rest, z - |done|);
    }
  }

  /** A job that can be the last to set it, is. */
  lemma SetRun(h: History, sets: Job -> bool, j: Stretch) returns (js: seq<Stretch>, y: nat)
    requires CanSet(h, sets, j)
    ensures IsTrace(h, js) && Setter(h, js, sets, y) && js[y] == j
  {
    var early := [];
    if Since(h, j.from) < 0 { early, y := FirstJobRun(h, j); } else { early, y := LaterJobRun(h, j); }
    js := FinishRun(h, sets, j, early, y);
  }

  /** The last version of a document with updates that are not done is not done. */
  lemma LastNotDone(h: History, done: seq<Stretch>, i: nat)
    requires Ready(h, done) && i < |h| && !Held(h, done, i)
    ensures LastOf(h, h[i].0) >= i && !Held(h, done, LastOf(h, h[i].0))
  {
    var m := LastOf(h, h[i].0);
    assert Later(h, done, i);
    forall x | 0 <= x < |done| ensures !Holds(h, done[x], m) {
      assert Key(h, done[x]) == h[i].0 ==> TakenBy(done, x, i);
    }
  }

  lemma RestUnset(h: History, sets: Job -> bool, j: Stretch, js: seq<Stretch>, y: nat, rest: seq<Stretch>, b: nat)
    requires CanSet(h, sets, j) && TraceOf(h, 0, NextOf(h, j.at), js) && y < |js| && js[y] == j && Fresh(h, js, y, j.from)
    requires Ready(h, js[..y + 1]) && RestOf(h, js[..y + 1], |h|, rest) && b < |rest|
    ensures !sets(h[rest[b].at])
  {
    var done, m := js[..y + 1], LastOf(h, Key(h, rest[b]));
    LastNotDone(h, done, rest[b].at);
    RestEnds(h, done, |h|, rest, b, m);
    PrefixHeld(h, js, y + 1, m);
    assert Later(h, done, m) && done[y] == j && Holds(h, js[y], j.at);
    if sets(h[m]) && h[m].0 != h[j.at].0 {
      RivalNotLater(h, sets, j, js, y, m);
    }
  }

  lemma RivalNotLater(h: History, sets: Job -> bool, j: Stretch, js: seq<Stretch>, y: nat, m: int)
    requires CanSet(h, sets, j) && TraceOf(h, 0, NextOf(h, j.at), js) && y < |js| && Fresh(h, js, y, j.from)
    requires Rival(h, sets, j.from, m)
    ensures exists x :: 0 <= x <= y && Holds(h, js[x], m)
  {
    assert m < NextOf(h, j.at) && Between(h, h[m].0, Since(h, j.from), j.from);
    assert Held(h, js, m);
    var x :| 0 <= x < |js| && Holds(h, js[x], m);
  }

  /** The jobs that can be the last to set it. */
  lemma SettersExact(h: History, sets: Job -> bool, j: Stretch)
    ensures (exists js, y :: IsTrace(h, js) && Setter(h, js, sets, y) && js[y] == j) <==> CanSet(h, sets, j)
  {
    if js, y :| IsTrace(h, js) && Setter(h, js, sets, y) && js[y] == j { SetterCanSet(h, js, sets, y); }
    if CanSet(h, sets, j) { var js, y := SetRun(h, sets, j); }
  }

  /** No document sets it in its last version. */
  ghost predicate LastsUnset(h: History, sets: Job -> bool) {
    forall i :: 0 <= i < |h| && i == LastOf(h, h[i].0) ==> !sets(h[i])
  }

  ghost predicate Unset(h: History, js: seq<Stretch>, sets: Job -> bool)
    requires In(h, js)
  {
    forall x :: 0 <= x < |js| ==> !sets(h[js[x].at])
  }

  /** Then, and only then, it may be that no job does. */
  lemma UnsetExact(h: History, sets: Job -> bool)
    ensures (exists js :: IsTrace(h, js) && Unset(h, js, sets)) <==> LastsUnset(h, sets)
  {
    if js :| IsTrace(h, js) && Unset(h, js, sets) {
      forall i | 0 <= i < |h| && i == LastOf(h, h[i].0) ensures !sets(h[i]) { var x := LastJob(h, js, h[i].0); }
    }
    if LastsUnset(h, sets) {
      var js := Batch(h, 0, |h|);
      forall x | 0 <= x < |js| ensures !sets(h[js[x].at]) { BatchEnds(h, js, x); }
      assert IsTrace(h, js) && Unset(h, js, sets);
    }
  }
}
