/** Group commit on a store that fails only on documents it rejects, and then without effect: in every interleaving
    exactly the good documents are stored, in arrival order, and each request is answered by its own document. */
module CleanFailures {

  import opened Prelude
  import opened JsonValues
  import opened Documents
  import opened WriteRoutes
  import opened GroupCommit

  /** A store call of this step that fails contains a rejected document and changes nothing. */
  ghost predicate FailsCleanly(c: Config, s: State, w: nat, t: State)
    requires w < |s.writers|
  {
    match s.writers[w]
    case Cutting(batch, start) =>
      start < |batch| && ChunkEndOf(c, batch, start) > start + 1 && t.failed
        && t.writers == s.writers[w := Putting(batch, ChunkEndOf(c, batch, start), start)] ==>
        t.docs == s.docs && exists d :: d in DocsOf(batch[start..ChunkEndOf(c, batch, start)]) && c.rejects(d)
    case Putting(batch, end, next) =>
      next < end <= |batch| && t.writers == s.writers[w := Answering(batch, end, next, false)] ==>
        t.docs == s.docs && c.rejects(batch[next].doc)
    case _ => true
  }

  ghost predicate CleanStep(c: Config, s: State, step: Step, t: State) {
    step.Work? ==> step.w < |s.writers| && FailsCleanly(c, s, step.w, t)
  }

  ghost predicate IsCleanRun(c: Config, states: seq<State>, steps: seq<Step>) {
    IsRun(c, states, steps) && forall i :: 0 <= i < |steps| ==> CleanStep(c, states[i], steps[i], states[i + 1])
  }

  /** Request id has been answered so, or is about to be. */
  ghost predicate Decided(s: State, id: nat, ok: bool) {
    || (id in s.answers && s.answers[id] == ok)
    || (Latest(s).Answering? && Latest(s).ok == ok && id == Answered(s))
    || (Latest(s).Confirming? && ok && Answered(s) <= id < Answered(s) + Ahead(Latest(s)))
  }

  ghost predicate Right(c: Config, arrived: seq<Json>, id: nat, ok: bool) {
    id < |arrived| && (ok <==> !c.rejects(arrived[id]))
  }

  /** How many documents have been through a store call that settles them. */
  function Written(s: State): int {
    Answered(s) + Ahead(Latest(s))
  }

  ghost predicate GoodSoFar(c: Config, init: Docs, s: State) {
    && 0 <= Written(s) <= |s.arrived|
    && s.docs == PutDocs(init, Good(s.arrived[..Written(s)], c.rejects))
    && forall id: nat, ok :: Decided(s, id, ok) ==> Right(c, s.arrived, id, ok)
  }

  /** No document is settled by the step, and no request newly decided. */
  lemma QuietGood(c: Config, init: Docs, s: State, t: State)
    requires GoodSoFar(c, init, s) && t.docs == s.docs && s.arrived <= t.arrived && Written(t) == Written(s)
    requires forall id: nat, ok :: Decided(t, id, ok) ==> Decided(s, id, ok)
    ensures GoodSoFar(c, init, t)
  {
    assert t.arrived[..Written(t)] == s.arrived[..Written(s)];
    forall id: nat, ok | Decided(t, id, ok) ensures Right(c, t.arrived, id, ok) {
      assert Right(c, s.arrived, id, ok);
    }
  }

  /** What is newly decided is right. */
  ghost predicate NewlyRight(c: Config, s: State, t: State) {
    forall id: nat, ok :: Decided(t, id, ok) ==> Decided(s, id, ok) || Right(c, s.arrived, id, ok)
  }

  /** The next n documents have been settled: the good ones of them are stored. */
  lemma StoredGoodNext(c: Config, init: Docs, s: State, ds: seq<Json>, good: seq<Json>, t: State)
    requires GoodSoFar(c, init, s) && t.arrived == s.arrived && Written(t) == Written(s) + |ds| <= |s.arrived|
    requires ds == s.arrived[Written(s)..Written(t)] && good == Good(ds, c.rejects) && t.docs == PutDocs(s.docs, good)
    requires NewlyRight(c, s, t)
    ensures GoodSoFar(c, init, t)
  {
    var p, q := Written(s), Written(t);
    assert s.arrived[..q] == s.arrived[..p] + ds;
    GoodInSteps(init, s.arrived[..p], ds, c.rejects);
  }

  lemma ArriveGood(c: Config, init: Docs, s: State, ds: seq<Json>, t: State)
    requires Inv(c, init, s) && GoodSoFar(c, init, s) && Next(c, s, Arrive(ds), t)
    ensures GoodSoFar(c, init, t)
  {
    assert Latest(t) == Latest(s) || (Latest(s).Exited? && Latest(t).AtTop?);
    assert Unanswered(t) == Unanswered(s) + Requests(|s.arrived|, ds);
    QuietGood(c, init, s, t);
  }

  lemma PutAllGood(c: Config, init: Docs, s: State, w: nat, batch: seq<Request>, start: nat, end: nat, t: State)
    requires Inv(c, init, s) && GoodSoFar(c, init, s) && WritesAt(s, w, Cutting(batch, start))
    requires start < |batch| && end == ChunkEndOf(c, batch, start) > start + 1
    requires WorkTo(c, s, w, t) && FailsCleanly(c, s, w, t)
    ensures GoodSoFar(c, init, t)
  {
    LiveIsLatest(s, w);
    PutAllOutcome(c, s, w, batch, start, end, t);
    if t.docs == s.docs && Latest(t) == Putting(batch, end, start) {
      assert Unanswered(t) == Unanswered(s);
      QuietGood(c, init, s, t);
    } else {
      BeginsToConfirm(c, s, batch, start, end, t);
      ConfirmsGood(c, init, s, DocsOf(batch[start..end]), t);
    }
  }

  lemma PutAllOutcome(c: Config, s: State, w: nat, batch: seq<Request>, start: nat, end: nat, t: State)
    requires w == |s.writers| - 1 && s.writers[w] == Cutting(batch, start)
    requires start < |batch| && end == ChunkEndOf(c, batch, start) > start + 1
    requires WorkTo(c, s, w, t) && FailsCleanly(c, s, w, t)
    ensures t.arrived == s.arrived && t.answers == s.answers && t.queue == s.queue
    ensures || (t.docs == s.docs && Latest(t) == Putting(batch, end, start))
            || (t.docs == PutDocs(s.docs, DocsOf(batch[start..end])) && Latest(t) == Confirming(batch, end, start)
                && forall d :: d in DocsOf(batch[start..end]) ==> !c.rejects(d))
  {
  }

  /** The writer is about to confirm ds, the next documents to be answered, all of them good. */
  ghost predicate Confirms(c: Config, s: State, ds: seq<Json>, t: State) {
    && Latest(t).Confirming? && t.answers == s.answers && t.arrived == s.arrived
    && 0 <= Answered(s) == Answered(t) && Ahead(Latest(s)) == 0 && Ahead(Latest(t)) == |ds|
    && Answered(s) + |ds| <= |s.arrived| && ds == s.arrived[Answered(s)..Answered(s) + |ds|]
    && forall d :: d in ds ==> !c.rejects(d)
  }

  lemma BeginsToConfirm(c: Config, s: State, batch: seq<Request>, start: nat, end: nat, t: State)
    requires InOrder(s) && Latest(s) == Cutting(batch, start) && start <= end <= |batch|
    requires t.arrived == s.arrived && t.answers == s.answers && t.queue == s.queue && Latest(t) == Confirming(batch, end, start)
    requires forall d :: d in DocsOf(batch[start..end]) ==> !c.rejects(d)
    ensures Confirms(c, s, DocsOf(batch[start..end]), t)
  {
    assert Unanswered(t) == Unanswered(s);
    DocsOfUnanswered(s, batch, start, end);
  }

  lemma ConfirmedIsRight(c: Config, s: State, ds: seq<Json>, t: State)
    requires Confirms(c, s, ds, t)
    ensures NewlyRight(c, s, t)
  {
    forall id: nat, ok | Decided(t, id, ok) ensures Decided(s, id, ok) || Right(c, s.arrived, id, ok) {
      if !(id in s.answers && s.answers[id] == ok) {
        assert ds[id - Answered(s)] == s.arrived[id] && ds[id - Answered(s)] in ds;
      }
    }
  }

  /** A PutAll of the next documents has succeeded. */
  lemma ConfirmsGood(c: Config, init: Docs, s: State, ds: seq<Json>, t: State)
    requires GoodSoFar(c, init, s) && Confirms(c, s, ds, t) && t.docs == PutDocs(s.docs, ds)
    ensures GoodSoFar(c, init, t)
  {
    var good := Good(ds, c.rejects);
    assert good == ds by { AllGood(ds, c.rejects); }
    assert NewlyRight(c, s, t) by { ConfirmedIsRight(c, s, ds, t); }
    ConfirmedSlice(c, s, ds, t);
    StoredGoodNext(c, init, s, ds, good, t);
  }

  lemma ConfirmedSlice(c: Config, s: State, ds: seq<Json>, t: State)
    requires Confirms(c, s, ds, t)
    ensures Written(t) == Written(s) + |ds| <= |s.arrived| && 0 <= Written(s) && ds == s.arrived[Written(s)..Written(t)]
  {
  }

  /** A Put of the next document has succeeded, or failed cleanly. */
  lemma OneGood(c: Config, init: Docs, s: State, d: Json, t: State)
    requires InOrder(s) && GoodSoFar(c, init, s) && Ahead(Latest(s)) == 0 && !Latest(s).Answering? && Latest(t).Answering?
    requires Unanswered(t) == Unanswered(s) && Unanswered(s) != [] && d == s.arrived[Written(s)]
    requires t.arrived == s.arrived && t.answers == s.answers
    requires t.docs == (if c.rejects(d) then s.docs else PutDoc(s.docs, d)) && Latest(t).ok == !c.rejects(d)
    ensures GoodSoFar(c, init, t)
  {
    var p := Written(s);
    assert s.arrived[p..p + 1] == [d];
    assert Good([d], c.rejects) == if c.rejects(d) then [] else [d];
    assert PutDocs(s.docs, [d]) == PutDocs(PutDoc(s.docs, d), []);
    StoredGoodNext(c, init, s, [d], Good([d], c.rejects), t);
  }

  lemma PutGood(c: Config, init: Docs, s: State, w: nat, batch: seq<Request>, end: nat, next: nat, t: State)
    requires Inv(c, init, s) && GoodSoFar(c, init, s) && WritesAt(s, w, Putting(batch, end, next)) && next < end <= |batch|
    requires WorkTo(c, s, w, t) && FailsCleanly(c, s, w, t)
    ensures GoodSoFar(c, init, t)
  {
    LiveIsLatest(s, w);
    assert Unanswered(s)[0] == batch[next] && Unanswered(t) == Unanswered(s);
    OneGood(c, init, s, batch[next].doc, t);
  }

  lemma SentGood(c: Config, init: Docs, s: State, ok: bool, t: State)
    requires InOrder(s) && GoodSoFar(c, init, s) && Unanswered(s) != [] && Decided(s, Answered(s), ok)
    requires t.docs == s.docs && t.arrived == s.arrived && t.answers == s.answers[Unanswered(s)[0].id := ok]
    requires Unanswered(t) == Unanswered(s)[1..] && Ahead(Latest(t)) + 1 == Ahead(Latest(s)) && !Latest(t).Answering?
    requires Latest(t).Confirming? ==> Latest(s).Confirming?
    ensures GoodSoFar(c, init, t)
  {
    assert Unanswered(s)[0].id == Answered(s);
    QuietGood(c, init, s, t);
  }

  /** The writer moves without a store call or an answer. */
  lemma MovedGood(c: Config, init: Docs, s: State, t: State)
    requires GoodSoFar(c, init, s) && t.docs == s.docs && t.arrived == s.arrived && t.answers == s.answers
    requires Unanswered(t) == Unanswered(s) && Ahead(Latest(s)) == 0 == Ahead(Latest(t)) && !Latest(t).Answering?
    ensures GoodSoFar(c, init, t)
  {
    QuietGood(c, init, s, t);
  }

  lemma DrainGood(c: Config, init: Docs, s: State, w: nat, t: State)
    requires Inv(c, init, s) && GoodSoFar(c, init, s) && WritesAt(s, w, AtTop) && WorkTo(c, s, w, t)
    ensures GoodSoFar(c, init, t)
  {
    LiveIsLatest(s, w);
    assert Unanswered(t) == Unanswered(s);
    MovedGood(c, init, s, t);
  }

  lemma CutGood(c: Config, init: Docs, s: State, w: nat, batch: seq<Request>, start: nat, t: State)
    requires Inv(c, init, s) && GoodSoFar(c, init, s) && WritesAt(s, w, Cutting(batch, start)) && WorkTo(c, s, w, t)
    requires start >= |batch| || ChunkEndOf(c, batch, start) == start + 1
    ensures GoodSoFar(c, init, t)
  {
    LiveIsLatest(s, w);
    if start >= |batch| { assert batch[start..] == []; }
    MovedGood(c, init, s, t);
  }

  lemma AnswerGood(c: Config, init: Docs, s: State, w: nat, batch: seq<Request>, end: nat, next: nat, ok: bool, t: State)
    requires Inv(c, init, s) && GoodSoFar(c, init, s) && WritesAt(s, w, Answering(batch, end, next, ok)) && WorkTo(c, s, w, t)
    ensures GoodSoFar(c, init, t)
  {
    LiveIsLatest(s, w);
    assert Unanswered(s)[0] == batch[next];
    SentGood(c, init, s, ok, t);
  }

  lemma ConfirmGood(c: Config, init: Docs, s: State, w: nat, batch: seq<Request>, end: nat, next: nat, t: State)
    requires Inv(c, init, s) && GoodSoFar(c, init, s) && WritesAt(s, w, Confirming(batch, end, next)) && WorkTo(c, s, w, t)
    ensures GoodSoFar(c, init, t)
  {
    LiveIsLatest(s, w);
    if next < end {
      assert Unanswered(s)[0] == batch[next];
      SentGood(c, init, s, true, t);
    } else {
      MovedGood(c, init, s, t);
    }
  }

  lemma WrittenGood(c: Config, init: Docs, s: State, w: nat, batch: seq<Request>, end: nat, next: nat, t: State)
    requires Inv(c, init, s) && GoodSoFar(c, init, s) && WritesAt(s, w, Putting(batch, end, next)) && next >= end
    requires t == s.(writers := s.writers[w := Cutting(batch, end)])
    ensures GoodSoFar(c, init, t)
  {
    LiveIsLatest(s, w);
    MovedGood(c, init, s, t);
  }

  lemma WorkGood(c: Config, init: Docs, s: State, w: nat, t: State)
    requires Inv(c, init, s) && GoodSoFar(c, init, s) && w < |s.writers| && WorkTo(c, s, w, t) && FailsCleanly(c, s, w, t)
    ensures GoodSoFar(c, init, t)
  {
    match s.writers[w] {
      case AtTop => DrainGood(c, init, s, w, t);
      case Cutting(batch, start) =>
        if start < |batch| && ChunkEndOf(c, batch, start) > start + 1 {
          PutAllGood(c, init, s, w, batch, start, ChunkEndOf(c, batch, start), t);
        } else {
          CutGood(c, init, s, w, batch, start, t);
        }
      case Putting(batch, end, next) =>
        LiveIsLatest(s, w);
        if next < end {
          PutGood(c, init, s, w, batch, end, next, t);
        } else {
          WrittenGood(c, init, s, w, batch, end, next, t);
        }
      case Answering(batch, end, next, ok) => AnswerGood(c, init, s, w, batch, end, next, ok, t);
      case Confirming(batch, end, next) => ConfirmGood(c, init, s, w, batch, end, next, t);
    }
  }

  lemma StepGood(c: Config, init: Docs, s: State, step: Step, t: State)
    requires Inv(c, init, s) && GoodSoFar(c, init, s) && Next(c, s, step, t) && CleanStep(c, s, step, t)
    ensures GoodSoFar(c, init, t)
  {
    match step {
      case Arrive(ds) => ArriveGood(c, init, s, ds, t);
      case Receive(id) => ReceiveGood(c, init, s, id, t);
      case Work(w) => WorkGood(c, init, s, w, t);
    }
  }

  lemma ReceiveGood(c: Config, init: Docs, s: State, id: nat, t: State)
    requires GoodSoFar(c, init, s) && Next(c, s, Receive(id), t)
    ensures GoodSoFar(c, init, t)
  {
    assert Unanswered(t) == Unanswered(s) && Latest(t) == Latest(s);
    QuietGood(c, init, s, t);
  }

  lemma InitGood(c: Config, s: State)
    requires Init(c, s)
    ensures GoodSoFar(c, s.docs, s)
  {
    assert Unanswered(s) == [] && s.arrived[..0] == [];
  }

  lemma {:induction false} RunGood(c: Config, states: seq<State>, steps: seq<Step>, n: nat)
    requires IsCleanRun(c, states, steps) && n < |states|
    ensures GoodSoFar(c, states[0].docs, states[n])
  {
    if n == 0 {
      InitGood(c, states[0]);
    } else {
      RunInv(c, states, steps, n - 1);
      RunGood(c, states, steps, n - 1);
      StepGood(c, states[0].docs, states[n - 1], steps[n - 1], states[n]);
    }
  }

  /** In every interleaving: every answer given tells whether the document is good, and when no writer can move the store
      is what putting the good documents one at a time in arrival order makes of it. */
  lemma GoodDocumentsStored(c: Config, states: seq<State>, steps: seq<Step>, n: nat)
    requires IsCleanRun(c, states, steps) && n < |states|
    ensures forall id :: id in states[n].answers ==>
              id < |states[n].arrived| && (states[n].answers[id] <==> !c.rejects(states[n].arrived[id]))
    ensures (forall w, t :: !Next(c, states[n], Work(w), t)) ==>
              && (forall id: nat :: id in states[n].answers <==> id < |states[n].arrived|)
              && states[n].docs == PutDocs(states[0].docs, Good(states[n].arrived, c.rejects))
  {
    var s := states[n];
    RunGood(c, states, steps, n);
    RunInv(c, states, steps, n);
    forall id | id in s.answers ensures id < |s.arrived| && (s.answers[id] <==> !c.rejects(s.arrived[id])) {
      assert Decided(s, id, s.answers[id]);
      assert Right(c, s.arrived, id, s.answers[id]);
    }
    if forall w, t :: !Next(c, s, Work(w), t) {
      QuietMeansDone(c, states, steps, n);
      AnswersAreInitial(s);
      assert Answered(s) in s.answers <==> Answered(s) < |s.arrived|;
      assert Unanswered(s) == [] && Written(s) == |s.arrived|;
      assert s.arrived[..|s.arrived|] == s.arrived;
    }
  }
}
