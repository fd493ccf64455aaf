/** Merging rows from several places: dedupeByID (app/query_handler.go), the parallel dedupResults (app/service.go)
    and persistRemoteRows (app/query_fastpath.go). */
module Merging {

  import opened Prelude
  import opened JsonValues
  import opened Documents
  import opened WriteRoutes
  import opened Chunking

  /** id, _ := r["_id"].(string). */
  function IdOf(row: Fields): string {
    match KeyOf(Obj(row))
    case Some(id) => id
    case None => ""
  }

  /** The id is the text under "_id", and empty when there is none. */
  lemma IdOfIs(row: Fields, id: string)
    requires id != ""
    ensures IdOf(row) == id <==> "_id" in row && row["_id"] == Str(id)
  {
  }

  // ---------------------------------------------------------------------------------------------
  // dedupeByID
  // ---------------------------------------------------------------------------------------------

  /** Row i has no id, or is the first with its id. */
  predicate FirstOfId(rows: seq<Fields>, i: nat)
    requires i < |rows|
  {
    IdOf(rows[i]) == "" || forall j :: 0 <= j < i ==> IdOf(rows[j]) != IdOf(rows[i])
  }

  /** The first row of every id, and every row without one, in order. */
  function Firsts(rows: seq<Fields>, n: nat): seq<Fields>
    requires n <= |rows|
  {
    if n == 0 then []
    else if FirstOfId(rows, n - 1) then Firsts(rows, n - 1) + [rows[n - 1]]
    else Firsts(rows, n - 1)
  }

  function Deduped(rows: seq<Fields>): seq<Fields> {
    Firsts(rows, |rows|)
  }

  method DedupeByID(rows: seq<Fields>) returns (out: seq<Fields>)
    ensures out == Deduped(rows) && OnePerId(rows, out)
  {
    var seen: set<string> := {};
    out := [];
    for i := 0 to |rows|
      invariant out == Firsts(rows, i)
      invariant forall id :: id in seen <==> id != "" && exists j :: 0 <= j < i && IdOf(rows[j]) == id
    {
      var id := IdOf(rows[i]);
      if id == "" {
        out := out + [rows[i]];
      } else if id !in seen {
        assert FirstOfId(rows, i);
        seen := seen + {id};
        out := out + [rows[i]];
      }
    }
    DedupedIsOnePerId(rows);
  }

  ghost predicate HasId(rows: seq<Fields>, id: string) {
    exists j :: 0 <= j < |rows| && IdOf(rows[j]) == id
  }

  ghost predicate DistinctIds(rows: seq<Fields>) {
    forall i, j :: 0 <= i < j < |rows| && IdOf(rows[i]) != "" ==> IdOf(rows[i]) != IdOf(rows[j])
  }

  lemma HasIdSnoc(rows: seq<Fields>, row: Fields, id: string)
    ensures HasId(rows + [row], id) <==> HasId(rows, id) || IdOf(row) == id
  {
    var all := rows + [row];
    assert all[|rows|] == row;
    if j :| 0 <= j < |rows| && IdOf(rows[j]) == id { assert IdOf(all[j]) == id; }
  }

  /** Ids occur once in the output, and exactly the ids of the input occur. */
  lemma {:induction false} FirstsIds(rows: seq<Fields>, n: nat)
    requires n <= |rows|
    ensures DistinctIds(Firsts(rows, n))
    ensures forall id :: HasId(Firsts(rows, n), id) <==> HasId(rows[..n], id)
  {
    if n > 0 {
      FirstsIds(rows, n - 1);
      var row := rows[n - 1];
      assert rows[..n] == rows[..n - 1] + [row];
      assert FirstOfId(rows, n - 1) <==> IdOf(row) == "" || !HasId(rows[..n - 1], IdOf(row));
      forall id ensures HasId(Firsts(rows, n), id) <==> HasId(rows[..n], id) {
        HasIdSnoc(rows[..n - 1], row, id);
        HasIdSnoc(Firsts(rows, n - 1), row, id);
      }
    }
  }

  lemma {:induction false} FirstsCount(rows: seq<Fields>, n: nat, row: Fields)
    requires n <= |rows|
    ensures multiset(Firsts(rows, n))[row] <= multiset(rows[..n])[row]
    ensures IdOf(row) == "" ==> multiset(Firsts(rows, n))[row] == multiset(rows[..n])[row]
  {
    if n > 0 {
      FirstsCount(rows, n - 1, row);
      assert rows[..n] == rows[..n - 1] + [rows[n - 1]];
      CountNext(Firsts(rows, n - 1), rows[..n - 1], rows[n - 1], FirstOfId(rows, n - 1), row);
    }
  }

  /** Every row of the output is one of the input, every id of the input occurs on exactly one of them, and rows
      without an id are all there. */
  ghost predicate OnePerId(rows: seq<Fields>, out: seq<Fields>) {
    && (forall r :: r in out ==> r in rows)
    && DistinctIds(out)
    && (forall id :: HasId(out, id) <==> HasId(rows, id))
    && (forall r :: IdOf(r) == "" ==> multiset(out)[r] == multiset(rows)[r])
  }

  lemma DedupedIsOnePerId(rows: seq<Fields>)
    ensures OnePerId(rows, Deduped(rows))
  {
    FirstsIds(rows, |rows|);
    assert rows[..|rows|] == rows;
    forall r
      ensures r in Deduped(rows) ==> r in rows
      ensures IdOf(r) == "" ==> multiset(Deduped(rows))[r] == multiset(rows)[r]
    {
      FirstsCount(rows, |rows|, r);
      assert r in Deduped(rows) <==> multiset(Deduped(rows))[r] > 0;
      assert r in rows <==> multiset(rows)[r] > 0;
    }
  }

  /** Rows with pairwise different ids, or without, are all kept. */
  lemma {:induction false} AllFirst(rows: seq<Fields>, n: nat)
    requires n <= |rows|
    requires DistinctIds(rows)
    ensures Firsts(rows, n) == rows[..n]
  {
    if n > 0 {
      AllFirst(rows, n - 1);
      assert rows[..n] == rows[..n - 1] + [rows[n - 1]];
    }
  }

  /** Deduplicating twice is deduplicating once. */
  lemma DedupeIdempotent(rows: seq<Fields>)
    ensures Deduped(Deduped(rows)) == Deduped(rows)
  {
    FirstsIds(rows, |rows|);
    AllFirst(Deduped(rows), |Deduped(rows)|);
    assert Deduped(rows)[..|Deduped(rows)|] == Deduped(rows);
  }

  lemma {:induction false} FirstsOfPrefix(local: seq<Fields>, remote: seq<Fields>, n: nat)
    requires n <= |local|
    ensures Firsts(local + remote, n) == Firsts(local, n)
  {
    if n > 0 {
      FirstsOfPrefix(local, remote, n - 1);
      assert forall j :: 0 <= j < n ==> (local + remote)[j] == local[j];
    }
  }

  lemma {:induction false} FirstsGrow(rows: seq<Fields>, m: nat, n: nat)
    requires m <= n <= |rows|
    ensures Firsts(rows, m) <= Firsts(rows, n)
  {
    if m < n { FirstsGrow(rows, m, n - 1); }
  }

  /** With local rows first, the deduplicated local rows open the result, and no remote row follows with one of
      their ids: the local version of every id is kept. */
  lemma LocalVersionKept(local: seq<Fields>, remote: seq<Fields>)
    ensures var out := Deduped(local + remote);
            Deduped(local) <= out
            && forall i, l :: |Deduped(local)| <= i < |out| && l in local && IdOf(l) != "" ==> IdOf(out[i]) != IdOf(l)
  {
    var all := local + remote;
    FirstsOfPrefix(local, remote, |local|);
    FirstsGrow(all, |local|, |all|);
    FirstsIds(all, |all|);
    FirstsIds(local, |local|);
    var out, kept := Deduped(all), Deduped(local);
    forall i, l | |kept| <= i < |out| && l in local && IdOf(l) != "" ensures IdOf(out[i]) != IdOf(l) {
      var j :| 0 <= j < |local| && local[j] == l;
      assert local[..|local|] == local && HasId(local, IdOf(l));
      var k :| 0 <= k < |kept| && IdOf(kept[k]) == IdOf(l);
      assert out[k] == kept[k];
    }
  }

  // ---------------------------------------------------------------------------------------------
  // dedupResults: one goroutine per row
  // ---------------------------------------------------------------------------------------------

  /** The key a row is deduplicated by: its _id, or the hash of its JSON. */
  function RowKey(row: Fields, hash: Json -> string): string {
    match KeyOf(Obj(row))
    case Some(id) => id
    case None => hash(Obj(row))
  }

  ghost predicate HasTextId(row: Fields) {
    "_id" in row && row["_id"].Str?
  }

  /** Rows with an _id have the same key when they have the same _id; other rows when they hash alike. A row without
      an _id that hashes to the _id of another takes its key. */
  lemma RowKeysEqual(a: Fields, b: Fields, hash: Json -> string)
    ensures RowKey(a, hash) == RowKey(b, hash) <==>
            if HasTextId(a) && HasTextId(b) then a["_id"] == b["_id"]
            else if HasTextId(a) then a["_id"] == Str(hash(Obj(b)))
            else if HasTextId(b) then b["_id"] == Str(hash(Obj(a)))
            else hash(Obj(a)) == hash(Obj(b))
  {
  }

  datatype Phase = Started | Won | Done

  /** Goroutine i handles row i: an atomic LoadOrStore on seen, then, if it was first, a send on the channel. */
  datatype Race = Race(phase: seq<Phase>, seen: set<string>, sent: seq<nat>)

  ghost predicate RaceStep(rows: seq<Fields>, hash: Json -> string, s: Race, i: nat, t: Race) {
    && |s.phase| == |rows| && i < |rows|
    && var key := RowKey(rows[i], hash);
       match s.phase[i]
       case Started =>
         t == s.(phase := s.phase[i := if key in s.seen then Done else Won], seen := s.seen + {key})
       case Won => t == s.(phase := s.phase[i := Done], sent := s.sent + [i])
       case Done => false
  }

  function Start(n: nat): Race {
    Race(seq(n, _ => Started), {}, [])
  }

  ghost predicate IsRace(rows: seq<Fields>, hash: Json -> string, states: seq<Race>, who: seq<nat>) {
    && |states| == |who| + 1
    && states[0] == Start(|rows|)
    && forall m :: 0 <= m < |who| ==> RaceStep(rows, hash, states[m], who[m], states[m + 1])
  }

  /** Every key seen has exactly one winner, sent or about to be. */
  ghost predicate Wins(s: Race, i: int) {
    0 <= i < |s.phase| && (s.phase[i] == Won || i in s.sent)
  }

  ghost predicate RaceInv(rows: seq<Fields>, hash: Json -> string, s: Race) {
    && |s.phase| == |rows|
    && NoDup(s.sent)
    && (forall i :: i in s.sent ==> i < |rows| && s.phase[i] == Done)
    && (forall i :: 0 <= i < |rows| && s.phase[i] != Started ==> RowKey(rows[i], hash) in s.seen)
    && (forall i, j :: Wins(s, i) && Wins(s, j) && RowKey(rows[i], hash) == RowKey(rows[j], hash) ==> i == j)
    && (forall k :: k in s.seen ==> exists i :: Wins(s, i) && RowKey(rows[i], hash) == k)
  }

  lemma RaceStepInv(rows: seq<Fields>, hash: Json -> string, s: Race, i: nat, t: Race)
    requires RaceInv(rows, hash, s) && RaceStep(rows, hash, s, i, t)
    ensures RaceInv(rows, hash, t)
  {
    var key := RowKey(rows[i], hash);
    if s.phase[i] == Won {
      assert Wins(s, i) && i !in s.sent;
      assert forall j :: Wins(t, j) <==> Wins(s, j);
    } else {
      if key in s.seen {
        assert forall j :: Wins(t, j) <==> Wins(s, j);
      } else {
        assert forall j :: Wins(t, j) <==> Wins(s, j) || j == i;
        assert forall j :: Wins(s, j) ==> s.phase[j] != Started;
      }
      forall k | k in t.seen ensures exists j :: Wins(t, j) && RowKey(rows[j], hash) == k {
        if k in s.seen {
          var j :| Wins(s, j) && RowKey(rows[j], hash) == k;
          assert Wins(t, j);
        } else {
          assert Wins(t, i);
        }
      }
    }
  }

  lemma {:induction false} RaceRunInv(rows: seq<Fields>, hash: Json -> string, states: seq<Race>, who: seq<nat>, m: nat)
    requires IsRace(rows, hash, states, who) && m < |states|
    ensures RaceInv(rows, hash, states[m])
  {
    if m > 0 {
      RaceRunInv(rows, hash, states, who, m - 1);
      RaceStepInv(rows, hash, states[m - 1], who[m - 1], states[m]);
    }
  }

  /** Row j was output and has the key of row i. */
  ghost predicate Represents(rows: seq<Fields>, hash: Json -> string, sent: seq<nat>, j: int, i: int) {
    0 <= j < |rows| && 0 <= i < |rows| && j in sent && RowKey(rows[j], hash) == RowKey(rows[i], hash)
  }

  ghost predicate Represented(rows: seq<Fields>, hash: Json -> string, sent: seq<nat>, i: int) {
    exists j :: Represents(rows, hash, sent, j, i)
  }

  /** The rows sent are one per key of the input. */
  ghost predicate OnePerKey(rows: seq<Fields>, hash: Json -> string, sent: seq<nat>) {
    && NoDup(sent) && (forall j :: j in sent ==> j < |rows|)
    && (forall i :: 0 <= i < |rows| ==> Represented(rows, hash, sent, i))
    && (forall i, j, k :: Represents(rows, hash, sent, j, i) && Represents(rows, hash, sent, k, i) ==> j == k)
  }

  lemma RaceOver(rows: seq<Fields>, hash: Json -> string, s: Race)
    requires RaceInv(rows, hash, s)
    requires forall p :: p in s.phase ==> p == Done
    ensures OnePerKey(rows, hash, s.sent)
  {
    forall i, j, k | Represents(rows, hash, s.sent, j, i) && Represents(rows, hash, s.sent, k, i) ensures j == k {
      assert Wins(s, j) && Wins(s, k);
    }
    forall i | 0 <= i < |rows| ensures Represented(rows, hash, s.sent, i) {
      assert s.phase[i] in s.phase;
      var j :| Wins(s, j) && RowKey(rows[j], hash) == RowKey(rows[i], hash);
      assert s.phase[j] in s.phase;
      assert Represents(rows, hash, s.sent, j, i);
    }
  }

  /** Whatever the schedule, when all goroutines are done the channel holds exactly one row per key of the input. */
  lemma OneRowPerKey(rows: seq<Fields>, hash: Json -> string, states: seq<Race>, who: seq<nat>)
    requires IsRace(rows, hash, states, who)
    requires forall p :: p in states[|who|].phase ==> p == Done
    ensures OnePerKey(rows, hash, states[|who|].sent)
  {
    RaceRunInv(rows, hash, states, who, |who|);
    RaceOver(rows, hash, states[|who|]);
  }

  /** The goroutines at a phase. */
  function At(phase: seq<Phase>, p: Phase): set<nat> {
    set i: nat | i < |phase| && phase[i] == p
  }

  /** What goroutine i does next. */
  function Stepped(rows: seq<Fields>, hash: Json -> string, s: Race, i: nat): (t: Race)
    requires |s.phase| == |rows| && i < |rows| && s.phase[i] != Done
    ensures RaceStep(rows, hash, s, i, t)
    ensures At(t.phase, Started) == At(s.phase, Started) - {i}
    ensures s.phase[i] == Won ==> At(t.phase, Won) == At(s.phase, Won) - {i}
  {
    if s.phase[i] == Won then s.(phase := s.phase[i := Done], sent := s.sent + [i])
    else
      var key := RowKey(rows[i], hash);
      s.(phase := s.phase[i := if key in s.seen then Done else Won], seen := s.seen + {key})
  }

  ghost predicate Output(rows: seq<Fields>, sent: seq<nat>, out: seq<Fields>) {
    |out| == |sent| && forall m :: 0 <= m < |out| ==> sent[m] < |rows| && out[m] == rows[sent[m]]
  }

  lemma StepProgress(rows: seq<Fields>, hash: Json -> string, s: Race, i: nat)
    requires i < |rows| == |s.phase| && s.phase[i] != Done
    ensures var t := Stepped(rows, hash, s, i);
            At(t.phase, Started) < At(s.phase, Started)
            || (At(t.phase, Started) == At(s.phase, Started) && At(t.phase, Won) < At(s.phase, Won))
  {
    var t := Stepped(rows, hash, s, i);
    assert i in At(s.phase, s.phase[i]) && i !in At(t.phase, s.phase[i]);
    assert forall j :: 0 <= j < |rows| && j != i ==> t.phase[j] == s.phase[j];
    if s.phase[i] == Started {
      assert At(t.phase, Started) == At(s.phase, Started) - {i};
    } else {
      assert At(t.phase, Started) == At(s.phase, Started) && At(t.phase, Won) == At(s.phase, Won) - {i};
    }
  }

  /** One turn of goroutine i. */
  method Turn(rows: seq<Fields>, hash: Json -> string, s: Race, out: seq<Fields>, i: nat) returns (t: Race, sent: seq<Fields>)
    requires RaceInv(rows, hash, s) && i < |rows| && s.phase[i] != Done && Output(rows, s.sent, out)
    ensures t == Stepped(rows, hash, s, i) && RaceInv(rows, hash, t) && Output(rows, t.sent, sent)
    ensures At(t.phase, Started) < At(s.phase, Started)
            || (At(t.phase, Started) == At(s.phase, Started) && At(t.phase, Won) < At(s.phase, Won))
  {
    t := Stepped(rows, hash, s, i);
    RaceStepInv(rows, hash, s, i, t);
    StepProgress(rows, hash, s, i);
    sent := if s.phase[i] == Won then out + [rows[i]] else out;
  }

  lemma NoneLive(phase: seq<Phase>)
    requires At(phase, Started) + At(phase, Won) == {}
    ensures forall p :: p in phase ==> p == Done
  {
    forall i | 0 <= i < |phase| ensures phase[i] == Done {
      assert i !in At(phase, Started) + At(phase, Won);
    }
  }

  /** The goroutines run to their end, scheduled in an arbitrary way. */
  method RunRace(rows: seq<Fields>, hash: Json -> string) returns (out: seq<Fields>, s: Race)
    ensures RaceInv(rows, hash, s) && Output(rows, s.sent, out) && forall p :: p in s.phase ==> p == Done
  {
    s, out := Start(|rows|), [];
    var live := At(s.phase, Started) + At(s.phase, Won);
    while live != {}
      invariant RaceInv(rows, hash, s) && Output(rows, s.sent, out)
      invariant live == At(s.phase, Started) + At(s.phase, Won)
      decreases At(s.phase, Started), At(s.phase, Won)
    {
      var i :| i in live;
      s, out := Turn(rows, hash, s, out, i);
      live := At(s.phase, Started) + At(s.phase, Won);
    }
    NoneLive(s.phase);
  }

  /** dedupResults: one row for every key of the input. */
  method DedupResults(rows: seq<Fields>, hash: Json -> string) returns (out: seq<Fields>, ghost sent: seq<nat>)
    ensures OnePerKey(rows, hash, sent) && Output(rows, sent, out)
    ensures forall r :: r in out ==> r in rows
    ensures forall r :: r in rows ==> exists o :: o in out && RowKey(o, hash) == RowKey(r, hash)
    ensures forall i, j :: 0 <= i < j < |out| ==> RowKey(out[i], hash) != RowKey(out[j], hash)
  {
    var s;
    out, s := RunRace(rows, hash);
    RaceOver(rows, hash, s);
    sent := s.sent;
    OutputKeys(rows, hash, sent, out);
  }

  lemma OutputKeys(rows: seq<Fields>, hash: Json -> string, sent: seq<nat>, out: seq<Fields>)
    requires OnePerKey(rows, hash, sent) && Output(rows, sent, out)
    ensures forall r :: r in out ==> r in rows
    ensures forall r :: r in rows ==> exists o :: o in out && RowKey(o, hash) == RowKey(r, hash)
    ensures forall i, j :: 0 <= i < j < |out| ==> RowKey(out[i], hash) != RowKey(out[j], hash)
  {
    forall r | r in rows ensures exists o :: o in out && RowKey(o, hash) == RowKey(r, hash) {
      var i :| 0 <= i < |rows| && rows[i] == r;
      assert Represented(rows, hash, sent, i);
      var j :| Represents(rows, hash, sent, j, i);
      var m :| 0 <= m < |sent| && sent[m] == j;
      assert out[m] in out && out[m] == rows[j];
    }
    forall i, j | 0 <= i < j < |out| ensures RowKey(out[i], hash) != RowKey(out[j], hash) {
      assert sent[i] in sent && sent[j] in sent && sent[i] != sent[j];
      assert Represents(rows, hash, sent, sent[i], sent[i]);
      assert RowKey(out[i], hash) == RowKey(out[j], hash) ==> Represents(rows, hash, sent, sent[j], sent[i]);
    }
  }

  // Which row survives

  ghost predicate IsComplete(rows: seq<Fields>, hash: Json -> string, states: seq<Race>, who: seq<nat>) {
    IsRace(rows, hash, states, who) && forall p :: p in states[|who|].phase ==> p == Done
  }

  /** Every race can be run to its end, and what was sent stays sent. */
  lemma {:induction false} RunToEnd(rows: seq<Fields>, hash: Json -> string, states: seq<Race>, who: seq<nat>)
    returns (states': seq<Race>, who': seq<nat>)
    requires IsRace(rows, hash, states, who)
    ensures IsComplete(rows, hash, states', who') && states[|who|].sent <= states'[|who'|].sent
    decreases At(states[|who|].phase, Started), At(states[|who|].phase, Won)
  {
    RaceRunInv(rows, hash, states, who, |who|);
    var s := states[|who|];
    if At(s.phase, Started) + At(s.phase, Won) == {} {
      NoneLive(s.phase);
      return states, who;
    }
    var i :| i in At(s.phase, Started) + At(s.phase, Won);
    states', who' := RunToEnd(rows, hash, states + [Stepped(rows, hash, s, i)], who + [i]);
  }

  /** A race in which goroutine j runs before all others. */
  lemma FirstRunner(rows: seq<Fields>, hash: Json -> string, j: nat) returns (states: seq<Race>, who: seq<nat>)
    requires j < |rows|
    ensures IsRace(rows, hash, states, who) && states[|who|].sent == [j]
  {
    var s0 := Start(|rows|);
    assert IsRace(rows, hash, [s0], []);
    var s1 := Stepped(rows, hash, s0, j);
    assert s1.phase[j] == Won;
    var s2 := Stepped(rows, hash, s1, j);
    states, who := [s0] + [s1] + [s2], [] + [j] + [j];
    assert s2.sent == [] + [j];
  }

  ghost predicate SameKey(rows: seq<Fields>, hash: Json -> string, i: int, j: int) {
    0 <= i < |rows| && 0 <= j < |rows| && RowKey(rows[i], hash) == RowKey(rows[j], hash)
  }

  /** Row i is output by every complete race. */
  ghost predicate AlwaysKept(rows: seq<Fields>, hash: Json -> string, i: nat) {
    forall states: seq<Race>, who: seq<nat> :: IsComplete(rows, hash, states, who) ==> i in states[|who|].sent
  }

  /** Unlike dedupeByID, dedupResults may drop the local version of a document: a row is sure to be output exactly when
      no other row has its key. */
  lemma KeptIffAlone(rows: seq<Fields>, hash: Json -> string, i: nat)
    requires i < |rows|
    ensures AlwaysKept(rows, hash, i) <==> forall j :: SameKey(rows, hash, i, j) ==> j == i
  {
    if forall j :: SameKey(rows, hash, i, j) ==> j == i {
      forall states: seq<Race>, who: seq<nat> | IsComplete(rows, hash, states, who) ensures i in states[|who|].sent {
        OneRowPerKey(rows, hash, states, who);
        assert Represented(rows, hash, states[|who|].sent, i);
        var j :| Represents(rows, hash, states[|who|].sent, j, i);
        assert SameKey(rows, hash, i, j);
      }
    } else {
      var j :| SameKey(rows, hash, i, j) && j != i;
      RivalWins(rows, hash, i, j);
    }
  }

  lemma RivalWins(rows: seq<Fields>, hash: Json -> string, i: nat, j: nat)
    requires SameKey(rows, hash, i, j) && j != i
    ensures !AlwaysKept(rows, hash, i)
  {
    var states, who := FirstRunner(rows, hash, j);
    assert states[|who|].sent[0] == j;
    var states', who' := RunToEnd(rows, hash, states, who);
    OneRowPerKey(rows, hash, states', who');
    var sent := states'[|who'|].sent;
    assert sent[0] == j && Represents(rows, hash, sent, j, i);
    assert i in sent ==> Represents(rows, hash, sent, i, i);
  }

  // ---------------------------------------------------------------------------------------------
  // persistRemoteRows
  // ---------------------------------------------------------------------------------------------

  /** The document a row carries, without the fields added for the client. */
  function Stripped(row: Fields): Json {
    Obj(row - {"_source", "_trace"})
  }

  /** Every field of the row but these two. */
  lemma StrippedKeepsFields(row: Fields)
    ensures Stripped(row).Obj?
    ensures forall f :: f in Stripped(row).fields <==> f in row && f != "_source" && f != "_trace"
    ensures forall f :: f in Stripped(row).fields ==> Stripped(row).fields[f] == row[f]
  {
  }

  predicate IsMissing(row: Fields, m: Docs) {
    IdOf(row) != "" && IdOf(row) !in m
  }

  function MissingDocs(rows: seq<Fields>, m: Docs): seq<Json> {
    if rows == [] then []
    else
      var rest := MissingDocs(rows[..|rows| - 1], m);
      if IsMissing(rows[|rows| - 1], m) then rest + [Stripped(rows[|rows| - 1])] else rest
  }

  lemma {:induction false} MissingDocsAre(rows: seq<Fields>, m: Docs)
    ensures forall d :: d in MissingDocs(rows, m) <==> exists r :: r in rows && IsMissing(r, m) && d == Stripped(r)
    ensures MissingDocs(rows, m) == [] <==> forall r :: r in rows ==> !IsMissing(r, m)
  {
    if rows != [] {
      var n := |rows| - 1;
      MissingDocsAre(rows[..n], m);
      assert rows == rows[..n] + [rows[n]];
      forall d ensures d in MissingDocs(rows, m) <==> exists r :: r in rows && IsMissing(r, m) && d == Stripped(r) {
        if d in MissingDocs(rows, m) && d !in MissingDocs(rows[..n], m) { assert rows[n] in rows; }
      }
    }
  }

  /** Each row with an _id that is not stored adds its document once, in the order of the rows; no other row adds any. */
  lemma MissingDocsNext(rows: seq<Fields>, row: Fields, m: Docs)
    ensures MissingDocs(rows + [row], m) == MissingDocs(rows, m)
              + if HasTextId(row) && row["_id"].s != "" && row["_id"].s !in m then [Stripped(row)] else []
    ensures MissingDocs([], m) == []
  {
    assert (rows + [row])[..|rows|] == rows;
  }

  lemma StrippedKeepsId(row: Fields)
    ensures KeyOf(Stripped(row)) == KeyOf(Obj(row))
  {
  }

  /** persistRemoteRows: however the store fails, no document already stored is changed. */
  method PersistRemoteRows(store: DocStore, rows: seq<Fields>, size: Json -> nat, settings: Settings)
    requires store.Valid()
    modifies store
    ensures forall k :: k in old(store.docs) ==> Kept(old(store.docs), store.docs, k)
    ensures MissingDocs(rows, old(store.docs)) == [] ==> store.docs == old(store.docs) && store.entries == old(store.entries)
    ensures !store.flaky ==> store.docs == PutDocs(old(store.docs), Good(MissingDocs(rows, old(store.docs)), store.rejects))
  {
    var missing: seq<Json> := [];
    for i := 0 to |rows|
      invariant missing == MissingDocs(rows[..i], store.docs)
    {
      assert rows[..i + 1][..i] == rows[..i];
      var id := IdOf(rows[i]);
      if id != "" && id !in store.docs { missing := missing + [Stripped(rows[i])]; }
    }
    assert rows[..|rows|] == rows;
    if missing == [] { return; }
    MissingAreNew(rows, store.docs);
    ghost var before := store.docs;
    var stored, failed, answers := PutDocumentsBatched(store, missing, size, settings);
    forall k | k in before ensures Kept(before, store.docs, k) {
      assert Kept(before, store.docs, k) || exists d :: d in missing && KeyOf(d) == Some(k);
    }
  }

  lemma MissingAreNew(rows: seq<Fields>, m: Docs)
    ensures forall d :: d in MissingDocs(rows, m) ==> KeyOf(d).Some? && KeyOf(d).value !in m
  {
    MissingDocsAre(rows, m);
    forall d | d in MissingDocs(rows, m) ensures KeyOf(d).Some? && KeyOf(d).value !in m {
      var r :| r in rows && IsMissing(r, m) && d == Stripped(r);
      StrippedKeepsId(r);
    }
  }

  /** Persisting rows changes no document already stored, adds for each missing id one of the rows' documents
      without the added fields, and does nothing a second time. */
  lemma PersistingAddsMissing(rows: seq<Fields>, m: Docs)
    ensures var after := PutDocs(m, MissingDocs(rows, m));
            && (forall k :: k in m ==> k in after && after[k] == m[k])
            && (forall k :: k in after && k !in m ==> exists r :: r in rows && IdOf(r) == k && after[k] == Stripped(r))
            && (forall r :: r in rows && IdOf(r) != "" ==> IdOf(r) in after)
            && MissingDocs(rows, after) == []
  {
    var missing := MissingDocs(rows, m);
    var after := PutDocs(m, missing);
    MissingDocsAre(rows, m);
    forall k ensures k in m ==> k in after && after[k] == m[k]
      ensures k in after && k !in m ==> exists r :: r in rows && IdOf(r) == k && after[k] == Stripped(r)
    {
      PutDocsAt(m, missing, k);
      if i :| LastFor(missing, k, i) {
        assert missing[i] in missing;
        var r :| r in rows && IsMissing(r, m) && missing[i] == Stripped(r);
        StrippedKeepsId(r);
      }
      if k in after && k !in m {
        var i :| LastFor(missing, k, i) && k in after && after[k] == missing[i];
        assert missing[i] in missing;
        var r :| r in rows && IsMissing(r, m) && missing[i] == Stripped(r);
        StrippedKeepsId(r);
      }
    }
    forall r | r in rows && IdOf(r) != "" ensures IdOf(r) in after {
      if IdOf(r) !in m {
        assert Stripped(r) in missing;
        StrippedKeepsId(r);
        PutDocsAt(m, missing, IdOf(r));
      }
    }
    MissingDocsAre(rows, after);
  }

  // ---------------------------------------------------------------------------------------------
  // Others writing meanwhile
  // ---------------------------------------------------------------------------------------------

  /** persistRemoteRows checks the next row, or puts the next missing document; or somebody else puts a document. */
  datatype Event = Check | PutNext | Other(doc: Json)

  datatype Persisting = Persisting(docs: Docs, checked: nat, missing: seq<Json>, put: nat)

  function Begun(m: Docs): Persisting {
    Persisting(m, 0, [], 0)
  }

  function Happened(rows: seq<Fields>, s: Persisting, e: Event): Persisting {
    match e
    case Check =>
      if s.checked < |rows| then
        var row := rows[s.checked];
        s.(checked := s.checked + 1, missing := if IsMissing(row, s.docs) then s.missing + [Stripped(row)] else s.missing)
      else s
    case PutNext =>
      if s.checked == |rows| && s.put < |s.missing| then s.(docs := PutDoc(s.docs, s.missing[s.put]), put := s.put + 1) else s
    case Other(doc) => s.(docs := PutDoc(s.docs, doc))
  }

  function After(rows: seq<Fields>, m: Docs, events: seq<Event>): Persisting {
    if events == [] then Begun(m) else Happened(rows, After(rows, m, events[..|events| - 1]), events[|events| - 1])
  }

  function OthersIn(events: seq<Event>): seq<Json> {
    if events == [] then []
    else
      var n := |events| - 1;
      if events[n].Other? then OthersIn(events[..n]) + [events[n].doc] else OthersIn(events[..n])
  }

  ghost predicate Complete(rows: seq<Fields>, s: Persisting) {
    s.checked == |rows| && s.put == |s.missing|
  }

  /** What would be stored without the rows is stored. */
  ghost predicate Preserves(without: Docs, after: Docs) {
    forall k :: k in without ==> k in after && after[k] == without[k]
  }

  /** In every interleaving of the checks, the puts and the puts of others. */
  ghost predicate AlwaysPreserves(rows: seq<Fields>, m: Docs, others: seq<Json>) {
    forall events :: OthersIn(events) == others && Complete(rows, After(rows, m, events)) ==>
      Preserves(PutDocs(m, others), After(rows, m, events).docs)
  }

  /** Rows with the id of a document that others put, and that was not stored before, carry the last of these documents. */
  ghost predicate RowsAgree(rows: seq<Fields>, m: Docs, others: seq<Json>) {
    forall r, i :: r in rows && IsMissing(r, m) && LastFor(others, IdOf(r), i) ==> Stripped(r) == others[i]
  }

  ghost predicate Carries(rows: seq<Fields>, m: Docs, d: Json, r: Fields) {
    r in rows && IsMissing(r, m) && d == Stripped(r)
  }

  ghost predicate FromRow(rows: seq<Fields>, m: Docs, k: string, d: Json) {
    exists r :: Carries(rows, m, d, r) && IdOf(r) == k
  }

  /** What is stored was stored without the rows too, or comes from a row that was missing at first. */
  ghost predicate PersistInv(rows: seq<Fields>, m: Docs, without: Docs, s: Persisting) {
    && (forall k :: k in m ==> k in without)
    && (forall k :: k in without ==> k in s.docs)
    && (forall k :: k in s.docs ==> (k in without && s.docs[k] == without[k]) || FromRow(rows, m, k, s.docs[k]))
    && (forall d :: d in s.missing ==> exists r :: Carries(rows, m, d, r))
  }

  lemma CheckInv(rows: seq<Fields>, m: Docs, without: Docs, s: Persisting)
    requires PersistInv(rows, m, without, s) && s.checked < |rows|
    ensures PersistInv(rows, m, without, Happened(rows, s, Check))
  {
    var row := rows[s.checked];
    assert IsMissing(row, s.docs) ==> Carries(rows, m, Stripped(row), row);
  }

  lemma PutNextInv(rows: seq<Fields>, m: Docs, without: Docs, s: Persisting)
    requires PersistInv(rows, m, without, s) && s.checked == |rows| && s.put < |s.missing|
    ensures PersistInv(rows, m, without, Happened(rows, s, PutNext))
  {
    var d := s.missing[s.put];
    assert d in s.missing;
    var r :| Carries(rows, m, d, r);
    StrippedKeepsId(r);
    assert FromRow(rows, m, IdOf(r), d);
  }

  lemma HappenedInv(rows: seq<Fields>, m: Docs, without: Docs, s: Persisting, e: Event)
    requires PersistInv(rows, m, without, s)
    ensures PersistInv(rows, m, if e.Other? then PutDoc(without, e.doc) else without, Happened(rows, s, e))
  {
    match e
    case Check => if s.checked < |rows| { CheckInv(rows, m, without, s); }
    case PutNext => if s.checked == |rows| && s.put < |s.missing| { PutNextInv(rows, m, without, s); }
    case Other(doc) =>
  }

  lemma {:induction false} AfterInv(rows: seq<Fields>, m: Docs, events: seq<Event>)
    ensures PersistInv(rows, m, PutDocs(m, OthersIn(events)), After(rows, m, events))
  {
    if events != [] {
      var n := |events| - 1;
      AfterInv(rows, m, events[..n]);
      HappenedInv(rows, m, PutDocs(m, OthersIn(events[..n])), After(rows, m, events[..n]), events[n]);
      if events[n].Other? { PutDocsSnoc(m, OthersIn(events[..n]), events[n].doc); }
    }
  }

  /** Nothing is overwritten with something else while the rows agree. */
  lemma AgreeingRowsPreserve(rows: seq<Fields>, m: Docs, events: seq<Event>)
    requires RowsAgree(rows, m, OthersIn(events))
    ensures Preserves(PutDocs(m, OthersIn(events)), After(rows, m, events).docs)
  {
    AfterInv(rows, m, events);
    var without, s := PutDocs(m, OthersIn(events)), After(rows, m, events);
    forall k | k in without ensures k in s.docs && s.docs[k] == without[k] {
      if FromRow(rows, m, k, s.docs[k]) {
        var r :| Carries(rows, m, s.docs[k], r) && IdOf(r) == k;
        PutDocsAt(m, OthersIn(events), k);
        var i :| LastFor(OthersIn(events), k, i) && without[k] == OthersIn(events)[i];
      }
    }
  }

  /** All rows before to have been checked. */
  function CheckedTo(rows: seq<Fields>, s: Persisting, to: nat): Persisting
    requires s.checked <= to <= |rows|
  {
    s.(checked := to, missing := s.missing + MissingDocs(rows[s.checked..to], s.docs))
  }

  lemma CheckedNone(rows: seq<Fields>, s: Persisting)
    requires s.checked <= |rows|
    ensures CheckedTo(rows, s, s.checked) == s
  {
    assert rows[s.checked..s.checked] == [] && s.missing + [] == s.missing;
  }

  lemma CheckedNext(rows: seq<Fields>, s: Persisting, to: nat)
    requires s.checked <= to < |rows|
    ensures Happened(rows, CheckedTo(rows, s, to), Check) == CheckedTo(rows, s, to + 1)
  {
    var all := rows[s.checked..to + 1];
    assert all[..|all| - 1] == rows[s.checked..to] && all[|all| - 1] == rows[to];
    assert s.missing + (MissingDocs(rows[s.checked..to], s.docs) + [Stripped(rows[to])])
        == s.missing + MissingDocs(rows[s.checked..to], s.docs) + [Stripped(rows[to])];
  }

  lemma Then(rows: seq<Fields>, m: Docs, events: seq<Event>, e: Event)
    ensures After(rows, m, events + [e]) == Happened(rows, After(rows, m, events), e)
    ensures OthersIn(events + [e]) == OthersIn(events) + if e.Other? then [e.doc] else []
  {
    assert (events + [e])[..|events|] == events;
  }

  lemma {:induction false} Checking(rows: seq<Fields>, m: Docs, events: seq<Event>, to: nat) returns (events': seq<Event>)
    requires After(rows, m, events).checked <= to <= |rows|
    ensures OthersIn(events') == OthersIn(events) && After(rows, m, events') == CheckedTo(rows, After(rows, m, events), to)
  {
    var s := After(rows, m, events);
    if s.checked == to {
      events' := events;
      CheckedNone(rows, s);
    } else {
      var most := Checking(rows, m, events, to - 1);
      Then(rows, m, most, Check);
      CheckedNext(rows, s, to - 1);
      events' := most + [Check];
    }
  }

  lemma {:induction false} Interfering(rows: seq<Fields>, m: Docs, events: seq<Event>,
                                       others: seq<Json>) returns (events': seq<Event>)
    ensures OthersIn(events') == OthersIn(events) + others
    ensures After(rows, m, events') == After(rows, m, events).(docs := PutDocs(After(rows, m, events).docs, others))
  {
    if others == [] {
      events' := events;
    } else {
      var n := |others| - 1;
      var most := Interfering(rows, m, events, others[..n]);
      Then(rows, m, most, Other(others[n]));
      events' := most + [Other(others[n])];
      assert others == others[..n] + [others[n]];
      PutDocsSnoc(After(rows, m, events).docs, others[..n], others[n]);
    }
  }

  /** The first n missing documents have been put. */
  function PutTo(s: Persisting, n: nat): Persisting
    requires n <= |s.missing|
  {
    s.(docs := PutDocs(s.docs, s.missing[..n]), put := n)
  }

  lemma PutOneMore(rows: seq<Fields>, s: Persisting, n: nat)
    requires s.checked == |rows| && n < |s.missing|
    ensures Happened(rows, PutTo(s, n), PutNext) == PutTo(s, n + 1)
  {
    assert s.missing[..n + 1] == s.missing[..n] + [s.missing[n]];
    PutDocsSnoc(s.docs, s.missing[..n], s.missing[n]);
  }

  lemma {:induction false} Putting(rows: seq<Fields>, m: Docs, events: seq<Event>, n: nat) returns (events': seq<Event>)
    requires var s := After(rows, m, events); s.checked == |rows| && s.put == 0 && n <= |s.missing|
    ensures OthersIn(events') == OthersIn(events) && After(rows, m, events') == PutTo(After(rows, m, events), n)
  {
    if n == 0 {
      events' := events;
    } else {
      var most := Putting(rows, m, events, n - 1);
      Then(rows, m, most, PutNext);
      PutOneMore(rows, After(rows, m, events), n - 1);
      events' := most + [PutNext];
    }
  }

  /** Of the rows put, x is the last with its id: later ones find it stored. */
  lemma LastRowStored(rows: seq<Fields>, m: Docs, mid: Docs, x: nat)
    requires x < |rows| && IsMissing(rows[x], m) && IdOf(rows[x]) in mid
    ensures var after, k := PutDocs(mid, MissingDocs(rows[..x + 1], m) + MissingDocs(rows[x + 1..], mid)), IdOf(rows[x]);
            k in after && after[k] == Stripped(rows[x])
  {
    var first, rest, k := MissingDocs(rows[..x + 1], m), MissingDocs(rows[x + 1..], mid), IdOf(rows[x]);
    assert rows[..x + 1][..x] == rows[..x];
    StrippedKeepsId(rows[x]);
    assert first[|first| - 1] == Stripped(rows[x]);
    MissingAreNew(rows[x + 1..], mid);
    var missing := first + rest;
    assert LastFor(missing, k, |first| - 1) by {
      assert forall j :: |first| <= j < |missing| ==> missing[j] in rest;
    }
    PutDocsAt(mid, missing, k);
    var i :| LastFor(missing, k, i) && PutDocs(mid, missing)[k] == missing[i];
    assert i == |first| - 1;
  }

  /** Row x is checked, others put their documents, and then the rows are put: the row is what ends up stored. */
  lemma RowOverwrites(rows: seq<Fields>, m: Docs, others: seq<Json>, x: nat) returns (events: seq<Event>)
    requires x < |rows| && IsMissing(rows[x], m) && IdOf(rows[x]) in PutDocs(m, others)
    ensures OthersIn(events) == others && Complete(rows, After(rows, m, events))
    ensures var k := IdOf(rows[x]); k in After(rows, m, events).docs && After(rows, m, events).docs[k] == Stripped(rows[x])
  {
    var early := Checking(rows, m, [], x + 1);
    var middle := Interfering(rows, m, early, others);
    var late := Checking(rows, m, middle, |rows|);
    events := Putting(rows, m, late, |After(rows, m, late).missing|);
    assert [] + others == others;
    var first, missing := MissingDocs(rows[..x + 1], m), After(rows, m, late).missing;
    assert rows[0..x + 1] == rows[..x + 1] && rows[x + 1..|rows|] == rows[x + 1..] && [] + first == first;
    assert missing[..|missing|] == missing;
    LastRowStored(rows, m, PutDocs(m, others), x);
  }

  /** However the checks and puts of persistRemoteRows and the puts of others interleave, nothing that would be stored without
      it is lost, exactly when the rows with ids that others put, and that were not stored before, carry the documents that
      others put last. */
  lemma InterferenceExact(rows: seq<Fields>, m: Docs, others: seq<Json>)
    ensures AlwaysPreserves(rows, m, others) <==> RowsAgree(rows, m, others)
  {
    if RowsAgree(rows, m, others) {
      forall events | OthersIn(events) == others && Complete(rows, After(rows, m, events))
        ensures Preserves(PutDocs(m, others), After(rows, m, events).docs)
      {
        AgreeingRowsPreserve(rows, m, events);
      }
    } else {
      var r, i :| r in rows && IsMissing(r, m) && LastFor(others, IdOf(r), i) && Stripped(r) != others[i];
      var x :| 0 <= x < |rows| && rows[x] == r;
      PutDocsAt(m, others, IdOf(r));
      var j :| LastFor(others, IdOf(r), j) && IdOf(r) in PutDocs(m, others) && PutDocs(m, others)[IdOf(r)] == others[j];
      assert i == j;
      var events := RowOverwrites(rows, m, others, x);
    }
  }

  /** The row is the document stored under k, perhaps with annotations. */
  ghost predicate ReadFrom(row: Fields, m: Docs, k: string) {
    k in m && Stripped(row) == (if m[k].Obj? then Stripped(m[k].fields) else m[k])
  }

  /** Rows read from the store itself, annotated or not, add nothing to its log. */
  lemma LocalRowsAddNothing(rows: seq<Fields>, m: Docs)
    requires Keyed(m) && forall r :: r in rows ==> exists k :: ReadFrom(r, m, k)
    ensures MissingDocs(rows, m) == []
  {
    MissingDocsAre(rows, m);
    forall r | r in rows ensures !IsMissing(r, m) {
      var k :| ReadFrom(r, m, k);
      assert KeyOf(m[k]) == Some(k);
      StrippedKeepsId(r);
      StrippedKeepsId(m[k].fields);
    }
  }
}
