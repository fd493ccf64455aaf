/** The document index of the patched go-orbit-db (stores/documentstore/index.go): a last-writer-wins index built
    from log entries in whatever order they arrive, with an inverted index over some top-level string fields. */
module DocumentIndex {

  import opened Prelude
  import opened JsonValues

  // ---------------------------------------------------------------------------------------------
  // Lamport stamps
  // ---------------------------------------------------------------------------------------------

  type Byte = n: int | 0 <= n < 256

  datatype Stamp = Stamp(time: int, id: seq<Byte>)

  /** bytes.Compare(a, b) < 0. */
  predicate BytesLess(a: seq<Byte>, b: seq<Byte>) {
    if b == [] then false
    else if a == [] then true
    else if a[0] != b[0] then a[0] < b[0]
    else BytesLess(a[1..], b[1..])
  }

  /** newer(t, true, s.time, s.id). */
  predicate Later(s: Stamp, t: Stamp) {
    if s.time != t.time then s.time > t.time else BytesLess(t.id, s.id)
  }

  lemma {:induction false} BytesTrichotomy(a: seq<Byte>, b: seq<Byte>)
    ensures BytesLess(a, b) || BytesLess(b, a) || a == b
    ensures !(BytesLess(a, b) && BytesLess(b, a)) && !BytesLess(a, a)
  {
    if a != [] {
      BytesTrichotomy(a[1..], a[1..]);
      if b != [] && a[0] == b[0] {
        BytesTrichotomy(a[1..], b[1..]);
        assert a == [a[0]] + a[1..] && b == [b[0]] + b[1..];
      }
    }
  }

  lemma {:induction false} BytesTransitive(a: seq<Byte>, b: seq<Byte>, c: seq<Byte>)
    requires BytesLess(a, b) && BytesLess(b, c)
    ensures BytesLess(a, c)
  {
    if a != [] && a[0] == b[0] == c[0] { BytesTransitive(a[1..], b[1..], c[1..]); }
  }

  /** Stamps are totally ordered. */
  lemma LaterIsTotalOrder(s: Stamp, t: Stamp, u: Stamp)
    ensures Later(s, t) || Later(t, s) || s == t
    ensures !(Later(s, t) && Later(t, s)) && !Later(s, s)
    ensures Later(s, t) && Later(t, u) ==> Later(s, u)
  {
    BytesTrichotomy(s.id, t.id);
    BytesTrichotomy(s.id, s.id);
    if BytesLess(u.id, t.id) && BytesLess(t.id, s.id) { BytesTransitive(u.id, t.id, s.id); }
  }

  // ---------------------------------------------------------------------------------------------
  // Log entries and the state they lead to
  // ---------------------------------------------------------------------------------------------

  /** The stored bytes of a document. */
  type Raw = string

  datatype Op =
    | PutAll(docs: seq<(string, Raw)>)
    | Put(key: string, raw: Raw)
    | Del(key: string)
    | Other
    | Unparsable

  datatype Entry = Entry(hash: string, stamp: Stamp, op: Op)

  datatype Cell = Live(raw: Raw) | Gone

  function FirstDoc(docs: seq<(string, Raw)>, k: string): Option<Cell> {
    if docs == [] then None
    else if docs[0].0 == k then Some(Live(docs[0].1))
    else FirstDoc(docs[1..], k)
  }

  /** What an operation writes to a key. Empty keys are ignored; of two documents with one key in a PUTALL the
      second is not newer than the first. */
  function WriteTo(op: Op, k: string): Option<Cell> {
    if k == "" then None
    else
      match op
      case PutAll(docs) => FirstDoc(docs, k)
      case Put(key, raw) => if key == k then Some(Live(raw)) else None
      case Del(key) => if key == k then Some(Gone) else None
      case _ => None
  }

  /** The key index, the clock of the winning write of every key (deletions leave one too) and the entries applied. */
  datatype Snapshot = Snapshot(cells: map<string, Raw>, clocks: map<string, Stamp>, seen: set<string>)

  const EMPTY := Snapshot(map[], map[], {})

  function CellAt(s: Snapshot, k: string): Cell {
    if k in s.cells then Live(s.cells[k]) else Gone
  }

  function ClockAt(s: Snapshot, k: string): Option<Stamp> {
    if k in s.clocks then Some(s.clocks[k]) else None
  }

  predicate Newer(cur: Option<Stamp>, st: Stamp) {
    cur.None? || Later(st, cur.value)
  }

  function Write(s: Snapshot, k: string, cell: Cell, st: Stamp): Snapshot {
    if k == "" || !Newer(ClockAt(s, k), st) then s
    else s.(cells := if cell.Live? then s.cells[k := cell.raw] else s.cells - {k}, clocks := s.clocks[k := st])
  }

  function WriteDocs(s: Snapshot, docs: seq<(string, Raw)>, st: Stamp): Snapshot
    decreases docs
  {
    if docs == [] then s else WriteDocs(Write(s, docs[0].0, Live(docs[0].1), st), docs[1..], st)
  }

  /** The state after one log entry. */
  function Applied(s: Snapshot, e: Entry): Snapshot {
    if e.hash in s.seen || e.op.Unparsable? then s
    else
      var t :=
        match e.op
        case PutAll(docs) => WriteDocs(s, docs, e.stamp)
        case Put(key, raw) => Write(s, key, Live(raw), e.stamp)
        case Del(key) => Write(s, key, Gone, e.stamp)
        case _ => s;
      t.(seen := s.seen + {e.hash})
  }

  function AppliedAll(s: Snapshot, es: seq<Entry>): Snapshot
    decreases es
  {
    if es == [] then s else AppliedAll(Applied(s, es[0]), es[1..])
  }

  lemma {:induction false} ApplyAllSnoc(s: Snapshot, es: seq<Entry>, e: Entry)
    ensures AppliedAll(s, es + [e]) == Applied(AppliedAll(s, es), e)
    decreases es
  {
    if es == [] {
      assert [] + [e] == [e];
      assert AppliedAll(Applied(s, e), []) == Applied(s, e);
    } else {
      ApplyAllSnoc(Applied(s, es[0]), es[1..], e);
      assert (es + [e])[1..] == es[1..] + [e];
    }
  }

  lemma {:induction false} WriteDocsSnoc(s: Snapshot, docs: seq<(string, Raw)>, d: (string, Raw), st: Stamp)
    ensures WriteDocs(s, docs + [d], st) == Write(WriteDocs(s, docs, st), d.0, Live(d.1), st)
    decreases docs
  {
    if docs == [] {
      assert [] + [d] == [d];
      var t := Write(s, d.0, Live(d.1), st);
      assert WriteDocs(t, [], st) == t;
    } else {
      WriteDocsSnoc(Write(s, docs[0].0, Live(docs[0].1), st), docs[1..], d, st);
      assert (docs + [d])[1..] == docs[1..] + [d];
    }
  }

  /** Keys outside the documents are untouched, and a key among them gets its first document if that is newer. */
  lemma {:induction false} WriteDocsAt(s: Snapshot, docs: seq<(string, Raw)>, st: Stamp, k: string)
    ensures var t := WriteDocs(s, docs, st);
            var w := WriteTo(PutAll(docs), k);
            var u := if w.Some? then Write(s, k, w.value, st) else s;
            CellAt(t, k) == CellAt(u, k) && ClockAt(t, k) == ClockAt(u, k) && t.seen == s.seen
    decreases docs
  {
    if docs != [] {
      var s' := Write(s, docs[0].0, Live(docs[0].1), st);
      WriteDocsAt(s', docs[1..], st, k);
      LaterIsTotalOrder(st, st, st);
    }
  }

  lemma ApplyAt(s: Snapshot, e: Entry, k: string)
    requires e.hash !in s.seen && !e.op.Unparsable?
    ensures var t := Applied(s, e);
            var w := WriteTo(e.op, k);
            var u := if w.Some? then Write(s, k, w.value, e.stamp) else s;
            CellAt(t, k) == CellAt(u, k) && ClockAt(t, k) == ClockAt(u, k)
  {
    if e.op.PutAll? { WriteDocsAt(s, e.op.docs, e.stamp, k); }
  }

  // ---------------------------------------------------------------------------------------------
  // The index as a function of the set of entries
  // ---------------------------------------------------------------------------------------------

  ghost predicate Shows(e: Entry, s: Snapshot, k: string) {
    WriteTo(e.op, k) == Some(CellAt(s, k)) && ClockAt(s, k) == Some(e.stamp)
  }

  ghost predicate KeyReflects(log: set<Entry>, s: Snapshot, k: string) {
    if k in s.clocks then
      && (exists e :: e in log && Shows(e, s, k))
      && (forall e :: e in log && WriteTo(e.op, k).Some? ==> !Later(e.stamp, s.clocks[k]))
    else k !in s.cells && forall e :: e in log ==> WriteTo(e.op, k).None?
  }

  /** A brute-force reading of the log: every key shows a write that no other write in the log is later than, and the
      entries that can be parsed are marked as applied. */
  ghost predicate Reflects(log: set<Entry>, s: Snapshot) {
    && s.seen == (set e | e in log && !e.op.Unparsable? :: e.hash)
    && forall k :: KeyReflects(log, s, k)
  }

  /** Entries are addressed by the hash of their content. */
  ghost predicate Addressed(log: set<Entry>) {
    forall e, f :: e in log && f in log && e.hash == f.hash ==> e == f
  }

  lemma ApplyReflects(log: set<Entry>, s: Snapshot, e: Entry)
    requires Reflects(log, s) && Addressed(log + {e})
    ensures Reflects(log + {e}, Applied(s, e))
  {
    var t := Applied(s, e);
    if e.hash in s.seen {
      assert log + {e} == log;
    } else if e.op.Unparsable? {
      forall k ensures KeyReflects(log + {e}, t, k) {
        assert KeyReflects(log, s, k);
        if k in s.clocks {
          var f :| f in log && Shows(f, s, k);
          assert Shows(f, t, k);
        }
      }
      assert t.seen == set f | f in log + {e} && !f.op.Unparsable? :: f.hash;
    } else {
      forall k ensures KeyReflects(log + {e}, t, k) {
        ApplyAt(s, e, k);
        assert KeyReflects(log, s, k);
        var w := WriteTo(e.op, k);
        if w.Some? && Newer(ClockAt(s, k), e.stamp) {
          assert Shows(e, t, k);
          forall f | f in log + {e} && WriteTo(f.op, k).Some? ensures !Later(f.stamp, e.stamp) {
            if f in log {
              LaterIsTotalOrder(e.stamp, s.clocks[k], f.stamp);
              LaterIsTotalOrder(f.stamp, e.stamp, s.clocks[k]);
            }
            LaterIsTotalOrder(e.stamp, e.stamp, e.stamp);
          }
        } else if k in s.clocks {
          var f :| f in log && Shows(f, s, k);
          assert Shows(f, t, k);
        }
      }
      if e.op.PutAll? { WriteDocsAt(s, e.op.docs, e.stamp, ""); }
      assert t.seen == s.seen + {e.hash};
    }
  }

  /** Applying entries one by one, duplicates included, reflects their set. */
  lemma {:induction false} ApplyAllReflects(log: set<Entry>, s: Snapshot, es: seq<Entry>)
    requires Reflects(log, s) && Addressed(log + Elems(es))
    ensures Reflects(log + Elems(es), AppliedAll(s, es))
    decreases es
  {
    if es == [] {
      assert log + Elems(es) == log;
    } else {
      assert Elems(es) == {es[0]} + Elems(es[1..]);
      ApplyReflects(log, s, es[0]);
      assert log + {es[0]} + Elems(es[1..]) == log + Elems(es);
      ApplyAllReflects(log + {es[0]}, Applied(s, es[0]), es[1..]);
    }
  }

  // ---------------------------------------------------------------------------------------------
  // What the index shows, in terms of clock times and ids
  // ---------------------------------------------------------------------------------------------

  /** a comes before b in the order of byte strings: it is a proper prefix of b, or has the smaller byte where they
      first differ. */
  ghost predicate Precedes(a: seq<Byte>, b: seq<Byte>) {
    exists i :: 0 <= i <= |a| && i < |b| && a[..i] == b[..i] && (i < |a| ==> a[i] < b[i])
  }

  lemma {:induction false} BytesLessIs(a: seq<Byte>, b: seq<Byte>)
    ensures BytesLess(a, b) <==> Precedes(a, b)
    decreases a
  {
    if a != [] && b != [] && a[0] == b[0] {
      BytesLessIs(a[1..], b[1..]);
      if i :| 0 <= i <= |a[1..]| && i < |b[1..]| && a[1..][..i] == b[1..][..i] && (i < |a[1..]| ==> a[1..][i] < b[1..][i]) {
        assert a[..i + 1] == [a[0]] + a[1..][..i] && b[..i + 1] == [b[0]] + b[1..][..i];
      }
      if i :| 0 <= i <= |a| && i < |b| && a[..i] == b[..i] && (i < |a| ==> a[i] < b[i]) {
        assert a[1..][..i - 1] == a[..i][1..] && b[1..][..i - 1] == b[..i][1..];
      }
    } else if b != [] {
      assert a[..0] == b[..0];
    }
  }

  /** The entry puts, or deletes, the document under a key. The empty key is no key. */
  ghost predicate Writes(e: Entry, k: string) {
    && k != ""
    && match e.op
       case PutAll(docs) => exists d :: d in docs && d.0 == k
       case Put(key, raw) => key == k
       case Del(key) => key == k
       case _ => false
  }

  /** The clock of f comes before that of e: the time is smaller, or the times are equal and the id is smaller. */
  ghost predicate Earlier(f: Entry, e: Entry) {
    f.stamp.time < e.stamp.time || (f.stamp.time == e.stamp.time && Precedes(f.stamp.id, e.stamp.id))
  }

  /** The documents under k are those e leaves there: its own, of a PUTALL the first one under k, or none. */
  ghost predicate ShowsWriteOf(e: Entry, k: string, cells: map<string, Raw>) {
    match e.op
    case PutAll(docs) =>
      && k in cells
      && exists i :: 0 <= i < |docs| && docs[i] == (k, cells[k]) && forall j :: 0 <= j < i ==> docs[j].0 != k
    case Put(key, raw) => k in cells && cells[k] == raw
    case _ => k !in cells
  }

  lemma {:induction false} FirstDocIs(docs: seq<(string, Raw)>, k: string)
    ensures (exists d :: d in docs && d.0 == k) <==> FirstDoc(docs, k).Some?
    ensures FirstDoc(docs, k).Some? ==>
              && FirstDoc(docs, k).value.Live?
              && exists i :: 0 <= i < |docs| && docs[i] == (k, FirstDoc(docs, k).value.raw)
                     && forall j :: 0 <= j < i ==> docs[j].0 != k
    decreases docs
  {
    if docs != [] {
      FirstDocIs(docs[1..], k);
      if docs[0].0 == k {
        assert docs[0] in docs && docs[0] == (k, docs[0].1);
      } else if FirstDoc(docs, k).Some? {
        var i :| 0 <= i < |docs[1..]| && docs[1..][i] == (k, FirstDoc(docs[1..], k).value.raw)
                 && forall j :: 0 <= j < i ==> docs[1..][j].0 != k;
        forall j | 0 <= j < i + 1 ensures docs[j].0 != k { if j > 0 { assert docs[j] == docs[1..][j - 1]; } }
        assert docs[i + 1] == docs[1..][i];
      }
    }
  }

  lemma WritesIs(e: Entry, k: string)
    ensures Writes(e, k) <==> WriteTo(e.op, k).Some?
  {
    if e.op.PutAll? { FirstDocIs(e.op.docs, k); }
  }

  /** In an index that reflects a log, a key shows what the entry with the latest clock of those that write it leaves,
      and nothing when no entry writes it. */
  lemma LatestWriteShows(log: set<Entry>, s: Snapshot, k: string)
    requires Reflects(log, s)
    ensures forall e :: e in log && Writes(e, k) && (forall f :: f in log && f != e && Writes(f, k) ==> Earlier(f, e)) ==>
              ShowsWriteOf(e, k, s.cells)
    ensures (forall e :: e in log ==> !Writes(e, k)) ==> k !in s.cells
  {
    assert KeyReflects(log, s, k);
    forall e ensures Writes(e, k) <==> WriteTo(e.op, k).Some? { WritesIs(e, k); }
    forall e | e in log && Writes(e, k) && (forall f :: f in log && f != e && Writes(f, k) ==> Earlier(f, e))
      ensures ShowsWriteOf(e, k, s.cells)
    {
      assert k in s.clocks;
      var f :| f in log && Shows(f, s, k);
      if f != e {
        BytesLessIs(f.stamp.id, e.stamp.id);
        assert Later(e.stamp, s.clocks[k]);
        assert false;
      }
      if e.op.PutAll? { FirstDocIs(e.op.docs, k); }
    }
  }

  /** So whatever order the entries of a log are applied in, and however often. */
  lemma LatestWriteWins(es: seq<Entry>, k: string)
    requires Addressed(Elems(es))
    ensures var cells := AppliedAll(EMPTY, es).cells;
            && (forall e :: e in es && Writes(e, k) && (forall f :: f in es && f != e && Writes(f, k) ==> Earlier(f, e)) ==>
                  ShowsWriteOf(e, k, cells))
            && ((forall e :: e in es ==> !Writes(e, k)) ==> k !in cells)
  {
    EmptyReflects();
    assert {} + Elems(es) == Elems(es);
    ApplyAllReflects({}, EMPTY, es);
    LatestWriteShows(Elems(es), AppliedAll(EMPTY, es), k);
    forall e | e in es && Writes(e, k) && (forall f :: f in es && f != e && Writes(f, k) ==> Earlier(f, e))
      ensures ShowsWriteOf(e, k, AppliedAll(EMPTY, es).cells)
    {
      assert e in Elems(es) && forall f :: f in Elems(es) ==> f in es;
    }
  }

  /** e writes k and nothing in the log writes k later. */
  ghost predicate Top(log: set<Entry>, e: Entry, k: string) {
    && e in log && WriteTo(e.op, k).Some?
    && forall f :: f in log && WriteTo(f.op, k).Some? ==> !Later(f.stamp, e.stamp)
  }

  /** Latest writes of a key that carry the same stamp write the same. */
  ghost predicate Agree(log: set<Entry>) {
    forall e, f, k :: Top(log, e, k) && Top(log, f, k) ==> WriteTo(e.op, k) == WriteTo(f.op, k)
  }

  lemma SameKey(log: set<Entry>, s: Snapshot, t: Snapshot, k: string)
    requires KeyReflects(log, s, k) && KeyReflects(log, t, k) && Agree(log)
    ensures CellAt(s, k) == CellAt(t, k) && ClockAt(s, k) == ClockAt(t, k)
  {
    if k in s.clocks {
      var e :| e in log && Shows(e, s, k);
      assert k in t.clocks;
      var f :| f in log && Shows(f, t, k);
      assert Top(log, e, k) && Top(log, f, k);
      LaterIsTotalOrder(e.stamp, f.stamp, e.stamp);
    }
  }

  /** Two indexes of the same log are equal when the latest writes agree. */
  lemma Converge(log: set<Entry>, s: Snapshot, t: Snapshot)
    requires Reflects(log, s) && Reflects(log, t) && Agree(log)
    ensures s == t
  {
    forall k ensures CellAt(s, k) == CellAt(t, k) && ClockAt(s, k) == ClockAt(t, k) {
      SameKey(log, s, t, k);
    }
    assert forall k :: (k in s.cells <==> CellAt(s, k).Live?) && (k in t.cells <==> CellAt(t, k).Live?);
    assert forall k :: (k in s.clocks <==> ClockAt(s, k).Some?) && (k in t.clocks <==> ClockAt(t, k).Some?);
    assert s.cells == t.cells;
    assert s.clocks == t.clocks;
  }

  /** A write stays in place while nothing later is applied. */
  lemma {:induction false} TopStays(log: set<Entry>, e: Entry, k: string, s: Snapshot, es: seq<Entry>)
    requires Top(log, e, k) && Elems(es) <= log
    requires CellAt(s, k) == WriteTo(e.op, k).value && ClockAt(s, k) == Some(e.stamp)
    ensures CellAt(AppliedAll(s, es), k) == WriteTo(e.op, k).value
    decreases es
  {
    if es != [] {
      assert es[0] in Elems(es);
      if es[0].hash !in s.seen && !es[0].op.Unparsable? { ApplyAt(s, es[0], k); }
      TopStays(log, e, k, Applied(s, es[0]), es[1..]);
    }
  }

  ghost predicate OrderIndependent(log: set<Entry>) {
    forall es, fs :: Elems(es) == log && Elems(fs) == log ==> AppliedAll(EMPTY, es) == AppliedAll(EMPTY, fs)
  }

  lemma EmptyReflects()
    ensures Reflects({}, EMPTY)
  {}

  lemma AgreeingLogConverges(log: set<Entry>, s: Snapshot, es: seq<Entry>)
    requires Addressed(log) && Agree(log) && Reflects(log, s) && Elems(es) == log
    ensures s == AppliedAll(EMPTY, es)
  {
    EmptyReflects();
    assert {} + log == log;
    ApplyAllReflects({}, EMPTY, es);
    Converge(log, s, AppliedAll(EMPTY, es));
  }

  /** Of two equally late writes the one applied first wins. */
  lemma FirstTopWins(log: set<Entry>, e: Entry, k: string, rest: seq<Entry>)
    requires Addressed(log) && Top(log, e, k) && Elems(rest) == log
    ensures CellAt(AppliedAll(EMPTY, [e] + rest), k) == WriteTo(e.op, k).value
  {
    ApplyAt(EMPTY, e, k);
    assert ([e] + rest)[1..] == rest;
    TopStays(log, e, k, Applied(EMPTY, e), rest);
  }

  lemma SameInAnyOrder(log: set<Entry>, es: seq<Entry>, fs: seq<Entry>)
    requires Addressed(log) && Agree(log) && Elems(es) == log && Elems(fs) == log
    ensures AppliedAll(EMPTY, es) == AppliedAll(EMPTY, fs)
  {
    EmptyReflects();
    assert {} + log == log;
    ApplyAllReflects({}, EMPTY, es);
    AgreeingLogConverges(log, AppliedAll(EMPTY, es), fs);
  }

  /** Two orders that tell two disagreeing latest writes apart. */
  lemma TieShows(log: set<Entry>, e: Entry, f: Entry, k: string) returns (es: seq<Entry>, fs: seq<Entry>)
    requires Addressed(log) && Top(log, e, k) && Top(log, f, k) && WriteTo(e.op, k) != WriteTo(f.op, k)
    ensures Elems(es) == log && Elems(fs) == log && AppliedAll(EMPTY, es) != AppliedAll(EMPTY, fs)
  {
    var rest := Enumerate(log);
    FirstTopWins(log, e, k, rest);
    FirstTopWins(log, f, k, rest);
    es, fs := [e] + rest, [f] + rest;
    assert CellAt(AppliedAll(EMPTY, es), k) != CellAt(AppliedAll(EMPTY, fs), k);
  }

  /** The index does not depend on the order in which entries are applied, nor on repetitions, exactly when
      equally stamped latest writes of a key agree. */
  lemma OrderIndependence(log: set<Entry>)
    requires Addressed(log)
    ensures OrderIndependent(log) <==> Agree(log)
  {
    if Agree(log) {
      forall es, fs | Elems(es) == log && Elems(fs) == log ensures AppliedAll(EMPTY, es) == AppliedAll(EMPTY, fs) {
        SameInAnyOrder(log, es, fs);
      }
    }
    if !Agree(log) {
      var e, f, k :| Top(log, e, k) && Top(log, f, k) && WriteTo(e.op, k) != WriteTo(f.op, k);
      var es, fs := TieShows(log, e, f, k);
    }
  }

  /** In particular when no two entries have the same stamp. */
  lemma DistinctStampsConverge(log: set<Entry>)
    requires Addressed(log) && forall e, f :: e in log && f in log && e.stamp == f.stamp ==> e == f
    ensures OrderIndependent(log)
  {
    forall e, f, k | Top(log, e, k) && Top(log, f, k) ensures WriteTo(e.op, k) == WriteTo(f.op, k) {
      LaterIsTotalOrder(e.stamp, f.stamp, e.stamp);
    }
    OrderIndependence(log);
  }

  // ---------------------------------------------------------------------------------------------
  // Entries that cannot be parsed
  // ---------------------------------------------------------------------------------------------

  /** The entries of an order that are applied: those before the first that cannot be parsed. */
  function Readable(es: seq<Entry>): seq<Entry> {
    if es == [] || es[0].op.Unparsable? then [] else [es[0]] + Readable(es[1..])
  }

  lemma {:induction false} ReadablePrefix(es: seq<Entry>, rest: seq<Entry>)
    requires (forall e :: e in es ==> !e.op.Unparsable?) && (rest == [] || rest[0].op.Unparsable?)
    ensures Readable(es + rest) == es
    decreases es
  {
    if es == [] {
      assert es + rest == rest;
    } else {
      assert (es + rest)[0] == es[0] && (es + rest)[1..] == es[1..] + rest;
      ReadablePrefix(es[1..], rest);
    }
  }

  lemma {:induction false} ReadableElems(es: seq<Entry>)
    ensures forall e :: e in Readable(es) ==> e in es && !e.op.Unparsable?
    ensures (forall e :: e in es ==> !e.op.Unparsable?) ==> Readable(es) == es
    decreases es
  {
    if es != [] {
      assert es == [es[0]] + es[1..];
      ReadableElems(es[1..]);
    }
  }

  lemma Reached(log: set<Entry>, applied: set<Entry>, s: Snapshot, es: seq<Entry>)
    requires Addressed(log) && applied <= log && Reflects(applied, s) && Elems(es) <= log
    ensures Reflects(applied + Elems(es), AppliedAll(s, es))
  {
    ApplyAllReflects(applied, s, es);
  }

  function Parsed(log: set<Entry>): set<string> {
    set e | e in log && !e.op.Unparsable? :: e.hash
  }

  /** An update of the index from the log, in whatever order, leaves no entry out that can be parsed. */
  ghost predicate MissesNothing(log: set<Entry>, s: Snapshot) {
    forall es :: Elems(es) == log ==> AppliedAll(s, Readable(es)).seen == Parsed(log)
  }

  lemma AppliedIsParsed(log: set<Entry>, applied: set<Entry>, s: Snapshot, es: seq<Entry>)
    requires Addressed(log) && applied <= log && Reflects(applied, s) && Elems(es) == log
    ensures AppliedAll(s, Readable(es)).seen == Parsed(applied + Elems(Readable(es)))
  {
    ReadableElems(es);
    ApplyAllReflects(applied, s, Readable(es));
  }

  lemma AllApplied(log: set<Entry>, applied: set<Entry>, s: Snapshot, es: seq<Entry>)
    requires Addressed(log) && applied <= log && Reflects(applied, s) && Elems(es) == log
    requires (forall e :: e in log ==> !e.op.Unparsable?) || (forall e :: e in log && !e.op.Unparsable? ==> e in applied)
    ensures AppliedAll(s, Readable(es)).seen == Parsed(log)
  {
    AppliedIsParsed(log, applied, s, es);
    ReadableElems(es);
    var reached := applied + Elems(Readable(es));
    forall e | e in log && !e.op.Unparsable? ensures e in reached {
      if e !in applied { assert e in Elems(es) && Readable(es) == es; }
    }
    forall e | e in Readable(es) ensures e in log { assert e in Elems(es); }
    assert forall h :: h in Parsed(reached) <==> h in Parsed(log);
  }

  /** An order that begins with an entry that cannot be parsed. */
  lemma LeftOut(log: set<Entry>, applied: set<Entry>, s: Snapshot, bad: Entry, good: Entry) returns (es: seq<Entry>)
    requires Addressed(log) && applied <= log && Reflects(applied, s)
    requires bad in log && bad.op.Unparsable? && good in log && !good.op.Unparsable? && good !in applied
    ensures Elems(es) == log && good.hash in Parsed(log) && good.hash !in AppliedAll(s, Readable(es)).seen
  {
    var rest := Enumerate(log);
    es := [bad] + rest;
    assert Elems(es) == {bad} + Elems(rest);
    assert Readable(es) == [] && AppliedAll(s, []) == s;
    assert s.seen == Parsed(applied);
  }

  /** So it is exactly when all entries can be parsed, or all that can have been applied before. */
  lemma MissesNothingIff(log: set<Entry>, applied: set<Entry>, s: Snapshot)
    requires Addressed(log) && applied <= log && Reflects(applied, s)
    ensures MissesNothing(log, s)
       <==> (forall e :: e in log ==> !e.op.Unparsable?) || (forall e :: e in log && !e.op.Unparsable? ==> e in applied)
  {
    if (forall e :: e in log ==> !e.op.Unparsable?) || (forall e :: e in log && !e.op.Unparsable? ==> e in applied) {
      forall es | Elems(es) == log ensures AppliedAll(s, Readable(es)).seen == Parsed(log) { AllApplied(log, applied, s, es); }
    } else {
      var bad :| bad in log && bad.op.Unparsable?;
      var good :| good in log && !good.op.Unparsable? && good !in applied;
      var es := LeftOut(log, applied, s, bad, good);
    }
  }

  /** An update from the log that has applied the entries in done. */
  ghost predicate Partway(log: set<Entry>, applied: set<Entry>, s: Snapshot, done: seq<Entry>, now: Snapshot) {
    && now == AppliedAll(s, done) && Elems(done) <= log
    && (forall e :: e in done ==> !e.op.Unparsable?)
  }

  lemma PartwayNext(log: set<Entry>, applied: set<Entry>, s: Snapshot, done: seq<Entry>, now: Snapshot, e: Entry)
    requires Addressed(log) && applied <= log && Reflects(applied, s) && e in log && Partway(log, applied, s, done, now)
    ensures e.op.Unparsable? ==> e.hash !in now.seen && Applied(now, e) == now
    ensures !e.op.Unparsable? ==> Partway(log, applied, s, done + [e], Applied(now, e))
    ensures Elems(done + [e]) == Elems(done) + {e}
  {
    Reached(log, applied, s, done);
    NotApplied(log, applied + Elems(done), now, e);
    ApplyAllSnoc(s, done, e);
  }

  /** The rest of the log comes after the entry that cannot be parsed. */
  lemma StopsAt(log: set<Entry>, applied: set<Entry>, s: Snapshot, done: seq<Entry>, now: Snapshot, e: Entry, todo: set<Entry>)
    returns (order: seq<Entry>)
    requires Addressed(log) && applied <= log && Reflects(applied, s) && Partway(log, applied, s, done, now)
    requires e.op.Unparsable? && Elems(done) + {e} + todo == log
    ensures Elems(order) == log && now == AppliedAll(s, Readable(order)) && Reflects(applied + Elems(Readable(order)), now)
  {
    var rest := Enumerate(todo);
    order := done + ([e] + rest);
    assert Elems(order) == Elems(done) + ({e} + Elems(rest));
    ReadablePrefix(done, [e] + rest);
    Reached(log, applied, s, done);
  }

  lemma Finishes(log: set<Entry>, applied: set<Entry>, s: Snapshot, done: seq<Entry>, now: Snapshot)
    requires Addressed(log) && applied <= log && Reflects(applied, s) && Partway(log, applied, s, done, now) && Elems(done) == log
    ensures Readable(done) == done && Reflects(applied + Elems(done), now) && Reflects(log, now)
    ensures forall e :: e in log ==> !e.op.Unparsable?
  {
    ReadableElems(done);
    Reached(log, applied, s, done);
    assert applied + Elems(done) == log;
    assert forall e :: e in Elems(done) ==> e in done;
  }

  /** The index of a log whose latest writes agree is what applying its entries in any order gives. */
  lemma WholeLog(log: set<Entry>, s: Snapshot)
    requires Addressed(log) && Reflects(log, s)
    ensures Agree(log) ==> forall es :: Elems(es) == log ==> s == AppliedAll(EMPTY, es)
  {
    if Agree(log) {
      forall es | Elems(es) == log ensures s == AppliedAll(EMPTY, es) { AgreeingLogConverges(log, s, es); }
    }
  }

  /** An entry that cannot be parsed has not been applied. */
  lemma NotApplied(log: set<Entry>, reached: set<Entry>, s: Snapshot, e: Entry)
    requires Addressed(log) && reached <= log && Reflects(reached, s) && e in log
    ensures e.op.Unparsable? ==> e.hash !in s.seen
  {
  }

  // ---------------------------------------------------------------------------------------------
  // The inverted index over fields
  // ---------------------------------------------------------------------------------------------

  type ByField = map<string, map<string, set<string>>>
  type FieldVals = map<string, map<string, string>>

  ghost predicate Listed(inv: ByField, f: string, v: string, k: string) {
    f in inv && v in inv[f] && k in inv[f][v]
  }

  ghost predicate HasVal(vals: FieldVals, k: string, f: string, v: string) {
    k in vals && f in vals[k] && vals[k][f] == v
  }

  /** byField is fieldVals turned around. */
  ghost predicate Inverse(inv: ByField, vals: FieldVals) {
    forall f, v, k :: Listed(inv, f, v, k) <==> HasVal(vals, k, f, v)
  }

  function Enlist(inv: ByField, f: string, v: string, k: string): ByField
    requires f in inv
  {
    inv[f := inv[f][v := (if v in inv[f] then inv[f][v] else {}) + {k}]]
  }

  function Unlist(inv: ByField, f: string, v: string, k: string): ByField
    requires f in inv && v in inv[f]
  {
    var keys := inv[f][v] - {k};
    inv[f := if keys == {} then inv[f] - {v} else inv[f][v := keys]]
  }

  lemma EnlistLists(inv: ByField, f: string, v: string, k: string)
    requires f in inv
    ensures Enlist(inv, f, v, k).Keys == inv.Keys
    ensures forall f', v', k' :: Listed(Enlist(inv, f, v, k), f', v', k') <==>
                                 Listed(inv, f', v', k') || (f' == f && v' == v && k' == k)
  {
  }

  lemma UnlistLists(inv: ByField, f: string, v: string, k: string)
    requires f in inv && v in inv[f]
    ensures Unlist(inv, f, v, k).Keys == inv.Keys
    ensures forall f', v', k' :: Listed(Unlist(inv, f, v, k), f', v', k') <==>
                                 Listed(inv, f', v', k') && !(f' == f && v' == v && k' == k)
  {
    var keys := inv[f][v] - {k};
    if keys == {} {
      forall k' | k' in inv[f][v] ensures k' == k {
        assert k' !in keys;
      }
    }
  }

  class Index {
    const decode: Raw -> Option<Json>
    const fields: set<string>
    var index: map<string, Raw>
    var clocks: map<string, Stamp>
    var seen: set<string>
    var byField: ByField
    var fieldVals: FieldVals
    var fieldsOff: bool

    ghost function Snap(): Snapshot
      reads this
    {
      Snapshot(index, clocks, seen)
    }

    /** stringFields: the string values of the indexed fields; None when the bytes are not a JSON object. */
    function StringFields(raw: Raw): Option<map<string, string>> {
      match decode(raw)
      case Some(Obj(m)) => Some(map f | f in fields && f in m && m[f].Str? :: m[f].s)
      case Some(Null) => Some(map[])
      case _ => None
    }

    /** The document stored as raw has the string v in its top-level field f. */
    predicate FieldIs(raw: Raw, f: string, v: string) {
      match decode(raw)
      case Some(Obj(m)) => f in m && m[f] == Str(v)
      case _ => false
    }

    ghost predicate Current(keys: map<string, Raw>, vals: FieldVals) {
      && (forall k :: k in keys ==> StringFields(keys[k]).Some?)
      && (forall k :: k in vals <==> k in keys && StringFields(keys[k]).value != map[])
      && (forall k :: k in vals ==> vals[k] == StringFields(keys[k]).value)
    }

    ghost predicate Indexing()
      reads this
    {
      fields != {} && !fieldsOff
    }

    ghost predicate Valid()
      reads this
    {
      if Indexing() then
        && byField.Keys == fields
        && Inverse(byField, fieldVals)
        && Current(index, fieldVals)
      else byField == map[] && fieldVals == map[]
    }

    constructor (decode: Raw -> Option<Json>, fields: set<string>)
      ensures Valid() && Snap() == EMPTY && !fieldsOff
      ensures this.decode == decode && this.fields == fields
    {
      this.decode, this.fields := decode, fields;
      index, clocks, seen := map[], map[], {};
      byField, fieldVals, fieldsOff := map f | f in fields :: map[], map[], false;
    }

    method UnindexFields(key: string)
      requires Indexing() && byField.Keys == fields && Inverse(byField, fieldVals)
      modifies this`byField, this`fieldVals
      ensures byField.Keys == fields && Inverse(byField, fieldVals)
      ensures fieldVals == old(fieldVals) - {key}
    {
      if key !in fieldVals { return; }
      var todo := fieldVals[key].Keys;
      while todo != {}
        invariant byField.Keys == fields && fieldVals == old(fieldVals)
        invariant todo <= fieldVals[key].Keys
        invariant forall f, v, k :: Listed(byField, f, v, k) <==> HasVal(fieldVals, k, f, v) && !(k == key && f !in todo)
      {
        var f :| f in todo;
        todo := todo - {f};
        var v := fieldVals[key][f];
        assert HasVal(fieldVals, key, f, v);
        assert Listed(byField, f, v, key);
        UnlistLists(byField, f, v, key);
        byField := Unlist(byField, f, v, key);
      }
      fieldVals := fieldVals - {key};
    }

    /** Enters a key's string fields into the inverted index. */
    method IndexFields(key: string, vals: map<string, string>)
      requires Indexing() && byField.Keys == fields && Inverse(byField, fieldVals)
      requires key !in fieldVals && vals.Keys <= fields
      modifies this`byField, this`fieldVals
      ensures byField.Keys == fields && Inverse(byField, fieldVals)
      ensures fieldVals == old(fieldVals)[key := vals]
    {
      fieldVals := fieldVals[key := vals];
      var todo := vals.Keys;
      while todo != {}
        invariant todo <= vals.Keys && byField.Keys == fields && fieldVals == old(fieldVals)[key := vals]
        invariant forall f, v, k :: Listed(byField, f, v, k) <==> HasVal(fieldVals, k, f, v) && !(k == key && f in todo)
      {
        var f :| f in todo;
        todo := todo - {f};
        assert HasVal(fieldVals, key, f, vals[f]);
        EnlistLists(byField, f, vals[f], key);
        byField := Enlist(byField, f, vals[f], key);
      }
    }

    /** setKey: stores the winning value of a key. */
    method SetKey(key: string, raw: Raw)
      requires Valid()
      modifies this`index, this`byField, this`fieldVals, this`fieldsOff
      ensures Valid() && index == old(index)[key := raw]
      ensures fieldsOff <==> old(fieldsOff) || (fields != {} && StringFields(raw).None?)
    {
      index := index[key := raw];
      if fields == {} || fieldsOff { return; }
      UnindexFields(key);
      var vals := StringFields(raw);
      if vals.None? {
        fieldsOff := true;
        byField, fieldVals := map[], map[];
        return;
      }
      if vals.value == map[] { return; }
      IndexFields(key, vals.value);
    }

    method DelKey(key: string)
      requires Valid()
      modifies this`index, this`byField, this`fieldVals
      ensures Valid() && index == old(index) - {key}
    {
      index := index - {key};
      if fields != {} && !fieldsOff { UnindexFields(key); }
    }

    /** apply: processes one log entry; false when its payload cannot be parsed. */
    method Apply(e: Entry) returns (ok: bool)
      requires Valid()
      modifies this
      ensures Valid() && Snap() == Applied(old(Snap()), e)
      ensures ok <==> e.hash in old(seen) || !e.op.Unparsable?
    {
      if e.hash in seen { return true; }
      match e.op {
        case Unparsable => return false;
        case PutAll(docs) =>
          for i := 0 to |docs|
            invariant Valid() && Snap() == WriteDocs(old(Snap()), docs[..i], e.stamp)
          {
            WriteDocsSnoc(old(Snap()), docs[..i], docs[i], e.stamp);
            assert docs[..i + 1] == docs[..i] + [docs[i]];
            WriteIfNewer(docs[i].0, Live(docs[i].1), e.stamp);
          }
          assert docs[..|docs|] == docs;
          WriteDocsAt(old(Snap()), docs, e.stamp, "");
        case Put(key, raw) => WriteIfNewer(key, Live(raw), e.stamp);
        case Del(key) => WriteIfNewer(key, Gone, e.stamp);
        case Other =>
      }
      seen := seen + {e.hash};
      ok := true;
    }

    method WriteIfNewer(key: string, cell: Cell, st: Stamp)
      requires Valid()
      modifies this
      ensures Valid() && Snap() == Write(old(Snap()), key, cell, st)
      ensures var cur := old(clocks);
              if key == "" || (key in cur && cur[key].time > st.time) then Snap() == old(Snap())
              else if key !in cur || cur[key].time < st.time || Precedes(cur[key].id, st.id) then
                && clocks == cur[key := st] && seen == old(seen)
                && index == (match cell case Live(raw) => old(index)[key := raw] case Gone => old(index) - {key})
              else Snap() == old(Snap())
    {
      if key in clocks { BytesLessIs(clocks[key].id, st.id); }
      if key == "" { return; }
      if key !in clocks || Later(st, clocks[key]) {
        match cell {
          case Live(raw) => SetKey(key, raw);
          case Gone => DelKey(key);
        }
        clocks := clocks[key := st];
      }
    }

    /** UpdateIndex after a local write: applies the entries given, up to the first that cannot be parsed. */
    method UpdateLocal(entries: seq<Entry>) returns (ok: bool)
      requires Valid()
      modifies this
      ensures Valid()
      ensures ok ==> Snap() == AppliedAll(old(Snap()), entries)
      ensures !ok ==> exists i :: 0 <= i < |entries| && entries[i].op.Unparsable?
                                  && Snap() == AppliedAll(old(Snap()), entries[..i])
    {
      for i := 0 to |entries|
        invariant Valid() && Snap() == AppliedAll(old(Snap()), entries[..i])
      {
        ApplyAllSnoc(old(Snap()), entries[..i], entries[i]);
        assert entries[..i + 1] == entries[..i] + [entries[i]];
        ok := Apply(entries[i]);
        if !ok { return; }
      }
      assert entries[..|entries|] == entries;
      ok := true;
    }

    /** UpdateIndex after replication or loading: applies the entries of the log not applied yet, in no particular order,
        up to the first that cannot be parsed. When all can, the outcome is the index of the whole log; else that of
        the entries reached. */
    method UpdateFromLog(log: set<Entry>, ghost applied: set<Entry>) returns (ok: bool, ghost order: seq<Entry>)
      requires Valid() && Reflects(applied, Snap()) && applied <= log && Addressed(log)
      modifies this
      ensures Valid() && Elems(order) == log && Snap() == AppliedAll(old(Snap()), Readable(order))
      ensures Reflects(applied + Elems(Readable(order)), Snap())
      ensures ok <==> forall e :: e in log ==> !e.op.Unparsable?
      ensures ok ==> Reflects(log, Snap())
      ensures ok && Agree(log) ==> forall es :: Elems(es) == log ==> Snap() == AppliedAll(EMPTY, es)
    {
      var todo := log;
      ghost var done: seq<Entry> := [];
      while todo != {}
        invariant todo <= log && Elems(done) + todo == log
        invariant Valid() && Partway(log, applied, old(Snap()), done, Snap())
      {
        var e :| e in todo;
        todo := todo - {e};
        PartwayNext(log, applied, old(Snap()), done, Snap(), e);
        ok := Apply(e);
        if !ok {
          order := StopsAt(log, applied, old(Snap()), done, Snap(), e, todo);
          return;
        }
        done := done + [e];
      }
      ok, order := true, done;
      Finishes(log, applied, old(Snap()), done, Snap());
      WholeLog(log, Snap());
    }

    /** The documents whose indexed fields equal the given strings. */
    ghost function Matching(equal: map<string, string>): set<string>
      reads this
    {
      set k | k in index && forall f :: f in equal && f in fields ==> FieldIs(index[k], f, equal[f])
    }

    lemma ListedIsFieldIs(f: string, v: string)
      requires Valid() && Indexing() && f in fields
      ensures forall k :: (v in byField[f] && k in byField[f][v]) <==> k in index && FieldIs(index[k], f, v)
    {
      forall k ensures (v in byField[f] && k in byField[f][v]) <==> k in index && FieldIs(index[k], f, v) {
        assert Listed(byField, f, v, k) <==> HasVal(fieldVals, k, f, v);
        if k in index {
          var vals := StringFields(index[k]).value;
          assert FieldIs(index[k], f, v) <==> f in vals && vals[f] == v;
        }
      }
    }

    /** k satisfies the equalities on the indexed fields in fs. */
    ghost predicate MatchesOn(equal: map<string, string>, fs: set<string>, k: string)
      reads this
    {
      forall f :: f in fs && f in equal && f in fields ==> k in index && FieldIs(index[k], f, equal[f])
    }

    /** keysByFields: the keys of the documents that satisfy every equality on an indexed field. */
    method KeysByFields(equal: map<string, string>) returns (keys: seq<string>, ok: bool)
      requires Valid()
      ensures ok <==> !fieldsOff && equal.Keys * fields != {}
      ensures ok ==> NoDup(keys) && Elems(keys) == Matching(equal)
    {
      keys := [];
      if fieldsOff { return keys, false; }
      var sets: seq<set<string>> := [];
      var todo := equal.Keys;
      while todo != {}
        invariant todo <= equal.Keys
        invariant sets != [] <==> (equal.Keys - todo) * fields != {}
        invariant forall k :: InAll(sets, k) <==> MatchesOn(equal, equal.Keys - todo, k)
      {
        var f :| f in todo;
        todo := todo - {f};
        if f in byField {
          ListedIsFieldIs(f, equal[f]);
          var found := if equal[f] in byField[f] then byField[f][equal[f]] else {};
          forall k ensures InAll(sets + [found], k) <==> InAll(sets, k) && k in found {
            AppendInAll(sets, found, k);
          }
          sets := sets + [found];
          assert f in (equal.Keys - todo) * fields;
        } else {
          assert f !in fields;
        }
      }
      if sets == [] { return keys, false; }
      assert equal.Keys - todo == equal.Keys;
      keys := Intersect(sets);
      ok := true;
      ghost var f :| f in equal.Keys * fields;
      assert forall k :: k in Elems(keys) <==> k in Matching(equal);
    }

    /** rawsByFields: the stored bytes of those documents, when every field asked for is indexed. */
    method RawsByFields(equal: map<string, string>) returns (raws: seq<Raw>, ok: bool, ghost keys: seq<string>)
      requires Valid()
      ensures ok <==> !fieldsOff && equal != map[] && equal.Keys <= fields
      ensures ok ==> NoDup(keys) && Elems(keys) == Matching(equal) && |raws| == |keys|
      ensures ok ==> forall i :: 0 <= i < |keys| ==> keys[i] in index && raws[i] == index[keys[i]]
    {
      raws, keys := [], [];
      if fieldsOff || equal == map[] { return [], false, []; }
      var todo := equal.Keys;
      while todo != {}
        invariant todo <= equal.Keys && equal.Keys - todo <= fields
      {
        var f :| f in todo;
        todo := todo - {f};
        if f !in byField { return [], false, []; }
      }
      var f :| f in equal;
      assert f in equal.Keys * fields;
      var found, some := KeysByFields(equal);
      keys := found;
      for i := 0 to |found|
        invariant |raws| == i
        invariant forall j :: 0 <= j < i ==> keys[j] in index && raws[j] == index[keys[j]]
      {
        assert found[i] in Elems(found);
        raws := raws + [index[found[i]]];
      }
      ok := true;
    }

    method Keys() returns (keys: seq<string>)
      ensures NoDup(keys) && Elems(keys) == index.Keys
    {
      keys := ListSet(index.Keys);
    }
  }

  predicate InAll(sets: seq<set<string>>, k: string) {
    forall i :: 0 <= i < |sets| ==> k in sets[i]
  }

  lemma AppendInAll(sets: seq<set<string>>, s: set<string>, k: string)
    ensures InAll(sets + [s], k) <==> InAll(sets, k) && k in s
  {
    var all := sets + [s];
    if InAll(all, k) {
      assert k in all[|sets|];
      forall i | 0 <= i < |sets| ensures k in sets[i] { assert k in all[i]; }
    }
  }

  /** The intersection of the key sets, by filtering a smallest one. */
  method Intersect(sets: seq<set<string>>) returns (keys: seq<string>)
    requires sets != []
    ensures NoDup(keys)
    ensures forall k :: k in Elems(keys) <==> InAll(sets, k)
  {
    var smallest := 0;
    for j := 0 to |sets|
      invariant 0 <= smallest < |sets|
    {
      if |sets[j]| < |sets[smallest]| { smallest := j; }
    }
    var candidates := ListSet(sets[smallest]);
    keys := [];
    for c := 0 to |candidates|
      invariant NoDup(keys)
      invariant forall k :: k in keys <==> k in candidates[..c] && InAll(sets, k)
    {
      var k := candidates[c];
      assert k !in candidates[..c];
      assert candidates[..c + 1] == candidates[..c] + [k];
      if InAll(sets, k) { keys := keys + [k]; }
    }
    forall k ensures k in Elems(keys) <==> InAll(sets, k) {
      assert k in candidates <==> k in Elems(candidates);
      assert candidates[..|candidates|] == candidates;
    }
  }
}
