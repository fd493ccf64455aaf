/** How writes are cut into log entries: the greedy cut of storeWriter.write (app/group_commit.go) and
    splitBatches (app/batch_put.go), and why no cut needs fewer entries. */
module Chunking {

  import opened Prelude

  /** OPTIMUSDB_BATCH_MAX_DOCS and OPTIMUSDB_BATCH_MAX_BYTES; envInt yields positive numbers only. */
  datatype Limits = Limits(maxDocs: nat, maxBytes: nat)

  function Total<T>(xs: seq<T>, size: T -> nat): nat {
    if xs == [] then 0 else Total(xs[..|xs| - 1], size) + size(xs[|xs| - 1])
  }

  /** One log entry: a single document of any size, or documents within both limits. */
  predicate Fits<T>(xs: seq<T>, size: T -> nat, lim: Limits) {
    |xs| == 1 || (0 < |xs| <= lim.maxDocs && Total(xs, size) <= lim.maxBytes)
  }

  /** Where the greedy cut of xs ends when its first n documents, total bytes long, are in the entry. */
  function CutFrom<T>(xs: seq<T>, size: T -> nat, lim: Limits, n: nat, total: nat): (end: nat)
    requires n <= |xs|
    ensures n <= end <= |xs|
    decreases |xs| - n
  {
    if n < |xs| && (n == 0 || (n < lim.maxDocs && total + size(xs[n]) <= lim.maxBytes))
    then CutFrom(xs, size, lim, n + 1, total + size(xs[n]))
    else n
  }

  function Cut<T>(xs: seq<T>, size: T -> nat, lim: Limits): (end: nat)
    requires xs != []
    ensures 1 <= end <= |xs|
  {
    CutFrom(xs, size, lim, 0, 0)
  }

  function Chunks<T>(xs: seq<T>, size: T -> nat, lim: Limits): seq<seq<T>>
    decreases |xs|
  {
    if xs == [] then []
    else
      var n := Cut(xs, size, lim);
      [xs[..n]] + Chunks(xs[n..], size, lim)
  }

  lemma TotalSnoc<T>(xs: seq<T>, n: nat, size: T -> nat)
    requires n < |xs|
    ensures Total(xs[..n + 1], size) == Total(xs[..n], size) + size(xs[n])
  {
    assert xs[..n + 1][..n] == xs[..n];
  }

  lemma {:induction false} TotalConcat<T>(a: seq<T>, b: seq<T>, size: T -> nat)
    ensures Total(a + b, size) == Total(a, size) + Total(b, size)
  {
    if b == [] {
      assert a + b == a;
    } else {
      var n := |b| - 1;
      TotalConcat(a, b[..n], size);
      assert (a + b)[..|a| + n] == a + b[..n];
      assert (a + b)[|a| + n] == b[n];
    }
  }

  /** The cut fits, and it is the longest prefix that does. */
  lemma {:induction false} CutFromIsLongest<T>(xs: seq<T>, size: T -> nat, lim: Limits, n: nat)
    requires n <= |xs| && xs != [] && (n > 0 ==> Fits(xs[..n], size, lim))
    ensures var end := CutFrom(xs, size, lim, n, Total(xs[..n], size));
            Fits(xs[..end], size, lim) && forall m :: 0 < m <= |xs| && Fits(xs[..m], size, lim) ==> m <= end
    decreases |xs| - n
  {
    var total := Total(xs[..n], size);
    if n < |xs| {
      TotalSnoc(xs, n, size);
      if n == 0 || (n < lim.maxDocs && total + size(xs[n]) <= lim.maxBytes) {
        CutFromIsLongest(xs, size, lim, n + 1);
      } else {
        forall m | n < m <= |xs| ensures !Fits(xs[..m], size, lim) {
          TotalConcat(xs[..n + 1], xs[n + 1..m], size);
          assert xs[..n + 1] + xs[n + 1..m] == xs[..m];
        }
      }
    }
  }

  lemma CutIsLongest<T>(xs: seq<T>, size: T -> nat, lim: Limits)
    requires xs != []
    ensures var end := Cut(xs, size, lim);
            Fits(xs[..end], size, lim) && forall m :: 0 < m <= |xs| && Fits(xs[..m], size, lim) ==> m <= end
  {
    assert xs[..0] == [];
    CutFromIsLongest(xs, size, lim, 0);
  }

  /** The chunks put together are the batch, and each of them is a legal entry. */
  lemma {:induction false} ChunksPartition<T>(xs: seq<T>, size: T -> nat, lim: Limits)
    ensures Flatten(Chunks(xs, size, lim)) == xs
    ensures forall c :: c in Chunks(xs, size, lim) ==> Fits(c, size, lim)
    decreases |xs|
  {
    if xs != [] {
      var n := Cut(xs, size, lim);
      CutIsLongest(xs, size, lim);
      ChunksPartition(xs[n..], size, lim);
      assert Chunks(xs, size, lim)[1..] == Chunks(xs[n..], size, lim);
      assert xs == xs[..n] + xs[n..];
    }
  }

  /** What is left of a legal entry after dropping documents from its front is legal. */
  lemma TailFits<T>(g: seq<T>, i: nat, size: T -> nat, lim: Limits)
    requires Fits(g, size, lim) && i < |g|
    ensures Fits(g[i..], size, lim)
  {
    TotalConcat(g[..i], g[i..], size);
    assert g == g[..i] + g[i..];
  }

  /** Started inside a legal entry g, the greedy cut reaches at least its end. */
  lemma CutReachesEnd<T>(g: seq<T>, rest: seq<T>, skip: nat, size: T -> nat, lim: Limits) returns (n: nat)
    requires Fits(g, size, lim) && skip < |g|
    ensures n <= |rest|
    ensures |Chunks((g + rest)[skip..], size, lim)| == 1 + |Chunks(rest[n..], size, lim)|
  {
    var ys := (g + rest)[skip..];
    var m := |g| - skip;
    assert ys[..m] == g[skip..];
    TailFits(g, skip, size, lim);
    CutIsLongest(ys, size, lim);
    n := Cut(ys, size, lim) - m;
    assert ys[m + n..] == rest[n..];
  }

  /** Greedy stays ahead: it cuts any suffix of a batch into no more entries than a legal cut of the batch has. */
  lemma {:induction false} GreedyStaysAhead<T>(groups: seq<seq<T>>, skip: nat, size: T -> nat, lim: Limits)
    requires forall g :: g in groups ==> Fits(g, size, lim)
    requires skip <= |Flatten(groups)|
    ensures |Chunks(Flatten(groups)[skip..], size, lim)| <= |groups|
    decreases |groups|
  {
    if groups != [] {
      var g, rest := groups[0], Flatten(groups[1..]);
      var all := Flatten(groups);
      assert all == g + rest && g in groups;
      LegalTail(groups, size, lim);
      if skip >= |g| {
        assert all[skip..] == rest[skip - |g|..];
        GreedyStaysAhead(groups[1..], skip - |g|, size, lim);
      } else {
        var n := CutReachesEnd(g, rest, skip, size, lim);
        assert n <= |Flatten(groups[1..])|;
        GreedyStaysAhead(groups[1..], n, size, lim);
        assert |Chunks(rest[n..], size, lim)| <= |groups| - 1;
      }
    }
  }

  lemma LegalTail<T>(groups: seq<seq<T>>, size: T -> nat, lim: Limits)
    requires groups != [] && forall g :: g in groups ==> Fits(g, size, lim)
    ensures forall g :: g in groups[1..] ==> Fits(g, size, lim)
  {
    assert forall g :: g in groups[1..] ==> g in groups;
  }

  /** The greedy cut uses the fewest entries of all legal cuts that keep the order. */
  lemma GreedyIsOptimal<T>(xs: seq<T>, groups: seq<seq<T>>, size: T -> nat, lim: Limits)
    requires Flatten(groups) == xs && forall g :: g in groups ==> Fits(g, size, lim)
    ensures |Chunks(xs, size, lim)| <= |groups|
  {
    GreedyStaysAhead(groups, 0, size, lim);
    assert xs[0..] == xs;
  }

  /** The inner loop of write. */
  method ChunkEnd<T>(batch: seq<T>, start: nat, size: T -> nat, lim: Limits) returns (end: nat)
    requires start < |batch|
    ensures end == start + Cut(batch[start..], size, lim)
  {
    ghost var xs := batch[start..];
    var total: nat := 0;
    end := start;
    while end < |batch| && (end == start || (end - start < lim.maxDocs && total + size(batch[end]) <= lim.maxBytes))
      invariant start <= end <= |batch|
      invariant CutFrom(xs, size, lim, end - start, total) == Cut(xs, size, lim)
    {
      assert xs[end - start] == batch[end];
      total := total + size(batch[end]);
      end := end + 1;
    }
  }

  /** out are entries the greedy cut of docs makes, and cur, total bytes long, begins the next one; rest is
      still to come. */
  ghost predicate Splitting<T>(docs: seq<T>, out: seq<seq<T>>, cur: seq<T>, total: nat, rest: seq<T>, size: T -> nat, lim: Limits) {
    && out + Chunks(cur + rest, size, lim) == Chunks(docs, size, lim)
    && if cur == [] then total == 0
       else CutFrom(cur + rest, size, lim, |cur|, total) == Cut(cur + rest, size, lim)
  }

  lemma CloseEntry<T>(docs: seq<T>, out: seq<seq<T>>, cur: seq<T>, total: nat, rest: seq<T>, size: T -> nat, lim: Limits)
    requires Splitting(docs, out, cur, total, rest, size, lim) && cur != []
    requires rest == [] || |cur| >= lim.maxDocs || total + size(rest[0]) > lim.maxBytes
    ensures Splitting(docs, out + [cur], [], 0, rest, size, lim)
  {
    assert (cur + rest)[..|cur|] == cur && (cur + rest)[|cur|..] == rest;
    assert Chunks(cur + rest, size, lim) == [cur] + Chunks(rest, size, lim);
    assert [] + rest == rest;
    assert (out + [cur]) + Chunks(rest, size, lim) == out + ([cur] + Chunks(rest, size, lim));
  }

  lemma GrowEntry<T>(docs: seq<T>, out: seq<seq<T>>, cur: seq<T>, total: nat, rest: seq<T>, size: T -> nat, lim: Limits)
    requires Splitting(docs, out, cur, total, rest, size, lim) && rest != []
    requires cur != [] ==> |cur| < lim.maxDocs && total + size(rest[0]) <= lim.maxBytes
    ensures Splitting(docs, out, cur + [rest[0]], total + size(rest[0]), rest[1..], size, lim)
  {
    assert (cur + [rest[0]]) + rest[1..] == cur + rest;
    assert (cur + rest)[|cur|] == rest[0];
  }

  /** Where splitBatches stands: the entries cut, the current one, and its size. */
  datatype Batcher<T> = Batcher(out: seq<seq<T>>, cur: seq<T>, total: nat)

  ghost predicate Midway<T>(docs: seq<T>, b: Batcher<T>, rest: seq<T>, size: T -> nat, lim: Limits) {
    Splitting(docs, b.out, b.cur, b.total, rest, size, lim)
  }

  /** One document: it begins a new entry or joins the current one. */
  method Place<T>(ghost docs: seq<T>, b: Batcher<T>, d: T, ghost rest: seq<T>, size: T -> nat, lim: Limits) returns (r: Batcher<T>)
    requires Midway(docs, b, [d] + rest, size, lim)
    ensures Midway(docs, r, rest, size, lim)
  {
    var n := size(d);
    var out, cur, total := b.out, b.cur, b.total;
    ghost var left := [d] + rest;
    assert left[1..] == rest;
    if |cur| > 0 && (|cur| >= lim.maxDocs || total + n > lim.maxBytes) {
      CloseEntry(docs, out, cur, total, left, size, lim);
      out := out + [cur];
      cur, total := [], 0;
    }
    GrowEntry(docs, out, cur, total, left, size, lim);
    r := Batcher(out, cur + [d], total + n);
  }

  /** splitBatches: cuts exactly where write cuts. */
  method SplitBatches<T>(docs: seq<T>, size: T -> nat, lim: Limits) returns (out: seq<seq<T>>)
    ensures out == Chunks(docs, size, lim)
  {
    var b := Batcher([], [], 0);
    assert [] + docs[0..] == docs;
    for i := 0 to |docs|
      invariant Midway(docs, b, docs[i..], size, lim)
    {
      assert docs[i..] == [docs[i]] + docs[i + 1..];
      b := Place(docs, b, docs[i], docs[i + 1..], size, lim);
    }
    assert docs[|docs|..] == [];
    out := b.out;
    if |b.cur| > 0 {
      CloseEntry(docs, b.out, b.cur, b.total, [], size, lim);
      out := out + [b.cur];
    }
  }
}
