/** The query stream handler of a peer, the collectors of replies, and queries in flight in the network
    (app/query_handler.go). */
module PeerHandler {

  import opened Prelude
  import opened JsonValues
  import opened Merging
  import opened QueryCommand
  import opened PeerQuery

  // ---------------------------------------------------------------------------------------------
  // Collecting replies
  // ---------------------------------------------------------------------------------------------

  /** What one goroutine of the fan-out sends on the channel. */
  datatype Reply = Reply(peer: string, rows: Result<seq<Fields>>)

  predicate GaveRows(r: Reply) {
    r.rows.Ok? && |r.rows.value| > 0
  }

  function Gathered(arrivals: seq<Reply>): seq<Fields> {
    if arrivals == [] then []
    else
      var r := arrivals[|arrivals| - 1];
      Gathered(arrivals[..|arrivals| - 1]) + if GaveRows(r) then r.rows.value else []
  }

  /** The peers that gave rows. */
  function Responders(arrivals: seq<Reply>): set<string> {
    if arrivals == [] then {}
    else
      var r := arrivals[|arrivals| - 1];
      Responders(arrivals[..|arrivals| - 1]) + if GaveRows(r) then {r.peer} else {}
  }

  /** A peer counts as soon as one of its replies has a row. */
  lemma {:induction false} RespondersAre(arrivals: seq<Reply>, p: string)
    ensures p in Responders(arrivals) <==> exists r :: r in arrivals && r.rows.Ok? && r.rows.value != [] && r.peer == p
  {
    if arrivals != [] {
      var n := |arrivals| - 1;
      RespondersAre(arrivals[..n], p);
      assert arrivals == arrivals[..n] + [arrivals[n]];
    }
  }

  /** The rows are those of the replies, one reply after the other. */
  lemma {:induction false} GatheredJoins(a: seq<Reply>, b: seq<Reply>)
    ensures Gathered(a + b) == Gathered(a) + Gathered(b)
    ensures |a| == 1 ==> Gathered(a) == if a[0].rows.Ok? then a[0].rows.value else []
    decreases |b|
  {
    if |a| == 1 { assert Gathered(a[..0]) == []; }
    if b == [] {
      assert a + b == a;
    } else {
      var n := |b| - 1;
      GatheredJoins(a, b[..n]);
      assert (a + b)[..|a| + n] == a + b[..n] && (a + b)[|a| + n] == b[n];
    }
  }

  /** The rows of the replies to n requests that come in time. */
  ghost predicate IsGathered(n: nat, arrivals: seq<Reply>, rows: seq<Fields>) {
    rows == Gathered(if |arrivals| < n then arrivals else arrivals[..n])
  }

  /** The loop of queryPeersLimited over n replies: arrivals are those that come before the time budget ends. */
  method CollectAll(n: nat, arrivals: seq<Reply>) returns (merged: seq<Fields>)
    ensures IsGathered(n, arrivals, merged)
  {
    merged := [];
    for i := 0 to n
      invariant i <= |arrivals| && merged == Gathered(arrivals[..i])
    {
      if i == |arrivals| {
        assert arrivals[..i] == arrivals;
        return;
      }
      assert arrivals[..i + 1][..i] == arrivals[..i];
      if GaveRows(arrivals[i]) { merged := merged + arrivals[i].rows.value; }
    }
    assert |arrivals| <= n ==> arrivals[..n] == arrivals;
  }

  /** Among the first k replies, fewer than q peers gave rows. */
  ghost predicate Short(arrivals: seq<Reply>, k: nat, q: int)
    requires k <= |arrivals|
  {
    |Responders(arrivals[..k])| < q
  }

  /** At no moment before reply number n had q peers given rows. */
  ghost predicate Waiting(arrivals: seq<Reply>, n: nat, q: int)
    requires n <= |arrivals|
  {
    forall k: nat :: k < n ==> Short(arrivals, k, q)
  }

  lemma StillWaiting(arrivals: seq<Reply>, n: nat, q: int)
    requires n < |arrivals| && Waiting(arrivals, n, q) && Short(arrivals, n, q)
    ensures Waiting(arrivals, n + 1, q)
  {
    forall k: nat | k < n + 1 ensures Short(arrivals, k, q) {
      if k == n { assert arrivals[..k] == arrivals[..n]; }
    }
  }

  /** The collector stopped after so many replies: at the first moment q peers had given rows, or because all n replies
      were in or the time budget ended. */
  ghost predicate StoppedAt(n: nat, arrivals: seq<Reply>, q: int, heard: nat) {
    && heard <= |arrivals| && heard <= n && Waiting(arrivals, heard, q)
    && (heard < |arrivals| && heard < n ==> !Short(arrivals, heard, q))
  }

  /** queryPeersUntilQuorum, its loop over n replies; arrivals are those that come before the time budget ends. */
  method CollectUntilQuorum(n: nat, arrivals: seq<Reply>, quorumN: int) returns (rows: seq<Fields>, heard: nat)
    requires quorumN > 0
    ensures StoppedAt(n, arrivals, quorumN, heard) && rows == Deduped(Gathered(arrivals[..heard]))
  {
    var merged: seq<Fields> := [];
    var responders: set<string> := {};
    for i := 0 to n
      invariant i <= |arrivals| && merged == Gathered(arrivals[..i])
      invariant responders == Responders(arrivals[..i]) && Short(arrivals, i, quorumN)
      invariant Waiting(arrivals, i, quorumN)
    {
      if i == |arrivals| {
        rows := DedupeByID(merged);
        return rows, i;
      }
      var r := arrivals[i];
      assert arrivals[..i + 1][..i] == arrivals[..i];
      StillWaiting(arrivals, i, quorumN);
      if GaveRows(r) {
        merged := merged + r.rows.value;
        responders := responders + {r.peer};
      }
      if |responders| >= quorumN {
        rows := DedupeByID(merged);
        return rows, i + 1;
      }
    }
    rows := DedupeByID(merged);
    heard := n;
  }

  /** These peers have each given rows. */
  ghost predicate AllGave(peers: set<string>, arrivals: seq<Reply>) {
    forall p :: p in peers ==> exists r :: r in arrivals && r.rows.Ok? && r.rows.value != [] && r.peer == p
  }

  /** It stops before all replies and the time budget only when quorum_n different peers have given rows. */
  lemma EarlyStopMeansQuorum(n: nat, arrivals: seq<Reply>, q: int, heard: nat)
    requires StoppedAt(n, arrivals, q, heard) && heard < |arrivals| && heard < n
    ensures exists peers :: |peers| >= q && AllGave(peers, arrivals[..heard])
  {
    var peers := Responders(arrivals[..heard]);
    forall p | p in peers ensures exists r :: r in arrivals[..heard] && r.rows.Ok? && r.rows.value != [] && r.peer == p {
      RespondersAre(arrivals[..heard], p);
    }
    assert AllGave(peers, arrivals[..heard]);
  }

  // ---------------------------------------------------------------------------------------------
  // The handler
  // ---------------------------------------------------------------------------------------------

  /** The objects among the criteria of a message. */
  function Objects(items: seq<Json>): seq<Fields>
    decreases |items|
  {
    if items == [] then []
    else
      var rest := Objects(items[..|items| - 1]);
      if items[|items| - 1].Obj? then rest + [items[|items| - 1].fields] else rest
  }

  function CriteriaOf(msg: Fields): seq<Fields> {
    if Lookup(msg, "criteria").Arr? then Objects(msg["criteria"].items) else []
  }

  function StringsIn(items: seq<Json>): seq<string>
    decreases |items|
  {
    if items == [] then []
    else
      var rest := StringsIn(items[..|items| - 1]);
      if items[|items| - 1].Str? then rest + [items[|items| - 1].s] else rest
  }

  function PathOf(msg: Fields): seq<string> {
    if Lookup(msg, "trace_path").Arr? then StringsIn(msg["trace_path"].items) else []
  }

  function Objs(rows: seq<Fields>): seq<Json> {
    seq(|rows|, i requires 0 <= i < |rows| => Obj(rows[i]))
  }

  ghost predicate HasTags(row: Fields, source: Json, trace: Json) {
    "_source" in row && row["_source"] == source && "_trace" in row && row["_trace"] == trace
  }

  /** tagRows, one row. */
  function Tagged(row: Fields, source: Json, trace: Json): (r: Fields)
    ensures Stripped(r) == Stripped(row) && HasTags(r, source, trace)
  {
    var withSource: Fields := row["_source" := source];
    assert withSource - {"_source", "_trace"} == row - {"_source", "_trace"};
    var withTrace: Fields := withSource["_trace" := trace];
    assert withTrace - {"_source", "_trace"} == row - {"_source", "_trace"};
    withTrace
  }

  function TagRows(rows: seq<Fields>, source: Json, trace: Json): (r: seq<Fields>)
    ensures SameDocuments(r, rows) && forall i :: 0 <= i < |r| ==> HasTags(r[i], source, trace)
  {
    seq(|rows|, i requires 0 <= i < |rows| => Tagged(rows[i], source, trace))
  }

  /** The rows carry the same documents, whatever tags they have. */
  ghost predicate SameDocuments(a: seq<Fields>, b: seq<Fields>) {
    |a| == |b| && forall i :: 0 <= i < |a| ==> Stripped(a[i]) == Stripped(b[i])
  }

  /** The criteria are the objects of the list and the path its texts, in order; other values are skipped. */
  lemma {:induction false} ListedObjects(a: seq<Json>, b: seq<Json>)
    ensures Objects(a + b) == Objects(a) + Objects(b) && StringsIn(a + b) == StringsIn(a) + StringsIn(b)
    ensures |a| == 1 ==> Objects(a) == if a[0].Obj? then [a[0].fields] else []
    ensures |a| == 1 ==> StringsIn(a) == if a[0].Str? then [a[0].s] else []
    decreases |b|
  {
    if |a| == 1 { assert Objects(a[..0]) == [] && StringsIn(a[..0]) == []; }
    if b == [] {
      assert a + b == a;
    } else {
      var n := |b| - 1;
      ListedObjects(a, b[..n]);
      assert (a + b)[..|a| + n] == a + b[..n] && (a + b)[|a| + n] == b[n];
    }
  }

  lemma MessageFields(msg: Fields, items: seq<Json>)
    ensures "criteria" in msg && msg["criteria"] == Arr(items) ==> CriteriaOf(msg) == Objects(items)
    ensures "trace_path" in msg && msg["trace_path"] == Arr(items) ==> PathOf(msg) == StringsIn(items)
    ensures !("criteria" in msg && msg["criteria"].Arr?) ==> CriteriaOf(msg) == []
    ensures !("trace_path" in msg && msg["trace_path"].Arr?) ==> PathOf(msg) == []
  {
  }

  lemma {:induction false} ObjectsBack(rows: seq<Fields>)
    ensures Objects(Objs(rows)) == rows
    decreases |rows|
  {
    if rows != [] {
      var n := |rows| - 1;
      ObjectsBack(rows[..n]);
      assert Objs(rows)[..n] == Objs(rows[..n]);
    }
  }

  lemma {:induction false} StringsBack(path: seq<string>)
    ensures StringsIn(Strings(path)) == path
    decreases |path|
  {
    if path != [] {
      var n := |path| - 1;
      StringsBack(path[..n]);
      assert Strings(path)[..n] == Strings(path[..n]);
    }
  }

  /** A request sent: the peer and the message. */
  type Request = (string, Fields)

  /** What a handler may send on a message: nothing unless the strategy fans out, and then clamped requests only. */
  ghost predicate MayEmit(msg: Fields, requests: seq<Request>) {
    && (!Fans(OptionsOf(msg).strategy) ==> requests == [])
    && forall r :: r in requests ==> IsClamped(r.1)
  }

  /** The requests are one for each time a target is listed that is asked. */
  ghost predicate SentTo(view: View, targets: seq<string>, msg: Fields, requests: seq<Request>) {
    && |requests| == |Asked(view, targets)|
    && forall i :: 0 <= i < |requests| ==> requests[i] == (Asked(view, targets)[i], msg)
  }

  method SendRequests(view: View, targets: seq<string>, msg: Fields) returns (requests: seq<Request>)
    ensures SentTo(view, targets, msg, requests)
  {
    requests := [];
    for i := 0 to |targets|
      invariant SentTo(view, targets[..i], msg, requests)
    {
      assert targets[..i + 1][..i] == targets[..i];
      if targets[i] !in view.path && targets[i] in view.connected && view.reachable(targets[i]) {
        requests := requests + [(targets[i], msg)];
      }
    }
    assert targets[..|targets|] == targets;
  }

  /** The node that handles a message: its id in text and raw form, its neighbours, and the discovered peers in the order
      the map gives them. */
  datatype Node = Node(self: string, raw: string, connected: seq<string>, reachable: string -> bool, discovered: seq<string>)

  function RequestFor(node: Node, msg: Fields): Fields {
    ClampedRequest(Arr(Objs(CriteriaOf(msg))), StringOr(Lookup(msg, "trace_id"), ""), PathOf(msg) + [node.self] + [node.raw])
  }

  /** What a peer reads in the request it gets: the same criteria and trace id, the path with this node at its end in
      both forms, and that it is to answer from its own replica. */
  lemma RequestReads(node: Node, msg: Fields)
    ensures var r := RequestFor(node, msg);
            && CriteriaOf(r) == CriteriaOf(msg) && PathOf(r) == PathOf(msg) + [node.self, node.raw]
            && (HasText(msg, "trace_id") ==> Lookup(r, "trace_id") == msg["trace_id"])
            && OptionsOf(r).strategy == "LOCAL_ONLY" && OptionsOf(r).includeLocal
  {
    var r := RequestFor(node, msg);
    assert IsClamped(r);
    ClampedIsLocal(r);
    ObjectsBack(CriteriaOf(msg));
    StringsBack(PathOf(msg) + [node.self] + [node.raw]);
    assert PathOf(msg) + [node.self] + [node.raw] == PathOf(msg) + [node.self, node.raw];
  }

  /** The options a handler works with: a negative fan-out limit counts as none. */
  function AsRead(o: PeerOptions): PeerOptions {
    if o.maxPeers < 0 then o.(maxPeers := 0) else o
  }

  /** The options as the handler reads them; its default for include_local is already that of parseOptions. */
  method ReadOptions(msg: Fields) returns (opts: PeerOptions)
    ensures opts == AsRead(OptionsOf(msg))
  {
    opts := ParseOptions(msg);
    if opts.maxPeers < 0 { opts := opts.(maxPeers := 0); }
    if Lookup(msg, "options") == Null && Lookup(msg, "include_local") == Null { opts := opts.(includeLocal := true); }
  }

  /** Peers are asked: always, when only they answer or both sides do; for a quorum unless it is empty; after the local
      rows when there are none or a remote answer is forced. */
  ghost predicate AsksPeers(o: PeerOptions, own: seq<Fields>) {
    || o.strategy == "REMOTE_ONLY" || o.strategy == "PARALLEL_MERGE" || (o.strategy == "QUORUM" && o.quorumN > 0)
    || (o.strategy == "LOCAL_THEN_REMOTE_MERGE" && (o.forceRemote || own == []))
  }

  /** The requests go to exactly the connected peers that can be reached and are not on the path, up to the limit on
      peers, which a quorum does not heed; all carry one message. */
  ghost predicate ReachesPeers(node: Node, o: PeerOptions, path: seq<string>, msg: Fields, requests: seq<Request>) {
    && (forall r :: r in requests ==> r.1 == msg)
    && forall p :: (exists r :: r in requests && r.0 == p) <==>
         var limit := if o.strategy != "QUORUM" && 0 < o.maxPeers < |node.connected| then o.maxPeers else |node.connected|;
         p in node.connected[..limit] && node.reachable(p) && p !in path
  }

  /** The rows of an answer: those of the peers, one per id of both sides, or the own rows. */
  ghost predicate Replies(o: PeerOptions, own: seq<Fields>, remote: seq<Fields>, rows: seq<Fields>) {
    if o.strategy == "REMOTE_ONLY" then rows == remote
    else if o.strategy == "PARALLEL_MERGE" || o.strategy == "QUORUM" || AsksPeers(o, own) then OnePerId(own + remote, rows)
    else rows == own
  }

  /** handleQueryStream. local are the rows queryLocalDB gives for the criteria (none when it fails); arrivals are the
      replies that come in time; localFirst says which side of PARALLEL_MERGE finishes first. */
  method HandleQueryStream(ids: Ids, node: Node, msg: Fields, local: seq<Fields> -> seq<Fields>, arrivals: seq<Reply>,
                           localFirst: bool)
    returns (rows: seq<Fields>, requests: seq<Request>, ghost own: seq<Fields>, ghost remote: seq<Fields>)
    ensures MayEmit(msg, requests) && |requests| <= |node.connected| + |node.discovered|
    ensures CriteriaOf(msg) == [] || node.self in PathOf(msg) ==> rows == [] && requests == []
    ensures CriteriaOf(msg) != [] && node.self !in PathOf(msg) ==>
              Handled(ids, node, msg, local, arrivals, localFirst, rows, requests, own, remote)
    ensures CriteriaOf(msg) != [] && node.self !in PathOf(msg) && AnsweredLocally(msg, local(CriteriaOf(msg))) ==>
              SameDocuments(rows, local(CriteriaOf(msg))) && requests == []
  {
    rows, requests, own, remote := [], [], [], [];
    var criteria := CriteriaOf(msg);
    if criteria == [] { return; }
    var path := PathOf(msg);
    if node.self in path { return; }
    path := path + [node.self];
    var traceId := StringOr(Lookup(msg, "trace_id"), "");
    var opts := ReadOptions(msg);
    var source := Obj(map["type" := Str("local"), "peer_id" := Str(node.self), "path" := Arr(Strings(path))]);
    var trace := Obj(map["id" := Str(traceId), "path" := Arr(Strings(path))]);
    var request := ClampedRequest(Arr(Objs(criteria)), traceId, path + [node.raw]);
    assert IsClamped(request);
    var view := View(node.connected, node.reachable, path);
    var mine := if opts.includeLocal then TagRows(local(criteria), source, trace) else [];
    if opts.strategy != REMOTE_ONLY { own := mine; }
    rows, requests, remote := RunStrategy(ids, view, node.discovered, opts, mine, request, arrivals, localFirst);
    TargetsLength(ids, view, node.discovered, opts, mine);
    IsHandled(ids, node, msg, local, arrivals, localFirst, rows, requests, own, remote);
    LocalAnswer(ids, node, msg, local, arrivals, localFirst, rows, requests, own, remote);
  }

  /** The outcome of a message that is handled. */
  ghost predicate Handled(ids: Ids, node: Node, msg: Fields, local: seq<Fields> -> seq<Fields>, arrivals: seq<Reply>,
                          localFirst: bool, rows: seq<Fields>, requests: seq<Request>, own: seq<Fields>, remote: seq<Fields>)
  {
    var o, path := OptionsOf(msg), PathOf(msg) + [node.self];
    var view := View(node.connected, node.reachable, path);
    var targets := TargetsOf(ids, view, node.discovered, AsRead(o), own);
    && OwnRows(node, msg, o, local(CriteriaOf(msg)), own)
    && SentTo(view, targets, RequestFor(node, msg), requests)
    && (if AsksPeers(o, own) then ReachesPeers(node, o, path, RequestFor(node, msg), requests) else requests == [])
    && Received(o, |targets|, arrivals, remote)
    && rows == Combined(AsRead(o), localFirst, own, remote)
    && Replies(o, own, remote, rows)
  }

  /** The own rows: none when only peers answer or they are excluded, else the local documents, tagged as this node's. */
  ghost predicate OwnRows(node: Node, msg: Fields, o: PeerOptions, local: seq<Fields>, own: seq<Fields>) {
    if o.strategy == "REMOTE_ONLY" || !o.includeLocal then own == []
    else
      && SameDocuments(own, local)
      && forall i :: 0 <= i < |own| ==>
           var path := Arr(Strings(PathOf(msg) + [node.self]));
           HasTags(own[i], Obj(map["type" := Str("local"), "peer_id" := Str(node.self), "path" := path]),
                   Obj(map["id" := Str(StringOr(Lookup(msg, "trace_id"), "")), "path" := path]))
  }

  lemma IsHandled(ids: Ids, node: Node, msg: Fields, local: seq<Fields> -> seq<Fields>, arrivals: seq<Reply>,
                  localFirst: bool, rows: seq<Fields>, requests: seq<Request>, own: seq<Fields>, remote: seq<Fields>)
    requires OwnRows(node, msg, AsRead(OptionsOf(msg)), local(CriteriaOf(msg)), own)
    requires var o, view := AsRead(OptionsOf(msg)), View(node.connected, node.reachable, PathOf(msg) + [node.self]);
             var targets := TargetsOf(ids, view, node.discovered, o, own);
             SentTo(view, targets, RequestFor(node, msg), requests) && Received(o, |targets|, arrivals, remote)
    requires rows == Combined(AsRead(OptionsOf(msg)), localFirst, own, remote)
    ensures Handled(ids, node, msg, local, arrivals, localFirst, rows, requests, own, remote)
  {
    var o, path := OptionsOf(msg), PathOf(msg) + [node.self];
    var view := View(node.connected, node.reachable, path);
    assert TargetsOf(ids, view, node.discovered, AsRead(o), own) == TargetsOf(ids, view, node.discovered, o, own);
    assert Combined(AsRead(o), localFirst, own, remote) == Combined(o, localFirst, own, remote);
    WhomItAsks(ids, node, path, o, own, RequestFor(node, msg), requests);
    WhatItReplies(o, localFirst, own, remote);
  }

  /** The message asks for local rows, and for no others: it names LOCAL_ONLY, or a strategy the code does not know, or
      local rows first where there are some and no remote answer is forced. */
  ghost predicate AnsweredLocally(msg: Fields, local: seq<Fields>) {
    && OptionsOf(msg).includeLocal
    && OptionsOf(msg).strategy != "REMOTE_ONLY" && OptionsOf(msg).strategy != "PARALLEL_MERGE"
    && OptionsOf(msg).strategy != "QUORUM"
    && (OptionsOf(msg).strategy == "LOCAL_THEN_REMOTE_MERGE" ==> !OptionsOf(msg).forceRemote && local != [])
  }

  /** Such a message is answered with exactly the local documents. */
  lemma LocalAnswer(ids: Ids, node: Node, msg: Fields, local: seq<Fields> -> seq<Fields>, arrivals: seq<Reply>,
                    localFirst: bool, rows: seq<Fields>, requests: seq<Request>, own: seq<Fields>, remote: seq<Fields>)
    requires Handled(ids, node, msg, local, arrivals, localFirst, rows, requests, own, remote)
    ensures AnsweredLocally(msg, local(CriteriaOf(msg))) ==> SameDocuments(rows, local(CriteriaOf(msg))) && requests == []
  {
  }

  /** In particular a request that another handler sent. */
  lemma ClampedAnswer(ids: Ids, node: Node, sender: Node, msg: Fields, local: seq<Fields> -> seq<Fields>, arrivals: seq<Reply>,
                      localFirst: bool, rows: seq<Fields>, requests: seq<Request>, own: seq<Fields>, remote: seq<Fields>)
    requires Handled(ids, node, RequestFor(sender, msg), local, arrivals, localFirst, rows, requests, own, remote)
    ensures SameDocuments(rows, local(CriteriaOf(msg))) && requests == []
  {
    RequestReads(sender, msg);
    assert IsClamped(RequestFor(sender, msg));
    ClampedIsLocal(RequestFor(sender, msg));
    LocalAnswer(ids, node, RequestFor(sender, msg), local, arrivals, localFirst, rows, requests, own, remote);
  }

  /** Whom a strategy asks, given the handler's own rows. */
  function TargetsOf(ids: Ids, view: View, discovered: seq<string>, opts: PeerOptions, own: seq<Fields>): seq<string> {
    if opts.strategy == QUORUM then if opts.quorumN > 0 then view.connected else []
    else if opts.strategy == REMOTE_ONLY || opts.strategy == PARALLEL_MERGE
            || (opts.strategy == LOCAL_THEN_REMOTE_MERGE && (opts.forceRemote || own == [])) then
      Targets(ids, view.connected, discovered, opts.maxPeers)
    else []
  }

  /** The peers' rows that reach a strategy that sends to so many targets. */
  ghost predicate Received(opts: PeerOptions, targets: nat, arrivals: seq<Reply>, remote: seq<Fields>) {
    if opts.strategy == QUORUM && opts.quorumN > 0 then
      exists heard: nat :: StoppedAt(targets, arrivals, opts.quorumN, heard) && remote == Deduped(Gathered(arrivals[..heard]))
    else IsGathered(targets, arrivals, remote)
  }

  lemma WhomItAsks(ids: Ids, node: Node, path: seq<string>, o: PeerOptions, own: seq<Fields>, msg: Fields, requests: seq<Request>)
    requires var view := View(node.connected, node.reachable, path);
             SentTo(view, TargetsOf(ids, view, node.discovered, o, own), msg, requests)
    ensures if AsksPeers(o, own) then ReachesPeers(node, o, path, msg, requests) else requests == []
  {
    var view := View(node.connected, node.reachable, path);
    var targets := TargetsOf(ids, view, node.discovered, o, own);
    var asked := Asked(view, targets);
    forall p ensures (exists r :: r in requests && r.0 == p) <==> p in asked {
      if i :| 0 <= i < |asked| && asked[i] == p { assert requests[i] in requests && requests[i].0 == p; }
    }
    forall p ensures AsksPeers(o, own) ==>
        (p in asked <==>
           var limit := if o.strategy != "QUORUM" && 0 < o.maxPeers < |node.connected| then o.maxPeers else |node.connected|;
           p in node.connected[..limit] && node.reachable(p) && p !in path)
    {
      AskedPeers(ids, view, node.discovered, o.maxPeers, p);
      AskedElems(view, node.connected);
      assert node.connected[..|node.connected|] == node.connected;
    }
  }

  lemma OnePerIdCommutes(a: seq<Fields>, b: seq<Fields>, out: seq<Fields>)
    requires OnePerId(b + a, out)
    ensures OnePerId(a + b, out)
  {
    forall id ensures HasId(a + b, id) <==> HasId(b + a, id) {
      HasIdJoin(a, b, id);
      HasIdJoin(b, a, id);
    }
  }

  lemma HasIdJoin(a: seq<Fields>, b: seq<Fields>, id: string)
    ensures HasId(a + b, id) <==> HasId(a, id) || HasId(b, id)
  {
    if j :| 0 <= j < |a| && IdOf(a[j]) == id { assert IdOf((a + b)[j]) == id; }
    if j :| 0 <= j < |b| && IdOf(b[j]) == id { assert IdOf((a + b)[|a| + j]) == id; }
  }

  lemma WhatItReplies(o: PeerOptions, localFirst: bool, own: seq<Fields>, remote: seq<Fields>)
    ensures Replies(o, own, remote, Combined(o, localFirst, own, remote))
  {
    DedupedIsOnePerId(own + remote);
    DedupedIsOnePerId(remote + own);
    OnePerIdCommutes(own, remote, Deduped(remote + own));
  }

  /** The rows a strategy returns, of the handler's own and the peers'; localFirst says which side of PARALLEL_MERGE
      finishes first. */
  function Combined(opts: PeerOptions, localFirst: bool, own: seq<Fields>, remote: seq<Fields>): seq<Fields> {
    if opts.strategy == REMOTE_ONLY then remote
    else if opts.strategy == PARALLEL_MERGE then Deduped(if localFirst then own + remote else remote + own)
    else if opts.strategy == QUORUM || (opts.strategy == LOCAL_THEN_REMOTE_MERGE && (opts.forceRemote || own == [])) then
      Deduped(own + remote)
    else own
  }

  lemma {:induction false} FirstsAreRows(rows: seq<Fields>, n: nat)
    requires n <= |rows|
    ensures forall r :: r in Firsts(rows, n) ==> r in rows[..n]
  {
    if n > 0 {
      FirstsAreRows(rows, n - 1);
      assert rows[..n] == rows[..n - 1] + [rows[n - 1]];
    }
  }

  /** Every row that has the id of an own row is an own row. */
  ghost predicate OwnKept(own: seq<Fields>, rows: seq<Fields>) {
    forall row :: row in rows && IdOf(row) != "" && HasId(own, IdOf(row)) ==> row in own
  }

  lemma OwnFirstKept(own: seq<Fields>, remote: seq<Fields>)
    ensures OwnKept(own, Deduped(own + remote))
  {
    var rows := Deduped(own + remote);
    LocalVersionKept(own, remote);
    FirstsAreRows(own, |own|);
    assert own[..|own|] == own;
    forall row | row in rows && IdOf(row) != "" && HasId(own, IdOf(row)) ensures row in own {
      var i :| 0 <= i < |rows| && rows[i] == row;
      var j :| 0 <= j < |own| && IdOf(own[j]) == IdOf(row);
      assert own[j] in own;
      assert i < |Deduped(own)|;
      assert Deduped(own)[i] == row;
    }
  }

  /** LOCAL_THEN_REMOTE_MERGE and QUORUM never answer with a peer's version of a document the handler has itself. */
  lemma OwnVersionWins(opts: PeerOptions, localFirst: bool, own: seq<Fields>, remote: seq<Fields>)
    requires opts.strategy == LOCAL_THEN_REMOTE_MERGE || opts.strategy == QUORUM
    ensures OwnKept(own, Combined(opts, localFirst, own, remote))
  {
    OwnFirstKept(own, remote);
  }

  /** The output of deduplication are the first rows. */
  lemma {:induction false} FirstsAre(rows: seq<Fields>, n: nat, row: Fields)
    requires n <= |rows|
    ensures row in Firsts(rows, n) <==> exists i :: 0 <= i < n && rows[i] == row && FirstOfId(rows, i)
  {
    if n > 0 {
      FirstsAre(rows, n - 1, row);
      if FirstOfId(rows, n - 1) { assert Firsts(rows, n) == Firsts(rows, n - 1) + [rows[n - 1]]; }
    }
  }

  /** Whenever the peers have a row with an own id, the first of those rows is an own row. */
  ghost predicate PeersAgree(own: seq<Fields>, remote: seq<Fields>) {
    forall i: nat :: i < |remote| && FirstOfId(remote, i) && IdOf(remote[i]) != "" && HasId(own, IdOf(remote[i])) ==>
                       remote[i] in own
  }

  /** PARALLEL_MERGE keeps the handler's own version of every document, whichever side finishes first, exactly when for
      every own id the peers' first row with it is an own row too. */
  lemma ParallelMergeKeepsOwnIff(opts: PeerOptions, own: seq<Fields>, remote: seq<Fields>)
    requires opts.strategy == PARALLEL_MERGE
    ensures (forall localFirst :: OwnKept(own, Combined(opts, localFirst, own, remote))) <==> PeersAgree(own, remote)
  {
    OwnFirstKept(own, remote);
    RemoteFirstKept(own, remote);
    assert OwnKept(own, Combined(opts, true, own, remote));
    assert OwnKept(own, Combined(opts, false, own, remote)) <==> PeersAgree(own, remote);
  }

  lemma RemoteFirstKept(own: seq<Fields>, remote: seq<Fields>)
    ensures OwnKept(own, Deduped(remote + own)) <==> PeersAgree(own, remote)
  {
    var all := remote + own;
    if OwnKept(own, Deduped(all)) {
      forall i: nat | i < |remote| && FirstOfId(remote, i) && IdOf(remote[i]) != "" && HasId(own, IdOf(remote[i]))
        ensures remote[i] in own
      {
        assert all[i] == remote[i] && FirstOfId(all, i);
        FirstsAre(all, |all|, remote[i]);
      }
    }
    if PeersAgree(own, remote) {
      forall row | row in Deduped(all) && IdOf(row) != "" && HasId(own, IdOf(row)) ensures row in own {
        FirstsAre(all, |all|, row);
        var i :| 0 <= i < |all| && all[i] == row && FirstOfId(all, i);
        if i < |remote| {
          assert forall j :: 0 <= j < i ==> all[j] == remote[j];
          assert FirstOfId(remote, i) && remote[i] == row;
        } else {
          assert all[i] == own[i - |remote|];
        }
      }
    }
  }

  /** The strategies of the handler, on its own rows. */
  method RunStrategy(ids: Ids, view: View, discovered: seq<string>, opts: PeerOptions, own: seq<Fields>, request: Fields,
                     arrivals: seq<Reply>, localFirst: bool)
    returns (rows: seq<Fields>, requests: seq<Request>, ghost remote: seq<Fields>)
    ensures SentTo(view, TargetsOf(ids, view, discovered, opts, own), request, requests)
    ensures Received(opts, |TargetsOf(ids, view, discovered, opts, own)|, arrivals, remote)
    ensures rows == Combined(opts, localFirst, own, remote)
  {
    requests, remote := [], [];
    if opts.strategy == REMOTE_ONLY {
      rows, requests := FanOut(ids, view, discovered, opts.maxPeers, request, arrivals);
      remote := rows;
    } else if opts.strategy == PARALLEL_MERGE {
      var theirs;
      theirs, requests := FanOut(ids, view, discovered, opts.maxPeers, request, arrivals);
      remote := theirs;
      rows := DedupeByID(if localFirst then own + theirs else theirs + own);
    } else if opts.strategy == QUORUM {
      var theirs;
      theirs, requests := FanOutUntilQuorum(view, opts.quorumN, request, arrivals);
      remote := theirs;
      rows := DedupeByID(own + theirs);
    } else if opts.strategy == LOCAL_THEN_REMOTE_MERGE {
      if opts.forceRemote || |own| == 0 {
        var theirs;
        theirs, requests := FanOut(ids, view, discovered, opts.maxPeers, request, arrivals);
        remote := theirs;
        rows := DedupeByID(own + theirs);
      } else {
        rows := own;
      }
    } else {
      rows := own;
    }
  }

  /** queryPeersUntilQuorum. */
  method FanOutUntilQuorum(view: View, quorumN: int, request: Fields, arrivals: seq<Reply>)
    returns (rows: seq<Fields>, requests: seq<Request>)
    ensures SentTo(view, if quorumN > 0 then view.connected else [], request, requests)
    ensures quorumN <= 0 ==> rows == []
    ensures quorumN > 0 ==> exists heard: nat ::
              StoppedAt(|view.connected|, arrivals, quorumN, heard) && rows == Deduped(Gathered(arrivals[..heard]))
  {
    if |view.connected| == 0 || quorumN <= 0 {
      assert Responders(arrivals[..0]) == {};
      assert StoppedAt(0, arrivals, quorumN, 0) && Deduped(Gathered(arrivals[..0])) == [];
      return [], [];
    }
    requests := SendRequests(view, view.connected, request);
    var heard;
    rows, heard := CollectUntilQuorum(|view.connected|, arrivals, quorumN);
  }

  /** queryPeersLimited. */
  method FanOut(ids: Ids, view: View, discovered: seq<string>, maxPeers: int, request: Fields, arrivals: seq<Reply>)
    returns (rows: seq<Fields>, requests: seq<Request>)
    ensures SentTo(view, Targets(ids, view.connected, discovered, maxPeers), request, requests)
    ensures IsGathered(|Targets(ids, view.connected, discovered, maxPeers)|, arrivals, rows)
  {
    var peers := GatherPeers(ids, view.connected, discovered, maxPeers);
    if |peers| == 0 {
      assert arrivals[..0] == [];
      return [], [];
    }
    requests := SendRequests(view, peers, request);
    rows := CollectAll(|peers|, arrivals);
  }

  lemma {:induction false} AddedLength(ids: Ids, connected: seq<string>, discovered: seq<string>)
    ensures |Added(ids, connected, discovered)| <= |discovered|
  {
    if discovered != [] { AddedLength(ids, connected, discovered[..|discovered| - 1]); }
  }

  lemma TargetsLength(ids: Ids, view: View, discovered: seq<string>, opts: PeerOptions, own: seq<Fields>)
    ensures |Asked(view, TargetsOf(ids, view, discovered, opts, own))| <= |view.connected| + |discovered|
  {
    AddedLength(ids, view.connected, discovered);
    AskedElems(view, TargetsOf(ids, view, discovered, opts, own));
  }

  // ---------------------------------------------------------------------------------------------
  // Queries in flight
  // ---------------------------------------------------------------------------------------------

  /** A request on its way, after so many hops. */
  datatype Flight = Flight(to: string, msg: Fields, hop: nat)

  function Launched(requests: seq<Request>, hop: nat): seq<Flight> {
    seq(|requests|, i requires 0 <= i < |requests| => Flight(requests[i].0, requests[i].1, hop))
  }

  /** Request i is handled (or lost: then nothing is emitted) by a node that knows at most fanout peers. */
  ghost predicate NetStep(s: seq<Flight>, i: nat, requests: seq<Request>, t: seq<Flight>, fanout: nat) {
    && i < |s| && MayEmit(s[i].msg, requests) && |requests| <= fanout
    && t == s[..i] + s[i + 1..] + Launched(requests, s[i].hop + 1)
  }

  ghost predicate NetMove(s: seq<Flight>, t: seq<Flight>, fanout: nat) {
    exists i: nat, requests: seq<Request> :: NetStep(s, i, requests, t, fanout)
  }

  ghost predicate IsNetRun(states: seq<seq<Flight>>, fanout: nat) {
    states != [] && forall m :: 0 <= m < |states| - 1 ==> NetMove(states[m], states[m + 1], fanout)
  }

  /** How many requests may still be handled on behalf of one in flight. */
  function Cost(f: Flight, fanout: nat): nat {
    if Fans(OptionsOf(f.msg).strategy) then 1 + fanout else 1
  }

  function Costs(s: seq<Flight>, fanout: nat): nat {
    if s == [] then 0 else Costs(s[..|s| - 1], fanout) + Cost(s[|s| - 1], fanout)
  }

  lemma {:induction false} CostsConcat(a: seq<Flight>, b: seq<Flight>, fanout: nat)
    ensures Costs(a + b, fanout) == Costs(a, fanout) + Costs(b, fanout)
    decreases b
  {
    if b == [] {
      assert a + b == a;
    } else {
      assert (a + b)[..|a + b| - 1] == a + b[..|b| - 1];
      CostsConcat(a, b[..|b| - 1], fanout);
    }
  }

  lemma CostsWithout(s: seq<Flight>, i: nat, fanout: nat)
    requires i < |s|
    ensures Costs(s, fanout) == Costs(s[..i] + s[i + 1..], fanout) + Cost(s[i], fanout)
  {
    assert s == s[..i + 1] + s[i + 1..] && s[..i + 1][..i] == s[..i];
    CostsConcat(s[..i + 1], s[i + 1..], fanout);
    CostsConcat(s[..i], s[i + 1..], fanout);
  }

  lemma {:induction false} LaunchedCosts(requests: seq<Request>, hop: nat, fanout: nat)
    requires forall r :: r in requests ==> IsClamped(r.1)
    ensures Costs(Launched(requests, hop), fanout) == |requests|
  {
    if requests != [] {
      var n := |requests| - 1;
      assert Launched(requests, hop)[..n] == Launched(requests[..n], hop);
      LaunchedCosts(requests[..n], hop, fanout);
      ClampedIsLocal(requests[n].1);
    }
  }

  /** Every request handled lowers what is left to do. */
  lemma StepCosts(s: seq<Flight>, t: seq<Flight>, fanout: nat)
    requires NetMove(s, t, fanout)
    ensures Costs(t, fanout) < Costs(s, fanout)
  {
    var i: nat, requests: seq<Request> :| NetStep(s, i, requests, t, fanout);
    CostsWithout(s, i, fanout);
    CostsConcat(s[..i] + s[i + 1..], Launched(requests, s[i].hop + 1), fanout);
    LaunchedCosts(requests, s[i].hop + 1, fanout);
  }

  /** Every query ends: however requests are scheduled, handled or lost, at most as many are ever handled as the requests
      at the start cost. */
  lemma {:induction false} QueriesEnd(states: seq<seq<Flight>>, fanout: nat)
    requires IsNetRun(states, fanout)
    ensures Costs(states[|states| - 1], fanout) + |states| - 1 <= Costs(states[0], fanout)
  {
    var n := |states| - 1;
    if n > 0 {
      QueriesEnd(states[..n], fanout);
      assert NetMove(states[n - 1], states[n], fanout);
      StepCosts(states[n - 1], states[n], fanout);
    }
  }

  /** A request that made a hop is one its receiver answers from its own replica. */
  ghost predicate HopOk(f: Flight) {
    f.hop <= 1 && (f.hop == 1 ==> !Fans(OptionsOf(f.msg).strategy))
  }

  /** From requests of clients (hop 0), no request ever travels more than one further hop. */
  lemma {:induction false} OneFurtherHop(states: seq<seq<Flight>>, fanout: nat)
    requires IsNetRun(states, fanout) && forall f :: f in states[0] ==> f.hop == 0
    ensures forall f :: f in states[|states| - 1] ==> HopOk(f)
  {
    var n := |states| - 1;
    if n > 0 {
      OneFurtherHop(states[..n], fanout);
      assert NetMove(states[n - 1], states[n], fanout);
      var s, t := states[n - 1], states[n];
      var i: nat, requests: seq<Request> :| NetStep(s, i, requests, t, fanout);
      assert HopOk(s[i]);
      forall f | f in t ensures HopOk(f) {
        if f !in s {
          assert f in Launched(requests, s[i].hop + 1);
          var k :| 0 <= k < |requests| && f == Launched(requests, s[i].hop + 1)[k];
          assert requests[k] in requests;
          ClampedIsLocal(requests[k].1);
        }
      }
    }
  }
}
