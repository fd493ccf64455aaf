/** The QUERY command of the request handler: effective options, the stored-bytes shortcut, the strategies, and what
    is persisted (app/service.go). */
module QueryCommand {

  import opened Prelude
  import opened JsonValues
  import opened Documents
  import opened Matching
  import opened DocumentIndex
  import opened DocumentStore
  import opened QueryEngine
  import opened Merging

  const LOCAL_ONLY := "LOCAL_ONLY"
  const REMOTE_ONLY := "REMOTE_ONLY"
  const LOCAL_THEN_REMOTE_MERGE := "LOCAL_THEN_REMOTE_MERGE"
  const PARALLEL_MERGE := "PARALLEL_MERGE"
  const QUORUM := "QUORUM"

  /** The options that decide which rows are returned; time budget, peer limit and quorum only act on the peers'
      rows, a parameter here. */
  datatype Options = Options(strategy: string, minRows: int, forceRemote: bool, includeLocal: bool, annotateSource: bool)

  /** The defaults, overridden by the options of the request: a request with options decides on the three flags
      even when it does not mention them. */
  function Effective(given: Option<Options>): Options {
    match given
    case None => Options(LOCAL_THEN_REMOTE_MERGE, 0, false, true, true)
    case Some(o) =>
      Options(if o.strategy != "" then o.strategy else LOCAL_THEN_REMOTE_MERGE,
              if o.minRows > 0 then o.minRows else 0, o.forceRemote, o.includeLocal, o.annotateSource)
  }

  /** A request without options is one for all the local rows first, annotated, and the peers if there are none. Options
      override what they give; an empty strategy and a minimum that is not positive are as good as none. */
  lemma OptionsOverride(given: Option<Options>)
    ensures var o := Effective(given);
            && (given.None? ==> o.strategy == LOCAL_THEN_REMOTE_MERGE && o.minRows <= 0 && !o.forceRemote && o.includeLocal
                                && o.annotateSource)
            && (given.Some? ==>
                  && o.strategy == (if given.value.strategy == "" then LOCAL_THEN_REMOTE_MERGE else given.value.strategy)
                  && (o.minRows == given.value.minRows || (o.minRows <= 0 && given.value.minRows <= 0))
                  && o.forceRemote == given.value.forceRemote && o.includeLocal == given.value.includeLocal
                  && o.annotateSource == given.value.annotateSource)
  {
  }

  /** The guard of the stored-bytes shortcut. */
  predicate RawGuard(opt: Options) {
    && !opt.annotateSource && !opt.forceRemote && opt.minRows <= 0 && opt.includeLocal
    && (opt.strategy == LOCAL_ONLY || opt.strategy == LOCAL_THEN_REMOTE_MERGE)
  }

  /** annotate, one row: fields the row already has are kept. */
  function Annotated(row: Fields, source: string, peer: string, strategy: string): (r: Fields)
    ensures Stripped(r) == Stripped(row)
  {
    var withSource: Fields :=
      if "_source" in row then row else row["_source" := Obj(map["type" := Str(source), "peer_id" := Str(peer)])];
    assert withSource - {"_source", "_trace"} == row - {"_source", "_trace"};
    if "_trace" in row then withSource
    else
      var withTrace: Fields := withSource["_trace" := Obj(map["strategy" := Str(strategy)])];
      assert withTrace - {"_source", "_trace"} == row - {"_source", "_trace"};
      withTrace
  }

  /** A row from the local store or from a peer as the client sees it. */
  function Shown(opt: Options, row: Fields, source: string, peer: string, strategy: string): Fields {
    if opt.annotateSource then Annotated(row, source, peer, strategy) else row
  }

  /** The client sees every field of the row as it is; the only fields added are _source and _trace, both of them on
      request, and neither in place of one the row has. */
  lemma ShownKeepsFields(opt: Options, row: Fields, source: string, peer: string, strategy: string)
    ensures var r := Shown(opt, row, source, peer, strategy);
            && (forall f :: f in row ==> f in r && r[f] == row[f])
            && r.Keys == row.Keys + (if opt.annotateSource then {"_source", "_trace"} else {})
            && ("_source" in r && "_source" !in row ==> r["_source"] == Obj(map["type" := Str(source), "peer_id" := Str(peer)]))
            && ("_trace" in r && "_trace" !in row ==> r["_trace"] == Obj(map["strategy" := Str(strategy)]))
  {
  }

  function ShownAll(opt: Options, docs: seq<Json>, source: string, strategy: string): seq<Fields> {
    seq(|docs|, i requires 0 <= i < |docs| => if docs[i].Obj? then Shown(opt, docs[i].fields, source, "", strategy) else map[])
  }

  /** A row and the peer that answered with it. */
  datatype PeerRow = PeerRow(peer: string, row: Fields)

  /** The rows of the peers as shown; only QUORUM asks the peers itself and knows which one a row is from. */
  function FromPeers(opt: Options, rows: seq<PeerRow>, strategy: string): seq<Fields> {
    seq(|rows|, i requires 0 <= i < |rows| =>
      Shown(opt, rows[i].row, "peer", if strategy == QUORUM then rows[i].peer else "", strategy))
  }

  /** Every peer's row is shown in its place with all its fields, and unchanged when no annotation is asked for. */
  lemma FromPeersShows(opt: Options, rows: seq<PeerRow>, strategy: string)
    ensures var shown := FromPeers(opt, rows, strategy);
            && |shown| == |rows|
            && (forall i, f :: 0 <= i < |rows| && f in rows[i].row ==> f in shown[i] && shown[i][f] == rows[i].row[f])
            && (forall i :: 0 <= i < |rows| && !opt.annotateSource ==> shown[i] == rows[i].row)
  {
    forall i | 0 <= i < |rows| {
      ShownKeepsFields(opt, rows[i].row, "peer", if strategy == QUORUM then rows[i].peer else "", strategy);
    }
  }

  /** The rows are the selected documents, each once, as shown to the client. */
  ghost predicate ShowsLocal(store: Store, opt: Options, strategy: string, rows: seq<Fields>, keys: seq<string>, selected: set<string>)
    reads store, store.index
  {
    && NoDup(keys) && Elems(keys) == selected && |rows| == |keys|
    && forall i :: 0 <= i < |keys| ==>
         && keys[i] in store.Contents() && store.Contents()[keys[i]].Obj?
         && rows[i] == Shown(opt, store.Contents()[keys[i]].fields, "local", "", strategy)
  }

  /** As many rows as the client asked for, and at least one. */
  predicate Enough(opt: Options, n: nat) {
    n > 0 && (opt.minRows <= 0 || n >= opt.minRows)
  }

  ghost predicate HasKey(rows: seq<Fields>, hash: Json -> string, key: string) {
    exists r :: r in rows && RowKey(r, hash) == key
  }

  /** Every one of the rows is among all, and every key of all occurs on exactly one of them. */
  ghost predicate Merged(rows: seq<Fields>, all: seq<Fields>, hash: Json -> string) {
    && (forall i, j :: 0 <= i < j < |rows| ==> RowKey(rows[i], hash) != RowKey(rows[j], hash))
    && (forall r :: r in rows ==> r in all)
    && (forall a {:trigger HasKey(rows, hash, RowKey(a, hash))} :: a in all ==> HasKey(rows, hash, RowKey(a, hash)))
  }

  /** queryLocalDB with the rows shown. */
  method LocalRows(lib: Library, store: Store, criteria: seq<Fields>, opt: Options, strategy: string)
    returns (r: Outcome<seq<Fields>>, ghost keys: seq<string>)
    requires store.Valid()
    ensures store.WellKeyed() && r.Answered? ==> ShowsLocal(store, opt, strategy, r.value, keys, Elems(keys))
    ensures store.WellKeyed() && Routable(criteria) && r.Answered? ==> Elems(keys) == Scan(lib, criteria, store.Contents())
    ensures store.WellKeyed() ==> !r.Failed?
    ensures WellTypedFilters(criteria) ==> !r.Panicked?
  {
    var local;
    local, keys := QueryLocalDB(lib, store, criteria);
    match local {
      case Failed => return Outcome.Failed, keys;
      case Panicked => return Panicked, keys;
      case Answered(docs) =>
        r := Answered(ShownAll(opt, docs, "local", strategy));
    }
  }

  function RowsOf(r: Outcome<seq<Fields>>): seq<Fields> {
    if r.Answered? then r.value else []
  }

  /** The rows of the peers, none when asking them failed. */
  function Given<T>(remote: Result<seq<T>>): seq<T> {
    if remote.Ok? then remote.value else []
  }

  /** queryRemote, and what quorumMerge collects: the answers of the peers are a parameter, as is whether asking failed. */
  method QueryRemote(opt: Options, strategy: string, remote: Result<seq<PeerRow>>) returns (r: Result<seq<Fields>>)
    ensures r.Ok? <==> remote.Ok?
    ensures Given(r) == FromPeers(opt, Given(remote), strategy)
  {
    r := if remote.Ok? then Ok(FromPeers(opt, remote.value, strategy)) else Error;
  }

  /** Local and remote rows merged; an error when both sides failed. */
  method MergeBoth(local: Outcome<seq<Fields>>, remote: Result<seq<Fields>>, hash: Json -> string)
    returns (r: Outcome<seq<Fields>>)
    requires !local.Panicked?
    ensures r.Failed? <==> local.Failed? && remote.Error?
    ensures !r.Failed? ==> r.Answered? && Merged(r.value, RowsOf(local) + Given(remote), hash)
  {
    if local.Failed? && remote.Error? { return Outcome.Failed; }
    var merged, sent := DedupResults(RowsOf(local) + Given(remote), hash);
    r := Answered(merged);
  }

  /** localThenRemoteMerge: the peers are asked only when the local rows do not suffice. */
  method LocalThenRemoteMerge(lib: Library, store: Store, criteria: seq<Fields>, opt: Options,
                              remote: Result<seq<PeerRow>>, hash: Json -> string)
    returns (r: Outcome<seq<Fields>>, asked: bool, ghost local: seq<Fields>, ghost keys: seq<string>)
    requires store.Valid()
    ensures store.WellKeyed() && opt.includeLocal && !r.Panicked? ==>
              && ShowsLocal(store, opt, LOCAL_THEN_REMOTE_MERGE, local, keys, Elems(keys))
              && (!asked <==> !opt.forceRemote && |local| > 0 && (opt.minRows <= 0 || |local| >= opt.minRows))
    ensures store.WellKeyed() && opt.includeLocal && Routable(criteria) && !r.Panicked? ==>
              Elems(keys) == Scan(lib, criteria, store.Contents())
    ensures !opt.includeLocal ==> asked && local == [] && !r.Panicked? && !r.Failed?
    ensures r.Answered? ==>
              if asked then Merged(r.value, local + FromPeers(opt, Given(remote), LOCAL_THEN_REMOTE_MERGE), hash)
              else r.value == local && opt.includeLocal
    ensures r.Failed? ==> asked && remote.Error?
    ensures store.WellKeyed() ==> !r.Failed?
    ensures WellTypedFilters(criteria) ==> !r.Panicked?
  {
    var rows: Outcome<seq<Fields>> := Answered([]);
    keys := [];
    if opt.includeLocal {
      rows, keys := LocalRows(lib, store, criteria, opt, LOCAL_THEN_REMOTE_MERGE);
      if rows.Panicked? { return Panicked, false, [], keys; }
      if rows.Answered? && !opt.forceRemote && Enough(opt, |rows.value|) {
        return rows, false, rows.value, keys;
      }
    }
    asked, local := true, RowsOf(rows);
    var shown := QueryRemote(opt, LOCAL_THEN_REMOTE_MERGE, remote);
    r := MergeBoth(rows, shown, hash);
  }

  /** parallelMerge: both sides are asked at once. */
  method ParallelMerge(lib: Library, store: Store, criteria: seq<Fields>, opt: Options,
                       remote: Result<seq<PeerRow>>, hash: Json -> string)
    returns (r: Outcome<seq<Fields>>, ghost local: seq<Fields>, ghost keys: seq<string>)
    requires store.Valid()
    ensures store.WellKeyed() && opt.includeLocal && !r.Panicked? ==>
              && ShowsLocal(store, opt, PARALLEL_MERGE, local, keys, Elems(keys))
              && (Routable(criteria) ==> Elems(keys) == Scan(lib, criteria, store.Contents()))
    ensures !opt.includeLocal ==> local == []
    ensures r.Answered? ==> Merged(r.value, local + FromPeers(opt, Given(remote), PARALLEL_MERGE), hash)
    ensures r.Failed? ==> remote.Error? && !store.WellKeyed()
    ensures WellTypedFilters(criteria) ==> !r.Panicked?
  {
    var rows: Outcome<seq<Fields>> := Answered([]);
    keys := [];
    if opt.includeLocal { rows, keys := LocalRows(lib, store, criteria, opt, PARALLEL_MERGE); }
    if rows.Panicked? { return Panicked, [], keys; }
    var shown := QueryRemote(opt, PARALLEL_MERGE, remote);
    local := RowsOf(rows);
    r := MergeBoth(rows, shown, hash);
  }

  /** quorumMerge: the local rows are always asked for, and no failure is reported. */
  method QuorumMerge(lib: Library, store: Store, criteria: seq<Fields>, opt: Options,
                     remote: Result<seq<PeerRow>>, hash: Json -> string)
    returns (r: Outcome<seq<Fields>>, ghost local: seq<Fields>, ghost keys: seq<string>)
    requires store.Valid()
    ensures store.WellKeyed() && !r.Panicked? ==>
              && ShowsLocal(store, opt, QUORUM, local, keys, Elems(keys))
              && (Routable(criteria) ==> Elems(keys) == Scan(lib, criteria, store.Contents()))
    ensures r.Answered? ==> Merged(r.value, local + FromPeers(opt, Given(remote), QUORUM), hash)
    ensures !r.Failed?
    ensures WellTypedFilters(criteria) ==> !r.Panicked?
  {
    var rows;
    rows, keys := LocalRows(lib, store, criteria, opt, QUORUM);
    if rows.Panicked? { return Panicked, [], keys; }
    var shown := QueryRemote(opt, QUORUM, remote);
    local := RowsOf(rows);
    r := MergeBoth(Answered(RowsOf(rows)), shown, hash);
  }

  // ---------------------------------------------------------------------------------------------
  // The command
  // ---------------------------------------------------------------------------------------------

  datatype Reply = RawRows(raws: seq<Raw>) | Rows(rows: seq<Fields>) | Fault | Crash

  /** The documents a reply carries, decoded. */
  function Carried(store: Store, reply: Reply): seq<Json> {
    match reply
    case RawRows(raws) =>
      seq(|raws|, i requires 0 <= i < |raws| => match store.Decode(raws[i]) case Some(d) => d case None => Null)
    case Rows(rows) => seq(|rows|, i requires 0 <= i < |rows| => Obj(rows[i]))
    case _ => []
  }

  /** The reply carries exactly the selected documents, unannotated, each once. */
  ghost predicate Answers(store: Store, reply: Reply, keys: seq<string>, selected: set<string>)
    reads store, store.index
  {
    (reply.RawRows? || reply.Rows?) && NoDup(keys) && Elems(keys) == selected && Values(store.Contents(), keys, Carried(store, reply))
  }

  /** Two replies that answer with the same selected documents carry the same documents, up to order. */
  lemma AnswersAgree(store: Store, a: Reply, aKeys: seq<string>, b: Reply, bKeys: seq<string>, selected: set<string>)
    requires Answers(store, a, aKeys, selected) && Answers(store, b, bKeys, selected)
    ensures multiset(Carried(store, a)) == multiset(Carried(store, b))
  {
    ListingsAgree(store.Contents(), aKeys, Carried(store, a), bKeys, Carried(store, b));
  }

  /** Rows answered locally are stored already, whatever was added for the client: nothing is written back. */
  lemma LocalAnswerPersistsNothing(store: Store, opt: Options, strategy: string, rows: seq<Fields>, keys: seq<string>)
    requires store.WellKeyed() && ShowsLocal(store, opt, strategy, rows, keys, Elems(keys))
    ensures MissingDocs(rows, store.Contents()) == []
  {
    forall r | r in rows ensures exists k :: ReadFrom(r, store.Contents(), k) {
      var i :| 0 <= i < |rows| && rows[i] == r;
      assert ReadFrom(r, store.Contents(), keys[i]);
    }
    LocalRowsAddNothing(rows, store.Contents());
  }

  /** The strategy rows are annotated with: one the code does not know is taken for LOCAL_THEN_REMOTE_MERGE. */
  ghost function NameOf(opt: Options): string {
    if opt.strategy in {LOCAL_ONLY, REMOTE_ONLY, PARALLEL_MERGE, QUORUM} then opt.strategy else LOCAL_THEN_REMOTE_MERGE
  }

  lemma NamesDiffer(opt: Options)
    ensures LOCAL_ONLY != REMOTE_ONLY && LOCAL_ONLY != PARALLEL_MERGE && LOCAL_ONLY != QUORUM
    ensures REMOTE_ONLY != PARALLEL_MERGE && REMOTE_ONLY != QUORUM && PARALLEL_MERGE != QUORUM
    ensures LOCAL_THEN_REMOTE_MERGE !in {LOCAL_ONLY, REMOTE_ONLY, PARALLEL_MERGE, QUORUM}
    ensures NameOf(opt) in {LOCAL_ONLY, REMOTE_ONLY, PARALLEL_MERGE, QUORUM} ==> NameOf(opt) == opt.strategy
  {
    assert LOCAL_ONLY[0] == 'L' && REMOTE_ONLY[0] == 'R' && PARALLEL_MERGE[0] == 'P' && QUORUM[0] == 'Q';
    assert LOCAL_THEN_REMOTE_MERGE[0] == 'L' && LOCAL_THEN_REMOTE_MERGE[6] == 'T' && LOCAL_ONLY[6] == 'O';
  }

  /** The rows of the local side: none with REMOTE_ONLY, nor with a strategy other than LOCAL_ONLY and QUORUM that
      leaves them out; else the documents of a scan. */
  ghost predicate LocalSide(lib: Library, store: Store, criteria: seq<Fields>, opt: Options,
                            local: seq<Fields>, keys: seq<string>)
    reads store, store.index
  {
    if NameOf(opt) == REMOTE_ONLY || (NameOf(opt) in {PARALLEL_MERGE, LOCAL_THEN_REMOTE_MERGE} && !opt.includeLocal) then
      local == []
    else
      && ShowsLocal(store, opt, NameOf(opt), local, keys, Elems(keys))
      && (Routable(criteria) ==> Elems(keys) == Scan(lib, criteria, store.Contents()))
  }

  /** The local rows suffice: the only strategy, or the first of LOCAL_THEN_REMOTE_MERGE, no remote answer is forced and
      there are as many as asked for, and one. */
  ghost predicate Suffices(opt: Options, local: seq<Fields>) {
    || NameOf(opt) == LOCAL_ONLY
    || (NameOf(opt) == LOCAL_THEN_REMOTE_MERGE && opt.includeLocal && !opt.forceRemote && |local| > 0
        && (opt.minRows <= 0 || |local| >= opt.minRows))
  }

  /** The rows of an answer: the local ones, those of the peers, or one per key of both. */
  ghost predicate Gives(opt: Options, rows: seq<Fields>, asked: bool, local: seq<Fields>,
                        remote: Result<seq<PeerRow>>, hash: Json -> string)
  {
    if !asked then rows == local
    else if NameOf(opt) == REMOTE_ONLY then remote.Ok? && rows == FromPeers(opt, remote.value, REMOTE_ONLY)
    else Merged(rows, local + FromPeers(opt, Given(remote), NameOf(opt)), hash)
  }

  /** Under the shortcut's guard local rows suffice when the scan finds one. */
  lemma GuardedSuffices(lib: Library, store: Store, criteria: seq<Fields>, opt: Options, local: seq<Fields>, keys: seq<string>)
    requires RawGuard(opt) && Routable(criteria) && LocalSide(lib, store, criteria, opt, local, keys)
    ensures Suffices(opt, local) <==> opt.strategy == LOCAL_ONLY || Scan(lib, criteria, store.Contents()) != {}
    ensures Answers(store, Rows(local), keys, Scan(lib, criteria, store.Contents()))
  {
    NamesDiffer(opt);
    assert keys == [] <==> Elems(keys) == {} by {
      if keys != [] { assert keys[0] in Elems(keys); }
    }
  }

  /** The ordinary path of the command: one strategy. */
  method ByStrategy(lib: Library, store: Store, criteria: seq<Fields>, opt: Options,
                    remote: Result<seq<PeerRow>>, hash: Json -> string)
    returns (r: Outcome<seq<Fields>>, asked: bool, ghost local: seq<Fields>, ghost keys: seq<string>)
    requires store.Valid()
    ensures store.WellKeyed() && !r.Panicked? ==>
              LocalSide(lib, store, criteria, opt, local, keys) && (asked <==> !Suffices(opt, local))
    ensures r.Answered? ==> Gives(opt, r.value, asked, local, remote, hash)
    ensures store.WellKeyed() ==> (r.Failed? <==> opt.strategy == REMOTE_ONLY && remote.Error?)
    ensures r.Failed? ==> (opt.strategy == LOCAL_ONLY || remote.Error?) && opt.strategy != QUORUM
    ensures opt.strategy == LOCAL_ONLY ==> !asked
    ensures store.WellKeyed() && Routable(criteria) && RawGuard(opt) && !r.Panicked? ==>
              (asked <==> opt.strategy != LOCAL_ONLY && Scan(lib, criteria, store.Contents()) == {})
    ensures WellTypedFilters(criteria) ==> !r.Panicked?
  {
    local, keys := [], [];
    ghost var name := NameOf(opt);
    NamesDiffer(opt);
    if opt.strategy == LOCAL_ONLY {
      assert name == LOCAL_ONLY;
      r, keys := LocalRows(lib, store, criteria, opt, LOCAL_ONLY);
      return r, false, RowsOf(r), keys;
    }
    asked := true;
    if opt.strategy == REMOTE_ONLY {
      assert name == REMOTE_ONLY;
      var shown := QueryRemote(opt, REMOTE_ONLY, remote);
      r := if shown.Ok? then Answered(shown.value) else Outcome.Failed;
    } else if opt.strategy == PARALLEL_MERGE {
      assert name == PARALLEL_MERGE;
      r, local, keys := ParallelMerge(lib, store, criteria, opt, remote, hash);
    } else if opt.strategy == QUORUM {
      assert name == QUORUM;
      r, local, keys := QuorumMerge(lib, store, criteria, opt, remote, hash);
    } else {
      assert name == LOCAL_THEN_REMOTE_MERGE;
      r, asked, local, keys := LocalThenRemoteMerge(lib, store, criteria, opt, remote, hash);
      if store.WellKeyed() && Routable(criteria) && RawGuard(opt) && !r.Panicked? {
        GuardedSuffices(lib, store, criteria, opt, local, keys);
      }
    }
  }

  /** No row without an _id is hashed to id: its key is not mistaken for that of a document. */
  ghost predicate NoHashIs(rows: seq<Fields>, hash: Json -> string, id: string) {
    forall r :: r in rows && KeyOf(Obj(r)).None? ==> hash(Obj(r)) != id
  }

  /** row has an _id under which the store holds nothing. */
  ghost predicate Unknown(row: Fields, docs: Docs) {
    "_id" in row && row["_id"].Str? && row["_id"].s != "" && row["_id"].s !in docs
  }

  /** What an answer leaves to be stored: documents of peers' rows with an unknown _id, without the annotations, and one
      for every such _id. */
  ghost predicate PersistsUnknown(persisted: seq<Json>, docs: Docs, remote: seq<PeerRow>, all: seq<Fields>, hash: Json -> string) {
    && (forall d :: d in persisted ==> exists p :: p in remote && Unknown(p.row, docs) && d == Stripped(p.row))
    && (forall p :: p in remote && Unknown(p.row, docs) && NoHashIs(all, hash, p.row["_id"].s) ==>
          exists d :: d in persisted && KeyOf(d) == Some(p.row["_id"].s))
  }

  lemma FromPeer(opt: Options, remote: seq<PeerRow>, strategy: string, r: Fields) returns (p: PeerRow)
    requires r in FromPeers(opt, remote, strategy)
    ensures p in remote && Stripped(r) == Stripped(p.row) && IdOf(r) == IdOf(p.row)
  {
    var i :| 0 <= i < |remote| && FromPeers(opt, remote, strategy)[i] == r;
    p := remote[i];
    StrippedKeepsId(r);
    StrippedKeepsId(p.row);
  }

  lemma OnlyUnknownPersisted(store: Store, opt: Options, strategy: string, rows: seq<Fields>, local: seq<Fields>,
                             keys: seq<string>, remote: seq<PeerRow>)
    requires store.WellKeyed() && (local != [] ==> exists s :: ShowsLocal(store, opt, s, local, keys, Elems(keys)))
    requires forall r :: r in rows ==> r in local + FromPeers(opt, remote, strategy)
    ensures forall d :: d in MissingDocs(rows, store.Contents()) ==>
              exists p :: p in remote && Unknown(p.row, store.Contents()) && d == Stripped(p.row)
  {
    var m := store.Contents();
    MissingDocsAre(rows, m);
    forall d | d in MissingDocs(rows, m) ensures exists p :: p in remote && Unknown(p.row, m) && d == Stripped(p.row) {
      var r :| r in rows && IsMissing(r, m) && d == Stripped(r);
      if r in local {
        var s :| ShowsLocal(store, opt, s, local, keys, Elems(keys));
        LocalAnswerPersistsNothing(store, opt, s, local, keys);
        MissingDocsAre(local, m);
        assert false;
      } else {
        var p := FromPeer(opt, remote, strategy, r);
      }
    }
  }

  lemma EveryUnknownPersisted(opt: Options, strategy: string, rows: seq<Fields>, local: seq<Fields>, remote: seq<PeerRow>,
                              hash: Json -> string, m: Docs, p: PeerRow)
    requires var all := local + FromPeers(opt, remote, strategy);
             Merged(rows, all, hash) || (local == [] && rows == all)
    requires p in remote && Unknown(p.row, m) && NoHashIs(local + FromPeers(opt, remote, strategy), hash, p.row["_id"].s)
    ensures exists d :: d in MissingDocs(rows, m) && KeyOf(d) == Some(p.row["_id"].s)
  {
    var id, shown := p.row["_id"].s, FromPeers(opt, remote, strategy);
    var i :| 0 <= i < |remote| && remote[i] == p;
    StrippedKeepsId(shown[i]);
    StrippedKeepsId(p.row);
    assert KeyOf(Obj(shown[i])) == Some(id) && shown[i] in local + shown;
    var r := shown[i];
    if rows != local + shown { r := RowWithId(rows, local + shown, hash, shown[i], id); }
    StrippedKeepsId(r);
    MissingDocsAre(rows, m);
    assert IsMissing(r, m) && Stripped(r) in MissingDocs(rows, m);
  }

  /** Among rows that are one per key of all is one with the id of a row. */
  lemma RowWithId(rows: seq<Fields>, all: seq<Fields>, hash: Json -> string, a: Fields, id: string) returns (r: Fields)
    requires Merged(rows, all, hash) && a in all && KeyOf(Obj(a)) == Some(id) && NoHashIs(all, hash, id)
    ensures r in rows && KeyOf(Obj(r)) == Some(id)
  {
    assert HasKey(rows, hash, RowKey(a, hash));
    r :| r in rows && RowKey(r, hash) == id;
    assert r in all;
  }

  lemma AnswerPersists(lib: Library, store: Store, criteria: seq<Fields>, opt: Options, rows: seq<Fields>, asked: bool,
                       local: seq<Fields>, keys: seq<string>, remote: Result<seq<PeerRow>>, hash: Json -> string)
    requires store.WellKeyed() && LocalSide(lib, store, criteria, opt, local, keys)
    requires Gives(opt, rows, asked, local, remote, hash)
    ensures !asked ==> MissingDocs(rows, store.Contents()) == []
    ensures asked ==> PersistsUnknown(MissingDocs(rows, store.Contents()), store.Contents(), Given(remote),
                                      local + FromPeers(opt, Given(remote), NameOf(opt)), hash)
  {
    if !asked {
      if local != [] { LocalAnswerPersistsNothing(store, opt, NameOf(opt), local, keys); }
    } else {
      var all := local + FromPeers(opt, Given(remote), NameOf(opt));
      assert Merged(rows, all, hash) || (local == [] && rows == all);
      OnlyUnknownPersisted(store, opt, NameOf(opt), rows, local, keys, Given(remote));
      forall p | p in Given(remote) && Unknown(p.row, store.Contents()) && NoHashIs(all, hash, p.row["_id"].s)
        ensures exists d :: d in MissingDocs(rows, store.Contents()) && KeyOf(d) == Some(p.row["_id"].s)
      {
        EveryUnknownPersisted(opt, NameOf(opt), rows, local, Given(remote), hash, store.Contents(), p);
      }
    }
  }

  /** The QUERY command, for every criteria list. The reply is the stored bytes of local documents, the local rows, the
      peers' rows or one row per key of both; it is a fault exactly when the peers alone are asked and asking fails, and
      only an ill-typed filter makes it a crash. Where the shortcut's guard holds and there are local rows, it carries
      exactly the documents of a scan whether or not the shortcut is taken. What is stored are documents that only the
      peers' rows have. */
  method HandleQuery(lib: Library, store: Store, criteria: seq<Fields>, rawOK: bool, given: Option<Options>,
                     remote: Result<seq<PeerRow>>, hash: Json -> string)
    returns (reply: Reply, asked: bool, ghost toPersist: seq<Json>, ghost local: seq<Fields>, ghost keys: seq<string>)
    requires store.Valid()
    ensures store.WellKeyed() && Routable(criteria) && RawGuard(Effective(given)) && !reply.Crash?
            && Scan(lib, criteria, store.Contents()) != {} ==>
              !asked && Answers(store, reply, keys, Scan(lib, criteria, store.Contents()))
    ensures reply.RawRows? ==> rawOK && RawGuard(Effective(given)) && reply.raws != [] && !asked
    ensures var o := Effective(given);
            store.WellKeyed() && rawOK && !o.annotateSource && !o.forceRemote && o.minRows <= 0 && o.includeLocal
            && (o.strategy == LOCAL_ONLY || o.strategy == LOCAL_THEN_REMOTE_MERGE)
            && (IdOnly(criteria).Some? ==> ' ' !in IdOnly(criteria).value) && Scan(lib, criteria, store.Contents()) != {} ==>
              reply.RawRows? || reply.Crash?
    ensures store.WellKeyed() && reply.RawRows? ==>
              Routable(criteria) && Answers(store, reply, keys, Scan(lib, criteria, store.Contents()))
    ensures store.WellKeyed() && reply.Rows? ==>
              LocalSide(lib, store, criteria, Effective(given), local, keys) && (asked <==> !Suffices(Effective(given), local))
    ensures reply.Rows? ==> Gives(Effective(given), reply.rows, asked, local, remote, hash)
    ensures store.WellKeyed() && !reply.Crash? ==>
              (reply.Fault? <==> Effective(given).strategy == REMOTE_ONLY && remote.Error?)
    ensures reply.Rows? ==> toPersist == MissingDocs(reply.rows, store.Contents())
    ensures store.WellKeyed() && !asked ==> toPersist == []
    ensures store.WellKeyed() && reply.Rows? && asked ==>
              PersistsUnknown(toPersist, store.Contents(), Given(remote),
                              local + FromPeers(Effective(given), Given(remote), NameOf(Effective(given))), hash)
    ensures WellTypedFilters(criteria) ==> !reply.Crash?
  {
    var opt := Effective(given);
    toPersist, local := [], [];
    if rawOK && RawGuard(opt) {
      var raw, ok;
      raw, ok, keys := QueryLocalRaw(lib, store, criteria);
      if raw.Panicked? { return Crash, false, [], [], keys; }
      assert keys == [] ==> Elems(keys) == {};
      if ok && raw.Answered? && |raw.value| > 0 {
        return RawRows(raw.value), false, [], [], keys;
      }
    }
    var r;
    r, asked, local, keys := ByStrategy(lib, store, criteria, opt, remote, hash);
    match r {
      case Failed => return Fault, asked, [], local, keys;
      case Panicked => return Crash, asked, [], local, keys;
      case Answered(rows) =>
        reply := Rows(rows);
        toPersist := MissingDocs(rows, store.Contents());
        if store.WellKeyed() { AnswerPersists(lib, store, criteria, opt, rows, asked, local, keys, remote, hash); }
        if store.WellKeyed() && Routable(criteria) && RawGuard(opt) && Scan(lib, criteria, store.Contents()) != {} {
          GuardedSuffices(lib, store, criteria, opt, local, keys);
        }
    }
  }
}
