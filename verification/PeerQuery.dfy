/** The peer side of queries: options in a message, the strategies of the stream handler, fan-out, and the collectors of
    replies (app/query_handler.go). */
module PeerQuery {

  import opened Prelude
  import opened JsonValues
  import opened Merging
  import opened QueryCommand

  // ---------------------------------------------------------------------------------------------
  // Options
  // ---------------------------------------------------------------------------------------------

  datatype PeerOptions = PeerOptions(strategy: string, forceRemote: bool, includeLocal: bool, annotateSource: bool,
                                     timeBudgetMs: int, maxPeers: int, quorumN: int)

  /** int(x): toward zero. */
  function Truncate(x: real): int {
    if x >= 0.0 then x.Floor else -((-x).Floor)
  }

  function StringOr(v: Json, default: string): string {
    if v.Str? && v.s != "" then v.s else default
  }

  function BoolOr(v: Json, default: bool): bool {
    if v.Bool? then v.b else default
  }

  function IntOr(v: Json, default: int): int {
    if v.Num? then Truncate(v.n) else default
  }

  /** The value of an option in the nested form, if there is one. */
  function Inner(msg: Fields, key: string): Json {
    if Lookup(msg, "options").Obj? then Lookup(msg["options"].fields, key) else Null
  }

  /** A well-typed value under "options" decides, else a well-typed one at the top, else the default. */
  function StringOption(msg: Fields, key: string, default: string): string {
    StringOr(Inner(msg, key), StringOr(Lookup(msg, key), default))
  }

  function BoolOption(msg: Fields, key: string, default: bool): bool {
    BoolOr(Inner(msg, key), BoolOr(Lookup(msg, key), default))
  }

  function IntOption(msg: Fields, key: string, default: int): int {
    IntOr(Inner(msg, key), IntOr(Lookup(msg, key), default))
  }

  /** What a message asks for. */
  function OptionsOf(msg: Fields): PeerOptions {
    PeerOptions(StringOption(msg, "strategy", LOCAL_ONLY), BoolOption(msg, "force_remote", false),
                BoolOption(msg, "include_local", true), BoolOption(msg, "annotate_source", true),
                IntOption(msg, "time_budget_ms", 2000), IntOption(msg, "max_peers", 0), IntOption(msg, "quorum_n", 0))
  }

  /** The fields under "options", when that is an object. */
  ghost function Options(msg: Fields): Fields {
    if "options" in msg && msg["options"].Obj? then msg["options"].fields else map[]
  }

  ghost predicate HasText(m: Fields, key: string) {
    key in m && m[key].Str? && m[key].s != ""
  }

  ghost predicate HasBool(m: Fields, key: string) {
    key in m && m[key].Bool?
  }

  ghost predicate HasNum(m: Fields, key: string) {
    key in m && m[key].Num?
  }

  /** r is the number without its fraction. */
  ghost predicate WholePart(x: real, r: int) {
    if x >= 0.0 then r as real <= x < r as real + 1.0 else r as real - 1.0 < x <= r as real
  }

  ghost predicate TakesText(msg: Fields, key: string, default: string, r: string) {
    if HasText(Options(msg), key) then r == Options(msg)[key].s
    else if HasText(msg, key) then r == msg[key].s
    else r == default
  }

  ghost predicate TakesBool(msg: Fields, key: string, default: bool, r: bool) {
    if HasBool(Options(msg), key) then r == Options(msg)[key].b
    else if HasBool(msg, key) then r == msg[key].b
    else r == default
  }

  ghost predicate TakesNum(msg: Fields, key: string, default: int, r: int) {
    if HasNum(Options(msg), key) then WholePart(Options(msg)[key].n, r)
    else if HasNum(msg, key) then WholePart(msg[key].n, r)
    else r == default
  }

  /** Every option is what the message gives under "options", else what it gives at the top, else the default; values of
      the wrong type and an empty strategy do not count as given. */
  lemma OptionsTaken(msg: Fields)
    ensures var o := OptionsOf(msg);
            && TakesText(msg, "strategy", "LOCAL_ONLY", o.strategy)
            && TakesBool(msg, "force_remote", false, o.forceRemote)
            && TakesBool(msg, "include_local", true, o.includeLocal)
            && TakesBool(msg, "annotate_source", true, o.annotateSource)
            && TakesNum(msg, "time_budget_ms", 2000, o.timeBudgetMs)
            && TakesNum(msg, "max_peers", 0, o.maxPeers)
            && TakesNum(msg, "quorum_n", 0, o.quorumN)
  {
    TextTaken(msg, "strategy", LOCAL_ONLY);
    BoolTaken(msg, "force_remote", false);
    BoolTaken(msg, "include_local", true);
    BoolTaken(msg, "annotate_source", true);
    NumTaken(msg, "time_budget_ms", 2000);
    NumTaken(msg, "max_peers", 0);
    NumTaken(msg, "quorum_n", 0);
  }

  lemma TextTaken(msg: Fields, key: string, default: string)
    ensures TakesText(msg, key, default, StringOption(msg, key, default))
  {
  }

  lemma BoolTaken(msg: Fields, key: string, default: bool)
    ensures TakesBool(msg, key, default, BoolOption(msg, key, default))
  {
  }

  lemma TruncateIs(x: real)
    ensures WholePart(x, Truncate(x))
  {
  }

  lemma NumTaken(msg: Fields, key: string, default: int)
    ensures TakesNum(msg, key, default, IntOption(msg, key, default))
  {
    if HasNum(Options(msg), key) { TruncateIs(Options(msg)[key].n); }
    if HasNum(msg, key) { TruncateIs(msg[key].n); }
  }

  /** One pass of parseOptions: every well-typed value of the object overwrites its option. */
  method Override(opts: PeerOptions, m: Fields) returns (r: PeerOptions)
    ensures r == PeerOptions(
      StringOr(Lookup(m, "strategy"), opts.strategy), BoolOr(Lookup(m, "force_remote"), opts.forceRemote),
      BoolOr(Lookup(m, "include_local"), opts.includeLocal), BoolOr(Lookup(m, "annotate_source"), opts.annotateSource),
      IntOr(Lookup(m, "time_budget_ms"), opts.timeBudgetMs), IntOr(Lookup(m, "max_peers"), opts.maxPeers),
      IntOr(Lookup(m, "quorum_n"), opts.quorumN))
  {
    r := opts;
    r := r.(strategy := StringOr(Lookup(m, "strategy"), r.strategy));
    r := r.(forceRemote := BoolOr(Lookup(m, "force_remote"), r.forceRemote));
    r := r.(includeLocal := BoolOr(Lookup(m, "include_local"), r.includeLocal));
    r := r.(annotateSource := BoolOr(Lookup(m, "annotate_source"), r.annotateSource));
    r := r.(timeBudgetMs := IntOr(Lookup(m, "time_budget_ms"), r.timeBudgetMs));
    r := r.(maxPeers := IntOr(Lookup(m, "max_peers"), r.maxPeers));
    r := r.(quorumN := IntOr(Lookup(m, "quorum_n"), r.quorumN));
  }

  method ParseOptions(msg: Fields) returns (opts: PeerOptions)
    ensures opts == OptionsOf(msg)
  {
    opts := PeerOptions(LOCAL_ONLY, false, true, true, 2000, 0, 0);
    opts := Override(opts, msg);
    if Lookup(msg, "options").Obj? {
      opts := Override(opts, msg["options"].fields);
    }
  }

  /** The message a handler sends to a peer. */
  function ClampedRequest(criteria: Json, traceId: string, path: seq<string>): Fields {
    map["criteria" := criteria, "trace_id" := Str(traceId), "trace_path" := Arr(Strings(path)),
        "options" := Obj(map["strategy" := Str(LOCAL_ONLY), "include_local" := Bool(true), "annotate_source" := Bool(true)])]
  }

  function Strings(path: seq<string>): seq<Json> {
    seq(|path|, i requires 0 <= i < |path| => Str(path[i]))
  }

  ghost predicate IsClamped(msg: Fields) {
    exists c, t, p :: msg == ClampedRequest(c, t, p)
  }

  /** Strategies on which a handler asks other peers. */
  predicate Fans(strategy: string) {
    strategy == REMOTE_ONLY || strategy == PARALLEL_MERGE || strategy == QUORUM || strategy == LOCAL_THEN_REMOTE_MERGE
  }

  /** Requests sent by a handler, and those without any options, make their receiver answer from its own replica. */
  lemma ClampedIsLocal(msg: Fields)
    requires IsClamped(msg) || msg.Keys == {"criteria"}
    ensures OptionsOf(msg).strategy == LOCAL_ONLY && OptionsOf(msg).includeLocal && !Fans(OptionsOf(msg).strategy)
  {
    if IsClamped(msg) {
      var c, t, p :| msg == ClampedRequest(c, t, p);
      assert Lookup(msg, "options").Obj?;
    }
  }

  // ---------------------------------------------------------------------------------------------
  // Whom to ask
  // ---------------------------------------------------------------------------------------------

  /** Peer ids: their raw bytes, and their text form. */
  datatype Ids = Ids(text: string -> string, decode: string -> Option<string>)

  /** Decoding undoes the text form, and no text form is the raw form of a peer. */
  ghost predicate LawfulIds(ids: Ids, connected: seq<string>) {
    (forall p :: ids.decode(ids.text(p)) == Some(p)) && forall p :: ids.text(p) !in connected
  }

  /** Discovered ids are text forms. */
  ghost predicate AreTexts(ids: Ids, discovered: set<string>) {
    forall s :: s in discovered ==> ids.decode(s).Some? && s == ids.text(ids.decode(s).value)
  }

  /** The discovered peers that are added: their strings are compared with the connected peers' raw ids. */
  function Added(ids: Ids, connected: seq<string>, discovered: seq<string>): seq<string> {
    if discovered == [] then []
    else
      var s, rest := discovered[|discovered| - 1], Added(ids, connected, discovered[..|discovered| - 1]);
      if s !in connected && ids.decode(s).Some? then rest + [ids.decode(s).value] else rest
  }

  function Limited(all: seq<string>, maxPeers: int): seq<string> {
    if 0 < maxPeers < |all| then all[..maxPeers] else all
  }

  function Targets(ids: Ids, connected: seq<string>, discovered: seq<string>, maxPeers: int): seq<string> {
    Limited(connected + Added(ids, connected, discovered), maxPeers)
  }

  method GatherPeers(ids: Ids, connected: seq<string>, discovered: seq<string>, maxPeers: int) returns (peers: seq<string>)
    ensures peers == Targets(ids, connected, discovered, maxPeers)
  {
    var all, seen: set<string> := [], {};
    for i := 0 to |connected|
      invariant all == connected[..i] && seen == Elems(connected[..i])
    {
      all := all + [connected[i]];
      seen := seen + {connected[i]};
      assert connected[..i + 1] == connected[..i] + [connected[i]];
    }
    assert connected[..|connected|] == connected;
    for i := 0 to |discovered|
      invariant all == connected + Added(ids, connected, discovered[..i])
    {
      assert discovered[..i + 1][..i] == discovered[..i];
      if discovered[i] !in seen {
        var pid := ids.decode(discovered[i]);
        if pid.Some? { all := all + [pid.value]; }
      }
    }
    assert discovered[..|discovered|] == discovered;
    peers := all;
    if maxPeers > 0 && maxPeers < |all| { peers := all[..maxPeers]; }
  }

  /** The node's neighbourhood: connected peers, and those a stream to which can be opened. */
  datatype View = View(connected: seq<string>, reachable: string -> bool, path: seq<string>)

  /** The peer gets a request: connected, a stream can be opened, and not on the path of the query. */
  predicate Asks(view: View, p: string) {
    p !in view.path && p in view.connected && view.reachable(p)
  }

  /** Those of the targets that get a request, once for every time they are listed. */
  function Asked(view: View, targets: seq<string>): seq<string> {
    if targets == [] then []
    else
      var p, rest := targets[|targets| - 1], Asked(view, targets[..|targets| - 1]);
      if Asks(view, p) then rest + [p] else rest
  }

  lemma {:induction false} AskedElems(view: View, targets: seq<string>)
    ensures forall p :: p in Asked(view, targets) <==> p in targets && Asks(view, p)
    ensures NoDup(targets) ==> NoDup(Asked(view, targets))
    ensures |Asked(view, targets)| <= |targets|
  {
    if targets != [] {
      var n := |targets| - 1;
      AskedElems(view, targets[..n]);
      assert targets == targets[..n] + [targets[n]];
      if NoDup(targets) {
        assert targets[n] !in targets[..n];
      }
    }
  }

  lemma {:induction false} AskedConcat(view: View, a: seq<string>, b: seq<string>)
    ensures Asked(view, a + b) == Asked(view, a) + Asked(view, b)
    decreases b
  {
    if b == [] {
      assert a + b == a;
    } else {
      var n := |b| - 1;
      assert (a + b)[..|a + b| - 1] == a + b[..n];
      AskedConcat(view, a, b[..n]);
    }
  }

  lemma {:induction false} AddedElems(ids: Ids, connected: seq<string>, discovered: seq<string>)
    requires LawfulIds(ids, connected) && AreTexts(ids, Elems(discovered))
    ensures forall p :: p in Added(ids, connected, discovered) <==> ids.text(p) in discovered
  {
    if discovered != [] {
      var n := |discovered| - 1;
      var s := discovered[n];
      assert s in Elems(discovered) && Elems(discovered[..n]) <= Elems(discovered);
      AddedElems(ids, connected, discovered[..n]);
      assert discovered == discovered[..n] + [s];
      assert s == ids.text(ids.decode(s).value);
    }
  }

  /** Peers known from discovery only are never asked: listing them only repeats connected peers. */
  lemma DiscoveryAddsNoPeer(ids: Ids, view: View, discovered: seq<string>)
    ensures Elems(Asked(view, view.connected + Added(ids, view.connected, discovered))) == Elems(Asked(view, view.connected))
  {
    var added := Added(ids, view.connected, discovered);
    AskedElems(view, view.connected + added);
    AskedElems(view, view.connected);
  }

  /** Some connected peer would be asked and is also known from discovery. */
  ghost predicate KnownTwice(ids: Ids, view: View, discovered: set<string>, p: string) {
    Asks(view, p) && ids.text(p) in discovered
  }

  /** Some order of the discovered peers asks a peer twice. */
  ghost predicate AskedTwice(ids: Ids, view: View, order: seq<string>, maxPeers: int) {
    !NoDup(Asked(view, Targets(ids, view.connected, order, maxPeers)))
  }

  /** Asked are exactly the connected peers, as far as the limit goes, that can be reached and are not on the path. */
  lemma AskedPeers(ids: Ids, view: View, discovered: seq<string>, maxPeers: int, p: string)
    ensures var limit := if 0 < maxPeers < |view.connected| then maxPeers else |view.connected|;
            p in Asked(view, Targets(ids, view.connected, discovered, maxPeers)) <==>
            p in view.connected[..limit] && view.reachable(p) && p !in view.path
  {
    var all := view.connected + Added(ids, view.connected, discovered);
    var targets := Targets(ids, view.connected, discovered, maxPeers);
    AskedElems(view, targets);
    if 0 < maxPeers < |view.connected| {
      assert targets == view.connected[..maxPeers];
      assert p in view.connected[..maxPeers] ==> p in view.connected;
    } else {
      assert targets[..|view.connected|] == view.connected;
      assert p in targets[..|view.connected|] ==> p in targets;
      assert view.connected[..|view.connected|] == view.connected;
    }
  }

  /** Whatever order the map of discovered peers gives, no peer gets two requests, exactly when the limit cuts before
      the discovered peers or no peer that is asked is both connected and discovered. */
  lemma AtMostOneRequestIff(ids: Ids, view: View, discovered: set<string>, maxPeers: int)
    requires NoDup(view.connected) && LawfulIds(ids, view.connected) && AreTexts(ids, discovered)
    ensures (forall order :: NoDup(order) && Elems(order) == discovered ==> !AskedTwice(ids, view, order, maxPeers))
       <==> 0 < maxPeers <= |view.connected| || forall p :: !KnownTwice(ids, view, discovered, p)
  {
    if 0 < maxPeers <= |view.connected| {
      forall order ensures !AskedTwice(ids, view, order, maxPeers) {
        EarlyCut(ids, view, order, maxPeers);
      }
    } else if p :| KnownTwice(ids, view, discovered, p) {
      var rest := Enumerate(discovered - {ids.text(p)});
      var order := [ids.text(p)] + rest;
      assert Elems(order) == discovered by { assert Elems(order) == {ids.text(p)} + Elems(rest); }
      assert ids.text(p) !in rest by { assert ids.text(p) !in Elems(rest); }
      ListedTwice(ids, view, p, rest, maxPeers);
    } else {
      forall order | NoDup(order) && Elems(order) == discovered ensures !AskedTwice(ids, view, order, maxPeers) {
        NothingTwice(ids, view, order, maxPeers);
      }
    }
  }

  lemma EarlyCut(ids: Ids, view: View, order: seq<string>, maxPeers: int)
    requires NoDup(view.connected) && 0 < maxPeers <= |view.connected|
    ensures !AskedTwice(ids, view, order, maxPeers)
  {
    var targets := Targets(ids, view.connected, order, maxPeers);
    assert targets == view.connected[..maxPeers];
    AskedElems(view, targets);
  }

  lemma {:induction false} AddedFirst(ids: Ids, connected: seq<string>, p: string, rest: seq<string>)
    requires LawfulIds(ids, connected)
    ensures Added(ids, connected, [ids.text(p)] + rest) == [p] + Added(ids, connected, rest)
    decreases rest
  {
    if rest == [] {
      assert [ids.text(p)] + rest == [ids.text(p)];
      assert Added(ids, connected, [ids.text(p)][..0]) == [];
      assert ids.decode(ids.text(p)) == Some(p);
    } else {
      var n := |rest| - 1;
      assert ([ids.text(p)] + rest)[..n + 1] == [ids.text(p)] + rest[..n];
      AddedFirst(ids, connected, p, rest[..n]);
    }
  }

  lemma ListedTwice(ids: Ids, view: View, p: string, rest: seq<string>, maxPeers: int)
    requires LawfulIds(ids, view.connected) && Asks(view, p) && !(0 < maxPeers <= |view.connected|)
    ensures AskedTwice(ids, view, [ids.text(p)] + rest, maxPeers)
  {
    AddedFirst(ids, view.connected, p, rest);
    var targets := Targets(ids, view.connected, [ids.text(p)] + rest, maxPeers);
    var upto := |view.connected| + 1;
    assert targets[..upto] == view.connected + [p];
    assert targets == view.connected + [p] + targets[upto..];
    RepeatAsked(view, p, targets[upto..]);
  }

  lemma RepeatAsked(view: View, p: string, rest: seq<string>)
    requires Asks(view, p)
    ensures !NoDup(Asked(view, view.connected + [p] + rest))
  {
    AskedConcat(view, view.connected + [p], rest);
    AskedConcat(view, view.connected, [p]);
    AskedElems(view, view.connected);
    Repeats(Asked(view, view.connected), p, Asked(view, rest));
  }

  lemma Repeats(first: seq<string>, p: string, rest: seq<string>)
    requires p in first
    ensures !NoDup(first + [p] + rest)
  {
    var i :| 0 <= i < |first| && first[i] == p;
    assert (first + [p] + rest)[i] == (first + [p] + rest)[|first|];
  }

  lemma {:induction false} AskedNone(view: View, targets: seq<string>)
    requires forall p :: p in targets ==> !Asks(view, p)
    ensures Asked(view, targets) == []
  {
    if targets != [] { AskedNone(view, targets[..|targets| - 1]); }
  }

  lemma NothingTwice(ids: Ids, view: View, order: seq<string>, maxPeers: int)
    requires NoDup(view.connected) && LawfulIds(ids, view.connected) && AreTexts(ids, Elems(order))
    requires forall p :: !KnownTwice(ids, view, Elems(order), p)
    ensures !AskedTwice(ids, view, order, maxPeers)
  {
    var added := Added(ids, view.connected, order);
    var all := view.connected + added;
    AddedElems(ids, view.connected, order);
    forall p | p in added ensures !Asks(view, p) {
      assert ids.text(p) in order && ids.text(p) in Elems(order);
      assert !KnownTwice(ids, view, Elems(order), p);
    }
    var targets := Targets(ids, view.connected, order, maxPeers);
    var cut := if |targets| <= |view.connected| then |targets| else |view.connected|;
    assert targets == view.connected[..cut] + targets[cut..];
    AskedConcat(view, view.connected[..cut], targets[cut..]);
    forall p | p in targets[cut..] ensures !Asks(view, p) {
      var i :| cut <= i < |targets| && targets[i] == p;
      assert targets[i] == all[i] == added[i - |view.connected|];
    }
    AskedNone(view, targets[cut..]);
    AskedElems(view, view.connected[..cut]);
  }
}
