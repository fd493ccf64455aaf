/** The capacity registry: capacity ids issued without coordination, and the life of a reservation (app/service.go,
    "Capacity registry"). */
module Capacity {

  import opened Prelude
  import opened JsonValues
  import opened Text

  // ---------------------------------------------------------------------------------------------
  // Identifiers
  // ---------------------------------------------------------------------------------------------

  predicate IsAlphanumeric(c: char) {
    'a' <= c <= 'z' || 'A' <= c <= 'Z' || '0' <= c <= '9'
  }

  /** isPrintableID. */
  predicate IsPrintableID(s: string) {
    |s| >= 8 && forall c :: c in s ==> IsAlphanumeric(c)
  }

  /** The node's own peer id, the configured one and the raw one, as far as they are known. */
  datatype PeerIds = PeerIds(host: Option<string>, configured: Option<string>, raw: string)

  /** AgentPeerID: the first printable one, empty when there is none. */
  function AgentPeerID(peers: PeerIds): (r: string)
    ensures r == "" || IsPrintableID(r)
  {
    if peers.host.Some? && IsPrintableID(peers.host.value) then peers.host.value
    else if peers.configured.Some? && IsPrintableID(peers.configured.value) then peers.configured.value
    else if IsPrintableID(peers.raw) then peers.raw
    else ""
  }

  /** Of the node's own id, the configured one and the raw one, as far as known, the first that is printable. */
  lemma AgentPeerIDIsFirst(peers: PeerIds)
    ensures var known := (if peers.host.Some? then [peers.host.value] else [])
                         + (if peers.configured.Some? then [peers.configured.value] else []) + [peers.raw];
            if exists i :: 0 <= i < |known| && IsPrintableID(known[i]) then
              exists i :: 0 <= i < |known| && IsPrintableID(known[i]) && AgentPeerID(peers) == known[i]
                          && forall j :: 0 <= j < i ==> !IsPrintableID(known[j])
            else AgentPeerID(peers) == ""
  {
    var known := (if peers.host.Some? then [peers.host.value] else [])
                 + (if peers.configured.Some? then [peers.configured.value] else []) + [peers.raw];
    assert known[|known| - 1] == peers.raw;
    if peers.host.Some? { assert known[0] == peers.host.value; }
    if peers.configured.Some? { assert known[|known| - 2] == peers.configured.value; }
  }

  /** The part of the peer id that goes into a capacity id: its last n characters, all of it for n = 0. */
  function Segment(n: nat, peer: string): string {
    if n > 0 && |peer| > n then peer[|peer| - n..] else peer
  }

  predicate IsHex(c: char) {
    '0' <= c <= '9' || 'a' <= c <= 'f'
  }

  /** A random (version 4) UUID as google/uuid prints it. */
  predicate IsUuid(u: string) {
    && |u| == 36
    && (forall i :: 0 <= i < 36 ==> if i in {8, 13, 18, 23} then u[i] == '-' else IsHex(u[i]))
    && u[14] == '4' && u[19] in "89ab"
  }

  type Uuid = u: string | IsUuid(u) witness "00000000-0000-4000-8000-000000000000"

  function CapID(n: nat, peer: string, uuid: Uuid): string {
    "cap-" + Segment(n, peer) + "-" + uuid
  }

  function FirstDash(s: string): (i: nat)
    ensures i <= |s| && '-' !in s[..i] && (i < |s| ==> s[i] == '-')
  {
    if s == "" || s[0] == '-' then 0
    else
      var i := FirstDash(s[1..]);
      assert s[..1 + i] == [s[0]] + s[1..][..i];
      1 + i
  }

  /** The peer segment and the UUID of a capacity id. */
  function Parse(id: string): Option<(string, string)> {
    if |id| < 4 || id[..4] != "cap-" then None
    else
      var rest := id[4..];
      var i := FirstDash(rest);
      if i == |rest| then None else Some((rest[..i], rest[i + 1..]))
  }

  lemma {:induction false} DashAt(seg: string, uuid: string)
    requires '-' !in seg
    ensures FirstDash(seg + "-" + uuid) == |seg|
  {
    if seg != "" {
      DashAt(seg[1..], uuid);
      assert (seg + "-" + uuid)[1..] == seg[1..] + "-" + uuid;
    }
  }

  lemma SegmentHasNoDash(n: nat, peer: string)
    requires IsPrintableID(peer)
    ensures '-' !in Segment(n, peer)
  {
    var seg := Segment(n, peer);
    assert forall i :: 0 <= i < |seg| ==> seg[i] in peer;
  }

  /** The issuing agent's segment and the UUID can be read back from the id. */
  lemma ParseCapID(n: nat, peer: string, uuid: Uuid)
    requires IsPrintableID(peer)
    ensures Parse(CapID(n, peer, uuid)) == Some((Segment(n, peer), uuid))
  {
    SegmentHasNoDash(n, peer);
    var seg, id := Segment(n, peer), CapID(n, peer, uuid);
    var rest := id[4..];
    assert rest == seg + "-" + uuid;
    DashAt(seg, uuid);
    assert rest[..|seg|] == seg && rest[|seg| + 1..] == uuid;
  }

  /** Two ids collide exactly when the segments and the UUIDs do. */
  lemma CapIDCollision(n: nat, p: string, u: Uuid, q: string, v: Uuid)
    requires IsPrintableID(p) && IsPrintableID(q)
    ensures CapID(n, p, u) == CapID(n, q, v) <==> Segment(n, p) == Segment(n, q) && u == v
  {
    ParseCapID(n, p, u);
    ParseCapID(n, q, v);
  }

  /** No character outside printable ASCII. */
  predicate IsClean(id: string) {
    forall i :: 0 <= i < |id| ==> ' ' <= id[i] <= '~'
  }

  lemma CapIDIsClean(n: nat, peer: string, uuid: Uuid)
    requires IsPrintableID(peer)
    ensures IsClean(CapID(n, peer, uuid))
  {
    var seg, id := Segment(n, peer), CapID(n, peer, uuid);
    assert IsClean(seg) by { assert forall i :: 0 <= i < |seg| ==> seg[i] in peer; }
    assert IsClean(uuid) by { assert forall i :: 0 <= i < |uuid| ==> uuid[i] in uuid; }
    assert id == ("cap-" + seg) + ("-" + uuid);
  }

  datatype Issue = Issue(peer: string, uuid: Uuid)

  /** Ids issued by these agents; an agent never draws a UUID twice, but two agents may draw the same one. */
  ghost predicate IssuedBy(agents: set<string>, run: seq<Issue>) {
    && (forall i :: 0 <= i < |run| ==> run[i].peer in agents)
    && NoDup(run)
  }

  ghost predicate AllDistinct(n: nat, run: seq<Issue>) {
    forall i, j :: 0 <= i < j < |run| ==> CapID(n, run[i].peer, run[i].uuid) != CapID(n, run[j].peer, run[j].uuid)
  }

  ghost predicate AlwaysDistinct(n: nat, agents: set<string>) {
    forall run :: IssuedBy(agents, run) ==> AllDistinct(n, run)
  }

  /** No two agents have the same segment. */
  ghost predicate Separated(n: nat, agents: set<string>) {
    forall p, q :: p in agents && q in agents && p != q ==> Segment(n, p) != Segment(n, q)
  }

  lemma SeparatedNeverCollide(n: nat, agents: set<string>, run: seq<Issue>)
    requires forall p :: p in agents ==> IsPrintableID(p)
    requires Separated(n, agents) && IssuedBy(agents, run)
    ensures AllDistinct(n, run)
  {
    forall i, j | 0 <= i < j < |run| ensures CapID(n, run[i].peer, run[i].uuid) != CapID(n, run[j].peer, run[j].uuid) {
      CapIDCollision(n, run[i].peer, run[i].uuid, run[j].peer, run[j].uuid);
    }
  }

  /** Two agents with one segment that draw the same UUID. */
  lemma SharedSegmentCollides(n: nat, agents: set<string>, p: string, q: string)
    requires p in agents && q in agents && p != q && Segment(n, p) == Segment(n, q)
    ensures !AlwaysDistinct(n, agents)
  {
    var uuid: Uuid := "00000000-0000-4000-8000-000000000000";
    var run := [Issue(p, uuid), Issue(q, uuid)];
    assert IssuedBy(agents, run);
    assert CapID(n, run[0].peer, run[0].uuid) == CapID(n, run[1].peer, run[1].uuid);
    assert !AllDistinct(n, run);
  }

  /** In every run of every number of agents all ids are distinct, exactly when the agents' segments are. */
  lemma DistinctIffSeparated(n: nat, agents: set<string>)
    requires forall p :: p in agents ==> IsPrintableID(p)
    ensures AlwaysDistinct(n, agents) <==> Separated(n, agents)
  {
    if Separated(n, agents) {
      forall run: seq<Issue> | IssuedBy(agents, run) ensures AllDistinct(n, run) {
        SeparatedNeverCollide(n, agents, run);
      }
    } else {
      var p, q :| p in agents && q in agents && p != q && Segment(n, p) == Segment(n, q);
      SharedSegmentCollides(n, agents, p, q);
    }
  }

  const CAP_ID_PEER_LEN := 0

  /** With the full peer id, as configured, distinct agents never issue the same id. */
  lemma FullPeerIdsAreDistinct(agents: set<string>)
    requires forall p :: p in agents ==> IsPrintableID(p)
    ensures AlwaysDistinct(CAP_ID_PEER_LEN, agents)
  {
    DistinctIffSeparated(CAP_ID_PEER_LEN, agents);
  }

  // ---------------------------------------------------------------------------------------------
  // Reservations
  // ---------------------------------------------------------------------------------------------

  datatype Status = Reserved | Active | Released

  /** The request of a capacity provider; details are the fields copied as they are. */
  datatype Request = Request(provider: string, kind: string, details: Fields)

  datatype Record = Record(capID: string, status: Status, request: Request, issuer: string, cdt: Fields)

  /** The replicated store of reservations, and the UUIDs drawn so far, by agent. */
  datatype World = World(records: map<string, Record>, drawn: set<Issue>)

  /** Operations on trimmed ids and accepted requests. */
  datatype Action =
    | Reserve(issue: Issue, request: Request, stored: bool)
    | Attach(id: string, cdt: Fields, stored: bool)
    | Release(id: string, stored: bool)

  predicate Acceptable(request: Request) {
    TrimSpace(request.provider) != "" && TrimSpace(request.kind) != ""
  }

  function Cleaned(request: Request): Request {
    Request(TrimSpace(request.provider), Lower(TrimSpace(request.kind)), request.details)
  }

  function NewRecord(n: nat, issue: Issue, request: Request): Record {
    Record(CapID(n, issue.peer, issue.uuid), Reserved, request, issue.peer, map[])
  }

  function After(n: nat, w: World, a: Action): World {
    match a
    case Reserve(issue, request, stored) =>
      var drawn := w.(drawn := w.drawn + {issue});
      if stored then drawn.(records := w.records[CapID(n, issue.peer, issue.uuid) := NewRecord(n, issue, request)]) else drawn
    case Attach(id, cdt, stored) =>
      if cdt == map[] || id !in w.records || w.records[id].status == Released || !stored then w
      else w.(records := w.records[id := w.records[id].(cdt := cdt, status := Active)])
    case Release(id, stored) =>
      if id !in w.records || !stored then w
      else w.(records := w.records[id := w.records[id].(status := Released)])
  }

  /** The action is possible: an agent draws a UUID it has not drawn before. */
  predicate Possible(agents: set<string>, w: World, a: Action) {
    a.Reserve? ==> a.issue.peer in agents && a.issue !in w.drawn
  }

  ghost predicate Drawn(n: nat, drawn: set<Issue>, id: string) {
    exists issue :: issue in drawn && id == CapID(n, issue.peer, issue.uuid)
  }

  /** A record is under its own id, the id has been drawn, and an active one has a template. */
  ghost predicate RecordOk(n: nat, drawn: set<Issue>, id: string, r: Record) {
    r.capID == id && Drawn(n, drawn, id) && (r.status == Active ==> r.cdt != map[])
  }

  /** Printable peer ids whose segments tell the agents apart. */
  ghost predicate Distinguishable(n: nat, agents: set<string>) {
    (forall p :: p in agents ==> IsPrintableID(p)) && Separated(n, agents)
  }

  ghost predicate Books(n: nat, agents: set<string>, w: World) {
    && (forall issue :: issue in w.drawn ==> issue.peer in agents)
    && forall id :: id in w.records ==> RecordOk(n, w.drawn, id, w.records[id])
  }

  ghost predicate Inv(n: nat, agents: set<string>, w: World) {
    Distinguishable(n, agents) && Books(n, agents, w)
  }

  class Registry {
    const peerLen: nat
    var records: map<string, Record>
    ghost var drawn: set<Issue>

    ghost function Now(): World
      reads this
    {
      World(records, drawn)
    }

    constructor (peerLen: nat)
      ensures this.peerLen == peerLen && Now() == World(map[], {})
    {
      this.peerLen, records, drawn := peerLen, map[], {};
    }

    /** GenerateCapID, with the UUID drawn; none while no printable peer id is known. */
    method GenerateCapID(peers: PeerIds, uuid: Uuid) returns (id: Option<string>)
      ensures id == if AgentPeerID(peers) == "" then None else Some(CapID(peerLen, AgentPeerID(peers), uuid))
      ensures id.Some? ==>
                var peer := AgentPeerID(peers);
                var dropped := if 0 < peerLen < |peer| then |peer| - peerLen else 0;
                id.value == "cap-" + peer[dropped..] + "-" + uuid
    {
      var peer := AgentPeerID(peers);
      if peer == "" { return None; }
      var segment := peer;
      if peerLen > 0 && |peer| > peerLen { segment := peer[|peer| - peerLen..]; }
      var capID := "cap-" + segment + "-" + uuid;
      var clean := true;
      for i := 0 to |capID|
        invariant clean <==> forall j :: 0 <= j < i ==> ' ' <= capID[j] <= '~'
      {
        if capID[i] < ' ' || capID[i] > '~' { clean := false; }
      }
      CapIDIsClean(peerLen, peer, uuid);
      id := if clean then Some(capID) else None;
    }

    /** ReserveCapacity: an accepted request on a node that knows its peer id. */
    method ReserveCapacity(ghost agents: set<string>, peers: PeerIds, uuid: Uuid, request: Request, stored: bool)
      returns (r: Result<Record>)
      requires Inv(peerLen, agents, Now())
      requires AgentPeerID(peers) != "" ==> AgentPeerID(peers) in agents && Issue(AgentPeerID(peers), uuid) !in drawn
      modifies this
      ensures Now() == if Acceptable(request) && AgentPeerID(peers) != ""
                       then After(peerLen, old(Now()), Reserve(Issue(AgentPeerID(peers), uuid), Cleaned(request), stored))
                       else old(Now())
      ensures Inv(peerLen, agents, Now())
      ensures r.Ok? <==> TrimSpace(request.provider) != "" && TrimSpace(request.kind) != "" && AgentPeerID(peers) != "" && stored
      ensures r.Ok? ==> r.value.capID !in old(records) && records == old(records)[r.value.capID := r.value]
      ensures r.Ok? ==>
                && r.value.capID == CapID(peerLen, AgentPeerID(peers), uuid) && r.value.issuer == AgentPeerID(peers)
                && r.value.status == Reserved && r.value.cdt == map[]
                && r.value.request.provider == TrimSpace(request.provider)
                && r.value.request.kind == Lower(TrimSpace(request.kind)) && r.value.request.details == request.details
      ensures r.Error? ==> records == old(records)
    {
      if TrimSpace(request.provider) == "" || TrimSpace(request.kind) == "" { return Error; }
      var capID := GenerateCapID(peers, uuid);
      if capID.None? { return Error; }
      ghost var issue := Issue(AgentPeerID(peers), uuid);
      AfterBooks(peerLen, agents, Now(), Reserve(issue, Cleaned(request), stored));
      FreshID(peerLen, agents, Now(), issue);
      drawn := drawn + {issue};
      if !stored { return Error; }
      var res := Record(capID.value, Reserved, Cleaned(request), AgentPeerID(peers), map[]);
      records := records[capID.value := res];
      r := Ok(res);
    }

    /** GetCapacity: an error for a blank id, nothing for an unknown one. */
    method GetCapacity(capID: string) returns (r: Result<Option<Record>>)
      ensures r == if TrimSpace(capID) == "" then Error
                   else if TrimSpace(capID) in records then Ok(Some(records[TrimSpace(capID)])) else Ok(None)
    {
      var id := TrimSpace(capID);
      if id == "" { return Error; }
      r := Ok(if id in records then Some(records[id]) else None);
    }

    method AttachCDT(ghost agents: set<string>, capID: string, cdt: Fields, stored: bool) returns (r: Result<Record>)
      requires Inv(peerLen, agents, Now())
      modifies this`records
      ensures Now() == After(peerLen, old(Now()), Attach(TrimSpace(capID), cdt, stored)) && Inv(peerLen, agents, Now())
      ensures r.Ok? <==> cdt != map[] && TrimSpace(capID) in old(records)
                         && old(records)[TrimSpace(capID)].status != Released && stored
      ensures r.Ok? ==> r.value.status == Active && r.value.cdt == cdt && TrimSpace(capID) in records
                        && r.value == records[TrimSpace(capID)]
      ensures records == if r.Ok? then old(records)[TrimSpace(capID) := r.value] else old(records)
    {
      AfterBooks(peerLen, agents, Now(), Attach(TrimSpace(capID), cdt, stored));
      NoBlankID(peerLen, agents, Now());
      if |cdt| == 0 { return Error; }
      var found := GetCapacity(capID);
      if found.Error? || found.value.None? { return Error; }
      var res := found.value.value;
      if res.status == Released || !stored { return Error; }
      res := res.(cdt := cdt, status := Active);
      records := records[res.capID := res];
      r := Ok(res);
    }

    method ReleaseCapacity(ghost agents: set<string>, capID: string, stored: bool) returns (r: Result<Record>)
      requires Inv(peerLen, agents, Now())
      modifies this`records
      ensures Now() == After(peerLen, old(Now()), Release(TrimSpace(capID), stored)) && Inv(peerLen, agents, Now())
      ensures r.Ok? <==> TrimSpace(capID) in old(records) && stored
      ensures r.Ok? ==> r.value.status == Released && TrimSpace(capID) in records && r.value == records[TrimSpace(capID)]
      ensures records == if r.Ok? then old(records)[TrimSpace(capID) := r.value] else old(records)
      ensures r.Ok? ==> r.value == old(records)[TrimSpace(capID)].(status := Released)
    {
      AfterBooks(peerLen, agents, Now(), Release(TrimSpace(capID), stored));
      NoBlankID(peerLen, agents, Now());
      var found := GetCapacity(capID);
      if found.Error? || found.value.None? || !stored { return Error; }
      var res := found.value.value.(status := Released);
      records := records[res.capID := res];
      r := Ok(res);
    }
  }

  lemma NoBlankID(n: nat, agents: set<string>, w: World)
    requires Books(n, agents, w)
    ensures "" !in w.records
  {
    forall id | id in w.records ensures id != "" {
      assert RecordOk(n, w.drawn, id, w.records[id]);
      var issue :| issue in w.drawn && id == CapID(n, issue.peer, issue.uuid);
    }
  }

  /** A newly drawn id is not the id of any reservation, whichever agent made it. */
  lemma FreshID(n: nat, agents: set<string>, w: World, issue: Issue)
    requires Inv(n, agents, w) && issue.peer in agents && issue !in w.drawn
    ensures CapID(n, issue.peer, issue.uuid) !in w.records
  {
    forall id | id in w.records ensures id != CapID(n, issue.peer, issue.uuid) {
      assert RecordOk(n, w.drawn, id, w.records[id]);
      var other :| other in w.drawn && id == CapID(n, other.peer, other.uuid);
      CapIDCollision(n, issue.peer, issue.uuid, other.peer, other.uuid);
    }
  }

  lemma RecordStaysOk(n: nat, drawn: set<Issue>, more: set<Issue>, id: string, r: Record)
    requires RecordOk(n, drawn, id, r) && drawn <= more
    ensures RecordOk(n, more, id, r)
  {
    var issue :| issue in drawn && id == CapID(n, issue.peer, issue.uuid);
    assert issue in more;
  }

  lemma AfterBooks(n: nat, agents: set<string>, w: World, a: Action)
    requires Books(n, agents, w) && Possible(agents, w, a)
    ensures Books(n, agents, After(n, w, a))
  {
    match a
    case Reserve(issue, request, stored) =>
      var t := After(n, w, a);
      forall id | id in w.records ensures RecordOk(n, t.drawn, id, w.records[id]) {
        RecordStaysOk(n, w.drawn, t.drawn, id, w.records[id]);
      }
      assert issue in t.drawn;
      assert RecordOk(n, t.drawn, CapID(n, issue.peer, issue.uuid), NewRecord(n, issue, request));
    case Attach(id, cdt, stored) =>
      if id in w.records { assert RecordOk(n, w.drawn, id, w.records[id]); }
    case Release(id, stored) =>
      if id in w.records { assert RecordOk(n, w.drawn, id, w.records[id]); }
  }

  /** What a reservation may become: it is never removed or reissued, keeps its request and issuer, does not go back to
      reserved, and once released never changes. */
  ghost predicate Follows(r: Record, later: Record) {
    && later.capID == r.capID && later.request == r.request && later.issuer == r.issuer
    && (r.status == Active ==> later.status != Reserved)
    && (r.status == Released ==> later == r)
  }

  ghost predicate Later(w: World, t: World) {
    forall id :: id in w.records ==> id in t.records && Follows(w.records[id], t.records[id])
  }

  lemma AfterLater(n: nat, w: World, a: Action)
    requires a.Reserve? ==> CapID(n, a.issue.peer, a.issue.uuid) !in w.records
    requires forall id :: id in w.records ==> w.records[id].capID == id
    ensures Later(w, After(n, w, a))
  {
    forall id | id in w.records ensures id in After(n, w, a).records && Follows(w.records[id], After(n, w, a).records[id]) {
      match a
      case Reserve(_, _, _) =>
      case Attach(_, _, _) =>
      case Release(_, _) =>
    }
  }

  function Final(n: nat, w: World, run: seq<Action>): World
    decreases |run|
  {
    if run == [] then w else After(n, Final(n, w, run[..|run| - 1]), run[|run| - 1])
  }

  predicate IsRun(n: nat, agents: set<string>, w: World, run: seq<Action>)
    decreases |run|
  {
    run != [] ==>
      && IsRun(n, agents, w, run[..|run| - 1])
      && Possible(agents, Final(n, w, run[..|run| - 1]), run[|run| - 1])
  }

  lemma {:induction false} RunBooks(n: nat, agents: set<string>, w: World, run: seq<Action>)
    requires Inv(n, agents, w) && IsRun(n, agents, w, run)
    ensures Inv(n, agents, Final(n, w, run))
  {
    if run != [] {
      RunBooks(n, agents, w, run[..|run| - 1]);
      AfterBooks(n, agents, Final(n, w, run[..|run| - 1]), run[|run| - 1]);
    }
  }

  lemma StepLater(n: nat, agents: set<string>, w: World, a: Action)
    requires Inv(n, agents, w) && Possible(agents, w, a)
    ensures Later(w, After(n, w, a))
  {
    if a.Reserve? { FreshID(n, agents, w, a.issue); }
    forall id | id in w.records ensures w.records[id].capID == id {
      assert RecordOk(n, w.drawn, id, w.records[id]);
    }
    AfterLater(n, w, a);
  }

  /** Over every run of any number of agents: reservations are never lost, active ones have a template, and released is
      final. */
  lemma {:induction false} RunLifecycle(n: nat, agents: set<string>, w: World, run: seq<Action>)
    requires Inv(n, agents, w) && IsRun(n, agents, w, run)
    ensures Inv(n, agents, Final(n, w, run)) && Later(w, Final(n, w, run))
  {
    RunBooks(n, agents, w, run);
    if run != [] {
      var before, a := run[..|run| - 1], run[|run| - 1];
      RunLifecycle(n, agents, w, before);
      StepLater(n, agents, Final(n, w, before), a);
    }
  }
}
