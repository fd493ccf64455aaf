/** The lineage graph of the data catalog (app/lineage_manager.go, app/persistence_interceptor.go): every entry lists
    the entries it depends on (upstream) and those that depend on it (downstream). */
module LineageGraph {

  import opened Prelude

  type Uri = string

  // ---------------------------------------------------------------------------------------------
  // URIs
  // ---------------------------------------------------------------------------------------------

  const SCHEME := "optimusdb://default."

  /** sanitizeName. */
  function SanitizeName(name: string): (r: string)
    ensures |r| == |name|
    ensures forall i :: 0 <= i < |name| ==> r[i] == if name[i] == ' ' || name[i] == '-' then '_' else name[i]
  {
    seq(|name|, i requires 0 <= i < |name| => if name[i] == ' ' || name[i] == '-' then '_' else name[i])
  }

  /** The URI a reference gets when nothing in the catalog matches it. */
  function Placeholder(ref: string): Uri {
    SCHEME + "Unknown/" + SanitizeName(ref)
  }

  predicate IsPlaceholder(uri: Uri) {
    SCHEME + "Unknown/" <= uri
  }

  /** The metadata types documents are given: mapTOSCATypeToMetadataType, and those of generic and SQL documents. */
  datatype MetadataType = Requirements | Capacity | Infrastructure | Application | Deployment | Template | Document | Table

  function TypeName(t: MetadataType): (s: string) {
    match t
    case Requirements => "Requirements"
    case Capacity => "Capacity"
    case Infrastructure => "Infrastructure"
    case Application => "Application"
    case Deployment => "Deployment"
    case Template => "Template"
    case Document => "Document"
    case Table => "Table"
  }

  function TableUri(t: MetadataType, name: string): Uri {
    SCHEME + TypeName(t) + "/" + name
  }

  /** No document's own URI is a placeholder, whatever its type and name. */
  lemma TableUriIsNoPlaceholder(t: MetadataType, name: string)
    ensures !IsPlaceholder(TableUri(t, name))
  {
    var n := |SCHEME|;
    var uri := TableUri(t, name);
    assert (SCHEME + "Unknown/")[n] == 'U';
    assert uri[n] == TypeName(t)[0] != 'U';
  }

  /** A URI tells the type and the name it was built from. */
  lemma TableUriInjective(t: MetadataType, name: string, t': MetadataType, name': string)
    ensures TableUri(t, name) == TableUri(t', name') <==> t == t' && name == name'
  {
    var n, uri, uri' := |SCHEME|, TableUri(t, name), TableUri(t', name');
    if uri == uri' {
      assert TypeName(t)[0] == uri[n] == TypeName(t')[0] && TypeName(t)[1] == uri[n + 1] == TypeName(t')[1];
      assert t == t';
      assert name == uri[|SCHEME + TypeName(t) + "/"|..] == name';
    }
  }

  // ---------------------------------------------------------------------------------------------
  // The catalog
  // ---------------------------------------------------------------------------------------------

  datatype Row = Row(name: string, upstream: seq<Uri>, downstream: seq<Uri>)

  type Rows = map<Uri, Row>

  /** What the extractor hands to the lineage manager. */
  datatype Metadata = Metadata(kind: MetadataType, name: string, refs: seq<string>)
  {
    function Uri(): Uri { TableUri(kind, name) }
  }

  function Populated(rows: Rows, uri: Uri, name: string): Rows {
    rows[uri := if uri in rows then rows[uri].(name := name) else Row(name, [], [])]
  }

  type Matcher = (string, Uri, string) -> bool   // name = ref OR _id LIKE %ref%

  /** SELECT ... LIMIT 1: any matching entry, or a placeholder when there is none. */
  ghost predicate ResolvesTo(matches: Matcher, rows: Rows, ref: string, uri: Uri) {
    || (uri in rows && matches(ref, uri, rows[uri].name))
    || (uri == Placeholder(ref) && forall u :: u in rows ==> !matches(ref, u, rows[u].name))
  }

  ghost predicate Resolves(matches: Matcher, rows: Rows, refs: seq<string>, targets: seq<Uri>) {
    |targets| == |refs| && forall i :: 0 <= i < |refs| ==> ResolvesTo(matches, rows, refs[i], targets[i])
  }

  function AddDownstream(rows: Rows, target: Uri, uri: Uri): Rows {
    if target !in rows || uri in rows[target].downstream then rows
    else rows[target := rows[target].(downstream := rows[target].downstream + [uri])]
  }

  function AddAllDownstream(rows: Rows, targets: seq<Uri>, uri: Uri): Rows {
    if targets == [] then rows
    else AddDownstream(AddAllDownstream(rows, targets[..|targets| - 1], uri), targets[|targets| - 1], uri)
  }

  /** A put or update of a document whose references resolve to targets. */
  function PutRows(rows: Rows, uri: Uri, name: string, targets: seq<Uri>): Rows {
    var rows' := Populated(rows, uri, name);
    if targets == [] then rows'
    else AddAllDownstream(rows'[uri := rows'[uri].(upstream := targets)], targets, uri)
  }

  function Without(list: seq<Uri>, uri: Uri): (r: seq<Uri>)
    ensures forall u :: u in r <==> u in list && u != uri
    ensures NoDup(list) ==> NoDup(r)
  {
    if list == [] then []
    else
      var r := Without(list[..|list| - 1], uri);
      assert list == list[..|list| - 1] + [list[|list| - 1]];
      assert NoDup(list) ==> list[|list| - 1] !in list[..|list| - 1];
      if list[|list| - 1] == uri then r else r + [list[|list| - 1]]
  }

  /** after is before with every occurrence of uri taken out: the others are all there, in their order. */
  ghost predicate Loses(before: seq<Uri>, after: seq<Uri>, uri: Uri) {
    Subsequence(after, before) && multiset(after) == multiset(before)[uri := 0]
  }

  lemma {:induction false} WithoutInOrder(list: seq<Uri>, uri: Uri)
    ensures Subsequence(Without(list, uri), list)
    decreases list
  {
    if list == [] {
      assert Picks<Uri>([], [], []);
    } else {
      var init, last := list[..|list| - 1], list[|list| - 1];
      WithoutInOrder(init, uri);
      SubsequenceNext(Without(init, uri), init, last);
      assert init + [last] == list;
    }
  }

  lemma {:induction false} WithoutCounts(list: seq<Uri>, uri: Uri)
    ensures multiset(Without(list, uri)) == multiset(list)[uri := 0]
    decreases list
  {
    if list != [] {
      WithoutCounts(list[..|list| - 1], uri);
      assert list == list[..|list| - 1] + [list[|list| - 1]];
    }
  }

  lemma WithoutLoses(list: seq<Uri>, uri: Uri)
    ensures Loses(list, Without(list, uri), uri)
  {
    WithoutInOrder(list, uri);
    WithoutCounts(list, uri);
  }

  lemma {:induction false} WithoutAbsent(list: seq<Uri>, uri: Uri)
    requires uri !in list
    ensures Without(list, uri) == list
    decreases list
  {
    if list != [] {
      WithoutAbsent(list[..|list| - 1], uri);
      assert list == list[..|list| - 1] + [list[|list| - 1]];
    }
  }

  function DropDownstream(rows: Rows, target: Uri, uri: Uri): Rows {
    if target !in rows then rows else rows[target := rows[target].(downstream := Without(rows[target].downstream, uri))]
  }

  function DropUpstream(rows: Rows, target: Uri, uri: Uri): Rows {
    if target !in rows then rows else rows[target := rows[target].(upstream := Without(rows[target].upstream, uri))]
  }

  function DropAllDownstream(rows: Rows, targets: seq<Uri>, uri: Uri): Rows {
    if targets == [] then rows
    else DropDownstream(DropAllDownstream(rows, targets[..|targets| - 1], uri), targets[|targets| - 1], uri)
  }

  function DropAllUpstream(rows: Rows, targets: seq<Uri>, uri: Uri): Rows {
    if targets == [] then rows
    else DropUpstream(DropAllUpstream(rows, targets[..|targets| - 1], uri), targets[|targets| - 1], uri)
  }

  function DeleteRows(rows: Rows, uri: Uri): Rows {
    if uri !in rows then rows
    else DropAllUpstream(DropAllDownstream(rows, rows[uri].upstream, uri), rows[uri].downstream, uri) - {uri}
  }

  // ---------------------------------------------------------------------------------------------
  // LineageManager and PersistenceInterceptor
  // ---------------------------------------------------------------------------------------------

  class LineageManager {
    var rows: Rows
    var enabled: bool
    const matches: Matcher

    function Now(): State
      reads this
    {
      State(rows, enabled)
    }

    constructor (matches: Matcher)
      ensures Now() == State(map[], true) && this.matches == matches
    {
      rows, enabled, this.matches := map[], true, matches;
    }

    method PopulateDatacatalog(meta: Metadata)
      modifies this`rows
      ensures rows == Populated(old(rows), meta.Uri(), meta.name)
    {
      var uri := meta.Uri();
      if uri in rows {
        rows := rows[uri := rows[uri].(name := meta.name)];
      } else {
        rows := rows[uri := Row(meta.name, [], [])];
      }
    }

    method ResolveReference(ref: string) returns (uri: Uri)
      ensures ResolvesTo(matches, rows, ref, uri)
    {
      if u :| u in rows && matches(ref, u, rows[u].name) {
        uri := u;
      } else {
        uri := Placeholder(ref);
      }
    }

    method AddToDownstream(target: Uri, uri: Uri)
      modifies this`rows
      ensures rows == AddDownstream(old(rows), target, uri)
    {
      if target !in rows { return; }
      var downstream := rows[target].downstream;
      var found := false;
      for i := 0 to |downstream|
        invariant !found && uri !in downstream[..i]
      {
        if downstream[i] == uri {
          found := true;
          break;
        }
      }
      if !found { rows := rows[target := rows[target].(downstream := downstream + [uri])]; }
    }

    method UpdateLineageEdges(uri: Uri, targets: seq<Uri>)
      requires uri in rows
      modifies this`rows
      ensures rows == if targets == [] then old(rows)
                      else AddAllDownstream(old(rows)[uri := old(rows)[uri].(upstream := targets)], targets, uri)
    {
      if targets == [] { return; }
      rows := rows[uri := rows[uri].(upstream := targets)];
      ghost var start := rows;
      for i := 0 to |targets|
        invariant rows == AddAllDownstream(start, targets[..i], uri)
      {
        assert targets[..i + 1][..i] == targets[..i];
        AddToDownstream(targets[i], uri);
      }
      assert targets[..|targets|] == targets;
    }

    /** CreateLineageRelationships: resolves the references and records the edges. */
    method CreateLineageRelationships(meta: Metadata) returns (targets: seq<Uri>)
      requires meta.Uri() in rows
      modifies this`rows
      ensures Resolves(matches, old(rows), meta.refs, targets)
      ensures rows == if targets == [] then old(rows)
                      else AddAllDownstream(old(rows)[meta.Uri() := old(rows)[meta.Uri()].(upstream := targets)], targets, meta.Uri())
    {
      targets := [];
      for i := 0 to |meta.refs|
        invariant rows == old(rows) && Resolves(matches, rows, meta.refs[..i], targets)
      {
        var target := ResolveReference(meta.refs[i]);
        targets := targets + [target];
      }
      assert meta.refs[..|meta.refs|] == meta.refs;
      UpdateLineageEdges(meta.Uri(), targets);
    }

    method RemoveFromDownstream(target: Uri, uri: Uri)
      modifies this`rows
      ensures rows == DropDownstream(old(rows), target, uri)
    {
      if target !in rows { return; }
      var filtered := Filtered(rows[target].downstream, uri);
      rows := rows[target := rows[target].(downstream := filtered)];
    }

    method RemoveFromUpstream(target: Uri, uri: Uri)
      modifies this`rows
      ensures rows == DropUpstream(old(rows), target, uri)
    {
      if target !in rows { return; }
      var filtered := Filtered(rows[target].upstream, uri);
      rows := rows[target := rows[target].(upstream := filtered)];
    }

    /** The filter loop of removeFromDownstream and removeFromUpstream. */
    method Filtered(list: seq<Uri>, uri: Uri) returns (filtered: seq<Uri>)
      ensures filtered == Without(list, uri)
    {
      filtered := [];
      for i := 0 to |list|
        invariant filtered == Without(list[..i], uri)
      {
        assert list[..i + 1][..i] == list[..i];
        if list[i] != uri { filtered := filtered + [list[i]]; }
      }
      assert list[..|list|] == list;
    }

    /** RemoveLineageForDeletedDocument; an entry that is not there is an error. */
    method RemoveLineage(uri: Uri) returns (ok: bool)
      modifies this`rows
      ensures rows == DeleteRows(old(rows), uri) && (ok <==> uri in old(rows))
      ensures DeleteChanges(old(rows), rows, uri)
    {
      DeleteChangesOnly(rows, uri);
      if uri !in rows { return false; }
      var upstream, downstream := rows[uri].upstream, rows[uri].downstream;
      for i := 0 to |upstream|
        invariant rows == DropAllDownstream(old(rows), upstream[..i], uri)
      {
        assert upstream[..i + 1][..i] == upstream[..i];
        RemoveFromDownstream(upstream[i], uri);
      }
      assert upstream[..|upstream|] == upstream;
      ghost var middle := rows;
      for i := 0 to |downstream|
        invariant rows == DropAllUpstream(middle, downstream[..i], uri)
      {
        assert downstream[..i + 1][..i] == downstream[..i];
        RemoveFromUpstream(downstream[i], uri);
      }
      assert downstream[..|downstream|] == downstream;
      rows := rows - {uri};
      ok := true;
    }

    /** OnDocumentPut and OnDocumentUpdate: the entry first, then its edges. */
    method OnDocumentPut(meta: Metadata) returns (targets: seq<Uri>)
      modifies this`rows
      ensures Now() == Act(old(Now()), Put(meta, targets)) && Possible(old(Now()), Put(meta, targets))
      ensures if enabled then PutChanges(old(rows), rows, meta.Uri(), meta.name, targets) else rows == old(rows)
      ensures enabled ==> Resolves(matches, Populated(old(rows), meta.Uri(), meta.name), meta.refs, targets)
      ensures old(Consistent(rows)) ==> Consistent(rows)
    {
      if !enabled { return []; }
      PopulateDatacatalog(meta);
      targets := CreateLineageRelationships(meta);
      PutChangesOnly(old(rows), meta.Uri(), meta.name, targets);
      TargetsPossible(matches, old(rows), meta, targets);
    }

    method OnDocumentDelete(meta: Metadata) returns (ok: bool)
      modifies this`rows
      ensures Now() == Act(old(Now()), Delete(meta))
      ensures if enabled then DeleteChanges(old(rows), rows, meta.Uri()) else rows == old(rows)
      ensures old(Consistent(rows)) ==> Consistent(rows)
    {
      if !enabled { return true; }
      if old(Consistent(rows)) { DeleteConsistent(rows, meta.Uri()); }
      ok := RemoveLineage(meta.Uri());
    }

    method Enable()
      modifies this`enabled
      ensures Now() == Act(old(Now()), Switch(true))
    {
      enabled := true;
    }

    method Disable()
      modifies this`enabled
      ensures Now() == Act(old(Now()), Switch(false))
    {
      enabled := false;
    }
  }

  // ---------------------------------------------------------------------------------------------
  // Consistency
  // ---------------------------------------------------------------------------------------------

  /** Dependent e depends on u: u is a placeholder, or an entry that knows e as downstream. */
  ghost predicate EdgeOk(rows: Rows, e: Uri, u: Uri) {
    IsPlaceholder(u) || (u in rows && e in rows[u].downstream)
  }

  ghost predicate Consistent(rows: Rows) {
    && (forall e :: e in rows ==> !IsPlaceholder(e) && NoDup(rows[e].downstream))
    && (forall e, u :: e in rows && u in rows[e].upstream ==> EdgeOk(rows, e, u))
  }

  /** What adding uri to downstream lists changes. */
  lemma {:induction false} AddAllDownstreamEffect(rows: Rows, targets: seq<Uri>, uri: Uri)
    ensures var after := AddAllDownstream(rows, targets, uri);
            after.Keys == rows.Keys && forall e :: e in rows ==>
              && after[e].upstream == rows[e].upstream && after[e].name == rows[e].name
              && (NoDup(rows[e].downstream) ==> NoDup(after[e].downstream))
              && (forall d :: d in after[e].downstream <==> d in rows[e].downstream || (d == uri && e in targets))
  {
    if targets != [] {
      AddAllDownstreamEffect(rows, targets[..|targets| - 1], uri);
      assert targets == targets[..|targets| - 1] + [targets[|targets| - 1]];
    }
  }

  lemma PutConsistent(rows: Rows, uri: Uri, name: string, targets: seq<Uri>)
    requires Consistent(rows) && !IsPlaceholder(uri)
    requires forall t :: t in targets ==> t in rows || t == uri || IsPlaceholder(t)
    ensures Consistent(PutRows(rows, uri, name, targets))
  {
    var populated := Populated(rows, uri, name);
    forall e, u | e in populated && u in populated[e].upstream ensures EdgeOk(populated, e, u) {
      assert EdgeOk(rows, e, u);
    }
    if targets != [] {
      var linked := populated[uri := populated[uri].(upstream := targets)];
      AddAllDownstreamEffect(linked, targets, uri);
      var after := AddAllDownstream(linked, targets, uri);
      forall e, u | e in after && u in after[e].upstream ensures EdgeOk(after, e, u) {
        if e != uri { assert EdgeOk(populated, e, u); }
      }
    }
  }

  /** What taking uri out of downstream lists changes. */
  lemma {:induction false} DropAllDownstreamEffect(rows: Rows, targets: seq<Uri>, uri: Uri)
    ensures var after := DropAllDownstream(rows, targets, uri);
            after.Keys == rows.Keys && forall e :: e in rows ==>
              && after[e].upstream == rows[e].upstream && after[e].name == rows[e].name
              && (NoDup(rows[e].downstream) ==> NoDup(after[e].downstream))
              && (forall d :: d in after[e].downstream <==> d in rows[e].downstream && !(d == uri && e in targets))
  {
    if targets != [] {
      DropAllDownstreamEffect(rows, targets[..|targets| - 1], uri);
      assert targets == targets[..|targets| - 1] + [targets[|targets| - 1]];
    }
  }

  lemma {:induction false} DropAllUpstreamEffect(rows: Rows, targets: seq<Uri>, uri: Uri)
    ensures var after := DropAllUpstream(rows, targets, uri);
            after.Keys == rows.Keys && forall e :: e in rows ==>
              && after[e].downstream == rows[e].downstream && after[e].name == rows[e].name
              && (forall u :: u in after[e].upstream <==> u in rows[e].upstream && !(u == uri && e in targets))
  {
    if targets != [] {
      DropAllUpstreamEffect(rows, targets[..|targets| - 1], uri);
      assert targets == targets[..|targets| - 1] + [targets[|targets| - 1]];
    }
  }

  lemma DeleteConsistent(rows: Rows, uri: Uri)
    requires Consistent(rows)
    ensures Consistent(DeleteRows(rows, uri))
  {
    if uri in rows {
      var middle := DropAllDownstream(rows, rows[uri].upstream, uri);
      DropAllDownstreamEffect(rows, rows[uri].upstream, uri);
      DropAllUpstreamEffect(middle, rows[uri].downstream, uri);
      var after := DeleteRows(rows, uri);
      forall e, u | e in after && u in after[e].upstream ensures EdgeOk(after, e, u) {
        assert EdgeOk(rows, e, u);
      }
    }
  }

  // ---------------------------------------------------------------------------------------------
  // What a put and a delete change, entry by entry
  // ---------------------------------------------------------------------------------------------

  /** The document's own entry gets its name, and its upstream list unless it has no references; every entry it now
      depends on lists it once more at the end if it did not; nothing else changes. */
  ghost predicate PutChanges(rows: Rows, after: Rows, uri: Uri, name: string, targets: seq<Uri>) {
    && after.Keys == rows.Keys + {uri}
    && forall e :: e in after ==>
         var was := if e in rows then rows[e] else Row(name, [], []);
         && after[e].name == (if e == uri then name else was.name)
         && after[e].upstream == (if e == uri && targets != [] then targets else was.upstream)
         && after[e].downstream == (if e in targets && uri !in was.downstream then was.downstream + [uri] else was.downstream)
  }

  lemma {:induction false} AddAllDownstreamLists(rows: Rows, targets: seq<Uri>, uri: Uri, e: Uri)
    requires e in rows
    ensures var after, was := AddAllDownstream(rows, targets, uri), rows[e].downstream;
            e in after && after[e].downstream == if e in targets && uri !in was then was + [uri] else was
  {
    if targets != [] {
      var init, last := targets[..|targets| - 1], targets[|targets| - 1];
      AddAllDownstreamLists(rows, init, uri, e);
      assert e in targets <==> e in init || e == last;
      assert AddAllDownstream(rows, targets, uri) == AddDownstream(AddAllDownstream(rows, init, uri), last, uri);
    }
  }

  lemma PutChangesOnly(rows: Rows, uri: Uri, name: string, targets: seq<Uri>)
    ensures PutChanges(rows, PutRows(rows, uri, name, targets), uri, name, targets)
  {
    var populated := Populated(rows, uri, name);
    if targets != [] {
      var linked := populated[uri := populated[uri].(upstream := targets)];
      AddAllDownstreamEffect(linked, targets, uri);
      forall e | e in linked
        ensures var after, was := AddAllDownstream(linked, targets, uri), linked[e].downstream;
                e in after && after[e].downstream == if e in targets && uri !in was then was + [uri] else was
      {
        AddAllDownstreamLists(linked, targets, uri, e);
      }
    }
  }

  /** The entry goes. The entries listed downstream of it lose it upstream, those listed upstream of it lose it
      downstream, and nothing else changes. */
  ghost predicate DeleteChanges(rows: Rows, after: Rows, uri: Uri) {
    if uri !in rows then after == rows
    else
      && after.Keys == rows.Keys - {uri}
      && forall e :: e in after ==>
           && after[e].name == rows[e].name
           && (if e in rows[uri].downstream then Loses(rows[e].upstream, after[e].upstream, uri)
               else after[e].upstream == rows[e].upstream)
           && (if e in rows[uri].upstream then Loses(rows[e].downstream, after[e].downstream, uri)
               else after[e].downstream == rows[e].downstream)
  }

  lemma {:induction false} DropAllLists(rows: Rows, targets: seq<Uri>, uri: Uri, e: Uri)
    requires e in rows
    ensures var down, up := DropAllDownstream(rows, targets, uri), DropAllUpstream(rows, targets, uri);
            && e in down && e in up
            && down[e].downstream == (if e in targets then Without(rows[e].downstream, uri) else rows[e].downstream)
            && up[e].upstream == (if e in targets then Without(rows[e].upstream, uri) else rows[e].upstream)
  {
    if targets != [] {
      DropAllLists(rows, targets[..|targets| - 1], uri, e);
      assert targets == targets[..|targets| - 1] + [targets[|targets| - 1]];
      WithoutAbsent(Without(rows[e].downstream, uri), uri);
      WithoutAbsent(Without(rows[e].upstream, uri), uri);
    }
  }

  lemma DeleteChangesOnly(rows: Rows, uri: Uri)
    ensures DeleteChanges(rows, DeleteRows(rows, uri), uri)
  {
    if uri in rows {
      var middle := DropAllDownstream(rows, rows[uri].upstream, uri);
      DropAllDownstreamEffect(rows, rows[uri].upstream, uri);
      DropAllUpstreamEffect(middle, rows[uri].downstream, uri);
      var after := DeleteRows(rows, uri);
      forall e | e in after
        ensures after[e].upstream == if e in rows[uri].downstream then Without(rows[e].upstream, uri) else rows[e].upstream
        ensures after[e].downstream == if e in rows[uri].upstream then Without(rows[e].downstream, uri) else rows[e].downstream
        ensures Loses(rows[e].upstream, Without(rows[e].upstream, uri), uri)
        ensures Loses(rows[e].downstream, Without(rows[e].downstream, uri), uri)
      {
        DropAllLists(rows, rows[uri].upstream, uri, e);
        DropAllLists(middle, rows[uri].downstream, uri, e);
        WithoutLoses(rows[e].upstream, uri);
        WithoutLoses(rows[e].downstream, uri);
      }
    }
  }

  lemma TargetsPossible(matches: Matcher, rows: Rows, meta: Metadata, targets: seq<Uri>)
    requires Resolves(matches, Populated(rows, meta.Uri(), meta.name), meta.refs, targets)
    ensures forall t :: t in targets ==> t in rows || t == meta.Uri() || IsPlaceholder(t)
    ensures Consistent(rows) ==> Consistent(PutRows(rows, meta.Uri(), meta.name, targets))
  {
    forall t | t in targets ensures t in rows || t == meta.Uri() || IsPlaceholder(t) {
      var i :| 0 <= i < |targets| && targets[i] == t;
      assert ResolvesTo(matches, Populated(rows, meta.Uri(), meta.name), meta.refs[i], t);
    }
    if Consistent(rows) {
      TableUriIsNoPlaceholder(meta.kind, meta.name);
      PutConsistent(rows, meta.Uri(), meta.name, targets);
    }
  }

  // ---------------------------------------------------------------------------------------------
  // Runs
  // ---------------------------------------------------------------------------------------------

  /** The catalog, and whether the interceptor is enabled. */
  datatype State = State(rows: Rows, enabled: bool)

  datatype Action = Put(meta: Metadata, targets: seq<Uri>) | Delete(meta: Metadata) | Switch(on: bool)

  const EMPTY := State(map[], true)

  /** The action's references resolve to catalog entries, the document itself included, or to placeholders. */
  ghost predicate Possible(s: State, a: Action) {
    s.enabled && a.Put? ==> forall t :: t in a.targets ==> t in s.rows || t == a.meta.Uri() || IsPlaceholder(t)
  }

  function Act(s: State, a: Action): State {
    match a
    case Put(meta, targets) => if s.enabled then s.(rows := PutRows(s.rows, meta.Uri(), meta.name, targets)) else s
    case Delete(meta) => if s.enabled then s.(rows := DeleteRows(s.rows, meta.Uri())) else s
    case Switch(on) => s.(enabled := on)
  }

  function ActAll(s: State, actions: seq<Action>): State {
    if actions == [] then s else Act(ActAll(s, actions[..|actions| - 1]), actions[|actions| - 1])
  }

  ghost predicate AllPossible(s: State, actions: seq<Action>) {
    forall i :: 0 <= i < |actions| ==> Possible(ActAll(s, actions[..i]), actions[i])
  }

  lemma ActConsistent(s: State, a: Action)
    requires Consistent(s.rows) && Possible(s, a)
    ensures Consistent(Act(s, a).rows)
  {
    match a
    case Put(meta, targets) =>
      if s.enabled {
        TableUriIsNoPlaceholder(meta.kind, meta.name);
        PutConsistent(s.rows, meta.Uri(), meta.name, targets);
      }
    case Delete(meta) => DeleteConsistent(s.rows, meta.Uri());
    case Switch(_) =>
  }

  /** After any run of puts, updates and deletes, with the interceptor switched off and on at any time, every upstream URI
      of an entry is a placeholder or an entry that lists it downstream, and no downstream list has duplicates. */
  lemma {:induction false} RunConsistent(actions: seq<Action>)
    requires AllPossible(EMPTY, actions)
    ensures Consistent(ActAll(EMPTY, actions).rows)
  {
    if actions != [] {
      var n := |actions| - 1;
      assert forall i :: 0 <= i < n ==> actions[..n][..i] == actions[..i];
      RunConsistent(actions[..n]);
      ActConsistent(ActAll(EMPTY, actions[..n]), actions[n]);
    }
  }

  /** Deleting a document leaves nothing that mentions its entry, exactly when the interceptor is enabled or there is no
      such entry. */
  lemma NoDanglingEdge(actions: seq<Action>, meta: Metadata)
    requires AllPossible(EMPTY, actions)
    ensures var before, after := ActAll(EMPTY, actions), Act(ActAll(EMPTY, actions), Delete(meta)).rows;
            (meta.Uri() !in after && forall e :: e in after ==> meta.Uri() !in after[e].upstream)
              <==> (before.enabled || meta.Uri() !in before.rows)
  {
    RunConsistent(actions);
    var before := ActAll(EMPTY, actions);
    ActConsistent(before, Delete(meta));
    TableUriIsNoPlaceholder(meta.kind, meta.name);
    var rows, after := before.rows, Act(before, Delete(meta)).rows;
    if before.enabled && meta.Uri() in rows {
      DropAllDownstreamEffect(rows, rows[meta.Uri()].upstream, meta.Uri());
      DropAllUpstreamEffect(DropAllDownstream(rows, rows[meta.Uri()].upstream, meta.Uri()), rows[meta.Uri()].downstream, meta.Uri());
    }
    forall e | e in after && meta.Uri() in after[e].upstream ensures meta.Uri() in after {
      assert EdgeOk(after, e, meta.Uri());
    }
  }

  /** Every entry bears the name in its URI. */
  ghost predicate Named(rows: Rows) {
    forall e :: e in rows ==> exists t :: e == TableUri(t, rows[e].name)
  }

  lemma PutNamed(rows: Rows, meta: Metadata, targets: seq<Uri>)
    requires Named(rows)
    ensures Named(PutRows(rows, meta.Uri(), meta.name, targets))
  {
    var populated := Populated(rows, meta.Uri(), meta.name);
    assert meta.Uri() == TableUri(meta.kind, populated[meta.Uri()].name);
    assert forall e :: e in populated && e != meta.Uri() ==> e in rows && populated[e].name == rows[e].name;
    if targets != [] {
      AddAllDownstreamEffect(populated[meta.Uri() := populated[meta.Uri()].(upstream := targets)], targets, meta.Uri());
    }
  }

  lemma DeleteNamed(rows: Rows, uri: Uri)
    requires Named(rows)
    ensures Named(DeleteRows(rows, uri))
  {
    if uri in rows {
      DropAllDownstreamEffect(rows, rows[uri].upstream, uri);
      DropAllUpstreamEffect(DropAllDownstream(rows, rows[uri].upstream, uri), rows[uri].downstream, uri);
    }
  }

  lemma {:induction false} RunNamed(actions: seq<Action>)
    ensures Named(ActAll(EMPTY, actions).rows)
  {
    if actions != [] {
      var n := |actions| - 1;
      RunNamed(actions[..n]);
      match actions[n] {
        case Put(meta, targets) => PutNamed(ActAll(EMPTY, actions[..n]).rows, meta, targets);
        case Delete(meta) => DeleteNamed(ActAll(EMPTY, actions[..n]).rows, meta.Uri());
        case Switch(_) =>
      }
    }
  }

  // ---------------------------------------------------------------------------------------------
  // The converse
  // ---------------------------------------------------------------------------------------------

  /** Every downstream URI is an entry that lists it upstream. */
  ghost predicate NoStale(rows: Rows) {
    forall u, e :: u in rows && e in rows[u].downstream ==> e in rows && u in rows[e].upstream
  }

  lemma PutStale(rows: Rows, uri: Uri, name: string, targets: seq<Uri>, u: Uri)
    requires Consistent(rows) && !IsPlaceholder(uri) && uri in rows && targets != []
    requires u in rows && u in rows[uri].upstream && u !in targets
    ensures !NoStale(PutRows(rows, uri, name, targets))
  {
    var populated := Populated(rows, uri, name);
    var linked := populated[uri := populated[uri].(upstream := targets)];
    AddAllDownstreamEffect(linked, targets, uri);
    assert EdgeOk(rows, uri, u) && !IsPlaceholder(u);
    var after := PutRows(rows, uri, name, targets);
    assert after == AddAllDownstream(linked, targets, uri);
    assert u in linked && uri in linked[u].downstream;
    assert uri in after[u].downstream && after[uri].upstream == targets;
  }

  /** The put takes no catalogued entry out of the document's references. */
  ghost predicate DropsNothing(rows: Rows, uri: Uri, targets: seq<Uri>) {
    targets == [] || uri !in rows || forall u :: u in rows[uri].upstream && u in rows ==> u in targets
  }

  lemma PutNotStale(rows: Rows, uri: Uri, name: string, targets: seq<Uri>)
    requires Consistent(rows) && NoStale(rows) && targets != [] && DropsNothing(rows, uri, targets)
    ensures NoStale(PutRows(rows, uri, name, targets))
  {
    var populated, after := Populated(rows, uri, name), PutRows(rows, uri, name, targets);
    var linked := populated[uri := populated[uri].(upstream := targets)];
    AddAllDownstreamEffect(linked, targets, uri);
    forall u, e | u in after && e in after[u].downstream ensures e in after && u in after[e].upstream {
      if e in linked[u].downstream { assert u in rows && e in rows[u].downstream; }
    }
  }

  /** A put keeps the converse exactly when it drops no catalogued entry from the document's references; a put
      without references leaves the old edges in place and drops none. */
  lemma PutKeepsConverse(rows: Rows, uri: Uri, name: string, targets: seq<Uri>)
    requires Consistent(rows) && NoStale(rows) && !IsPlaceholder(uri)
    requires forall t :: t in targets ==> t in rows || t == uri || IsPlaceholder(t)
    ensures NoStale(PutRows(rows, uri, name, targets)) <==> DropsNothing(rows, uri, targets)
  {
    if targets == [] {
      assert NoStale(Populated(rows, uri, name));
    } else if DropsNothing(rows, uri, targets) {
      PutNotStale(rows, uri, name, targets);
    } else {
      var u :| u in rows[uri].upstream && u in rows && u !in targets;
      PutStale(rows, uri, name, targets, u);
    }
  }

  lemma DeleteLists(rows: Rows, uri: Uri, e: Uri)
    requires uri in rows && e in rows && e != uri
    ensures var after := DeleteRows(rows, uri);
            && e in after
            && (forall u :: u in after[e].upstream <==> u in rows[e].upstream && !(u == uri && e in rows[uri].downstream))
            && (forall d :: d in after[e].downstream <==> d in rows[e].downstream && !(d == uri && e in rows[uri].upstream))
  {
    var middle := DropAllDownstream(rows, rows[uri].upstream, uri);
    DropAllDownstreamEffect(rows, rows[uri].upstream, uri);
    DropAllUpstreamEffect(middle, rows[uri].downstream, uri);
  }

  lemma DeleteKeepsConverseAt(rows: Rows, uri: Uri, u: Uri, e: Uri)
    requires uri in rows && u in rows && u != uri
    requires e in rows[u].downstream ==> e in rows && u in rows[e].upstream
    ensures var after := DeleteRows(rows, uri);
            u in after && (e in after[u].downstream ==> e in after && u in after[e].upstream)
  {
    DeleteLists(rows, uri, u);
    if e in rows && e != uri { DeleteLists(rows, uri, e); }
  }

  /** A delete keeps it. */
  lemma DeleteKeepsConverse(rows: Rows, uri: Uri)
    requires NoStale(rows)
    ensures NoStale(DeleteRows(rows, uri))
  {
    if uri in rows {
      var after := DeleteRows(rows, uri);
      assert after.Keys == rows.Keys - {uri} by { DeleteChangesOnly(rows, uri); }
      forall u, e | u in after && e in after[u].downstream ensures e in after && u in after[e].upstream {
        DeleteKeepsConverseAt(rows, uri, u, e);
      }
    }
  }

  ghost predicate Drops(s: State, a: Action) {
    s.enabled && a.Put? && !DropsNothing(s.rows, a.meta.Uri(), a.targets)
  }

  lemma ActKeepsConverse(s: State, a: Action)
    requires Consistent(s.rows) && NoStale(s.rows) && Possible(s, a)
    ensures NoStale(Act(s, a).rows) <==> !Drops(s, a)
  {
    match a
    case Put(meta, targets) =>
      if s.enabled {
        TableUriIsNoPlaceholder(meta.kind, meta.name);
        PutKeepsConverse(s.rows, meta.Uri(), meta.name, targets);
      }
    case Delete(meta) => DeleteKeepsConverse(s.rows, meta.Uri());
    case Switch(_) =>
  }

  function At(actions: seq<Action>, n: nat): State
    requires n <= |actions|
  {
    ActAll(EMPTY, actions[..n])
  }

  lemma AtNext(actions: seq<Action>, n: nat)
    requires n < |actions| && AllPossible(EMPTY, actions)
    ensures At(actions, n + 1) == Act(At(actions, n), actions[n]) && Possible(At(actions, n), actions[n])
    ensures Consistent(At(actions, n).rows)
  {
    assert actions[..n + 1][..n] == actions[..n];
    assert forall i :: 0 <= i < n ==> actions[..n][..i] == actions[..i];
    RunConsistent(actions[..n]);
  }

  lemma {:induction false} NoStaleAt(actions: seq<Action>, n: nat)
    requires AllPossible(EMPTY, actions) && n <= |actions|
    requires forall i :: 0 <= i < |actions| ==> !Drops(At(actions, i), actions[i])
    ensures NoStale(At(actions, n).rows)
  {
    if n > 0 {
      NoStaleAt(actions, n - 1);
      AtNext(actions, n - 1);
      ActKeepsConverse(At(actions, n - 1), actions[n - 1]);
    }
  }

  /** The two lists of every pair of entries agree throughout a run, exactly when no put of the run drops a reference. */
  lemma RunConverse(actions: seq<Action>)
    requires AllPossible(EMPTY, actions)
    ensures (forall n :: 0 <= n <= |actions| ==> NoStale(At(actions, n).rows))
       <==> (forall i :: 0 <= i < |actions| ==> !Drops(At(actions, i), actions[i]))
  {
    if forall n :: 0 <= n <= |actions| ==> NoStale(At(actions, n).rows) {
      forall i | 0 <= i < |actions| ensures !Drops(At(actions, i), actions[i]) {
        AtNext(actions, i);
        assert NoStale(At(actions, i).rows) && NoStale(At(actions, i + 1).rows);
        ActKeepsConverse(At(actions, i), actions[i]);
      }
    }
    if forall i :: 0 <= i < |actions| ==> !Drops(At(actions, i), actions[i]) {
      forall n | 0 <= n <= |actions| ensures NoStale(At(actions, n).rows) { NoStaleAt(actions, n); }
    }
  }
}
