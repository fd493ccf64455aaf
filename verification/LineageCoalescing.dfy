/** What coalescing lineage updates does to the catalog: the queue skips versions of a document, putting a document into the
    catalog does not simply overwrite its entry, and references are looked up in the catalog of the moment
    (app/lineage_queue.go, app/lineage_manager.go). */
module LineageCoalescing {

  import opened Prelude
  import opened JsonValues
  import opened LineageQueue
  import opened LineageTraces
  import LG = LineageGraph

  /** The catalog update a document causes, its references resolved. */
  datatype Update = Update(uri: LG.Uri, name: string, targets: seq<LG.Uri>)

  type Rows = LG.Rows

  function PutUpdate(rows: Rows, up: Update): Rows {
    LG.PutRows(rows, up.uri, up.name, up.targets)
  }

  // ---------------------------------------------------------------------------------------------
  // One update
  // ---------------------------------------------------------------------------------------------

  function RowOr(rows: Rows, e: LG.Uri, name: string): LG.Row {
    if e in rows then rows[e] else LG.Row(name, [], [])
  }

  function UpstreamAt(rows: Rows, e: LG.Uri): seq<LG.Uri> {
    RowOr(rows, e, "").upstream
  }

  function With(list: seq<LG.Uri>, uri: LG.Uri, add: bool): seq<LG.Uri> {
    if add && uri !in list then list + [uri] else list
  }

  /** The entry of e after one update. */
  lemma PutUpdateAt(rows: Rows, up: Update, e: LG.Uri)
    ensures var after := PutUpdate(rows, up);
            && (e in after <==> e in rows || e == up.uri)
            && (e in after ==>
                  var was := RowOr(rows, e, up.name);
                  after[e] == LG.Row(if e == up.uri then up.name else was.name,
                                     if e == up.uri && up.targets != [] then up.targets else was.upstream,
                                     With(was.downstream, up.uri, e in up.targets)))
  {
    LG.PutChangesOnly(rows, up.uri, up.name, up.targets);
  }

  ghost predicate Skippable(rows: Rows, first: Update, second: Update) {
    && (second.targets != [] || first.targets == [] || first.targets == UpstreamAt(rows, first.uri))
    && forall e :: e in first.targets && (e in rows || e == first.uri) ==>
                     e in second.targets || first.uri in RowOr(rows, e, "").downstream
  }

  /** The same for the entry of e. */
  ghost predicate SkippableAt(rows: Rows, first: Update, second: Update, e: LG.Uri) {
    && (e == first.uri ==> second.targets != [] || first.targets == [] || first.targets == UpstreamAt(rows, first.uri))
    && (e in first.targets ==> e in second.targets || first.uri in RowOr(rows, e, "").downstream)
  }

  lemma SkippedAt(rows: Rows, first: Update, second: Update, e: LG.Uri)
    requires first.uri == second.uri
    ensures var both, skipped := PutUpdate(PutUpdate(rows, first), second), PutUpdate(rows, second);
            && (e in both <==> e in rows || e == first.uri) && (e in both <==> e in skipped)
            && (e in both ==> (both[e] == skipped[e] <==> SkippableAt(rows, first, second, e)))
  {
    PutUpdateAt(rows, first, e);
    PutUpdateAt(PutUpdate(rows, first), second, e);
    PutUpdateAt(rows, second, e);
  }

  /** Skipping an update that is followed by another of the same entry leaves the catalog as it would be, exactly when
      the second one has references, or the first had none or those of the catalog; and every catalogued reference of
      the first is one of the second or knows the document already. */
  lemma SkippedUpdateExact(rows: Rows, first: Update, second: Update)
    requires first.uri == second.uri
    ensures PutUpdate(PutUpdate(rows, first), second) == PutUpdate(rows, second) <==> Skippable(rows, first, second)
  {
    var both, skipped := PutUpdate(PutUpdate(rows, first), second), PutUpdate(rows, second);
    forall e ensures (e in both <==> e in rows || e == first.uri) && (e in both <==> e in skipped)
      && (e in both ==> (both[e] == skipped[e] <==> SkippableAt(rows, first, second, e)))
    {
      SkippedAt(rows, first, second, e);
    }
    if Skippable(rows, first, second) {
      assert forall e :: e in both ==> both[e] == skipped[e];
    }
    if both == skipped {
      assert first.uri in both && SkippableAt(rows, first, second, first.uri);
      forall e | e in first.targets && (e in rows || e == first.uri)
        ensures e in second.targets || first.uri in RowOr(rows, e, "").downstream
      {
        assert e in both && SkippableAt(rows, first, second, e);
      }
    }
  }

  // ---------------------------------------------------------------------------------------------
  // References
  // ---------------------------------------------------------------------------------------------

  /** What the extractor reads from a document, and which entries a reference matches. */
  datatype Reader = Reader(meta: Json -> LG.Metadata, matches: LG.Matcher)
  {
    function Uri(job: Job): LG.Uri { meta(job.1).Uri() }

    function Refs(job: Job): seq<string> { meta(job.1).refs }

    ghost predicate Match(ref: string, e: LG.Uri) {
      exists t, name :: e == LG.TableUri(t, name) && matches(ref, e, name)
    }
  }

  /** What a reference can resolve to while these entries are known. */
  ghost predicate Choice(rd: Reader, known: set<LG.Uri>, ref: string, t: LG.Uri) {
    || (t in known && rd.Match(ref, t))
    || (t == LG.Placeholder(ref) && forall e :: e in known ==> !rd.Match(ref, e))
  }

  ghost predicate Choices(rd: Reader, known: set<LG.Uri>, refs: seq<string>, targets: seq<LG.Uri>) {
    |targets| == |refs| && forall i :: 0 <= i < |refs| ==> Choice(rd, known, refs[i], targets[i])
  }

  lemma MatchIsByName(rd: Reader, rows: Rows, ref: string, e: LG.Uri)
    requires LG.Named(rows) && e in rows
    ensures rd.Match(ref, e) <==> rd.matches(ref, e, rows[e].name)
  {
    var t :| e == LG.TableUri(t, rows[e].name);
    forall t', name | e == LG.TableUri(t', name) ensures name == rows[e].name {
      LG.TableUriInjective(t, rows[e].name, t', name);
    }
  }

  /** In a catalog whose entries bear the names in their URIs, what matches a reference depends on the entries only. */
  lemma ResolvesIsChoices(rd: Reader, rows: Rows, refs: seq<string>, targets: seq<LG.Uri>)
    requires LG.Named(rows)
    ensures LG.Resolves(rd.matches, rows, refs, targets) <==> Choices(rd, rows.Keys, refs, targets)
  {
    forall ref, e | e in rows ensures rd.Match(ref, e) <==> rd.matches(ref, e, rows[e].name) {
      MatchIsByName(rd, rows, ref, e);
    }
    assert |targets| == |refs| ==>
      forall i :: 0 <= i < |refs| ==> (LG.ResolvesTo(rd.matches, rows, refs[i], targets[i]) <==> Choice(rd, rows.Keys, refs[i], targets[i]));
  }

  /** Some entry that a reference matches, or the placeholder. */
  ghost function The(rd: Reader, known: set<LG.Uri>, ref: string): (t: LG.Uri)
    ensures Choice(rd, known, ref, t)
  {
    if e :| e in known && rd.Match(ref, e) then e else LG.Placeholder(ref)
  }

  ghost function Targets(rd: Reader, known: set<LG.Uri>, refs: seq<string>): (targets: seq<LG.Uri>)
    ensures Choices(rd, known, refs, targets)
  {
    seq(|refs|, i requires 0 <= i < |refs| => The(rd, known, refs[i]))
  }

  /** No reference matches two of the known entries. */
  ghost predicate Clear(rd: Reader, known: set<LG.Uri>, refs: seq<string>) {
    forall ref, e, e' :: ref in refs && e in known && e' in known && rd.Match(ref, e) && rd.Match(ref, e') ==> e == e'
  }

  lemma TwoChoices(rd: Reader, known: set<LG.Uri>, refs: seq<string>) returns (targets: seq<LG.Uri>, targets': seq<LG.Uri>)
    requires !Clear(rd, known, refs)
    ensures Choices(rd, known, refs, targets) && Choices(rd, known, refs, targets') && targets != targets'
  {
    var ref, e, e' :| ref in refs && e in known && e' in known && rd.Match(ref, e) && rd.Match(ref, e') && e != e';
    var i :| 0 <= i < |refs| && refs[i] == ref;
    targets, targets' := Targets(rd, known, refs)[i := e], Targets(rd, known, refs)[i := e'];
    assert targets[i] != targets'[i];
  }

  lemma OneChoice(rd: Reader, known: set<LG.Uri>, refs: seq<string>, targets: seq<LG.Uri>, targets': seq<LG.Uri>)
    requires Clear(rd, known, refs) && Choices(rd, known, refs, targets) && Choices(rd, known, refs, targets')
    ensures targets == targets'
  {
    forall i | 0 <= i < |refs| ensures targets[i] == targets'[i] {
      assert refs[i] in refs && Choice(rd, known, refs[i], targets[i]) && Choice(rd, known, refs[i], targets'[i]);
    }
  }

  // ---------------------------------------------------------------------------------------------
  // Processing jobs
  // ---------------------------------------------------------------------------------------------

  function UpdateOf(rd: Reader, job: Job, targets: seq<LG.Uri>): Update {
    Update(rd.Uri(job), rd.meta(job.1).name, targets)
  }

  /** The catalog after processing jobs whose references were resolved to targets. */
  function Catalog(rd: Reader, rows: Rows, h: History, targets: seq<seq<LG.Uri>>): Rows
    requires |targets| == |h|
  {
    if h == [] then rows
    else
      var n := |h| - 1;
      PutUpdate(Catalog(rd, rows, h[..n], targets[..n]), UpdateOf(rd, h[n], targets[n]))
  }

  /** Every job's references are resolved in the catalog it finds, its own entry put in first. */
  ghost predicate Lawful(rd: Reader, rows: Rows, h: History, targets: seq<seq<LG.Uri>>) {
    && |targets| == |h|
    && forall n :: 0 <= n < |h| ==> LawfulAt(rd, rows, h, targets, n)
  }

  ghost predicate LawfulAt(rd: Reader, rows: Rows, h: History, targets: seq<seq<LG.Uri>>, n: nat)
    requires n < |h| == |targets|
  {
    var before := Catalog(rd, rows, h[..n], targets[..n]);
    LG.Resolves(rd.matches, LG.Populated(before, rd.Uri(h[n]), rd.meta(h[n].1).name), rd.Refs(h[n]), targets[n])
  }

  function Keys(rd: Reader, rows: Rows, h: History): set<LG.Uri> {
    rows.Keys + set job | job in h :: rd.Uri(job)
  }

  lemma KeysSnoc(rd: Reader, rows: Rows, h: History, n: nat)
    requires n < |h|
    ensures Keys(rd, rows, h[..n + 1]) == Keys(rd, rows, h[..n]) + {rd.Uri(h[n])}
  {
    assert h[..n + 1] == h[..n] + [h[n]];
  }

  lemma {:induction false} CatalogKeys(rd: Reader, rows: Rows, h: History, targets: seq<seq<LG.Uri>>)
    requires |targets| == |h|
    ensures Catalog(rd, rows, h, targets).Keys == Keys(rd, rows, h)
    ensures LG.Named(rows) ==> LG.Named(Catalog(rd, rows, h, targets))
  {
    if h != [] {
      var n := |h| - 1;
      CatalogKeys(rd, rows, h[..n], targets[..n]);
      KeysSnoc(rd, rows, h, n);
      assert h[..n + 1] == h;
      var before, up := Catalog(rd, rows, h[..n], targets[..n]), UpdateOf(rd, h[n], targets[n]);
      forall e ensures e in PutUpdate(before, up) <==> e in before || e == up.uri { PutUpdateAt(before, up, e); }
      if LG.Named(rows) { LG.PutNamed(before, rd.meta(h[n].1), targets[n]); }
    }
  }

  /** So lawful resolutions are those that choose, for every job, among the entries known when it is processed. */
  lemma LawfulIff(rd: Reader, rows: Rows, h: History, targets: seq<seq<LG.Uri>>, n: nat)
    requires LG.Named(rows) && n < |h| == |targets|
    ensures LawfulAt(rd, rows, h, targets, n) <==> Choices(rd, Keys(rd, rows, h[..n + 1]), rd.Refs(h[n]), targets[n])
  {
    CatalogKeys(rd, rows, h[..n], targets[..n]);
    KeysSnoc(rd, rows, h, n);
    var before, meta := Catalog(rd, rows, h[..n], targets[..n]), rd.meta(h[n].1);
    var populated := LG.Populated(before, meta.Uri(), meta.name);
    LG.PutNamed(before, meta, []);
    assert populated == LG.PutRows(before, meta.Uri(), meta.name, []);
    assert populated.Keys == before.Keys + {meta.Uri()};
    ResolvesIsChoices(rd, populated, meta.refs, targets[n]);
  }

  /** A lawful resolution with the given targets at y. */
  lemma ChooseAt(rd: Reader, rows: Rows, h: History, y: nat, at: seq<LG.Uri>) returns (targets: seq<seq<LG.Uri>>)
    requires LG.Named(rows) && y < |h| && Choices(rd, Keys(rd, rows, h[..y + 1]), rd.Refs(h[y]), at)
    ensures Lawful(rd, rows, h, targets) && targets[y] == at
  {
    targets := seq(|h|, n requires 0 <= n < |h| => if n == y then at else Targets(rd, Keys(rd, rows, h[..n + 1]), rd.Refs(h[n])));
    forall n | 0 <= n < |h| ensures LawfulAt(rd, rows, h, targets, n) { LawfulIff(rd, rows, h, targets, n); }
  }

  lemma Choose(rd: Reader, rows: Rows, h: History) returns (targets: seq<seq<LG.Uri>>)
    requires LG.Named(rows)
    ensures Lawful(rd, rows, h, targets)
  {
    if h == [] {
      targets := [];
    } else {
      targets := ChooseAt(rd, rows, h, 0, Targets(rd, Keys(rd, rows, h[..1]), rd.Refs(h[0])));
    }
  }

  // ---------------------------------------------------------------------------------------------
  // What a job of a drained queue finds
  // ---------------------------------------------------------------------------------------------

  /** The entries known to a job: those put in line before it, and its own. */
  function Seen(rd: Reader, rows: Rows, h: History, j: Stretch): set<LG.Uri>
    requires j.from <= j.at < |h|
  {
    Keys(rd, rows, h[..j.from]) + {rd.Uri(h[j.at])}
  }

  /** Documents that feed an entry matched by the references keep their type and name. */
  ghost predicate SteadyRefs(rd: Reader, h: History, refs: seq<string>) {
    forall ref, e :: ref in refs && rd.Match(ref, e) ==> Steady(h, (job: Job) => rd.Uri(job) == e)
  }

  /** One of the first n jobs is of a document with this entry. */
  ghost predicate Fed(rd: Reader, h: History, n: nat, e: LG.Uri)
    requires n <= |h|
  {
    exists i :: 0 <= i < n && rd.Uri(h[i]) == e
  }

  lemma KnownIff(rd: Reader, rows: Rows, h: History, n: nat, e: LG.Uri)
    requires n <= |h|
    ensures e in Keys(rd, rows, h[..n]) <==> e in rows || Fed(rd, h, n, e)
  {
    var g := h[..n];
    if job :| job in g && rd.Uri(job) == e {
      var i :| 0 <= i < |g| && g[i] == job;
      assert rd.Uri(h[i]) == e;
    }
    if i :| 0 <= i < n && rd.Uri(h[i]) == e { assert g[i] in g; }
  }

  lemma FedBefore(rd: Reader, h: History, js: seq<Stretch>, y: nat, e: LG.Uri)
    requires IsTrace(h, js) && y < |js| && Steady(h, (job: Job) => rd.Uri(job) == e)
    ensures Fed(rd, Jobs(h, js), y, e) <==> Fed(rd, h, js[y].from, e)
  {
    var has := (job: Job) => rd.Uri(job) == e;
    SeenBefore(h, js, y, has);
    if x :| 0 <= x < y && rd.Uri(Jobs(h, js)[x]) == e { assert has(h[js[x].at]); }
    if x :| 0 <= x < y && has(h[js[x].at]) { assert rd.Uri(Jobs(h, js)[x]) == e; }
    if i :| 0 <= i < js[y].from && rd.Uri(h[i]) == e { assert has(h[i]); }
  }

  lemma SeenEntry(rd: Reader, rows: Rows, h: History, js: seq<Stretch>, y: nat, e: LG.Uri)
    requires IsTrace(h, js) && y < |js| && Steady(h, (job: Job) => rd.Uri(job) == e)
    ensures e in Keys(rd, rows, Jobs(h, js)[..y + 1]) <==> e in Seen(rd, rows, h, js[y])
  {
    FedBefore(rd, h, js, y, e);
    KeysSnoc(rd, rows, Jobs(h, js), y);
    KnownIff(rd, rows, Jobs(h, js), y, e);
    KnownIff(rd, rows, h, js[y].from, e);
  }

  /** So what its references can resolve to depends on when it got in line and on its version only. */
  lemma SeenChoices(rd: Reader, rows: Rows, h: History, js: seq<Stretch>, y: nat, targets: seq<LG.Uri>)
    requires IsTrace(h, js) && y < |js| && SteadyRefs(rd, h, rd.Refs(h[js[y].at]))
    ensures Choices(rd, Keys(rd, rows, Jobs(h, js)[..y + 1]), rd.Refs(h[js[y].at]), targets)
       <==> Choices(rd, Seen(rd, rows, h, js[y]), rd.Refs(h[js[y].at]), targets)
  {
    var refs, known, seen := rd.Refs(h[js[y].at]), Keys(rd, rows, Jobs(h, js)[..y + 1]), Seen(rd, rows, h, js[y]);
    forall ref, e | ref in refs && rd.Match(ref, e) ensures e in known <==> e in seen {
      SeenEntry(rd, rows, h, js, y, e);
    }
    forall i, t | 0 <= i < |refs| ensures Choice(rd, known, refs[i], t) <==> Choice(rd, seen, refs[i], t) {
      assert refs[i] in refs;
    }
  }

  // ---------------------------------------------------------------------------------------------
  // Upstream lists
  // ---------------------------------------------------------------------------------------------

  /** Jobs that set the upstream list of u: its documents, where they have references. */
  function SetsUpstream(rd: Reader, u: LG.Uri): Job -> bool {
    (job: Job) => rd.Uri(job) == u && rd.Refs(job) != []
  }

  /** The upstream list of u ends up the same in whatever schedule the queue is drained, as in the order of the updates. */
  ghost predicate UpstreamSafe(rd: Reader, rows: Rows, h: History, u: LG.Uri) {
    forall states: seq<State>, steps: seq<Step>, targets, inOrder ::
      DrainedRun(states, steps, h) && Lawful(rd, rows, states[|steps|].done, targets) && Lawful(rd, rows, h, inOrder) ==>
        UpstreamAt(Catalog(rd, rows, states[|steps|].done, targets), u) == UpstreamAt(Catalog(rd, rows, h, inOrder), u)
  }

  /** A list the entry can end up with. */
  ghost predicate Ends(rd: Reader, rows: Rows, h: History, u: LG.Uri, list: seq<LG.Uri>) {
    exists js: seq<Stretch>, targets ::
      IsTrace(h, js) && Lawful(rd, rows, Jobs(h, js), targets) && UpstreamAt(Catalog(rd, rows, Jobs(h, js), targets), u) == list
  }

  lemma SafeIffOne(rd: Reader, rows: Rows, h: History, u: LG.Uri)
    requires LG.Named(rows)
    ensures UpstreamSafe(rd, rows, h, u) <==> forall a, b :: Ends(rd, rows, h, u, a) && Ends(rd, rows, h, u, b) ==> a == b
  {
    var order := InOrder(h, |h|);
    if UpstreamSafe(rd, rows, h, u) {
      var inOrder := Choose(rd, rows, h);
      forall a | Ends(rd, rows, h, u, a) ensures a == UpstreamAt(Catalog(rd, rows, h, inOrder), u) {
        var js: seq<Stretch>, targets :|
          IsTrace(h, js) && Lawful(rd, rows, Jobs(h, js), targets) && UpstreamAt(Catalog(rd, rows, Jobs(h, js), targets), u) == a;
        var states, steps := Realize(h, js);
      }
    } else {
      var states: seq<State>, steps: seq<Step>, targets, inOrder :|
        DrainedRun(states, steps, h) && Lawful(rd, rows, states[|steps|].done, targets) && Lawful(rd, rows, h, inOrder) &&
        UpstreamAt(Catalog(rd, rows, states[|steps|].done, targets), u) != UpstreamAt(Catalog(rd, rows, h, inOrder), u);
      var js := DrainedTrace(states, steps, h);
      assert Ends(rd, rows, h, u, UpstreamAt(Catalog(rd, rows, Jobs(h, js), targets), u));
      assert Ends(rd, rows, h, u, UpstreamAt(Catalog(rd, rows, Jobs(h, order), inOrder), u));
    }
  }

  lemma UpstreamNext(rd: Reader, rows: Rows, h: History, targets: seq<seq<LG.Uri>>, u: LG.Uri)
    requires |targets| == |h| > 0 && |targets[|h| - 1]| == |rd.Refs(h[|h| - 1])|
    ensures var n := |h| - 1;
            UpstreamAt(Catalog(rd, rows, h, targets), u)
              == if SetsUpstream(rd, u)(h[n]) then targets[n] else UpstreamAt(Catalog(rd, rows, h[..n], targets[..n]), u)
  {
    var n := |h| - 1;
    PutUpdateAt(Catalog(rd, rows, h[..n], targets[..n]), UpdateOf(rd, h[n], targets[n]), u);
  }

  ghost predicate Sized(rd: Reader, h: History, targets: seq<seq<LG.Uri>>) {
    |targets| == |h| && forall n :: 0 <= n < |h| ==> |targets[n]| == |rd.Refs(h[n])|
  }

  /** Job y is the last that sets the list; or, with y negative, none does. */
  ghost predicate LastSets(rd: Reader, h: History, u: LG.Uri, y: int) {
    -1 <= y < |h| && (y >= 0 ==> SetsUpstream(rd, u)(h[y])) && forall z :: y < z < |h| ==> !SetsUpstream(rd, u)(h[z])
  }

  lemma WithoutLast(rd: Reader, h: History, targets: seq<seq<LG.Uri>>, u: LG.Uri, y: int)
    requires Sized(rd, h, targets) && LastSets(rd, h, u, y) && y < |h| - 1
    ensures var n := |h| - 1; Sized(rd, h[..n], targets[..n]) && LastSets(rd, h[..n], u, y)
  {
  }

  /** The last job that sets the list decides. */
  lemma {:induction false} UpstreamIs(rd: Reader, rows: Rows, h: History, targets: seq<seq<LG.Uri>>, u: LG.Uri, y: int)
    requires Sized(rd, h, targets) && LastSets(rd, h, u, y)
    ensures UpstreamAt(Catalog(rd, rows, h, targets), u) == if y < 0 then UpstreamAt(rows, u) else targets[y]
  {
    if h != [] {
      var n := |h| - 1;
      UpstreamNext(rd, rows, h, targets, u);
      if y < n {
        WithoutLast(rd, h, targets, u, y);
        UpstreamIs(rd, rows, h[..n], targets[..n], u, y);
      }
    }
  }

  /** The references of all documents of u, in all versions, are to documents that keep their type and name. */
  ghost predicate RefsSteady(rd: Reader, h: History, u: LG.Uri) {
    forall i :: 0 <= i < |h| && rd.Uri(h[i]) == u ==> SteadyRefs(rd, h, rd.Refs(h[i]))
  }

  /** What the last setting job of a trace can leave. */
  lemma SetterLeaves(rd: Reader, rows: Rows, h: History, u: LG.Uri, js: seq<Stretch>, y: nat, list: seq<LG.Uri>)
    requires LG.Named(rows) && RefsSteady(rd, h, u) && IsTrace(h, js) && Setter(h, js, SetsUpstream(rd, u), y)
    ensures Choices(rd, Seen(rd, rows, h, js[y]), rd.Refs(h[js[y].at]), list)
       <==> exists targets :: Lawful(rd, rows, Jobs(h, js), targets) && UpstreamAt(Catalog(rd, rows, Jobs(h, js), targets), u) == list
  {
    var done := Jobs(h, js);
    SeenChoices(rd, rows, h, js, y, list);
    if Choices(rd, Seen(rd, rows, h, js[y]), rd.Refs(h[js[y].at]), list) {
      var targets := ChooseAt(rd, rows, done, y, list);
      LawfulSizes(rd, rows, done, targets);
      UpstreamIs(rd, rows, done, targets, u, y);
    }
    if targets :| Lawful(rd, rows, done, targets) && UpstreamAt(Catalog(rd, rows, done, targets), u) == list {
      LawfulSizes(rd, rows, done, targets);
      UpstreamIs(rd, rows, done, targets, u, y);
      assert LawfulAt(rd, rows, done, targets, y);
      LawfulIff(rd, rows, done, targets, y);
    }
  }

  lemma LawfulSizes(rd: Reader, rows: Rows, h: History, targets: seq<seq<LG.Uri>>)
    requires Lawful(rd, rows, h, targets)
    ensures Sized(rd, h, targets)
  {
    forall n | 0 <= n < |h| ensures |targets[n]| == |rd.Refs(h[n])| { assert LawfulAt(rd, rows, h, targets, n); }
  }

  lemma NoSetterLeaves(rd: Reader, rows: Rows, h: History, u: LG.Uri, js: seq<Stretch>, list: seq<LG.Uri>)
    requires LG.Named(rows) && IsTrace(h, js) && Unset(h, js, SetsUpstream(rd, u))
    ensures list == UpstreamAt(rows, u)
       <==> exists targets :: Lawful(rd, rows, Jobs(h, js), targets) && UpstreamAt(Catalog(rd, rows, Jobs(h, js), targets), u) == list
  {
    var done := Jobs(h, js);
    forall targets | Lawful(rd, rows, done, targets) ensures UpstreamAt(Catalog(rd, rows, done, targets), u) == UpstreamAt(rows, u) {
      LawfulSizes(rd, rows, done, targets);
      UpstreamIs(rd, rows, done, targets, u, -1);
    }
    var targets := Choose(rd, rows, done);
  }

  /** The job's references can resolve to this list. */
  ghost predicate Possible(rd: Reader, rows: Rows, h: History, j: Stretch, list: seq<LG.Uri>) {
    j.from <= j.at < |h| && Choices(rd, Seen(rd, rows, h, j), rd.Refs(h[j.at]), list)
  }

  /** The job can be the last to set the list, and leave this one. */
  ghost predicate Leads(rd: Reader, rows: Rows, h: History, u: LG.Uri, j: Stretch, list: seq<LG.Uri>) {
    CanSet(h, SetsUpstream(rd, u), j) && Possible(rd, rows, h, j, list)
  }

  ghost predicate Leaves(rd: Reader, rows: Rows, h: History, u: LG.Uri, list: seq<LG.Uri>) {
    (exists j :: Leads(rd, rows, h, u, j, list)) || (LastsUnset(h, SetsUpstream(rd, u)) && list == UpstreamAt(rows, u))
  }

  lemma EndsLeaves(rd: Reader, rows: Rows, h: History, u: LG.Uri, list: seq<LG.Uri>)
    requires LG.Named(rows) && RefsSteady(rd, h, u) && Ends(rd, rows, h, u, list)
    ensures Leaves(rd, rows, h, u, list)
  {
    var sets := SetsUpstream(rd, u);
    var js: seq<Stretch>, targets :|
      IsTrace(h, js) && Lawful(rd, rows, Jobs(h, js), targets) && UpstreamAt(Catalog(rd, rows, Jobs(h, js), targets), u) == list;
    var y := FindSetter(h, js, sets);
    if y < 0 {
      assert Unset(h, js, sets);
      NoSetterLeaves(rd, rows, h, u, js, list);
      UnsetExact(h, sets);
    } else {
      SetterCanSet(h, js, sets, y);
      SetterLeaves(rd, rows, h, u, js, y, list);
      assert Leads(rd, rows, h, u, js[y], list);
    }
  }

  lemma LeadsEnds(rd: Reader, rows: Rows, h: History, u: LG.Uri, j: Stretch, list: seq<LG.Uri>)
    requires LG.Named(rows) && RefsSteady(rd, h, u) && Leads(rd, rows, h, u, j, list)
    ensures Ends(rd, rows, h, u, list)
  {
    var js, y := SetRun(h, SetsUpstream(rd, u), j);
    SetterLeaves(rd, rows, h, u, js, y, list);
    var targets :| Lawful(rd, rows, Jobs(h, js), targets) && UpstreamAt(Catalog(rd, rows, Jobs(h, js), targets), u) == list;
  }

  lemma UnsetEnds(rd: Reader, rows: Rows, h: History, u: LG.Uri)
    requires LG.Named(rows) && LastsUnset(h, SetsUpstream(rd, u))
    ensures Ends(rd, rows, h, u, UpstreamAt(rows, u))
  {
    UnsetExact(h, SetsUpstream(rd, u));
    var js :| IsTrace(h, js) && Unset(h, js, SetsUpstream(rd, u));
    NoSetterLeaves(rd, rows, h, u, js, UpstreamAt(rows, u));
    var targets :| Lawful(rd, rows, Jobs(h, js), targets) && UpstreamAt(Catalog(rd, rows, Jobs(h, js), targets), u) == UpstreamAt(rows, u);
  }

  /** The lists the entry can end up with. */
  lemma EndsIff(rd: Reader, rows: Rows, h: History, u: LG.Uri, list: seq<LG.Uri>)
    requires LG.Named(rows) && RefsSteady(rd, h, u)
    ensures Ends(rd, rows, h, u, list) <==> Leaves(rd, rows, h, u, list)
  {
    if Ends(rd, rows, h, u, list) { EndsLeaves(rd, rows, h, u, list); }
    if Leaves(rd, rows, h, u, list) {
      if j :| Leads(rd, rows, h, u, j, list) { LeadsEnds(rd, rows, h, u, j, list); } else { UnsetEnds(rd, rows, h, u); }
    }
  }

  /** The job's references resolve in one way only, and to this list. */
  ghost predicate ResolvesAs(rd: Reader, rows: Rows, h: History, j: Stretch, list: seq<LG.Uri>) {
    && j.from <= j.at < |h|
    && Clear(rd, Seen(rd, rows, h, j), rd.Refs(h[j.at])) && Targets(rd, Seen(rd, rows, h, j), rd.Refs(h[j.at])) == list
  }

  /** The references of all jobs that can be the last to set the list resolve to this one. */
  ghost predicate AllResolveAs(rd: Reader, rows: Rows, h: History, u: LG.Uri, list: seq<LG.Uri>) {
    forall j :: CanSet(h, SetsUpstream(rd, u), j) ==> ResolvesAs(rd, rows, h, j, list)
  }

  /** They resolve to one list, which is that from before if no document sets it in its last version. */
  ghost predicate SettersAgree(rd: Reader, rows: Rows, h: History, u: LG.Uri) {
    if LastsUnset(h, SetsUpstream(rd, u)) then AllResolveAs(rd, rows, h, u, UpstreamAt(rows, u))
    else exists list :: AllResolveAs(rd, rows, h, u, list)
  }

  lemma AgreeingSetter(rd: Reader, rows: Rows, h: History, u: LG.Uri, list: seq<LG.Uri>, a: seq<LG.Uri>)
    requires AllResolveAs(rd, rows, h, u, list) && Leaves(rd, rows, h, u, a)
    requires LastsUnset(h, SetsUpstream(rd, u)) ==> list == UpstreamAt(rows, u)
    ensures a == list
  {
    if j :| Leads(rd, rows, h, u, j, a) {
      assert ResolvesAs(rd, rows, h, j, list);
      OneChoice(rd, Seen(rd, rows, h, j), rd.Refs(h[j.at]), a, list);
    }
  }

  lemma LeadsLeaves(rd: Reader, rows: Rows, h: History, u: LG.Uri, j: Stretch, list: seq<LG.Uri>)
    requires CanSet(h, SetsUpstream(rd, u), j) && Choices(rd, Seen(rd, rows, h, j), rd.Refs(h[j.at]), list)
    ensures Leaves(rd, rows, h, u, list)
  {
    assert Leads(rd, rows, h, u, j, list);
  }

  lemma OnlyOneLeft(rd: Reader, rows: Rows, h: History, u: LG.Uri, j: Stretch, list: seq<LG.Uri>)
    requires CanSet(h, SetsUpstream(rd, u), j) && forall a :: Leaves(rd, rows, h, u, a) ==> a == list
    ensures ResolvesAs(rd, rows, h, j, list)
  {
    var seen, refs := Seen(rd, rows, h, j), rd.Refs(h[j.at]);
    LeadsLeaves(rd, rows, h, u, j, Targets(rd, seen, refs));
    if !Clear(rd, seen, refs) {
      var a, b := TwoChoices(rd, seen, refs);
      LeadsLeaves(rd, rows, h, u, j, a);
      LeadsLeaves(rd, rows, h, u, j, b);
    }
  }

  lemma AgreeIffOne(rd: Reader, rows: Rows, h: History, u: LG.Uri, list: seq<LG.Uri>)
    requires Leaves(rd, rows, h, u, list)
    ensures SettersAgree(rd, rows, h, u) <==> forall a :: Leaves(rd, rows, h, u, a) ==> a == list
  {
    if SettersAgree(rd, rows, h, u) {
      var b :| AllResolveAs(rd, rows, h, u, b) && (LastsUnset(h, SetsUpstream(rd, u)) ==> b == UpstreamAt(rows, u));
      forall a | Leaves(rd, rows, h, u, a) ensures a == b { AgreeingSetter(rd, rows, h, u, b, a); }
    }
    if forall a :: Leaves(rd, rows, h, u, a) ==> a == list {
      forall j | CanSet(h, SetsUpstream(rd, u), j) ensures ResolvesAs(rd, rows, h, j, list) { OnlyOneLeft(rd, rows, h, u, j, list); }
      assert LastsUnset(h, SetsUpstream(rd, u)) ==> Leaves(rd, rows, h, u, UpstreamAt(rows, u));
      assert AllResolveAs(rd, rows, h, u, list);
    }
  }

  /** The upstream list of an entry, of however many documents, does not depend on the schedule exactly when the references
      of all jobs that can be the last to set it resolve in one way only, and to one list; which must be the one from before,
      if no document has references in its last version. */
  lemma UpstreamSafeIff(rd: Reader, rows: Rows, h: History, u: LG.Uri)
    requires LG.Named(rows) && RefsSteady(rd, h, u)
    ensures UpstreamSafe(rd, rows, h, u) <==> SettersAgree(rd, rows, h, u)
  {
    SafeIffOne(rd, rows, h, u);
    var inOrder := Choose(rd, rows, h);
    var order := InOrder(h, |h|);
    var list := UpstreamAt(Catalog(rd, rows, Jobs(h, order), inOrder), u);
    assert Ends(rd, rows, h, u, list);
    EndsIff(rd, rows, h, u, list);
    AgreeIffOne(rd, rows, h, u, list);
    forall a ensures Ends(rd, rows, h, u, a) <==> Leaves(rd, rows, h, u, a) { EndsIff(rd, rows, h, u, a); }
  }

  lemma SeenGrows(rd: Reader, rows: Rows, h: History, p: nat, q: nat, a: nat)
    requires p <= q <= a < |h|
    ensures Seen(rd, rows, h, Stretch(p, a)) <= Seen(rd, rows, h, Stretch(q, a))
  {
    assert forall job :: job in h[..p] ==> job in h[..q];
  }

  // ---------------------------------------------------------------------------------------------
  // Downstream lists
  // ---------------------------------------------------------------------------------------------

  /** e lists u downstream. */
  ghost predicate Lists(rows: Rows, e: LG.Uri, u: LG.Uri) {
    e in rows && u in rows[e].downstream
  }

  ghost predicate DownstreamSafe(rd: Reader, rows: Rows, h: History, u: LG.Uri, e: LG.Uri) {
    forall states: seq<State>, steps: seq<Step>, targets, inOrder ::
      DrainedRun(states, steps, h) && Lawful(rd, rows, states[|steps|].done, targets) && Lawful(rd, rows, h, inOrder) ==>
        (Lists(Catalog(rd, rows, states[|steps|].done, targets), e, u) <==> Lists(Catalog(rd, rows, h, inOrder), e, u))
  }

  /** A job of u whose references resolved to e, which is no placeholder. */
  ghost predicate Hits(rd: Reader, u: LG.Uri, e: LG.Uri, job: Job, targets: seq<LG.Uri>) {
    rd.Uri(job) == u && e in targets && !LG.IsPlaceholder(e)
  }

  ghost predicate SomeHits(rd: Reader, u: LG.Uri, e: LG.Uri, h: History, targets: seq<seq<LG.Uri>>)
    requires |targets| == |h|
  {
    exists n :: 0 <= n < |h| && Hits(rd, u, e, h[n], targets[n])
  }

  lemma SomeHitsSnoc(rd: Reader, u: LG.Uri, e: LG.Uri, h: History, targets: seq<seq<LG.Uri>>)
    requires |targets| == |h| > 0
    ensures var n := |h| - 1; SomeHits(rd, u, e, h, targets) <==> SomeHits(rd, u, e, h[..n], targets[..n]) || Hits(rd, u, e, h[n], targets[n])
  {
    var n := |h| - 1;
    if i :| 0 <= i < n && Hits(rd, u, e, h[..n][i], targets[..n][i]) { assert Hits(rd, u, e, h[i], targets[i]); }
    if i :| 0 <= i < n && Hits(rd, u, e, h[i], targets[i]) { assert Hits(rd, u, e, h[..n][i], targets[..n][i]); }
  }

  lemma {:induction false} ListsIs(rd: Reader, rows: Rows, h: History, targets: seq<seq<LG.Uri>>, u: LG.Uri, e: LG.Uri)
    requires LG.Named(rows) && Lawful(rd, rows, h, targets)
    ensures Lists(Catalog(rd, rows, h, targets), e, u) <==> Lists(rows, e, u) || SomeHits(rd, u, e, h, targets)
  {
    if h != [] {
      var n := |h| - 1;
      LawfulPrefix(rd, rows, h, targets);
      ListsIs(rd, rows, h[..n], targets[..n], u, e);
      ListsNext(rd, rows, h, targets, u, e);
      SomeHitsSnoc(rd, u, e, h, targets);
    }
  }

  lemma LawfulPrefix(rd: Reader, rows: Rows, h: History, targets: seq<seq<LG.Uri>>)
    requires Lawful(rd, rows, h, targets) && h != []
    ensures Lawful(rd, rows, h[..|h| - 1], targets[..|h| - 1])
  {
    var n := |h| - 1;
    forall i | 0 <= i < n ensures LawfulAt(rd, rows, h[..n], targets[..n], i) {
      assert h[..n][..i] == h[..i] && targets[..n][..i] == targets[..i];
      assert LawfulAt(rd, rows, h, targets, i);
    }
  }

  lemma ListsNext(rd: Reader, rows: Rows, h: History, targets: seq<seq<LG.Uri>>, u: LG.Uri, e: LG.Uri)
    requires LG.Named(rows) && Lawful(rd, rows, h, targets) && h != []
    ensures var n := |h| - 1;
            (Lists(Catalog(rd, rows, h[..n], targets[..n]), e, u) || Hits(rd, u, e, h[n], targets[n]))
              <==> Lists(Catalog(rd, rows, h, targets), e, u)
  {
    var n := |h| - 1;
    PutUpdateAt(Catalog(rd, rows, h[..n], targets[..n]), UpdateOf(rd, h[n], targets[n]), e);
    CatalogKeys(rd, rows, h, targets);
    NamedIsNoPlaceholder(Catalog(rd, rows, h, targets), e);
    HitIsKnown(rd, rows, h, targets, u, e, n);
  }

  lemma HitIsKnown(rd: Reader, rows: Rows, h: History, targets: seq<seq<LG.Uri>>, u: LG.Uri, e: LG.Uri, n: nat)
    requires LG.Named(rows) && Lawful(rd, rows, h, targets) && n == |h| - 1
    ensures Hits(rd, u, e, h[n], targets[n]) ==> e in Keys(rd, rows, h)
  {
    assert h[..n + 1] == h && LawfulAt(rd, rows, h, targets, n);
    LawfulIff(rd, rows, h, targets, n);
    if Hits(rd, u, e, h[n], targets[n]) { ChosenIsKnown(rd, Keys(rd, rows, h), rd.Refs(h[n]), targets[n], e); }
  }

  lemma NamedIsNoPlaceholder(rows: Rows, e: LG.Uri)
    requires LG.Named(rows)
    ensures e in rows ==> !LG.IsPlaceholder(e)
  {
    if e in rows {
      var t :| e == LG.TableUri(t, rows[e].name);
      LG.TableUriIsNoPlaceholder(t, rows[e].name);
    }
  }

  lemma ChosenIsKnown(rd: Reader, known: set<LG.Uri>, refs: seq<string>, targets: seq<LG.Uri>, e: LG.Uri)
    requires Choices(rd, known, refs, targets) && e in targets && !LG.IsPlaceholder(e)
    ensures e in known && exists ref :: ref in refs && rd.Match(ref, e)
  {
    var i :| 0 <= i < |targets| && targets[i] == e;
    assert Choice(rd, known, refs[i], e) && refs[i] in refs;
  }

  /** Jobs of u with a reference that matches e. */
  ghost predicate Mentions(rd: Reader, u: LG.Uri, e: LG.Uri, job: Job) {
    rd.Uri(job) == u && exists ref :: ref in rd.Refs(job) && rd.Match(ref, e)
  }

  /** The job can put u into the downstream list of e. */
  ghost predicate May(rd: Reader, rows: Rows, h: History, u: LG.Uri, e: LG.Uri, j: Stretch) {
    j.from <= j.at < |h| && Mentions(rd, u, e, h[j.at]) && e in Seen(rd, rows, h, j)
  }

  ghost predicate Forced(rd: Reader, known: set<LG.Uri>, refs: seq<string>, e: LG.Uri) {
    exists ref :: ref in refs && e in known && rd.Match(ref, e) && forall e' :: e' in known && rd.Match(ref, e') ==> e' == e
  }

  /** And cannot but do so: a reference of it matches e and no other entry. */
  ghost predicate Must(rd: Reader, rows: Rows, h: History, u: LG.Uri, e: LG.Uri, j: Stretch) {
    j.from <= j.at < |h| && rd.Uri(h[j.at]) == u && Forced(rd, Seen(rd, rows, h, j), rd.Refs(h[j.at]), e)
  }

  /** Resolutions of the references that avoid e wherever possible. */
  lemma Avoid(rd: Reader, known: set<LG.Uri>, refs: seq<string>, e: LG.Uri) returns (targets: seq<LG.Uri>)
    ensures Choices(rd, known, refs, targets) && (e in targets && !LG.IsPlaceholder(e) ==> Forced(rd, known, refs, e))
  {
    targets := seq(|refs|, i requires 0 <= i < |refs| => OtherThan(rd, known, refs[i], e));
    if e in targets && !LG.IsPlaceholder(e) {
      var i :| 0 <= i < |refs| && targets[i] == e;
      assert refs[i] in refs;
    }
  }

  ghost function OtherThan(rd: Reader, known: set<LG.Uri>, ref: string, e: LG.Uri): (t: LG.Uri)
    ensures Choice(rd, known, ref, t)
    ensures t == e && !LG.IsPlaceholder(e) ==> e in known && rd.Match(ref, e) && forall e' :: e' in known && rd.Match(ref, e') ==> e' == e
  {
    if e' :| e' in known && rd.Match(ref, e') && e' != e then e' else The(rd, known, ref)
  }

  lemma ForcedIsChosen(rd: Reader, known: set<LG.Uri>, refs: seq<string>, targets: seq<LG.Uri>, e: LG.Uri)
    requires Choices(rd, known, refs, targets) && Forced(rd, known, refs, e)
    ensures e in targets
  {
    var ref :| ref in refs && e in known && rd.Match(ref, e) && forall e' :: e' in known && rd.Match(ref, e') ==> e' == e;
    var i :| 0 <= i < |refs| && refs[i] == ref;
    assert Choice(rd, known, refs[i], targets[i]);
    assert targets[i] == e;
  }

  lemma MatchIsNoPlaceholder(rd: Reader, ref: string, e: LG.Uri)
    requires rd.Match(ref, e)
    ensures !LG.IsPlaceholder(e)
  {
    var t, name :| e == LG.TableUri(t, name) && rd.matches(ref, e, name);
    LG.TableUriIsNoPlaceholder(t, name);
  }

  /** What job y of a drained queue can do to the downstream list of e. */
  lemma JobHits(rd: Reader, rows: Rows, h: History, js: seq<Stretch>, y: nat, targets: seq<seq<LG.Uri>>, u: LG.Uri, e: LG.Uri)
    requires LG.Named(rows) && RefsSteady(rd, h, u) && IsTrace(h, js) && y < |js| && Lawful(rd, rows, Jobs(h, js), targets)
    ensures Hits(rd, u, e, Jobs(h, js)[y], targets[y]) ==> May(rd, rows, h, u, e, js[y])
    ensures Must(rd, rows, h, u, e, js[y]) ==> Hits(rd, u, e, Jobs(h, js)[y], targets[y])
  {
    var j := js[y];
    if rd.Uri(h[j.at]) == u {
      assert LawfulAt(rd, rows, Jobs(h, js), targets, y);
      LawfulIff(rd, rows, Jobs(h, js), targets, y);
      SeenChoices(rd, rows, h, js, y, targets[y]);
      if Hits(rd, u, e, h[j.at], targets[y]) { ChosenIsKnown(rd, Seen(rd, rows, h, j), rd.Refs(h[j.at]), targets[y], e); }
      if Must(rd, rows, h, u, e, j) {
        ForcedIsChosen(rd, Seen(rd, rows, h, j), rd.Refs(h[j.at]), targets[y], e);
        var ref :| ref in rd.Refs(h[j.at]) && rd.Match(ref, e);
        MatchIsNoPlaceholder(rd, ref, e);
      }
    }
  }

  /** A lawful choice for job y that puts u into the list of e only if it must. */
  ghost predicate Avoids(rd: Reader, rows: Rows, h: History, js: seq<Stretch>, u: LG.Uri, e: LG.Uri, y: nat,
                         targets: seq<LG.Uri>)
    requires In(h, js) && y < |js|
  {
    && Choices(rd, Keys(rd, rows, Jobs(h, js)[..y + 1]), rd.Refs(Jobs(h, js)[y]), targets)
    && (Hits(rd, u, e, Jobs(h, js)[y], targets) ==> Must(rd, rows, h, u, e, js[y]))
  }

  lemma AvoidOne(rd: Reader, rows: Rows, h: History, js: seq<Stretch>, u: LG.Uri, e: LG.Uri,
                 n: nat) returns (targets: seq<LG.Uri>)
    requires RefsSteady(rd, h, u) && IsTrace(h, js) && n < |js|
    ensures Avoids(rd, rows, h, js, u, e, n, targets)
  {
    var job := Jobs(h, js)[n];
    if rd.Uri(job) == u {
      targets := Avoid(rd, Seen(rd, rows, h, js[n]), rd.Refs(job), e);
      SeenChoices(rd, rows, h, js, n, targets);
    } else {
      targets := Targets(rd, Keys(rd, rows, Jobs(h, js)[..n + 1]), rd.Refs(job));
    }
  }

  ghost predicate AvoidsUpTo(rd: Reader, rows: Rows, h: History, js: seq<Stretch>, u: LG.Uri, e: LG.Uri,
                             targets: seq<seq<LG.Uri>>)
    requires In(h, js) && |targets| <= |js|
  {
    forall y :: 0 <= y < |targets| ==> Avoids(rd, rows, h, js, u, e, y, targets[y])
  }

  lemma AvoidsNext(rd: Reader, rows: Rows, h: History, js: seq<Stretch>, u: LG.Uri, e: LG.Uri, most: seq<seq<LG.Uri>>,
                   last: seq<LG.Uri>)
    requires In(h, js) && |most| < |js| && AvoidsUpTo(rd, rows, h, js, u, e, most)
    requires Avoids(rd, rows, h, js, u, e, |most|, last)
    ensures AvoidsUpTo(rd, rows, h, js, u, e, most + [last])
  {
    var targets := most + [last];
    forall y | 0 <= y < |targets| ensures Avoids(rd, rows, h, js, u, e, y, targets[y]) {
      if y < |most| { assert Avoids(rd, rows, h, js, u, e, y, most[y]); }
    }
  }

  lemma {:induction false} AvoidUpTo(rd: Reader, rows: Rows, h: History, js: seq<Stretch>, u: LG.Uri, e: LG.Uri, n: nat)
    returns (targets: seq<seq<LG.Uri>>)
    requires RefsSteady(rd, h, u) && IsTrace(h, js) && n <= |js|
    ensures |targets| == n && AvoidsUpTo(rd, rows, h, js, u, e, targets)
  {
    targets := [];
    if n > 0 {
      var most := AvoidUpTo(rd, rows, h, js, u, e, n - 1);
      var last := AvoidOne(rd, rows, h, js, u, e, n - 1);
      AvoidsNext(rd, rows, h, js, u, e, most, last);
      targets := most + [last];
    }
  }

  /** Some choices avoid e at every job where that can be. */
  lemma AvoidAll(rd: Reader, rows: Rows, h: History, js: seq<Stretch>, u: LG.Uri, e: LG.Uri) returns (targets: seq<seq<LG.Uri>>)
    requires LG.Named(rows) && RefsSteady(rd, h, u) && IsTrace(h, js)
    ensures Lawful(rd, rows, Jobs(h, js), targets)
    ensures forall y :: 0 <= y < |js| && Hits(rd, u, e, Jobs(h, js)[y], targets[y]) ==> Must(rd, rows, h, u, e, js[y])
  {
    targets := AvoidUpTo(rd, rows, h, js, u, e, |js|);
    forall n | 0 <= n < |js|
      ensures LawfulAt(rd, rows, Jobs(h, js), targets, n)
      ensures Hits(rd, u, e, Jobs(h, js)[n], targets[n]) ==> Must(rd, rows, h, u, e, js[n])
    {
      assert Avoids(rd, rows, h, js, u, e, n, targets[n]);
      LawfulIff(rd, rows, Jobs(h, js), targets, n);
    }
  }

  /** The jobs of u with references that match e are of one document. */
  ghost predicate OnlyMentions(rd: Reader, h: History, u: LG.Uri, e: LG.Uri, k: string) {
    forall i :: 0 <= i < |h| && Mentions(rd, u, e, h[i]) ==> h[i].0 == k
  }

  /** No version can put u into the list when it is processed on arrival, or every choice of jobs has one that must. */
  ghost predicate DownstreamSettled(rd: Reader, rows: Rows, h: History, u: LG.Uri, e: LG.Uri, k: string) {
    || Lists(rows, e, u)
    || (forall a :: 0 <= a < |h| && h[a].0 == k ==> !May(rd, rows, h, u, e, Stretch(a, a)))
    || !Escapes(h, k, j => !Must(rd, rows, h, u, e, j), FirstFrom(h, k, 0))
  }

  /** A schedule after which e lists u. */
  ghost predicate CanList(rd: Reader, rows: Rows, h: History, u: LG.Uri, e: LG.Uri, lists: bool) {
    exists js: seq<Stretch>, targets ::
      IsTrace(h, js) && Lawful(rd, rows, Jobs(h, js), targets) && (Lists(Catalog(rd, rows, Jobs(h, js), targets), e, u) <==> lists)
  }

  lemma ListedSafeIff(rd: Reader, rows: Rows, h: History, u: LG.Uri, e: LG.Uri)
    requires LG.Named(rows)
    ensures DownstreamSafe(rd, rows, h, u, e) <==> !(CanList(rd, rows, h, u, e, true) && CanList(rd, rows, h, u, e, false))
  {
    var order := InOrder(h, |h|);
    if DownstreamSafe(rd, rows, h, u, e) {
      var inOrder := Choose(rd, rows, h);
      forall lists | CanList(rd, rows, h, u, e, lists) ensures lists <==> Lists(Catalog(rd, rows, h, inOrder), e, u) {
        var js: seq<Stretch>, targets :|
          IsTrace(h, js) && Lawful(rd, rows, Jobs(h, js), targets) && (Lists(Catalog(rd, rows, Jobs(h, js), targets), e, u) <==> lists);
        var states, steps := Realize(h, js);
      }
    } else {
      var states: seq<State>, steps: seq<Step>, targets, inOrder :|
        DrainedRun(states, steps, h) && Lawful(rd, rows, states[|steps|].done, targets) && Lawful(rd, rows, h, inOrder) &&
        !(Lists(Catalog(rd, rows, states[|steps|].done, targets), e, u) <==> Lists(Catalog(rd, rows, h, inOrder), e, u));
      var js := DrainedTrace(states, steps, h);
      assert CanList(rd, rows, h, u, e, Lists(Catalog(rd, rows, Jobs(h, js), targets), e, u));
      assert CanList(rd, rows, h, u, e, Lists(Catalog(rd, rows, Jobs(h, order), inOrder), e, u));
    }
  }

  /** Some choice for the references of a version that may do so is e. */
  lemma MayChoose(rd: Reader, rows: Rows, h: History, u: LG.Uri, e: LG.Uri, j: Stretch) returns (at: seq<LG.Uri>)
    requires May(rd, rows, h, u, e, j)
    ensures Choices(rd, Seen(rd, rows, h, j), rd.Refs(h[j.at]), at) && Hits(rd, u, e, h[j.at], at)
  {
    var known, refs := Seen(rd, rows, h, j), rd.Refs(h[j.at]);
    var ref :| ref in refs && rd.Match(ref, e);
    MatchIsNoPlaceholder(rd, ref, e);
    var i :| 0 <= i < |refs| && refs[i] == ref;
    at := ChooseInstead(rd, known, refs, Targets(rd, known, refs), i, e);
  }

  lemma ChooseInstead(rd: Reader, known: set<LG.Uri>, refs: seq<string>, targets: seq<LG.Uri>, i: nat, e: LG.Uri)
    returns (at: seq<LG.Uri>)
    requires Choices(rd, known, refs, targets) && i < |refs| && Choice(rd, known, refs[i], e)
    ensures Choices(rd, known, refs, at) && e in at
  {
    at := targets[i := e];
    assert at[i] == e;
  }

  /** Processed on arrival, such a version puts u into the list. */
  lemma MayList(rd: Reader, rows: Rows, h: History, u: LG.Uri, e: LG.Uri, a: nat)
    requires LG.Named(rows) && RefsSteady(rd, h, u) && a < |h| && May(rd, rows, h, u, e, Stretch(a, a))
    ensures CanList(rd, rows, h, u, e, true)
  {
    var js := InOrder(h, |h|);
    var at := MayChoose(rd, rows, h, u, e, js[a]);
    SeenChoices(rd, rows, h, js, a, at);
    var targets := ChooseAt(rd, rows, Jobs(h, js), a, at);
    assert SomeHits(rd, u, e, Jobs(h, js), targets);
    ListsIs(rd, rows, Jobs(h, js), targets, u, e);
  }

  lemma EscapeList(rd: Reader, rows: Rows, h: History, u: LG.Uri, e: LG.Uri, k: string, js: seq<Stretch>)
    requires LG.Named(rows) && RefsSteady(rd, h, u) && OnlyMentions(rd, h, u, e, k) && !Lists(rows, e, u)
    requires IsTrace(h, js) && AllGood(h, js, k, j => !Must(rd, rows, h, u, e, j))
    ensures CanList(rd, rows, h, u, e, false)
  {
    var targets := AvoidAll(rd, rows, h, js, u, e);
    ListsIs(rd, rows, Jobs(h, js), targets, u, e);
    forall y | 0 <= y < |js| ensures !Hits(rd, u, e, Jobs(h, js)[y], targets[y]) {
      JobHits(rd, rows, h, js, y, targets, u, e);
    }
  }

  /** If e may come to list u, one of the document's versions may bring that about. */
  lemma ListedMay(rd: Reader, rows: Rows, h: History, u: LG.Uri, e: LG.Uri, k: string) returns (a: nat)
    requires LG.Named(rows) && RefsSteady(rd, h, u) && OnlyMentions(rd, h, u, e, k) && !Lists(rows, e, u)
    requires CanList(rd, rows, h, u, e, true)
    ensures a < |h| && h[a].0 == k && May(rd, rows, h, u, e, Stretch(a, a))
  {
    var js: seq<Stretch>, targets :|
      IsTrace(h, js) && Lawful(rd, rows, Jobs(h, js), targets) && Lists(Catalog(rd, rows, Jobs(h, js), targets), e, u);
    ListsIs(rd, rows, Jobs(h, js), targets, u, e);
    var y :| 0 <= y < |js| && Hits(rd, u, e, Jobs(h, js)[y], targets[y]);
    JobHits(rd, rows, h, js, y, targets, u, e);
    a := js[y].at;
    SeenGrows(rd, rows, h, js[y].from, a, a);
  }

  /** If it need not, the jobs of the document can all be ones that need not. */
  lemma UnlistedEscapes(rd: Reader, rows: Rows, h: History, u: LG.Uri, e: LG.Uri, k: string)
    requires LG.Named(rows) && RefsSteady(rd, h, u) && !Lists(rows, e, u) && CanList(rd, rows, h, u, e, false)
    ensures Escapes(h, k, j => !Must(rd, rows, h, u, e, j), FirstFrom(h, k, 0))
  {
    var js: seq<Stretch>, targets :|
      IsTrace(h, js) && Lawful(rd, rows, Jobs(h, js), targets) && !Lists(Catalog(rd, rows, Jobs(h, js), targets), e, u);
    ListsIs(rd, rows, Jobs(h, js), targets, u, e);
    forall y | 0 <= y < |js| ensures !Must(rd, rows, h, u, e, js[y]) {
      JobHits(rd, rows, h, js, y, targets, u, e);
    }
    EscapesIff(h, k, j => !Must(rd, rows, h, u, e, j));
  }

  /** If only one document of u refers to e: whether e lists u downstream does not depend on the schedule, exactly when it
      did before; or no version of the document, processed on arrival, has a reference that may resolve to e; or in every
      choice of jobs for the document there is one with a reference that matches e and nothing else then in the catalog. */
  lemma DownstreamSafeIff(rd: Reader, rows: Rows, h: History, u: LG.Uri, e: LG.Uri, k: string)
    requires LG.Named(rows) && RefsSteady(rd, h, u) && OnlyMentions(rd, h, u, e, k)
    ensures DownstreamSafe(rd, rows, h, u, e) <==> DownstreamSettled(rd, rows, h, u, e, k)
  {
    ListedSafeIff(rd, rows, h, u, e);
    if Lists(rows, e, u) {
      forall js: seq<Stretch>, targets | IsTrace(h, js) && Lawful(rd, rows, Jobs(h, js), targets)
        ensures Lists(Catalog(rd, rows, Jobs(h, js), targets), e, u)
      {
        ListsIs(rd, rows, Jobs(h, js), targets, u, e);
      }
    } else {
      if CanList(rd, rows, h, u, e, true) && CanList(rd, rows, h, u, e, false) {
        var a := ListedMay(rd, rows, h, u, e, k);
        UnlistedEscapes(rd, rows, h, u, e, k);
      }
      if !DownstreamSettled(rd, rows, h, u, e, k) {
        var a :| 0 <= a < |h| && h[a].0 == k && May(rd, rows, h, u, e, Stretch(a, a));
        MayList(rd, rows, h, u, e, a);
        EscapesIff(h, k, j => !Must(rd, rows, h, u, e, j));
        var js :| IsTrace(h, js) && AllGood(h, js, k, j => !Must(rd, rows, h, u, e, j));
        EscapeList(rd, rows, h, u, e, k, js);
      }
    }
  }

  // ---------------------------------------------------------------------------------------------
  // Entries, and fields that updates set or leave alone
  // ---------------------------------------------------------------------------------------------

  /** Whether e is catalogued does not depend on the schedule. */
  ghost predicate EntrySafe(rd: Reader, rows: Rows, h: History, e: LG.Uri) {
    forall states: seq<State>, steps: seq<Step>, targets, inOrder ::
      DrainedRun(states, steps, h) && Lawful(rd, rows, states[|steps|].done, targets) && Lawful(rd, rows, h, inOrder) ==>
        (e in Catalog(rd, rows, states[|steps|].done, targets) <==> e in Catalog(rd, rows, h, inOrder))
  }

  lemma CataloguedIff(rd: Reader, rows: Rows, h: History, targets: seq<seq<LG.Uri>>, e: LG.Uri)
    requires |targets| == |h|
    ensures e in Catalog(rd, rows, h, targets) <==> e in rows || Fed(rd, h, |h|, e)
  {
    CatalogKeys(rd, rows, h, targets);
    KnownIff(rd, rows, h, |h|, e);
    assert h[..|h|] == h;
  }

  /** Update i, the last one of its document, gives it the entry e. */
  ghost predicate FedLast(rd: Reader, h: History, e: LG.Uri, i: int) {
    0 <= i < |h| && rd.Uri(h[i]) == e && i == LastOf(h, h[i].0)
  }

  /** That is so exactly when it was before, or no document ever has this type and name, or one has in its last version. */
  lemma EntrySafeIff(rd: Reader, rows: Rows, h: History, e: LG.Uri)
    requires LG.Named(rows)
    ensures EntrySafe(rd, rows, h, e) <==> e in rows || !Fed(rd, h, |h|, e) || exists i :: FedLast(rd, h, e, i)
  {
    if e in rows || !Fed(rd, h, |h|, e) || exists i :: FedLast(rd, h, e, i) {
      forall states: seq<State>, steps: seq<Step>, targets, inOrder |
        DrainedRun(states, steps, h) && Lawful(rd, rows, states[|steps|].done, targets) && Lawful(rd, rows, h, inOrder)
        ensures e in Catalog(rd, rows, states[|steps|].done, targets) <==> e in Catalog(rd, rows, h, inOrder)
      {
        var js := DrainedTrace(states, steps, h);
        CataloguedIff(rd, rows, Jobs(h, js), targets, e);
        CataloguedIff(rd, rows, h, inOrder, e);
        FedByTrace(rd, h, js, e);
      }
    } else {
      var js := Batch(h, 0, |h|);
      forall x | 0 <= x < |js| ensures rd.Uri(Jobs(h, js)[x]) != e {
        BatchEnds(h, js, x);
        assert !FedLast(rd, h, e, js[x].at);
      }
      var states, steps := Realize(h, js);
      var targets := Choose(rd, rows, Jobs(h, js));
      var inOrder := Choose(rd, rows, h);
      CataloguedIff(rd, rows, Jobs(h, js), targets, e);
      CataloguedIff(rd, rows, h, inOrder, e);
    }
  }

  lemma FedByTrace(rd: Reader, h: History, js: seq<Stretch>, e: LG.Uri)
    requires IsTrace(h, js)
    ensures Fed(rd, Jobs(h, js), |js|, e) ==> Fed(rd, h, |h|, e)
    ensures (exists i :: FedLast(rd, h, e, i)) ==> Fed(rd, Jobs(h, js), |js|, e)
  {
    if x :| 0 <= x < |js| && rd.Uri(Jobs(h, js)[x]) == e { assert rd.Uri(h[js[x].at]) == e; }
    if i :| FedLast(rd, h, e, i) {
      var x := LastJob(h, js, h[i].0);
      assert rd.Uri(Jobs(h, js)[x]) == e;
    }
  }

  /** A field that a job sets or leaves alone, after a history of jobs. */
  function Field<V>(h: History, set_: Job -> Option<V>, init: V): V {
    if h == [] then init
    else
      match set_(h[|h| - 1])
      case Some(v) => v
      case None => Field(h[..|h| - 1], set_, init)
  }

  lemma {:induction false} FieldIs<V>(h: History, set_: Job -> Option<V>, init: V, y: int)
    requires -1 <= y < |h| && (y >= 0 ==> set_(h[y]).Some?) && forall z :: y < z < |h| ==> set_(h[z]) == None
    ensures Field(h, set_, init) == if y < 0 then init else set_(h[y]).value
  {
    if y < |h| - 1 { FieldIs(h[..|h| - 1], set_, init, y); }
  }

  ghost predicate FieldSafe<V(!new)>(h: History, set_: Job -> Option<V>, init: V) {
    forall states: seq<State>, steps: seq<Step> :: DrainedRun(states, steps, h) ==>
      Field(states[|steps|].done, set_, init) == Field(h, set_, init)
  }

  function Setting<V>(set_: Job -> Option<V>): Job -> bool {
    (job: Job) => set_(job).Some?
  }

  /** The jobs that can be the last to set the field set it to one value, the one from before if no last version sets it. */
  ghost predicate FieldAgrees<V(!new)>(h: History, set_: Job -> Option<V>, init: V) {
    if LastsUnset(h, Setting(set_)) then AllSetTo(h, set_, init) else exists v :: AllSetTo(h, set_, v)
  }

  ghost predicate AllSetTo<V>(h: History, set_: Job -> Option<V>, v: V) {
    forall j :: CanSet(h, Setting(set_), j) ==> set_(h[j.at]) == Some(v)
  }

  lemma TraceField<V>(h: History, js: seq<Stretch>, set_: Job -> Option<V>, init: V) returns (y: int)
    requires IsTrace(h, js)
    ensures if y < 0 then Field(Jobs(h, js), set_, init) == init && LastsUnset(h, Setting(set_))
            else y < |js| && CanSet(h, Setting(set_), js[y]) && set_(h[js[y].at]) == Some(Field(Jobs(h, js), set_, init))
  {
    y := FindSetter(h, js, Setting(set_));
    if y < 0 {
      FieldIs(Jobs(h, js), set_, init, -1);
      assert Unset(h, js, Setting(set_));
      UnsetExact(h, Setting(set_));
    } else {
      FieldIs(Jobs(h, js), set_, init, y);
      SetterCanSet(h, js, Setting(set_), y);
    }
  }

  lemma SafeField<V(!new)>(h: History, set_: Job -> Option<V>, init: V)
    requires FieldAgrees(h, set_, init)
    ensures FieldSafe(h, set_, init)
  {
    var v :| AllSetTo(h, set_, v) && (LastsUnset(h, Setting(set_)) ==> v == init);
    var order := InOrder(h, |h|);
    var y := TraceField(h, order, set_, init);
    forall states: seq<State>, steps: seq<Step> | DrainedRun(states, steps, h)
      ensures Field(states[|steps|].done, set_, init) == Field(h, set_, init)
    {
      var js := DrainedTrace(states, steps, h);
      var y' := TraceField(h, js, set_, init);
    }
  }

  /** A safe field is left as in the order of the updates by every job that can be the last to set it. */
  lemma SafeFieldSet<V(!new)>(h: History, set_: Job -> Option<V>, init: V, j: Stretch)
    requires FieldSafe(h, set_, init) && CanSet(h, Setting(set_), j)
    ensures set_(h[j.at]) == Some(Field(h, set_, init))
  {
    var js, y := SetRun(h, Setting(set_), j);
    FieldIs(Jobs(h, js), set_, init, y);
    var states, steps := Realize(h, js);
  }

  lemma SafeFieldUnset<V(!new)>(h: History, set_: Job -> Option<V>, init: V)
    requires FieldSafe(h, set_, init) && LastsUnset(h, Setting(set_))
    ensures Field(h, set_, init) == init
  {
    UnsetExact(h, Setting(set_));
    var js :| IsTrace(h, js) && Unset(h, js, Setting(set_));
    FieldIs(Jobs(h, js), set_, init, -1);
    var states, steps := Realize(h, js);
  }

  /** A field that updates, of however many documents, set or leave alone is safe from coalescing exactly when all jobs that
      can be the last to set it set it to one value; which must be the one from before, if no last version sets it. */
  lemma FieldSafeIff<V(!new)>(h: History, set_: Job -> Option<V>, init: V)
    ensures FieldSafe(h, set_, init) <==> FieldAgrees(h, set_, init)
  {
    if FieldAgrees(h, set_, init) { SafeField(h, set_, init); }
    if FieldSafe(h, set_, init) {
      forall j | CanSet(h, Setting(set_), j) ensures set_(h[j.at]) == Some(Field(h, set_, init)) { SafeFieldSet(h, set_, init, j); }
      assert AllSetTo(h, set_, Field(h, set_, init));
      if LastsUnset(h, Setting(set_)) { SafeFieldUnset(h, set_, init); }
    }
  }

  // ---------------------------------------------------------------------------------------------
  // Failing runs
  // ---------------------------------------------------------------------------------------------

  /** All updates are of one entry. */
  lemma OneEntry(rd: Reader, h: History, u: LG.Uri)
    requires forall i :: 0 <= i < |h| ==> rd.Uri(h[i]) == u
    ensures RefsSteady(rd, h, u)
  {
  }

  /** Of two updates of a document, the first with references and the second without, a schedule processes the second only,
      and the references that processing both would have left are missing. */
  lemma ReferencesLost(rd: Reader, rows: Rows, k: string, v1: Json, v2: Json)
    requires LG.Named(rows) && rd.Uri((k, v1)) == rd.Uri((k, v2)) && rd.Refs((k, v1)) != [] && rd.Refs((k, v2)) == []
    requires !Choices(rd, rows.Keys + {rd.Uri((k, v1))}, rd.Refs((k, v1)), UpstreamAt(rows, rd.Uri((k, v1))))
    ensures !UpstreamSafe(rd, rows, [(k, v1), (k, v2)], rd.Uri((k, v1)))
  {
    var h, u := [(k, v1), (k, v2)], rd.Uri((k, v1));
    OneEntry(rd, h, u);
    UpstreamSafeIff(rd, rows, h, u);
    assert h[1].0 == k && LastOf(h, k) == 1;
    assert Keys(rd, rows, h[..0]) == rows.Keys;
    assert CanSet(h, SetsUpstream(rd, u), Stretch(0, 0)) && LastsUnset(h, SetsUpstream(rd, u));
  }

  /** The first of three updates of two documents waits when the third, of the same document, comes. */
  lemma ThirdFirst(k: string, v1: Json, j: string, w: Json, v2: Json) returns (js: seq<Stretch>)
    requires k != j
    ensures IsTrace([(k, v1), (j, w), (k, v2)], js) && Jobs([(k, v1), (j, w), (k, v2)], js) == [(k, v2), (j, w)]
  {
    var h := [(k, v1), (j, w), (k, v2)];
    js := [Stretch(0, 2), Stretch(1, 1)];
    assert Holds(h, js[0], 0) && Holds(h, js[1], 1) && Holds(h, js[0], 2);
  }

  /** A document gets a reference to another one, first updated between two updates of its own. In the order of the updates
      the reference resolves to the other's entry; with the two updates coalesced it is processed before there is one, and
      resolves to a placeholder. */
  lemma ForwardReference(rd: Reader, rows: Rows, k: string, v1: Json, j: string, w: Json, v2: Json, ref: string)
    returns (states: seq<State>, steps: seq<Step>)
    requires LG.Named(rows) && k != j && rd.Uri((k, v1)) == rd.Uri((k, v2)) && rd.Refs((k, v1)) == []
    requires rd.Refs((k, v2)) == [ref]
    requires rd.Match(ref, rd.Uri((j, w))) && rd.Uri((j, w)) != rd.Uri((k, v2))
    requires forall e :: e in rows.Keys + {rd.Uri((k, v2))} ==> !rd.Match(ref, e)
    ensures DrainedRun(states, steps, [(k, v1), (j, w), (k, v2)]) && states[|steps|].done == [(k, v2), (j, w)]
    ensures var u := rd.Uri((k, v2));
      && (forall targets :: Lawful(rd, rows, [(k, v1), (j, w), (k, v2)], targets) ==>
            UpstreamAt(Catalog(rd, rows, [(k, v1), (j, w), (k, v2)], targets), u) == [rd.Uri((j, w))])
      && (forall targets :: Lawful(rd, rows, [(k, v2), (j, w)], targets) ==>
            UpstreamAt(Catalog(rd, rows, [(k, v2), (j, w)], targets), u) == [LG.Placeholder(ref)])
  {
    var js := ThirdFirst(k, v1, j, w, v2);
    states, steps := Realize([(k, v1), (j, w), (k, v2)], js);
    var u := rd.Uri((k, v2));
    forall targets | Lawful(rd, rows, [(k, v1), (j, w), (k, v2)], targets)
      ensures UpstreamAt(Catalog(rd, rows, [(k, v1), (j, w), (k, v2)], targets), u) == [rd.Uri((j, w))]
    {
      FoundThird(rd, rows, [(k, v1), (j, w), (k, v2)], targets, u, ref);
    }
    forall targets | Lawful(rd, rows, [(k, v2), (j, w)], targets)
      ensures UpstreamAt(Catalog(rd, rows, [(k, v2), (j, w)], targets), u) == [LG.Placeholder(ref)]
    {
      NotFoundFirst(rd, rows, [(k, v2), (j, w)], targets, u, ref);
    }
  }

  lemma FoundThird(rd: Reader, rows: Rows, h: History, targets: seq<seq<LG.Uri>>, u: LG.Uri, ref: string)
    requires LG.Named(rows) && |h| == 3 && Lawful(rd, rows, h, targets) && rd.Uri(h[0]) == u == rd.Uri(h[2])
    requires rd.Refs(h[2]) == [ref]
    requires rd.Match(ref, rd.Uri(h[1])) && forall e :: e in rows.Keys + {u} ==> !rd.Match(ref, e)
    ensures UpstreamAt(Catalog(rd, rows, h, targets), u) == [rd.Uri(h[1])]
  {
    assert h[..3] == h == [h[0], h[1], h[2]] && h[1] in h;
    FoundLater(rd, rows, h, targets, u, ref, rd.Uri(h[1]), 2);
  }

  lemma NotFoundFirst(rd: Reader, rows: Rows, h: History, targets: seq<seq<LG.Uri>>, u: LG.Uri, ref: string)
    requires LG.Named(rows) && |h| == 2 && Lawful(rd, rows, h, targets) && rd.Uri(h[0]) == u != rd.Uri(h[1])
    requires rd.Refs(h[0]) == [ref]
    requires forall e :: e in rows.Keys + {u} ==> !rd.Match(ref, e)
    ensures UpstreamAt(Catalog(rd, rows, h, targets), u) == [LG.Placeholder(ref)]
  {
    assert h[..1] == [h[0]];
    NotFoundYet(rd, rows, h, targets, u, ref, 0);
  }

  lemma FoundLater(rd: Reader, rows: Rows, h: History, targets: seq<seq<LG.Uri>>, u: LG.Uri, ref: string, e: LG.Uri, y: nat)
    requires LG.Named(rows) && Lawful(rd, rows, h, targets) && y < |h| && rd.Uri(h[y]) == u && rd.Refs(h[y]) == [ref]
    requires forall z :: y < z < |h| ==> !SetsUpstream(rd, u)(h[z])
    requires e in Keys(rd, rows, h[..y + 1]) && rd.Match(ref, e)
    requires forall e' :: e' in Keys(rd, rows, h[..y + 1]) && rd.Match(ref, e') ==> e' == e
    ensures UpstreamAt(Catalog(rd, rows, h, targets), u) == [e]
  {
    SettingJob(rd, rows, h, targets, u, y);
    assert Choice(rd, Keys(rd, rows, h[..y + 1]), ref, targets[y][0]);
    assert targets[y] == [targets[y][0]];
  }

  lemma NotFoundYet(rd: Reader, rows: Rows, h: History, targets: seq<seq<LG.Uri>>, u: LG.Uri, ref: string, y: nat)
    requires LG.Named(rows) && Lawful(rd, rows, h, targets) && y < |h| && rd.Uri(h[y]) == u && rd.Refs(h[y]) == [ref]
    requires forall z :: y < z < |h| ==> !SetsUpstream(rd, u)(h[z])
    requires forall e :: e in Keys(rd, rows, h[..y + 1]) ==> !rd.Match(ref, e)
    ensures UpstreamAt(Catalog(rd, rows, h, targets), u) == [LG.Placeholder(ref)]
  {
    SettingJob(rd, rows, h, targets, u, y);
    assert Choice(rd, Keys(rd, rows, h[..y + 1]), ref, targets[y][0]);
    assert targets[y] == [targets[y][0]];
  }

  lemma SettingJob(rd: Reader, rows: Rows, h: History, targets: seq<seq<LG.Uri>>, u: LG.Uri, y: nat)
    requires LG.Named(rows) && Lawful(rd, rows, h, targets) && y < |h|
    requires SetsUpstream(rd, u)(h[y]) && forall z :: y < z < |h| ==> !SetsUpstream(rd, u)(h[z])
    ensures UpstreamAt(Catalog(rd, rows, h, targets), u) == targets[y]
    ensures Choices(rd, Keys(rd, rows, h[..y + 1]), rd.Refs(h[y]), targets[y])
  {
    LawfulSizes(rd, rows, h, targets);
    UpstreamIs(rd, rows, h, targets, u, y);
    assert LawfulAt(rd, rows, h, targets, y);
    LawfulIff(rd, rows, h, targets, y);
  }

  lemma RenamedSettled(rd: Reader, rows: Rows, j: string, w1: Json, k: string, v: Json, w2: Json, ref: string)
    requires j != k && rd.Refs((k, v)) == [ref] && rd.Match(ref, rd.Uri((j, w1)))
    requires rd.Uri((k, v)) != rd.Uri((j, w1)) && rd.Uri((k, v)) != rd.Uri((j, w2))
    requires forall e :: e in rows.Keys + {rd.Uri((k, v))} ==> !rd.Match(ref, e)
    ensures SettersAgree(rd, rows, [(j, w1), (k, v), (j, w2)], rd.Uri((k, v)))
  {
    var h, e, u := [(j, w1), (k, v), (j, w2)], rd.Uri((j, w1)), rd.Uri((k, v));
    assert h[1].0 == k && LastOf(h, k) == 1 && FirstFrom(h, k, 0) == 1;
    assert h[..1] == [(j, w1)];
    var seen := Seen(rd, rows, h, Stretch(1, 1));
    assert seen == rows.Keys + {e, u};
    assert forall s :: CanSet(h, SetsUpstream(rd, u), s) ==> s == Stretch(1, 1);
    assert AllResolveAs(rd, rows, h, u, Targets(rd, seen, [ref]));
    assert SetsUpstream(rd, u)(h[1]);
  }

  /** The condition of UpstreamSafeIff does not do where a document that feeds a matched entry changes its type or name: here
      it holds, but a schedule skips the version that would have been referred to. */
  lemma RenamedReference(rd: Reader, rows: Rows, j: string, w1: Json, k: string, v: Json, w2: Json, ref: string)
    requires LG.Named(rows) && j != k && rd.Refs((k, v)) == [ref] && rd.Match(ref, rd.Uri((j, w1)))
    requires rd.Uri((k, v)) != rd.Uri((j, w1)) && rd.Uri((k, v)) != rd.Uri((j, w2))
    requires forall e :: e in rows.Keys + {rd.Uri((k, v)), rd.Uri((j, w2))} ==> !rd.Match(ref, e)
    ensures SettersAgree(rd, rows, [(j, w1), (k, v), (j, w2)], rd.Uri((k, v)))
    ensures !UpstreamSafe(rd, rows, [(j, w1), (k, v), (j, w2)], rd.Uri((k, v)))
  {
    RenamedSettled(rd, rows, j, w1, k, v, w2, ref);
    var js := ThirdFirst(j, w1, k, v, w2);
    var states, steps := Realize([(j, w1), (k, v), (j, w2)], js);
    RenamedUnsafe(rd, rows, j, w1, k, v, w2, ref, states, steps);
  }

  lemma RenamedInOrder(rd: Reader, rows: Rows, h: History, targets: seq<seq<LG.Uri>>, u: LG.Uri, e: LG.Uri, ref: string)
    requires LG.Named(rows) && |h| == 3 && Lawful(rd, rows, h, targets)
    requires rd.Uri(h[0]) == e && rd.Uri(h[1]) == u && rd.Uri(h[2]) != u && rd.Refs(h[1]) == [ref] && rd.Match(ref, e)
    requires forall e' :: e' in rows.Keys + {u} ==> !rd.Match(ref, e')
    ensures UpstreamAt(Catalog(rd, rows, h, targets), u) == [e]
  {
    assert h[..2] == [h[0], h[1]] && h[0] in h[..2];
    FoundLater(rd, rows, h, targets, u, ref, e, 1);
  }

  lemma RenamedFirst(rd: Reader, rows: Rows, done: History, targets: seq<seq<LG.Uri>>, u: LG.Uri, ref: string)
    requires LG.Named(rows) && |done| == 2 && Lawful(rd, rows, done, targets)
    requires rd.Uri(done[1]) == u && rd.Refs(done[1]) == [ref]
    requires forall e :: e in rows.Keys + {u, rd.Uri(done[0])} ==> !rd.Match(ref, e)
    ensures UpstreamAt(Catalog(rd, rows, done, targets), u) == [LG.Placeholder(ref)]
  {
    assert done[..2] == done == [done[0], done[1]];
    NotFoundYet(rd, rows, done, targets, u, ref, 1);
  }

  lemma RenamedUnsafe(rd: Reader, rows: Rows, j: string, w1: Json, k: string, v: Json, w2: Json, ref: string,
                      states: seq<State>, steps: seq<Step>)
    requires LG.Named(rows) && rd.Refs((k, v)) == [ref] && rd.Match(ref, rd.Uri((j, w1)))
    requires rd.Uri((k, v)) != rd.Uri((j, w1)) && rd.Uri((k, v)) != rd.Uri((j, w2))
    requires forall e :: e in rows.Keys + {rd.Uri((k, v)), rd.Uri((j, w2))} ==> !rd.Match(ref, e)
    requires DrainedRun(states, steps, [(j, w1), (k, v), (j, w2)]) && states[|steps|].done == [(j, w2), (k, v)]
    ensures !UpstreamSafe(rd, rows, [(j, w1), (k, v), (j, w2)], rd.Uri((k, v)))
  {
    var h, u := [(j, w1), (k, v), (j, w2)], rd.Uri((k, v));
    var inOrder := Choose(rd, rows, h);
    var targets := Choose(rd, rows, [(j, w2), (k, v)]);
    RenamedInOrder(rd, rows, h, inOrder, u, rd.Uri((j, w1)), ref);
    RenamedFirst(rd, rows, [(j, w2), (k, v)], targets, u, ref);
    MatchIsNoPlaceholder(rd, ref, rd.Uri((j, w1)));
  }

  lemma BothCanSet(k: string, v1: Json, j: string, w: Json, v2: Json, sets: Job -> bool)
    requires k != j && sets((j, w)) && sets((k, v2))
    ensures var h := [(k, v1), (j, w), (k, v2)];
            CanSet(h, sets, Stretch(1, 1)) && CanSet(h, sets, Stretch(2, 2)) && !LastsUnset(h, sets)
  {
    var h := [(k, v1), (j, w), (k, v2)];
    assert h[0].0 == k && h[1].0 == j && h[2].0 == k;
    assert LastOf(h, j) == 1 && LastOf(h, k) == 2 && FirstFrom(h, j, 0) == 1;
    assert Between(h, k, -1, 1);
    assert forall i :: !Rival(h, sets, 2, i);
  }

  /** Two documents of one type and name share an entry: of three updates with references, a schedule leaves it with those
      of the second. */
  lemma SharedEntryReordered(rd: Reader, rows: Rows, k: string, v1: Json, j: string, w: Json, v2: Json)
    requires LG.Named(rows) && k != j && rd.Uri((k, v1)) == rd.Uri((j, w)) == rd.Uri((k, v2))
    requires rd.Refs((j, w)) != [] && rd.Refs((k, v2)) != []
    requires var known := rows.Keys + {rd.Uri((j, w))}; Targets(rd, known, rd.Refs((j, w))) != Targets(rd, known, rd.Refs((k, v2)))
    ensures !UpstreamSafe(rd, rows, [(k, v1), (j, w), (k, v2)], rd.Uri((j, w)))
  {
    var h, u := [(k, v1), (j, w), (k, v2)], rd.Uri((j, w));
    OneEntry(rd, h, u);
    UpstreamSafeIff(rd, rows, h, u);
    BothCanSet(k, v1, j, w, v2, SetsUpstream(rd, u));
    assert Seen(rd, rows, h, Stretch(1, 1)) == rows.Keys + {u} == Seen(rd, rows, h, Stretch(2, 2));
    if SettersAgree(rd, rows, h, u) { BothResolve(rd, rows, h, u, Stretch(1, 1), Stretch(2, 2)); }
  }

  lemma BothResolve(rd: Reader, rows: Rows, h: History, u: LG.Uri, j: Stretch, j': Stretch)
    requires SettersAgree(rd, rows, h, u) && CanSet(h, SetsUpstream(rd, u), j) && CanSet(h, SetsUpstream(rd, u), j')
    ensures Targets(rd, Seen(rd, rows, h, j), rd.Refs(h[j.at])) == Targets(rd, Seen(rd, rows, h, j'), rd.Refs(h[j'.at]))
  {
    var list :| AllResolveAs(rd, rows, h, u, list);
    SetterResolves(rd, rows, h, u, j, list);
    SetterResolves(rd, rows, h, u, j', list);
  }

  lemma SetterResolves(rd: Reader, rows: Rows, h: History, u: LG.Uri, j: Stretch, list: seq<LG.Uri>)
    requires AllResolveAs(rd, rows, h, u, list) && CanSet(h, SetsUpstream(rd, u), j)
    ensures Targets(rd, Seen(rd, rows, h, j), rd.Refs(h[j.at])) == list
  {
    assert ResolvesAs(rd, rows, h, j, list);
  }

  // ---------------------------------------------------------------------------------------------
  // Deletes
  // ---------------------------------------------------------------------------------------------

  lemma {:induction false} PipelineKept(states: seq<State>, steps: seq<Step>, from: nat, n: nat)
    requires IsRun(states, steps) && from <= n <= |steps| && forall i :: from <= i < n ==> !steps[i].Enqueue?
    ensures Pipeline(states[n]) == Pipeline(states[from])
  {
    if from < n {
      PipelineKept(states, steps, from, n - 1);
      RunInv(states, steps, n - 1);
      TurnKeepsPipeline(states[n - 1], steps[n - 1], states[n]);
    }
  }

  /** Deletes do not go through the queue: when an entry is deleted, and the queue is drained without further updates, the
      entry is back exactly when an update of a document with this type and name was in hand or waiting. */
  lemma DeletedEntryReturns(rd: Reader, rows: Rows, states: seq<State>, steps: seq<Step>, n: nat,
                            u: LG.Uri) returns (rest: History)
    requires IsRun(states, steps) && n <= |steps| && IsDrained(states[|steps|])
    requires forall i :: n <= i < |steps| ==> !steps[i].Enqueue?
    ensures rest == Hand(states[n].worker) + Line(states[n].queue) && states[|steps|].done == states[n].done + rest
    ensures forall targets :: Lawful(rd, LG.DeleteRows(rows, u), rest, targets) ==>
      (u in Catalog(rd, LG.DeleteRows(rows, u), rest, targets) <==> exists i :: 0 <= i < |rest| && rd.Uri(rest[i]) == u)
  {
    rest := Hand(states[n].worker) + Line(states[n].queue);
    PipelineKept(states, steps, n, |steps|);
    RunInv(states, steps, |steps|);
    NoElements(states[|steps|].queue.order);
    assert Pipeline(states[|steps|]) == states[|steps|].done;
    assert Pipeline(states[n]) == states[n].done + rest;
    forall targets | Lawful(rd, LG.DeleteRows(rows, u), rest, targets)
      ensures u in Catalog(rd, LG.DeleteRows(rows, u), rest, targets) <==> exists i :: 0 <= i < |rest| && rd.Uri(rest[i]) == u
    {
      CataloguedIff(rd, LG.DeleteRows(rows, u), rest, targets, u);
      assert u !in LG.DeleteRows(rows, u);
    }
  }
}
