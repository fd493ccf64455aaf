/** Export and import of document stores as JSON lines (backupfunc/exchange.go). */
module Exchange {

  import opened Prelude
  import opened JsonValues
  import opened Documents
  import opened DocumentStore
  import Merging
  import StoreRegistry

  type Bytes = string

  // ---------------------------------------------------------------------------------------------
  // Lines
  // ---------------------------------------------------------------------------------------------

  /** The longest line the scanner's buffer takes is one byte shorter. */
  const MAX_LINE := 32 * 1024 * 1024

  /** json.Marshal escapes line breaks and writes at least one byte; what it writes reads back as the same value. */
  ghost predicate LawfulJson(codec: Codec) {
    && Lawful(codec)
    && forall v :: IsLine(codec.encode(v))
  }

  predicate IsLine(line: Bytes) {
    line != "" && '\n' !in line && line[|line| - 1] != '\r'
  }

  function FirstBreak(text: Bytes): (i: nat)
    ensures i <= |text| && '\n' !in text[..i] && (i < |text| ==> text[i] == '\n')
  {
    if text == "" || text[0] == '\n' then 0
    else
      var i := FirstBreak(text[1..]);
      assert text[..1 + i] == [text[0]] + text[1..][..i];
      1 + i
  }

  function RestAfter(text: Bytes): Bytes {
    if FirstBreak(text) < |text| then text[FirstBreak(text) + 1..] else ""
  }

  /** What bufio.ScanLines yields, before a carriage return at the end of a line is dropped. */
  function Lines(text: Bytes): seq<Bytes>
    decreases |text|
  {
    if text == "" then [] else [text[..FirstBreak(text)]] + Lines(RestAfter(text))
  }

  function DropReturn(line: Bytes): Bytes {
    if line != "" && line[|line| - 1] == '\r' then line[..|line| - 1] else line
  }

  /** docsToJSONL. */
  function JsonLines(codec: Codec, docs: seq<Json>): Bytes {
    if docs == [] then "" else codec.encode(docs[0]) + "\n" + JsonLines(codec, docs[1..])
  }

  method DocsToJSONL(codec: Codec, docs: seq<Json>) returns (out: Bytes)
    ensures out == JsonLines(codec, docs)
  {
    out := "";
    for i := 0 to |docs|
      invariant out + JsonLines(codec, docs[i..]) == JsonLines(codec, docs)
    {
      assert docs[i..][1..] == docs[i + 1..];
      out := out + codec.encode(docs[i]);
      out := out + "\n";
    }
  }

  lemma {:induction false} BreakAfter(line: Bytes, rest: Bytes)
    requires '\n' !in line
    ensures FirstBreak(line + "\n" + rest) == |line|
  {
    if line != "" {
      assert (line + "\n" + rest)[1..] == line[1..] + "\n" + rest;
      BreakAfter(line[1..], rest);
    }
  }

  lemma FirstLine(line: Bytes, rest: Bytes)
    requires '\n' !in line
    ensures Lines(line + "\n" + rest) == [line] + Lines(rest)
  {
    BreakAfter(line, rest);
    var text := line + "\n" + rest;
    assert text[..|line|] == line && text[|line| + 1..] == rest;
  }

  function Encoded(codec: Codec, docs: seq<Json>): seq<Bytes> {
    seq(|docs|, i requires 0 <= i < |docs| => codec.encode(docs[i]))
  }

  lemma FirstOfJsonLines(codec: Codec, docs: seq<Json>)
    requires LawfulJson(codec) && docs != []
    ensures Lines(JsonLines(codec, docs)) == [codec.encode(docs[0])] + Lines(JsonLines(codec, docs[1..]))
  {
    assert IsLine(codec.encode(docs[0]));
    FirstLine(codec.encode(docs[0]), JsonLines(codec, docs[1..]));
  }

  lemma FirstEncoded(codec: Codec, docs: seq<Json>)
    requires docs != []
    ensures Encoded(codec, docs) == [codec.encode(docs[0])] + Encoded(codec, docs[1..])
    ensures Encoded(codec, docs)[0] == codec.encode(docs[0]) && Encoded(codec, docs)[1..] == Encoded(codec, docs[1..])
  {
  }

  /** The line codec is exact: the lines of an export are the encoded documents, in order. */
  lemma {:induction false} LinesOfJsonLines(codec: Codec, docs: seq<Json>)
    requires LawfulJson(codec)
    ensures Lines(JsonLines(codec, docs)) == Encoded(codec, docs)
  {
    if docs != [] {
      FirstOfJsonLines(codec, docs);
      LinesOfJsonLines(codec, docs[1..]);
      FirstEncoded(codec, docs);
    }
  }

  // ---------------------------------------------------------------------------------------------
  // Reading one store's file
  // ---------------------------------------------------------------------------------------------

  /** What a file gives: the documents put, in order, and whether it was read to the end. */
  datatype Read = Read(docs: seq<Json>, complete: bool)

  /** json.Unmarshal into a map: null gives an empty one, another value that is no object an error. */
  function DecodeMap(codec: Codec, line: Bytes): Option<Fields> {
    match codec.decode(line)
    case Some(Obj(fields)) => Some(fields)
    case Some(Null) => Some(map[])
    case _ => None
  }

  datatype LineEffect = Skip | PutIt(doc: Json) | Stop

  /** Reading stops at a line that is too long, does not decode or is not accepted by the store; an empty line and a
      document without a non-empty string _id are skipped. */
  function EffectOf(codec: Codec, accepts: Json -> bool, line: Bytes): LineEffect {
    if |line| >= MAX_LINE then Stop
    else if DropReturn(line) == "" then Skip
    else
      match DecodeMap(codec, DropReturn(line))
      case None => Stop
      case Some(fields) =>
        if Merging.IdOf(fields) == "" then Skip else if accepts(Obj(fields)) then PutIt(Obj(fields)) else Stop
  }

  function ReadLines(codec: Codec, accepts: Json -> bool, lines: seq<Bytes>): Read {
    if lines == [] then Read([], true)
    else
      match EffectOf(codec, accepts, lines[0])
      case Stop => Read([], false)
      case Skip => ReadLines(codec, accepts, lines[1..])
      case PutIt(d) => After([d], ReadLines(codec, accepts, lines[1..]))
  }

  /** Reading on after some documents have been put. */
  function After(put: seq<Json>, r: Read): Read {
    Read(put + r.docs, r.complete)
  }

  lemma AfterNothing(put: seq<Json>, complete: bool)
    ensures After(put, Read([], complete)) == Read(put, complete)
  {
    assert put + [] == put;
  }

  lemma AfterOne(put: seq<Json>, d: Json, r: Read)
    ensures After(put, After([d], r)) == After(put + [d], r)
  {
    assert put + ([d] + r.docs) == put + [d] + r.docs;
  }

  /** The line, without a carriage return at its end, is text. */
  ghost predicate HasText(line: Bytes, text: Bytes) {
    line == text + "\r" || (line == text && (text == "" || text[|text| - 1] != '\r'))
  }

  /** A line that gives nothing: blank, null, or a document without a text under _id. */
  ghost predicate GivesNothing(codec: Codec, line: Bytes) {
    && |line| < MAX_LINE
    && exists text :: HasText(line, text)
         && (text == "" || codec.decode(text) == Some(Null)
             || (codec.decode(text).Some? && codec.decode(text).value.Obj?
                 && ("_id" in codec.decode(text).value.fields ==>
                       var id := codec.decode(text).value.fields["_id"]; !id.Str? || id.s == "")))
  }

  /** A line that is an error: too long, no JSON, another value than an object or null, or a document that is refused. */
  ghost predicate IsError(codec: Codec, accepts: Json -> bool, line: Bytes) {
    || |line| >= MAX_LINE
    || exists text :: HasText(line, text) && text != "" && !GivesNothing(codec, line)
         && (codec.decode(text).None? || !codec.decode(text).value.Obj? || !accepts(codec.decode(text).value))
  }

  lemma OneText(line: Bytes, text: Bytes)
    ensures HasText(line, text) <==> text == DropReturn(line)
  {
    assert line != "" ==> line == line[..|line| - 1] + [line[|line| - 1]];
    assert line == text + "\r" ==> line[..|line| - 1] == text;
  }

  lemma EffectIs(codec: Codec, accepts: Json -> bool, line: Bytes)
    ensures EffectOf(codec, accepts, line) == Skip <==> GivesNothing(codec, line)
    ensures EffectOf(codec, accepts, line) == Stop <==> IsError(codec, accepts, line)
  {
    var text := DropReturn(line);
    forall t ensures HasText(line, t) <==> t == text { OneText(line, t); }
    assert HasText(line, text);
    assert GivesNothing(codec, line) <==> EffectOf(codec, accepts, line) == Skip;
  }

  lemma {:induction false} ReadJoins(codec: Codec, accepts: Json -> bool, a: seq<Bytes>, b: seq<Bytes>)
    ensures var ra, rb := ReadLines(codec, accepts, a), ReadLines(codec, accepts, b);
            ReadLines(codec, accepts, a + b) == if ra.complete then After(ra.docs, rb) else ra
    decreases |a|
  {
    var rb := ReadLines(codec, accepts, b);
    if a == [] {
      assert a + b == b && [] + rb.docs == rb.docs;
    } else {
      assert (a + b)[0] == a[0] && (a + b)[1..] == a[1..] + b;
      ReadJoins(codec, accepts, a[1..], b);
      match EffectOf(codec, accepts, a[0])
      case PutIt(d) =>
        var rest := ReadLines(codec, accepts, a[1..]);
        assert [d] + (rest.docs + rb.docs) == [d] + rest.docs + rb.docs;
      case _ =>
    }
  }

  lemma ReadOne(codec: Codec, accepts: Json -> bool, line: Bytes)
    ensures var r := ReadLines(codec, accepts, [line]);
            if GivesNothing(codec, line) then r == Read([], true)
            else if IsError(codec, accepts, line) then r == Read([], false)
            else r.complete && |r.docs| == 1 && exists text :: HasText(line, text) && codec.decode(text) == Some(r.docs[0])
  {
    EffectIs(codec, accepts, line);
    OneText(line, DropReturn(line));
    assert [line][1..] == [];
    assert ReadLines(codec, accepts, []) == Read([], true);
    match EffectOf(codec, accepts, line)
    case PutIt(d) =>
      assert [d] + [] == [d];
      assert ReadLines(codec, accepts, [line]) == Read([d], true);
    case _ =>
  }

  /** What reading gives when the lines before, one line and the lines after are read one after the other. */
  function Joined(r: Read, one: Read, rest: Read): Read {
    if !r.complete then r
    else if !one.complete then After(r.docs, one)
    else After(r.docs + one.docs, rest)
  }

  lemma ReadThree(codec: Codec, accepts: Json -> bool, before: seq<Bytes>, line: Bytes, after: seq<Bytes>)
    ensures ReadLines(codec, accepts, before + [line] + after)
         == Joined(ReadLines(codec, accepts, before), ReadLines(codec, accepts, [line]), ReadLines(codec, accepts, after))
  {
    ReadJoins(codec, accepts, before + [line], after);
    ReadJoins(codec, accepts, before, [line]);
  }

  /** A line that gives nothing might as well not be there: what follows it is read on. Nothing after an error is. Any
      other line has its document put. */
  lemma LineInFile(codec: Codec, accepts: Json -> bool, before: seq<Bytes>, line: Bytes, after: seq<Bytes>)
    ensures var r, all := ReadLines(codec, accepts, before), ReadLines(codec, accepts, before + [line] + after);
            if !r.complete then all == r
            else if GivesNothing(codec, line) then all == ReadLines(codec, accepts, before + after)
            else if IsError(codec, accepts, line) then all == Read(r.docs, false)
            else exists d, text :: HasText(line, text) && codec.decode(text) == Some(d)
                   && all == After(r.docs + [d], ReadLines(codec, accepts, after))
  {
    var r, one := ReadLines(codec, accepts, before), ReadLines(codec, accepts, [line]);
    ReadOne(codec, accepts, line);
    ReadThree(codec, accepts, before, line, after);
    if r.complete && one.docs == [] {
      assert r.docs + [] == r.docs;
      ReadJoins(codec, accepts, before, after);
    } else if r.complete {
      assert one.docs == [one.docs[0]];
    }
  }

  /** What one more line does to a file read so far. */
  lemma LineRead(codec: Codec, accepts: Json -> bool, rest: Bytes, put: seq<Json>, total: Read)
    requires rest != "" && total == After(put, ReadLines(codec, accepts, Lines(rest)))
    ensures match EffectOf(codec, accepts, rest[..FirstBreak(rest)])
            case Stop => total == Read(put, false)
            case Skip => total == After(put, ReadLines(codec, accepts, Lines(RestAfter(rest))))
            case PutIt(d) => total == After(put + [d], ReadLines(codec, accepts, Lines(RestAfter(rest))))
  {
    assert Lines(rest)[0] == rest[..FirstBreak(rest)] && Lines(rest)[1..] == Lines(RestAfter(rest));
    match EffectOf(codec, accepts, rest[..FirstBreak(rest)])
    case Stop => AfterNothing(put, false);
    case Skip =>
    case PutIt(d) => AfterOne(put, d, ReadLines(codec, accepts, Lines(RestAfter(rest))));
  }

  function ReadFile(codec: Codec, accepts: Json -> bool, file: Option<Bytes>): Read {
    match file
    case None => Read([], true)
    case Some(text) => ReadLines(codec, accepts, Lines(text))
  }

  /** A store without a file in the archive is one with an empty file: nothing is put, and that is no error. */
  lemma MissingFile(codec: Codec, accepts: Json -> bool)
    ensures ReadFile(codec, accepts, None) == ReadFile(codec, accepts, Some("")) == Read([], true)
  {
    assert Lines("") == [];
  }

  predicate HasRealId(d: Json) {
    d.Obj? && Merging.IdOf(d.fields) != ""
  }

  /** The document survives the way through a file into a store. */
  predicate Passes(codec: Codec, accepts: Json -> bool, d: Json) {
    |codec.encode(d)| < MAX_LINE && accepts(d)
  }

  /** How many documents come before the first that does not. */
  function Fine(codec: Codec, accepts: Json -> bool, docs: seq<Json>): (n: nat)
    ensures n <= |docs| && (n == |docs| <==> forall d :: d in docs ==> Passes(codec, accepts, d))
  {
    if docs == [] || !Passes(codec, accepts, docs[0]) then 0 else 1 + Fine(codec, accepts, docs[1..])
  }

  lemma EffectOfEncoded(codec: Codec, accepts: Json -> bool, d: Json)
    requires LawfulJson(codec) && HasRealId(d)
    ensures EffectOf(codec, accepts, codec.encode(d)) == if Passes(codec, accepts, d) then PutIt(d) else Stop
  {
    assert IsLine(codec.encode(d));
    assert codec.decode(codec.encode(d)) == Some(d);
  }

  /** Reading an export puts exactly the exported documents, up to the first one too long or not accepted. */
  lemma ReadExport(codec: Codec, accepts: Json -> bool, docs: seq<Json>)
    requires LawfulJson(codec) && forall d :: d in docs ==> HasRealId(d)
    ensures var n := Fine(codec, accepts, docs);
            ReadFile(codec, accepts, Some(JsonLines(codec, docs))) == Read(docs[..n], n == |docs|)
  {
    LinesOfJsonLines(codec, docs);
    ReadEncoded(codec, accepts, docs);
  }

  lemma PrefixStep(docs: seq<Json>, n: nat)
    requires n < |docs|
    ensures docs[..1 + n] == [docs[0]] + docs[1..][..n]
  {
  }

  lemma {:induction false} ReadEncoded(codec: Codec, accepts: Json -> bool, docs: seq<Json>)
    requires LawfulJson(codec) && forall d :: d in docs ==> HasRealId(d)
    ensures var n := Fine(codec, accepts, docs); ReadLines(codec, accepts, Encoded(codec, docs)) == Read(docs[..n], n == |docs|)
  {
    if docs != [] {
      EffectOfEncoded(codec, accepts, docs[0]);
      FirstEncoded(codec, docs);
      ReadEncoded(codec, accepts, docs[1..]);
      PrefixStep(docs, Fine(codec, accepts, docs[1..]));
    }
  }

  // ---------------------------------------------------------------------------------------------
  // Listings
  // ---------------------------------------------------------------------------------------------

  /** All documents of a store, in some order, with their keys. */
  datatype Listing = Listing(keys: seq<string>, docs: seq<Json>)

  ghost predicate IsListing(m: Docs, l: Listing) {
    NoDup(l.keys) && Elems(l.keys) == m.Keys && Values(m, l.keys, l.docs)
  }

  /** Documents under their own, non-empty _id. */
  ghost predicate Sound(m: Docs) {
    Keyed(m) && "" !in m
  }

  /** At key k, after is base overridden by m. */
  ghost predicate OverriddenAt(after: Docs, base: Docs, m: Docs, k: string) {
    if k in m then k in after && after[k] == m[k]
    else (k in after <==> k in base) && (k in base ==> after[k] == base[k])
  }

  lemma Overridden(after: Docs, base: Docs, m: Docs)
    requires forall k :: OverriddenAt(after, base, m, k)
    ensures after == base + m
  {
    forall k ensures k in after <==> k in base + m {
      assert OverriddenAt(after, base, m, k);
    }
    forall k | k in after ensures after[k] == (base + m)[k] {
      assert OverriddenAt(after, base, m, k);
    }
  }

  lemma PutListingAt(base: Docs, m: Docs, l: Listing, k: string)
    requires Sound(m) && IsListing(m, l)
    ensures OverriddenAt(PutDocs(base, l.docs), base, m, k)
  {
    var keys, docs := l.keys, l.docs;
    PutDocsAt(base, docs, k);
    if k in m {
      assert k in Elems(keys);
      var i :| 0 <= i < |keys| && keys[i] == k;
      assert forall j :: i < j < |keys| ==> KeyOf(docs[j]) == Some(keys[j]);
      assert LastFor(docs, k, i);
      var j :| LastFor(docs, k, j) && k in PutDocs(base, docs) && PutDocs(base, docs)[k] == docs[j];
      assert KeyOf(docs[j]) == Some(keys[j]);
    } else if i :| LastFor(docs, k, i) {
      assert KeyOf(docs[i]) == Some(keys[i]) && keys[i] in Elems(keys);
    }
  }

  /** Putting all documents of a store into another, in any order, overrides the other by the first. */
  lemma PutListing(base: Docs, m: Docs, l: Listing)
    requires Sound(m) && IsListing(m, l)
    ensures PutDocs(base, l.docs) == base + m && |l.docs| == |m|
  {
    forall k ensures OverriddenAt(PutDocs(base, l.docs), base, m, k) {
      PutListingAt(base, m, l, k);
    }
    Overridden(PutDocs(base, l.docs), base, m);
    NoDupSize(l.keys);
  }

  lemma ListedDocs(m: Docs, l: Listing)
    requires Sound(m) && IsListing(m, l)
    ensures forall d :: d in l.docs ==> HasRealId(d)
    ensures forall d :: d in l.docs <==> exists k :: k in m && m[k] == d
  {
    forall d ensures d in l.docs <==> exists k :: k in m && m[k] == d {
      if k :| k in m && m[k] == d {
        assert k in Elems(l.keys);
        var i :| 0 <= i < |l.keys| && l.keys[i] == k;
        assert l.docs[i] == d;
      }
      if d in l.docs {
        var i :| 0 <= i < |l.docs| && l.docs[i] == d;
        assert l.keys[i] in m && m[l.keys[i]] == d;
      }
    }
    forall d | d in l.docs ensures HasRealId(d) {
      var k :| k in m && m[k] == d;
      assert KeyOf(m[k]) == Some(k);
    }
  }

  // ---------------------------------------------------------------------------------------------
  // A node
  // ---------------------------------------------------------------------------------------------

  /** The stored bytes of a store's documents. */
  type Held = map<string, Bytes>

  /** The documents among them: bytes that are not JSON are none. */
  function Contents(codec: Codec, held: Held): Docs {
    map k | k in held && codec.decode(held[k]).Some? :: codec.decode(held[k]).value
  }

  predicate AllDecode(codec: Codec, held: Held) {
    forall k :: k in held ==> codec.decode(held[k]).Some?
  }

  function PutBytes(codec: Codec, held: Held, d: Json): Held {
    match KeyOf(d)
    case Some(k) => if k == "" then held else held[k := codec.encode(d)]
    case None => held
  }

  lemma ContentsPut(codec: Codec, held: Held, d: Json)
    requires Lawful(codec)
    ensures Contents(codec, PutBytes(codec, held, d)) == PutDoc(Contents(codec, held), d)
  {
    assert codec.decode(codec.encode(d)) == Some(d);
  }

  /** What is fixed about a node: the JSON library, the documents its stores accept, and what a store that is not open
      holds when EnsureDocStore opens it (None: it cannot be opened). */
  datatype Setup = Setup(codec: Codec, accepts: Json -> bool, opens: string -> Option<Held>)

  type Stores = map<string, Docs>

  /** The open store a name in an archive stands for, after opening it if need be. */
  function Opened(setup: Setup, stores: Stores, name: string): Option<(string, Docs)> {
    if name in stores then Some((name, stores[name]))
    else
      var n := StoreRegistry.Normalise(name);
      if n in stores then Some((n, stores[n]))
      else match setup.opens(n)
           case Some(held) => Some((n, Contents(setup.codec, held)))
           case None => None
  }

  /** A name is that of an open store as it is, or else in small letters and trimmed; the store of a name that is neither
      is opened with what it holds, and is there only if it can be. */
  lemma OpenedIs(setup: Setup, stores: Stores, name: string)
    ensures var m := StoreRegistry.Normalise(name);
            && (forall n, docs :: Opened(setup, stores, name) == Some((n, docs)) ==>
                  && (n == name || (n == m && name !in stores))
                  && (if n in stores then docs == stores[n]
                      else setup.opens(n).Some? && docs == Contents(setup.codec, setup.opens(n).value)))
            && (Opened(setup, stores, name).None? <==> name !in stores && m !in stores && setup.opens(m).None?)
  {
  }

  function FileOf(files: map<string, Bytes>, name: string): Option<Bytes> {
    if name in files then Some(files[name]) else None
  }

  function Putting(stores: Stores, n: string, docs: seq<Json>): (r: Stores)
    requires n in stores
    ensures n in r
  {
    stores[n := PutDocs(stores[n], docs)]
  }

  lemma PuttingNothing(stores: Stores, n: string)
    requires n in stores
    ensures Putting(stores, n, []) == stores
  {
  }

  lemma OpenedThenPut(stores: Stores, mid: Stores, n: string, held: Docs, docs: seq<Json>)
    requires mid == stores[n := held]
    ensures n in mid && Putting(mid, n, docs) == stores[n := PutDocs(held, docs)]
  {
  }

  lemma PuttingOne(stores: Stores, n: string, docs: seq<Json>, d: Json)
    requires n in stores
    ensures var now := Putting(stores, n, docs); now[n := PutDoc(now[n], d)] == Putting(stores, n, docs + [d])
  {
    PutDocsSnoc(stores[n], docs, d);
  }

  /** The stores after importing one entry of the archive. */
  function ImportOne(setup: Setup, stores: Stores, files: map<string, Bytes>, name: string): Stores {
    match Opened(setup, stores, name)
    case None => stores
    case Some((n, docs)) => stores[n := PutDocs(docs, ReadFile(setup.codec, setup.accepts, FileOf(files, name)).docs)]
  }

  function ImportAll(setup: Setup, stores: Stores, files: map<string, Bytes>, names: seq<string>): Stores
    decreases |names|
  {
    if names == [] then stores
    else ImportOne(setup, ImportAll(setup, stores, files, names[..|names| - 1]), files, names[|names| - 1])
  }

  /** The store names and files of an archive describe these stores, each as listed. */
  ghost predicate IsExport(codec: Codec, stores: Stores, names: seq<string>, files: map<string, Bytes>,
                           listed: map<string, Listing>) {
    && NoDup(names) && Elems(names) == stores.Keys == files.Keys == listed.Keys
    && forall n :: n in stores ==> ExportedAs(codec, stores[n], listed[n], files[n])
  }

  ghost predicate ExportedAs(codec: Codec, m: Docs, l: Listing, text: Bytes) {
    IsListing(m, l) && text == JsonLines(codec, l.docs)
  }

  /** The file was read to the end, and so many documents were put. */
  ghost predicate Counted(setup: Setup, files: map<string, Bytes>, name: string, n: nat) {
    var r := ReadFile(setup.codec, setup.accepts, FileOf(files, name));
    r.complete && n == |r.docs|
  }

  /** The file was not read to the end, or the store is unknown and cannot be opened. */
  ghost predicate Reported(setup: Setup, stores: Stores, files: map<string, Bytes>, name: string) {
    || !ReadFile(setup.codec, setup.accepts, FileOf(files, name)).complete
    || Opened(setup, stores, name).None?
  }

  /** What Import returns on a node with these stores: every store of the manifest is counted or reported. */
  ghost predicate IsReport(setup: Setup, stores: Stores, names: seq<string>, files: map<string, Bytes>,
                           counts: map<string, nat>, errors: seq<string>) {
    && (forall n :: n in names ==> n in counts || n in errors)
    && (forall n :: n in counts ==> n in names && Counted(setup, files, n, counts[n]))
    && (forall n :: n in errors ==> n in names && Reported(setup, stores, files, n))
  }

  lemma ReportGrows(setup: Setup, stores: Stores, names: seq<string>, name: string, files: map<string, Bytes>,
                    counts: map<string, nat>, errors: seq<string>, count: Option<nat>)
    requires IsReport(setup, stores, names, files, counts, errors)
    requires match count case Some(n) => Counted(setup, files, name, n) case None => Reported(setup, stores, files, name)
    ensures match count
            case Some(n) => IsReport(setup, stores, names + [name], files, counts[name := n], errors)
            case None => IsReport(setup, stores, names + [name], files, counts, errors + [name])
  {
  }

  class Node {
    const setup: Setup
    var held: map<string, Held>

    ghost function Stores(): Stores
      reads this
    {
      map n | n in held :: Contents(setup.codec, held[n])
    }

    constructor (setup: Setup)
      ensures this.setup == setup && held == map[]
    {
      this.setup, held := setup, map[];
    }

    /** queryAllDocs: an error at a value that is not JSON. */
    method QueryAllDocs(from: Held) returns (ok: bool, docs: seq<Json>, ghost l: Listing)
      ensures ok <==> AllDecode(setup.codec, from)
      ensures ok ==> IsListing(Contents(setup.codec, from), l) && l.docs == docs
    {
      docs := [];
      var keys := ListSet(from.Keys);
      l := Listing(keys, docs);
      for i := 0 to |keys|
        invariant |docs| == i && forall j :: 0 <= j < i ==> keys[j] in from && setup.codec.decode(from[keys[j]]) == Some(docs[j])
      {
        assert keys[i] in Elems(keys);
        var doc := setup.codec.decode(from[keys[i]]);
        if doc.None? { return false, [], l; }
        docs := docs + [doc.value];
      }
      assert forall k :: k in from ==> k in Elems(keys);
      ok, l := true, Listing(keys, docs);
    }

    /** The file of one store. */
    method ExportStore(from: Held) returns (ok: bool, text: Bytes, ghost l: Listing)
      ensures ok <==> AllDecode(setup.codec, from)
      ensures ok ==> ExportedAs(setup.codec, Contents(setup.codec, from), l, text)
    {
      var docs;
      ok, docs, l := QueryAllDocs(from);
      text := DocsToJSONL(setup.codec, docs);
    }

    /** The document-store part of Export: it stops with an error at a store that holds a value that is not JSON. */
    method Export() returns (ok: bool, names: seq<string>, files: map<string, Bytes>, ghost listed: map<string, Listing>)
      ensures ok <==> forall n :: n in held ==> AllDecode(setup.codec, held[n])
      ensures NoDup(names) && Elems(names) == held.Keys
      ensures ok ==> IsExport(setup.codec, Stores(), names, files, listed)
    {
      files, listed := map[], map[];
      names := ListSet(held.Keys);
      for i := 0 to |names|
        invariant files.Keys == listed.Keys == Elems(names[..i]) <= held.Keys
        invariant forall n :: n in files ==> AllDecode(setup.codec, held[n])
                                             && ExportedAs(setup.codec, Contents(setup.codec, held[n]), listed[n], files[n])
      {
        assert names[i] in Elems(names);
        assert names[..i + 1] == names[..i] + [names[i]];
        assert Elems(names[..i + 1]) == Elems(names[..i]) + {names[i]};
        var fine, text, l := ExportStore(held[names[i]]);
        if !fine { return false, names, files, listed; }
        files, listed := files[names[i] := text], listed[names[i] := l];
      }
      assert names[..|names|] == names;
      ok := true;
    }

    /** One line of importStoreJSONL. */
    method ReadLine(raw: Bytes) returns (r: LineEffect)
      ensures r == EffectOf(setup.codec, setup.accepts, raw)
    {
      if |raw| >= MAX_LINE { return Stop; }
      var line := DropReturn(raw);
      if line == "" { return Skip; }
      var doc := DecodeMap(setup.codec, line);
      if doc.None? { return Stop; }
      if Merging.IdOf(doc.value) == "" { return Skip; }
      if !setup.accepts(Obj(doc.value)) { return Stop; }
      r := PutIt(Obj(doc.value));
    }

    /** A Put the store accepts. */
    method PutInto(n: string, d: Json)
      requires Lawful(setup.codec) && n in held
      modifies this`held
      ensures n in held && Stores() == old(Stores())[n := PutDoc(old(Stores())[n], d)]
    {
      ContentsPut(setup.codec, held[n], d);
      held := held[n := PutBytes(setup.codec, held[n], d)];
    }

    /** importStoreJSONL into store n: the documents are put one by one, and counted. */
    method ImportStoreJSONL(n: string, file: Option<Bytes>) returns (count: nat, failed: bool)
      requires Lawful(setup.codec) && n in held
      modifies this`held
      ensures var r := ReadFile(setup.codec, setup.accepts, file);
              && Stores() == Putting(old(Stores()), n, r.docs)
              && count == |r.docs| && failed == !r.complete
    {
      count, failed := 0, false;
      PuttingNothing(Stores(), n);
      if file.None? { return; }
      var rest := file.value;
      ghost var total := ReadFile(setup.codec, setup.accepts, file);
      ghost var put: seq<Json> := [];
      while rest != ""
        invariant n in held && count == |put| && Stores() == Putting(old(Stores()), n, put)
        invariant total == After(put, ReadLines(setup.codec, setup.accepts, Lines(rest)))
        decreases |rest|
      {
        var i := FirstBreak(rest);
        LineRead(setup.codec, setup.accepts, rest, put, total);
        var effect := ReadLine(rest[..i]);
        rest := if i < |rest| then rest[i + 1..] else "";
        match effect
        case Stop => return count, true;
        case Skip =>
        case PutIt(d) =>
          PuttingOne(old(Stores()), n, put, d);
          PutInto(n, d);
          put := put + [d];
          count := count + 1;
      }
      AfterNothing(put, true);
    }

    /** EnsureDocStore, for a name that is not among the open stores. */
    method EnsureDocStore(name: string) returns (n: Option<string>)
      requires name !in held
      modifies this`held
      ensures match Opened(setup, old(Stores()), name)
              case None => n.None? && Stores() == old(Stores())
              case Some((m, docs)) => n == Some(m) && Stores() == old(Stores())[m := docs]
    {
      var m := StoreRegistry.Normalise(name);
      if m in held {
        assert Stores()[m := Stores()[m]] == Stores();
        return Some(m);
      }
      var from := setup.opens(m);
      if from.None? { return None; }
      held := held[m := from.value];
      n := Some(m);
    }

    /** The open store a name in the manifest stands for. */
    method OpenEntry(name: string) returns (n: Option<string>)
      modifies this`held
      ensures match Opened(setup, old(Stores()), name)
              case None => n.None? && Stores() == old(Stores())
              case Some((m, docs)) => n == Some(m) && Stores() == old(Stores())[m := docs]
    {
      if name in held {
        assert Stores()[name := Stores()[name]] == Stores();
        return Some(name);
      }
      n := EnsureDocStore(name);
    }

    /** One turn of the store loop of Import. */
    method ImportEntry(name: string, files: map<string, Bytes>) returns (count: Option<nat>)
      requires Lawful(setup.codec)
      modifies this`held
      ensures Stores() == ImportOne(setup, old(Stores()), files, name)
      ensures count.Some? ==> Counted(setup, files, name, count.value)
      ensures count.None? ==> Reported(setup, old(Stores()), files, name)
    {
      var target := OpenEntry(name);
      if target.None? { return None; }
      assert target.value in Stores().Keys;
      OpenedThenPut(old(Stores()), Stores(), target.value, Opened(setup, old(Stores()), name).value.1,
                    ReadFile(setup.codec, setup.accepts, FileOf(files, name)).docs);
      var n, failed := ImportStoreJSONL(target.value, FileOf(files, name));
      count := if failed then None else Some(n);
    }

    /** The store loop of Import: a store that cannot be opened or read is reported, and the loop goes on. */
    method Import(names: seq<string>, files: map<string, Bytes>) returns (counts: map<string, nat>, errors: seq<string>)
      requires Lawful(setup.codec)
      modifies this`held
      ensures Stores() == ImportAll(setup, old(Stores()), files, names)
      ensures IsReport(setup, old(Stores()), names, files, counts, errors)
    {
      counts, errors := map[], [];
      for i := 0 to |names|
        invariant Stores() == ImportAll(setup, old(Stores()), files, names[..i])
        invariant old(Stores()).Keys <= Stores().Keys
        invariant IsReport(setup, old(Stores()), names[..i], files, counts, errors)
      {
        var name := names[i];
        ImportAllNext(setup, old(Stores()), files, names, i);
        ImportOneGrows(setup, Stores(), files, name);
        OpenedStays(setup, old(Stores()), Stores(), name);
        var count := ImportEntry(name, files);
        ReportGrows(setup, old(Stores()), names[..i], name, files, counts, errors, count);
        match count
        case None => errors := errors + [name];
        case Some(n) => counts := counts[name := n];
      }
      assert names[..|names|] == names;
    }
  }

  lemma ImportOneGrows(setup: Setup, mid: Stores, files: map<string, Bytes>, name: string)
    ensures mid.Keys <= ImportOne(setup, mid, files, name).Keys
  {
  }

  lemma ImportAllNext(setup: Setup, stores: Stores, files: map<string, Bytes>, names: seq<string>, i: nat)
    requires i < |names|
    ensures names[..i + 1] == names[..i] + [names[i]]
    ensures ImportAll(setup, stores, files, names[..i + 1]) == ImportOne(setup, ImportAll(setup, stores, files, names[..i]), files, names[i])
  {
    var upTo := names[..i + 1];
    assert upTo[..|upTo| - 1] == names[..i] && upTo[|upTo| - 1] == names[i];
  }

  /** More open stores never make a store unavailable. */
  lemma OpenedStays(setup: Setup, stores: Stores, more: Stores, name: string)
    requires stores.Keys <= more.Keys
    ensures Opened(setup, stores, name).Some? ==> Opened(setup, more, name).Some?
  {
    assert name in stores.Keys ==> name in more.Keys;
    assert StoreRegistry.Normalise(name) in stores.Keys ==> StoreRegistry.Normalise(name) in more.Keys;
  }

  // ---------------------------------------------------------------------------------------------
  // Importing an export
  // ---------------------------------------------------------------------------------------------

  /** What store n holds before its file is imported. */
  function Base(setup: Setup, stores: Stores, n: string): Docs {
    match Opened(setup, stores, n)
    case Some((_, docs)) => docs
    case None => map[]
  }

  /** The exported store is sound and under a normalised name, its documents all fit a line and are accepted, and this
      node has or can open the store. */
  ghost predicate Importable(setup: Setup, n: string, m: Docs, stores: Stores) {
    && StoreRegistry.Normalise(n) == n && Sound(m) && Opened(setup, stores, n).Some?
    && forall k :: k in m ==> Passes(setup.codec, setup.accepts, m[k])
  }

  /** A file exported from a sound store is read to the end exactly when every document fits a line and is accepted, and
      then overrides what it is imported into. */
  lemma ReadWhole(setup: Setup, m: Docs, l: Listing, text: Bytes, base: Docs)
    requires LawfulJson(setup.codec) && Sound(m) && ExportedAs(setup.codec, m, l, text)
    ensures var r := ReadFile(setup.codec, setup.accepts, Some(text));
            && (r.complete <==> forall k :: k in m ==> Passes(setup.codec, setup.accepts, m[k]))
            && (r.complete ==> PutDocs(base, r.docs) == base + m && |r.docs| == |m|)
  {
    assert l.docs[..|l.docs|] == l.docs;
    ListedDocs(m, l);
    ReadExport(setup.codec, setup.accepts, l.docs);
    PutListing(base, m, l);
  }

  lemma ImportOneExported(setup: Setup, n: string, m: Docs, l: Listing, files: map<string, Bytes>, stores: Stores)
    requires LawfulJson(setup.codec) && Importable(setup, n, m, stores) && n in files && ExportedAs(setup.codec, m, l, files[n])
    ensures ImportOne(setup, stores, files, n) == stores[n := Base(setup, stores, n) + m]
  {
    ReadWhole(setup, m, l, files[n], Base(setup, stores, n));
  }

  /** The stores in done hold what they held overridden by the source; the others are untouched. */
  ghost predicate Imported(setup: Setup, source: Stores, stores: Stores, after: Stores, done: set<string>)
    requires done <= source.Keys
  {
    && after.Keys == stores.Keys + done
    && (forall n :: n in done ==> after[n] == Base(setup, stores, n) + source[n])
    && (forall n :: n in stores && n !in done ==> after[n] == stores[n])
  }

  lemma ImportedOneMore(setup: Setup, source: Stores, stores: Stores, mid: Stores, done: set<string>, n: string)
    requires done <= source.Keys && n in source && n !in done && Imported(setup, source, stores, mid, done)
    requires StoreRegistry.Normalise(n) == n
    ensures Opened(setup, mid, n) == Opened(setup, stores, n)
    ensures Imported(setup, source, stores, mid[n := Base(setup, mid, n) + source[n]], done + {n})
  {
    assert n in mid.Keys <==> n in stores.Keys;
  }

  lemma LastName(names: seq<string>)
    requires names != [] && NoDup(names)
    ensures var before, n := names[..|names| - 1], names[|names| - 1];
            Elems(names) == Elems(before) + {n} && n !in Elems(before) && n in Elems(names) && NoDup(before)
  {
    assert names == names[..|names| - 1] + [names[|names| - 1]];
  }

  lemma {:induction false} ImportSome(setup: Setup, source: Stores, names: seq<string>, files: map<string, Bytes>,
                                      listed: map<string, Listing>, stores: Stores)
    requires LawfulJson(setup.codec) && NoDup(names) && Elems(names) <= source.Keys == files.Keys == listed.Keys
    requires forall n :: n in source ==> ExportedAs(setup.codec, source[n], listed[n], files[n])
    requires forall n :: n in source ==> Importable(setup, n, source[n], stores)
    ensures Imported(setup, source, stores, ImportAll(setup, stores, files, names), Elems(names))
    decreases |names|
  {
    if names != [] {
      var i := |names| - 1;
      var before, n := names[..i], names[i];
      LastName(names);
      ImportSome(setup, source, before, files, listed, stores);
      var mid := ImportAll(setup, stores, files, before);
      assert Importable(setup, n, source[n], stores);
      ImportedOneMore(setup, source, stores, mid, Elems(before), n);
      ImportOneExported(setup, n, source[n], listed[n], files, mid);
    }
  }

  /** Importing an export leaves every exported document stored as exported and every other document untouched, and counts
      exactly the exported documents, whatever order the export listed documents and stores in. */
  lemma ImportExport(setup: Setup, source: Stores, names: seq<string>, files: map<string, Bytes>, listed: map<string, Listing>,
                     stores: Stores)
    requires LawfulJson(setup.codec) && IsExport(setup.codec, source, names, files, listed)
    requires forall n :: n in source ==> Importable(setup, n, source[n], stores)
    ensures Imported(setup, source, stores, ImportAll(setup, stores, files, names), source.Keys)
    ensures forall n :: n in source ==> |ReadFile(setup.codec, setup.accepts, FileOf(files, n)).docs| == |source[n]|
  {
    ImportSome(setup, source, names, files, listed, stores);
    forall n | n in source ensures |ReadFile(setup.codec, setup.accepts, FileOf(files, n)).docs| == |source[n]| {
      assert Importable(setup, n, source[n], stores) && ExportedAs(setup.codec, source[n], listed[n], files[n]);
      ReadWhole(setup, source[n], listed[n], files[n], map[]);
    }
  }

  // ---------------------------------------------------------------------------------------------
  // Importing twice
  // ---------------------------------------------------------------------------------------------

  /** Putting documents a second time changes nothing. */
  lemma PutAgain(m: Docs, ds: seq<Json>)
    ensures PutDocs(PutDocs(m, ds), ds) == PutDocs(m, ds)
  {
    var once := PutDocs(m, ds);
    forall k ensures (k in PutDocs(once, ds) <==> k in once) && (k in once ==> PutDocs(once, ds)[k] == once[k]) {
      PutDocsAt(m, ds, k);
      PutDocsAt(once, ds, k);
    }
  }

  /** The store a name stands for, if it is open or can be opened. */
  function Target(setup: Setup, stores: Stores, name: string): Option<string> {
    match Opened(setup, stores, name)
    case Some((n, _)) => Some(n)
    case None => None
  }

  /** The documents an archive puts into store n. */
  function DocsFor(setup: Setup, stores: Stores, files: map<string, Bytes>, names: seq<string>, n: string): seq<Json>
    decreases |names|
  {
    if names == [] then []
    else
      var i := |names| - 1;
      DocsFor(setup, stores, files, names[..i], n)
        + if Target(setup, stores, names[i]) == Some(n) then ReadFile(setup.codec, setup.accepts, FileOf(files, names[i])).docs else []
  }

  /** Stores that the names in an archive stand for. */
  function TargetsOf(setup: Setup, stores: Stores, names: seq<string>): set<string> {
    set name | name in names && Target(setup, stores, name).Some? :: Target(setup, stores, name).value
  }

  /** What a store holds before the import. */
  function Start(setup: Setup, stores: Stores, n: string): Docs {
    if n in stores then stores[n]
    else match setup.opens(n)
         case Some(held) => Contents(setup.codec, held)
         case None => map[]
  }

  /** The same stores, and those of these names as opened. */
  ghost predicate Reaches(setup: Setup, stores: Stores, names: seq<string>, mid: Stores) {
    && mid.Keys == stores.Keys + TargetsOf(setup, stores, names)
  }

  /** Opening stores does not change what names stand for. */
  lemma SameTarget(setup: Setup, stores: Stores, names: seq<string>, mid: Stores, name: string)
    requires Reaches(setup, stores, names, mid)
    ensures Target(setup, mid, name) == Target(setup, stores, name)
  {
    if name in mid && name !in stores { OpenedIsNormal(setup, stores, names, name); }
    var m := StoreRegistry.Normalise(name);
    if m in mid && m !in stores { OpenedIsNormal(setup, stores, names, m); }
  }

  lemma OpenedIsNormal(setup: Setup, stores: Stores, names: seq<string>, n: string)
    requires n in TargetsOf(setup, stores, names) && n !in stores
    ensures StoreRegistry.Normalise(n) == n && setup.opens(n).Some?
  {
    var name :| name in names && Target(setup, stores, name) == Some(n);
    StoreRegistry.NormaliseIdempotent(name);
  }

  lemma TargetsSnoc(setup: Setup, stores: Stores, names: seq<string>)
    requires names != []
    ensures var i := |names| - 1;
            TargetsOf(setup, stores, names) == TargetsOf(setup, stores, names[..i])
              + match Target(setup, stores, names[i]) case Some(n) => {n} case None => {}
  {
    assert names == names[..|names| - 1] + [names[|names| - 1]];
  }

  lemma {:induction false} ImportReaches(setup: Setup, stores: Stores, files: map<string, Bytes>, names: seq<string>)
    ensures Reaches(setup, stores, names, ImportAll(setup, stores, files, names))
    decreases |names|
  {
    if names != [] {
      var i := |names| - 1;
      ImportReaches(setup, stores, files, names[..i]);
      SameTarget(setup, stores, names[..i], ImportAll(setup, stores, files, names[..i]), names[i]);
      TargetsSnoc(setup, stores, names);
    }
  }

  /** Importing an archive, whatever is in it, puts the documents it has for a store into that store, in order. */
  lemma {:induction false} ImportAllIs(setup: Setup, stores: Stores, files: map<string, Bytes>, names: seq<string>, n: string)
    requires n in ImportAll(setup, stores, files, names)
    ensures ImportAll(setup, stores, files, names)[n] == PutDocs(Start(setup, stores, n), DocsFor(setup, stores, files, names, n))
    decreases |names|
  {
    if names != [] {
      var i := |names| - 1;
      var mid := ImportAll(setup, stores, files, names[..i]);
      ImportReaches(setup, stores, files, names[..i]);
      if n in mid { ImportAllIs(setup, stores, files, names[..i], n); } else { NothingYet(setup, stores, files, names[..i], n); }
      ImportNext(setup, stores, files, names, mid, n);
    }
  }

  lemma ImportNext(setup: Setup, stores: Stores, files: map<string, Bytes>, names: seq<string>, mid: Stores, n: string)
    requires names != [] && Reaches(setup, stores, names[..|names| - 1], mid)
    requires n in ImportOne(setup, mid, files, names[|names| - 1])
    requires var before := DocsFor(setup, stores, files, names[..|names| - 1], n);
             if n in mid then mid[n] == PutDocs(Start(setup, stores, n), before) else before == []
    ensures ImportOne(setup, mid, files, names[|names| - 1])[n]
         == PutDocs(Start(setup, stores, n), DocsFor(setup, stores, files, names, n))
  {
    var i := |names| - 1;
    SameTarget(setup, stores, names[..i], mid, names[i]);
    var docs := ReadFile(setup.codec, setup.accepts, FileOf(files, names[i])).docs;
    var before := DocsFor(setup, stores, files, names[..i], n);
    PutDocsConcat(Start(setup, stores, n), before, docs);
    assert before + [] == before;
  }

  lemma {:induction false} NothingYet(setup: Setup, stores: Stores, files: map<string, Bytes>, names: seq<string>, n: string)
    requires n !in TargetsOf(setup, stores, names)
    ensures DocsFor(setup, stores, files, names, n) == []
    decreases |names|
  {
    if names != [] {
      TargetsSnoc(setup, stores, names);
      NothingYet(setup, stores, files, names[..|names| - 1], n);
    }
  }

  lemma {:induction false} SameDocs(setup: Setup, stores: Stores, all: seq<string>, mid: Stores, files: map<string,
                                    Bytes>, names: seq<string>,
                                    n: string)
    requires Reaches(setup, stores, all, mid)
    ensures DocsFor(setup, mid, files, names, n) == DocsFor(setup, stores, files, names, n)
    ensures TargetsOf(setup, mid, names) == TargetsOf(setup, stores, names)
    decreases |names|
  {
    if names != [] {
      var i := |names| - 1;
      SameTarget(setup, stores, all, mid, names[i]);
      SameDocs(setup, stores, all, mid, files, names[..i], n);
      TargetsSnoc(setup, stores, names);
      TargetsSnoc(setup, mid, names);
    }
  }

  /** Importing any archive twice gives the same contents as once, also where names repeat or stand for one store, documents
      are refused, files are cut short or missing, or stores cannot be opened. */
  lemma ImportIdempotent(setup: Setup, stores: Stores, files: map<string, Bytes>, names: seq<string>)
    ensures var after := ImportAll(setup, stores, files, names); ImportAll(setup, after, files, names) == after
  {
    var after := ImportAll(setup, stores, files, names);
    var again := ImportAll(setup, after, files, names);
    ImportReaches(setup, stores, files, names);
    ImportReaches(setup, after, files, names);
    SameDocs(setup, stores, names, after, files, names, "");
    forall n | n in after ensures again[n] == after[n] {
      ImportAllIs(setup, stores, files, names, n);
      ImportAllIs(setup, after, files, names, n);
      SameDocs(setup, stores, names, after, files, names, n);
      PutAgain(Start(setup, stores, n), DocsFor(setup, stores, files, names, n));
    }
  }

  /** The report on importing an export: no errors, and for every store the number of its documents. */
  lemma ReportOfExport(setup: Setup, source: Stores, names: seq<string>, files: map<string, Bytes>, listed: map<string,
                       Listing>,
                       stores: Stores, counts: map<string, nat>, errors: seq<string>)
    requires LawfulJson(setup.codec) && IsExport(setup.codec, source, names, files, listed)
    requires forall n :: n in source ==> Importable(setup, n, source[n], stores)
    requires IsReport(setup, stores, names, files, counts, errors)
    ensures errors == [] && counts == map n | n in source :: |source[n]|
  {
    forall n | n in source ensures EntryFine(setup, stores, files, n, |source[n]|) {
      assert Importable(setup, n, source[n], stores) && ExportedAs(setup.codec, source[n], listed[n], files[n]);
      EntryReport(setup, n, source[n], listed[n], files, stores);
    }
    NoErrors(setup, source, names, files, stores, counts, errors);
  }

  lemma NoErrors(setup: Setup, source: Stores, names: seq<string>, files: map<string, Bytes>, stores: Stores,
                 counts: map<string, nat>, errors: seq<string>)
    requires Elems(names) == source.Keys && forall n :: n in source ==> EntryFine(setup, stores, files, n, |source[n]|)
    requires IsReport(setup, stores, names, files, counts, errors)
    ensures errors == [] && counts == map n | n in source :: |source[n]|
  {
    ManifestNames(source, names);
    forall n ensures n !in errors {
      assert n in source ==> EntryFine(setup, stores, files, n, |source[n]|);
    }
    if errors != [] { HasElement(errors); }
    AllCounted(setup, source, names, files, stores, counts);
  }

  lemma ManifestNames(source: Stores, names: seq<string>)
    requires Elems(names) == source.Keys
    ensures forall n :: n in names <==> n in source
  {
    forall n ensures n in names <==> n in source {
      assert n in names <==> n in Elems(names);
    }
  }

  lemma AllCounted(setup: Setup, source: Stores, names: seq<string>, files: map<string, Bytes>, stores: Stores,
                   counts: map<string, nat>)
    requires forall n :: n in names <==> n in source
    requires forall n :: n in source ==> EntryFine(setup, stores, files, n, |source[n]|)
    requires IsReport(setup, stores, names, files, counts, [])
    ensures counts == map n | n in source :: |source[n]|
  {
    forall n | n in source ensures n in counts && counts[n] == |source[n]| {
      assert EntryFine(setup, stores, files, n, |source[n]|);
      assert n in names && Counted(setup, files, n, counts[n]);
    }
  }

  /** The entry is not reported, and counted only with this number. */
  ghost predicate EntryFine(setup: Setup, stores: Stores, files: map<string, Bytes>, n: string, size: nat) {
    !Reported(setup, stores, files, n) && CountIs(setup, files, n, size)
  }

  ghost predicate CountIs(setup: Setup, files: map<string, Bytes>, n: string, size: nat) {
    forall c: nat :: Counted(setup, files, n, c) ==> c == size
  }

  lemma EntryReport(setup: Setup, n: string, m: Docs, l: Listing, files: map<string, Bytes>, stores: Stores)
    requires LawfulJson(setup.codec) && Importable(setup, n, m, stores) && n in files && ExportedAs(setup.codec, m, l, files[n])
    ensures EntryFine(setup, stores, files, n, |m|)
  {
    ReadWhole(setup, m, l, files[n], map[]);
  }
}
