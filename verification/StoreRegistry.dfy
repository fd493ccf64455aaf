/** The registry of document stores: built-in stores, dynamic stores in memory, and their addresses in the node's
    configuration file (app/service.go, "Dynamic store registry"). */
module StoreRegistry {

  import opened Prelude
  import opened Text

  // ---------------------------------------------------------------------------------------------
  // Names
  // ---------------------------------------------------------------------------------------------

  /** strings.ToLower(strings.TrimSpace(name)). */
  function Normalise(name: string): string {
    Lower(TrimSpace(name))
  }

  predicate IsNameStart(c: char) {
    'a' <= c <= 'z' || '0' <= c <= '9'
  }

  const RESERVED := {"contributions", "sqlite", "manifest", "orbitdb"}

  /** ValidateStoreName. */
  predicate IsStoreName(name: string) {
    && 2 <= |name| <= 63 && name !in RESERVED && IsNameStart(name[0])
    && forall i :: 1 <= i < |name| ==> IsNameStart(name[i]) || name[i] == '_' || name[i] == '-'
  }

  ghost predicate HasForm(name: string, first: char, rest: string) {
    && name == [first] + rest && 1 <= |rest| <= 62
    && ('a' <= first <= 'z' || '0' <= first <= '9')
    && forall c :: c in rest ==> 'a' <= c <= 'z' || '0' <= c <= '9' || c == '_' || c == '-'
  }

  /** A small letter or digit, then 1 to 62 small letters, digits, underscores and hyphens; four names are taken. */
  lemma StoreNameForm(name: string)
    ensures IsStoreName(name) <==>
              && name != "contributions" && name != "sqlite" && name != "manifest" && name != "orbitdb"
              && exists first, rest :: HasForm(name, first, rest)
  {
    if IsStoreName(name) {
      assert HasForm(name, name[0], name[1..]);
    }
    if first, rest :| HasForm(name, first, rest) {
      forall i | 1 <= i < |name| ensures IsNameStart(name[i]) || name[i] == '_' || name[i] == '-' {
        assert rest[i - 1] in rest && name[i] == rest[i - 1];
      }
    }
  }

  /** No space at either end, no capital letter. */
  predicate IsNormal(s: string) {
    && (s != "" ==> !IsSpace(s[0]) && !IsSpace(s[|s| - 1]))
    && forall i :: 0 <= i < |s| ==> !('A' <= s[i] <= 'Z')
  }

  lemma NormalisedIsNormal(name: string)
    ensures IsNormal(Normalise(name))
  {
    var t := TrimSpace(name);
    assert t != "" ==> t[0] == TrimLeft(name)[0];
  }

  lemma NormalIsFixed(s: string)
    requires IsNormal(s)
    ensures Normalise(s) == s
  {
    assert TrimLeft(s) == s;
    assert TrimRight(s) == s;
    assert Lower(s) == s;
  }

  lemma StoreNameIsNormal(name: string)
    requires IsStoreName(name)
    ensures IsNormal(name)
  {
    assert forall i :: 0 <= i < |name| ==> i == 0 || IsNameStart(name[i]) || name[i] == '_' || name[i] == '-';
  }

  /** Normalising is idempotent, and leaves the names it accepts alone. */
  lemma NormaliseIdempotent(name: string)
    ensures Normalise(Normalise(name)) == Normalise(name)
    ensures IsStoreName(name) ==> Normalise(name) == name
  {
    NormalisedIsNormal(name);
    NormalIsFixed(Normalise(name));
    if IsStoreName(name) {
      StoreNameIsNormal(name);
      NormalIsFixed(name);
    }
  }

  /** An OrbitDB address ends in a slash and the name the database was created with. */
  predicate IsAddressOf(name: string, address: string) {
    |address| > |name| && address[|address| - |name| - 1..] == "/" + name
  }

  /** No address belongs to two store names. */
  lemma AddressNamesOneStore(n: string, m: string, address: string)
    requires IsStoreName(n) && IsStoreName(m) && IsAddressOf(n, address) && IsAddressOf(m, address)
    ensures n == m
  {
    if |n| < |m| {
      SlashInLonger(n, m, address);
    } else if |m| < |n| {
      SlashInLonger(m, n, address);
    } else {
      assert n == ("/" + n)[1..] && m == ("/" + m)[1..];
    }
  }

  lemma SlashInLonger(n: string, m: string, address: string)
    requires |n| < |m| && IsAddressOf(n, address) && IsAddressOf(m, address)
    ensures '/' in m && !IsStoreName(m)
  {
    var k := |m| - |n| - 1;
    assert ("/" + m)[k + 1] == address[|address| - |n| - 1] == ("/" + n)[0];
    assert m[k] == '/';
  }

  // ---------------------------------------------------------------------------------------------
  // The registry as a value
  // ---------------------------------------------------------------------------------------------

  /** What opening a store in OrbitDB does; a store that is not a document store counts as a failure. */
  datatype Opening = OpenedAt(address: string) | OpenFails

  /** builtin: the compile-time stores open since boot; open: DynamicStores, a store standing for its address;
      addrs: DynamicStoreAddrs in memory; disk: the same in the configuration file. */
  datatype State = State(builtin: set<string>, open: map<string, string>, addrs: map<string, string>, disk: map<string, string>)

  /** A store handed out. */
  datatype Handle = Builtin(name: string) | Dynamic(address: string)

  /** What EnsureDocStore passes to OrbitDB: the recorded address, else the name. */
  function Request(s: State, n: string): string {
    if n in s.addrs && s.addrs[n] != "" then s.addrs[n] else n
  }

  /** OrbitDB reopens the address it is given, and creates an address that ends in the name it is given. */
  predicate LawfulOpening(s: State, n: string, o: Opening) {
    o.OpenedAt? ==> IsAddressOf(n, o.address) && (Request(s, n) != n ==> o.address == Request(s, n))
  }

  /** saveConfigBestEffort: the whole configuration reaches the file, or nothing does. */
  function Saved(s: State, saves: bool): State {
    if saves then s.(disk := s.addrs) else s
  }

  /** EnsureDocStore of a normalised name. */
  function Ensured(s: State, n: string, o: Opening, saves: bool): State {
    if n in s.builtin || !IsStoreName(n) || n in s.open || o.OpenFails? then s
    else
      var grown := s.(open := s.open[n := o.address]);
      if o.address == "" || (n in s.addrs && s.addrs[n] == o.address) then grown
      else Saved(grown.(addrs := s.addrs[n := o.address]), saves)
  }

  function Dropped(s: State, n: string, saves: bool): State {
    if n in s.builtin || n !in s.open then s
    else Saved(s.(open := s.open - {n}, addrs := s.addrs - {n}), saves)
  }

  /** A crash loses the memory; the next boot opens the built-in stores it can, and RestoreDynamicStores those
      recorded stores that open. */
  function Restarted(s: State, builtin: set<string>, opens: set<string>): State {
    State(builtin, Reopened(s.disk, s.disk.Keys, builtin, opens), s.disk, s.disk)
  }

  function Reopened(disk: map<string, string>, names: set<string>, builtin: set<string>, opens: set<string>): map<string, string> {
    map n | n in disk && n in names && n !in builtin && n in opens :: disk[n]
  }

  lemma ReopenedOneMore(s: State, names: set<string>, n: string, opens: set<string>)
    requires Inv(s) && s.addrs == s.disk && s.open == Reopened(s.disk, names, s.builtin, opens) && n in s.disk && n !in names
    ensures var o := if n in opens then OpenedAt(s.addrs[n]) else OpenFails;
            && LawfulOpening(s, n, o)
            && Ensured(s, n, o, false) == s.(open := Reopened(s.disk, names + {n}, s.builtin, opens))
  {
    var more := Reopened(s.disk, names + {n}, s.builtin, opens);
    if n in opens && n !in s.builtin {
      assert more == s.open[n := s.disk[n]];
    } else {
      assert more == s.open;
    }
  }

  /** The store a name stands for. */
  function HandleOf(s: State, n: string): Option<Handle> {
    if n in s.builtin then Some(Builtin(n)) else if n in s.open then Some(Dynamic(s.open[n])) else None
  }

  ghost predicate Inv(s: State) {
    && (forall n :: n in s.open ==> n in s.addrs && s.addrs[n] == s.open[n])
    && (forall n :: n in s.addrs ==> IsStoreName(n) && IsAddressOf(n, s.addrs[n]))
    && (forall n :: n in s.disk ==> IsStoreName(n) && IsAddressOf(n, s.disk[n]))
  }

  // ---------------------------------------------------------------------------------------------
  // The registry in memory
  // ---------------------------------------------------------------------------------------------

  class Registry {
    var builtin: set<string>
    var open: map<string, string>
    var addrs: map<string, string>
    var disk: map<string, string>

    ghost function Now(): State
      reads this
    {
      State(builtin, open, addrs, disk)
    }

    constructor (builtin: set<string>)
      ensures Now() == State(builtin, map[], map[], map[]) && Inv(Now())
    {
      this.builtin, open, addrs, disk := builtin, map[], map[], map[];
    }

    method SaveConfig(saves: bool)
      modifies this`disk
      ensures Now() == Saved(old(Now()), saves)
    {
      if saves { disk := addrs; }
    }

    method PersistAddr(name: string, address: string, saves: bool)
      modifies this`addrs, this`disk
      ensures Now() == if address == "" || (name in old(addrs) && old(addrs)[name] == address) then old(Now())
                       else Saved(old(Now()).(addrs := old(addrs)[name := address]), saves)
    {
      if address == "" { return; }
      if name in addrs && addrs[name] == address { return; }
      addrs := addrs[name := address];
      SaveConfig(saves);
    }

    /** EnsureDocStore. A failed open changes nothing, in memory or on disk. */
    method EnsureDocStore(name: string, o: Opening, saves: bool) returns (r: Result<Handle>)
      requires Inv(Now()) && LawfulOpening(Now(), Normalise(name), o)
      modifies this`open, this`addrs, this`disk
      ensures Now() == Ensured(old(Now()), Normalise(name), o, saves) && Inv(Now())
      ensures r.Ok? ==> HandleOf(Now(), Normalise(name)) == Some(r.value)
      ensures r.Error? <==> HandleOf(Now(), Normalise(name)).None? || (Normalise(name) !in builtin && !IsStoreName(Normalise(name)))
      ensures r.Error? ==> Now() == old(Now())
      ensures builtin == old(builtin)
      ensures r.Ok? ==> var n := Normalise(name);
                if n in builtin then r.value == Builtin(n) else n in open && r.value == Dynamic(open[n])
      ensures var n := Normalise(name);
              if n in old(builtin) || n in old(open) || !IsStoreName(n) || o.OpenFails? then Now() == old(Now())
              else
                && open == old(open)[n := o.address] && addrs == old(addrs)[n := o.address]
                && disk == if saves && addrs != old(addrs) then addrs else old(disk)
    {
      var n := Normalise(name);
      EnsuredInv(Now(), n, o, saves);
      if n in builtin { return Ok(Builtin(n)); }
      if !IsStoreName(n) { return Error; }
      if n in open { return Ok(Dynamic(open[n])); }
      if o.OpenFails? { return Error; }
      open := open[n := o.address];
      PersistAddr(n, o.address, saves);
      r := Ok(Dynamic(o.address));
    }

    method DropDynamicStore(name: string, saves: bool) returns (ok: bool)
      requires Inv(Now())
      modifies this`open, this`addrs, this`disk
      ensures Now() == Dropped(old(Now()), Normalise(name), saves) && Inv(Now())
      ensures ok <==> Normalise(name) !in old(builtin) && Normalise(name) in old(open)
      ensures ok ==> open == old(open) - {Normalise(name)} && addrs == old(addrs) - {Normalise(name)}
                     && disk == if saves then addrs else old(disk)
      ensures !ok ==> Now() == old(Now())
    {
      var n := Normalise(name);
      if n in builtin || n !in open { return false; }
      open := open - {n};
      addrs := addrs - {n};
      SaveConfig(saves);
      ok := true;
    }

    /** One turn of the loop of RestoreDynamicStores: a store that fails to open is skipped. */
    method Reopen(n: string, opens: set<string>, ghost done: set<string>)
      requires Inv(Now()) && addrs == disk && open == Reopened(disk, done, builtin, opens) && n in disk && n !in done
      modifies this`open, this`addrs, this`disk
      ensures Now() == old(Now()).(open := Reopened(disk, done + {n}, builtin, opens)) && Inv(Now())
    {
      NormaliseIdempotent(n);
      ReopenedOneMore(Now(), done, n, opens);
      var r := EnsureDocStore(n, if n in opens then OpenedAt(addrs[n]) else OpenFails, false);
    }

    /** Boot after a crash, then RestoreDynamicStores, which leaves the configuration file as it is. */
    method Restart(builtin': set<string>, opens: set<string>)
      requires Inv(Now())
      modifies this
      ensures Now() == Restarted(old(Now()), builtin', opens) && Inv(Now())
      ensures builtin == builtin' && addrs == disk == old(disk)
      ensures forall n :: n in open <==> n in old(disk) && n in opens && n !in builtin'
      ensures forall n :: n in open ==> open[n] == old(disk)[n]
    {
      builtin, open, addrs := builtin', map[], disk;
      var names := ListSet(addrs.Keys);
      for i := 0 to |names|
        invariant Inv(Now()) && addrs == disk == old(disk)
        invariant builtin == builtin' && open == Reopened(disk, Elems(names[..i]), builtin, opens)
      {
        var n := names[i];
        assert n in Elems(names) && n !in names[..i];
        Reopen(n, opens, Elems(names[..i]));
        assert names[..i + 1] == names[..i] + [n];
        assert Elems(names[..i + 1]) == Elems(names[..i]) + {n};
      }
      assert names[..|names|] == names;
    }

    /** ResolveDocStore: whatever the answer, the store handed out is the one registered under the normalised name. */
    method ResolveDocStore(dstype: string, create: bool, dynamic: bool, o: Opening, saves: bool)
      returns (r: Result<(Handle, string)>)
      requires Inv(Now()) && LawfulOpening(Now(), Target(dstype), o)
      modifies this`open, this`addrs, this`disk
      ensures Inv(Now())
      ensures r.Ok? ==> r.value.1 == Target(dstype) && HandleOf(Now(), Target(dstype)) == Some(r.value.0)
      ensures r.Ok? ==> var n := Target(dstype);
                if n in builtin then r.value.0 == Builtin(n) else n in open && r.value.0 == Dynamic(open[n])
      ensures r.Error? ==> Now() == old(Now())
      ensures Target(dstype) == "contributions" ==> r.Error?
      ensures Target(dstype) != "contributions" && HandleOf(old(Now()), Target(dstype)).Some? ==> r.Ok? && Now() == old(Now())
      ensures Target(dstype) != "contributions" && HandleOf(old(Now()), Target(dstype)).None? ==>
                (r.Ok? <==> create && dynamic && IsStoreName(Target(dstype)) && o.OpenedAt?)
      ensures Now() == old(Now()) || Now() == Ensured(old(Now()), Target(dstype), o, saves)
    {
      var name := Target(dstype);
      if name == "contributions" { return Error; }
      if name in builtin { return Ok((Builtin(name), name)); }
      if name in open { return Ok((Dynamic(open[name]), name)); }
      if !create || !dynamic { return Error; }
      TargetNormal(dstype);
      var h := EnsureDocStore(name, o, saves);
      r := if h.Ok? then Ok((h.value, name)) else Error;
    }
  }

  const DEFAULT_STORE := "dsswres"

  /** The name a dstype stands for. */
  function Target(dstype: string): string {
    if Normalise(dstype) == "" then DEFAULT_STORE else Normalise(dstype)
  }

  /** A name is trimmed and put in small letters; a blank one stands for the default store. */
  lemma TargetIs(dstype: string)
    ensures exists a, core, b :: dstype == a + core + b && AllSpaces(a) && AllSpaces(b)
              && (core != "" ==> !AllSpaces([core[0]]) && !AllSpaces([core[|core| - 1]]))
              && Target(dstype) == if core == "" then "dsswres" else Lower(core)
  {
    TrimDropsSpaces(dstype);
    var core := TrimSpace(dstype);
    assert Lower(core) == "" <==> core == "";
    var a, b :| dstype == a + core + b && AllSpaces(a) && AllSpaces(b);
  }

  lemma DefaultIsNormal()
    ensures Normalise(DEFAULT_STORE) == DEFAULT_STORE
  {
    assert IsNormal(DEFAULT_STORE);
    NormalIsFixed(DEFAULT_STORE);
  }

  lemma TargetNormal(dstype: string)
    ensures Normalise(Target(dstype)) == Target(dstype)
  {
    if Normalise(dstype) == "" {
      DefaultIsNormal();
    } else {
      NormaliseIdempotent(dstype);
    }
  }

  // ---------------------------------------------------------------------------------------------
  // Runs
  // ---------------------------------------------------------------------------------------------

  /** Operations on normalised names. */
  datatype Action =
    | Ensure(name: string, o: Opening, saves: bool)
    | Drop(name: string, saves: bool)
    | Crash(builtin: set<string>, opens: set<string>)

  function After(s: State, a: Action): State {
    match a
    case Ensure(name, o, saves) => Ensured(s, name, o, saves)
    case Drop(name, saves) => Dropped(s, name, saves)
    case Crash(builtin, opens) => Restarted(s, builtin, opens)
  }

  predicate Lawful(s: State, a: Action) {
    a.Ensure? ==> LawfulOpening(s, a.name, a.o)
  }

  function Final(s: State, run: seq<Action>): State
    decreases |run|
  {
    if run == [] then s else After(Final(s, run[..|run| - 1]), run[|run| - 1])
  }

  predicate IsRun(s: State, run: seq<Action>)
    decreases |run|
  {
    run != [] ==> IsRun(s, run[..|run| - 1]) && Lawful(Final(s, run[..|run| - 1]), run[|run| - 1])
  }

  lemma EnsuredInv(s: State, n: string, o: Opening, saves: bool)
    requires Inv(s) && LawfulOpening(s, n, o)
    ensures Inv(Ensured(s, n, o, saves))
    ensures o.OpenFails? ==> Ensured(s, n, o, saves) == s
  {
    if n in s.addrs && o.OpenedAt? {
      assert s.addrs[n] != "" && Request(s, n) == s.addrs[n] && s.addrs[n] != n;
    }
  }

  lemma {:induction false} RunInv(s: State, run: seq<Action>)
    requires Inv(s) && IsRun(s, run)
    ensures Inv(Final(s, run))
  {
    if run != [] {
      var before, a := run[..|run| - 1], run[|run| - 1];
      RunInv(s, before);
      if a.Ensure? { EnsuredInv(Final(s, before), a.name, a.o, a.saves); }
    }
  }

  /** In every reachable state a handle belongs to one name only: no request for a store is answered with another. */
  lemma StoresAreDistinct(s: State, run: seq<Action>, n: string, m: string)
    requires Inv(s) && IsRun(s, run)
    requires HandleOf(Final(s, run), n).Some? && HandleOf(Final(s, run), n) == HandleOf(Final(s, run), m)
    ensures n == m
  {
    RunInv(s, run);
    var t := Final(s, run);
    if n !in t.builtin && m !in t.builtin {
      AddressNamesOneStore(n, m, t.open[n]);
    }
  }

  predicate Saves(a: Action) {
    match a
    case Ensure(_, _, saves) => saves
    case Drop(_, saves) => saves
    case Crash(_, _) => true
  }

  /** As long as saves succeed, the file holds what the memory holds, so every open dynamic store has the address on
      disk. */
  lemma {:induction false} SavedRunSynced(s: State, run: seq<Action>)
    requires Inv(s) && IsRun(s, run) && s.disk == s.addrs
    requires forall a :: a in run ==> Saves(a)
    ensures var t := Final(s, run);
            t.disk == t.addrs && forall n :: n in t.open ==> n in t.disk && t.disk[n] == t.open[n]
  {
    RunInv(s, run);
    if run != [] {
      var before, a := run[..|run| - 1], run[|run| - 1];
      SavedRunSynced(s, before);
      assert a in run;
    }
  }

  /** The boots of the run open the same built-in stores, and every recorded store. */
  predicate Steady(s: State, a: Action, builtin: set<string>) {
    a.Crash? ==> a.builtin == builtin && s.disk.Keys <= a.opens
  }

  predicate SteadyRun(s: State, run: seq<Action>)
    decreases |run|
  {
    run != [] ==> SteadyRun(s, run[..|run| - 1]) && Steady(Final(s, run[..|run| - 1]), run[|run| - 1], s.builtin)
  }

  /** If saves succeed and recorded stores reopen, the open dynamic stores are exactly the recorded ones at every point,
      so a crash anywhere in the run brings back exactly the stores open before it. */
  lemma {:induction false} CrashRestores(s: State, run: seq<Action>, opens: set<string>)
    requires Inv(s) && IsRun(s, run) && SteadyRun(s, run)
    requires AllOpen(s) && forall a :: a in run ==> Saves(a)
    requires Final(s, run).disk.Keys <= opens
    ensures var t := Final(s, run);
            && AllOpen(t) && t.builtin == s.builtin
            && Restarted(t, t.builtin, opens) == t
  {
    SavedRunSynced(s, run);
    if run != [] {
      var before, a := run[..|run| - 1], run[|run| - 1];
      assert a in run;
      CrashRestores(s, before, Final(s, before).disk.Keys);
      RunInv(s, before);
      SteadyStep(Final(s, before), a);
    }
    assert Restarted(Final(s, run), s.builtin, opens).open == Final(s, run).disk by {
      RestartExact(Final(s, run), s.builtin, opens);
    }
  }

  /** All recorded stores are open, and none has the name of a built-in store. */
  ghost predicate AllOpen(s: State) {
    s.open == s.addrs == s.disk && s.open.Keys !! s.builtin
  }

  lemma SteadyStep(s: State, a: Action)
    requires Inv(s) && AllOpen(s) && Lawful(s, a) && Saves(a) && Steady(s, a, s.builtin)
    ensures AllOpen(After(s, a)) && After(s, a).builtin == s.builtin
  {
    match a
    case Ensure(name, o, _) =>
      if name !in s.builtin && IsStoreName(name) && name !in s.open && o.OpenedAt? {
        assert After(s, a).open == s.open[name := o.address];
      }
    case Drop(_, _) =>
    case Crash(builtin, opens) => RestartExact(s, builtin, opens);
  }

  /** A boot reopens exactly the recorded stores, at the recorded addresses, exactly when all of them open and none has
      become the name of a built-in store. */
  lemma RestartExact(s: State, builtin: set<string>, opens: set<string>)
    ensures Restarted(s, builtin, opens).open == s.disk <==> s.disk.Keys !! builtin && s.disk.Keys <= opens
  {
    var t := Restarted(s, builtin, opens);
    assert t.open.Keys == (s.disk.Keys - builtin) * opens;
  }

  /** Whatever opens and saves do, only dropping a store loses its address on disk. */
  lemma {:induction false} AddressKept(s: State, run: seq<Action>, n: string)
    requires Inv(s) && IsRun(s, run) && n in s.disk && n in s.addrs && s.addrs[n] == s.disk[n]
    requires forall a :: a in run && a.Drop? ==> a.name != n
    ensures var t := Final(s, run);
            && n in t.disk && t.disk[n] == s.disk[n]
            && n in t.addrs && t.addrs[n] == s.disk[n]
  {
    if run != [] {
      var before, a := run[..|run| - 1], run[|run| - 1];
      AddressKept(s, before, n);
      RunInv(s, before);
      assert a in run;
      AddressStays(Final(s, before), a, n);
    }
  }

  lemma AddressStays(s: State, a: Action, n: string)
    requires Inv(s) && Lawful(s, a) && n in s.disk && n in s.addrs && s.addrs[n] == s.disk[n]
    requires a.Drop? ==> a.name != n
    ensures var t := After(s, a); n in t.disk && n in t.addrs && t.addrs[n] == t.disk[n] == s.disk[n]
  {
    if a.Ensure? && a.name == n && a.o.OpenedAt? {
      assert Request(s, n) == s.addrs[n] && s.addrs[n] != n;
    }
  }
}
