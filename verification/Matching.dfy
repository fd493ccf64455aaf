/** The condition language of queries: matchesCondition, matchesCriteriaEnhanced and criteriaFilter of app/service.go. */
module Matching {

  import opened Prelude
  import opened JsonValues

  /** strconv.ParseFloat and regexp.MatchString, which this model does not look into. */
  datatype Library = Library(parseFloat: string -> Option<real>, matchRegex: (string, string) -> bool)

  /** What evaluating a condition does: answer, or panic in a type assertion ($regex, $exists). */
  datatype Verdict = Holds | Fails | Panics

  function OfBool(b: bool): Verdict {
    if b then Holds else Fails
  }

  function ToFloat(lib: Library, v: Json): real {
    match v
    case Num(n) => n
    case Str(s) =>
      (match lib.parseFloat(s)
       case Some(f) => f
       case None => 0.0)
    case _ => 0.0
  }

  predicate OccursAt(hay: string, needle: string, i: nat) {
    i + |needle| <= |hay| && hay[i..i + |needle|] == needle
  }

  predicate IsSubstring(hay: string, needle: string) {
    exists i | 0 <= i <= |hay| :: OccursAt(hay, needle, i)
  }

  predicate ArrayContains(list: Json, item: Json) {
    match list
    case Arr(items) => item in items
    case Str(s) => item.Str? && IsSubstring(s, item.s)
    case _ => false
  }

  predicate ArrayContainsAll(list: Json, items: Json) {
    items.Arr? && forall x :: x in items.items ==> ArrayContains(list, x)
  }

  /** One operator of a condition object. An operator the code does not know is skipped. */
  function OpVerdict(lib: Library, op: string, value: Json, arg: Json): Verdict {
    if op == "$gte" then OfBool(ToFloat(lib, value) >= ToFloat(lib, arg))
    else if op == "$lte" then OfBool(ToFloat(lib, value) <= ToFloat(lib, arg))
    else if op == "$gt" then OfBool(ToFloat(lib, value) > ToFloat(lib, arg))
    else if op == "$lt" then OfBool(ToFloat(lib, value) < ToFloat(lib, arg))
    else if op == "$contains" then OfBool(ArrayContains(value, arg))
    else if op == "$all" then OfBool(ArrayContainsAll(value, arg))
    else if op == "$in" then OfBool(ArrayContains(arg, value))
    else if op == "$regex" then
      if arg.Str? then OfBool(value.Str? && lib.matchRegex(arg.s, value.s)) else Panics
    else if op == "$exists" then
      if arg.Bool? then OfBool(value.Null? != arg.b) else Panics
    else if op == "$ne" then OfBool(value != arg)
    else Holds
  }

  /** The meaning of a condition: an object is a conjunction of operators, anything else is equality. */
  predicate ConditionHolds(lib: Library, value: Json, cond: Json) {
    if cond.Obj? then
      forall op :: op in cond.fields ==> OpVerdict(lib, op, value, cond.fields[op]) == Holds
    else value == cond
  }

  /** No operator of the condition has an argument its type assertion rejects. */
  predicate WellTypedCondition(cond: Json) {
    cond.Obj? ==>
      && ("$regex" in cond.fields ==> cond.fields["$regex"].Str?)
      && ("$exists" in cond.fields ==> cond.fields["$exists"].Bool?)
  }

  /** An order in which "for op := range condition" may visit the operators. */
  ghost predicate IsOrder(order: seq<string>, fields: Fields) {
    NoDup(order) && Elems(order) == fields.Keys
  }

  /** The answer when the operators come in this order: that of the first one that does not hold. */
  function OrderVerdict(lib: Library, value: Json, fields: Fields, order: seq<string>): Verdict
    requires forall op :: op in order ==> op in fields
    decreases order
  {
    if order == [] then Holds
    else if OpVerdict(lib, order[0], value, fields[order[0]]) != Holds then OpVerdict(lib, order[0], value, fields[order[0]])
    else OrderVerdict(lib, value, fields, order[1..])
  }

  lemma {:induction false} OrderVerdictIs(lib: Library, value: Json, fields: Fields, order: seq<string>)
    requires forall op :: op in order ==> op in fields
    ensures var v := OrderVerdict(lib, value, fields, order);
            if v == Holds then forall op :: op in order ==> OpVerdict(lib, op, value, fields[op]) == Holds
            else exists op :: op in order && OpVerdict(lib, op, value, fields[op]) == v
    decreases order
  {
    if order != [] && OpVerdict(lib, order[0], value, fields[order[0]]) == Holds {
      OrderVerdictIs(lib, value, fields, order[1..]);
    }
  }

  /** Once the operators of before hold, the verdict is up to the rest. */
  lemma {:induction false} HoldingPrefix(lib: Library, value: Json, fields: Fields, before: seq<string>, rest: seq<string>)
    requires forall op :: op in before + rest ==> op in fields
    requires forall op :: op in before ==> OpVerdict(lib, op, value, fields[op]) == Holds
    ensures OrderVerdict(lib, value, fields, before + rest) == OrderVerdict(lib, value, fields, rest)
    decreases before
  {
    if before == [] {
      assert before + rest == rest;
    } else {
      assert before[0] in before + rest && (before + rest)[0] == before[0] && (before + rest)[1..] == before[1..] + rest;
      HoldingPrefix(lib, value, fields, before[1..], rest);
    }
  }

  /** matchesCondition: the answer is that of some iteration order; unless it panics it is the meaning of the condition,
      and on a well-typed condition it never panics. */
  method MatchesCondition(lib: Library, value: Json, cond: Json) returns (v: Verdict, ghost order: seq<string>)
    ensures cond.Obj? ==> IsOrder(order, cond.fields) && v == OrderVerdict(lib, value, cond.fields, order)
    ensures v != Panics ==> v == OfBool(ConditionHolds(lib, value, cond))
    ensures WellTypedCondition(cond) ==> v != Panics
  {
    if !cond.Obj? {
      return OfBool(value == cond), [];
    }
    v, order := MatchesOperators(lib, value, cond.fields);
  }

  /** The loop over the operators of a condition. */
  method MatchesOperators(lib: Library, value: Json, fields: Fields) returns (v: Verdict, ghost order: seq<string>)
    ensures IsOrder(order, fields) && v == OrderVerdict(lib, value, fields, order)
    ensures if v == Holds then ConditionHolds(lib, value, Obj(fields))
            else exists op :: op in fields && OpVerdict(lib, op, value, fields[op]) == v
  {
    order := [];
    var todo := fields.Keys;
    while todo != {}
      invariant Visited(lib, value, fields, order, todo)
    {
      var op :| op in todo;
      ghost var before := todo;
      todo := todo - {op};
      assert before == todo + {op};
      v := OpVerdict(lib, op, value, fields[op]);
      if v != Holds {
        ghost var rest := Enumerate(todo);
        StopsAt(lib, value, fields, order, op, rest, todo);
        order := order + [op] + rest;
        return;
      }
      VisitOne(lib, value, fields, order, todo, op);
      order := order + [op];
    }
    v := Holds;
    AllVisited(lib, value, fields, order);
  }

  /** The operators visited so far, in order, all hold; todo are the others. */
  ghost predicate Visited(lib: Library, value: Json, fields: Fields, order: seq<string>, todo: set<string>) {
    && todo <= fields.Keys && NoDup(order) && Elems(order) == fields.Keys - todo
    && forall op :: op in order ==> op in fields && OpVerdict(lib, op, value, fields[op]) == Holds
  }

  lemma VisitOne(lib: Library, value: Json, fields: Fields, order: seq<string>, todo: set<string>, op: string)
    requires Visited(lib, value, fields, order, todo + {op}) && op !in todo
    requires op in fields && OpVerdict(lib, op, value, fields[op]) == Holds
    ensures Visited(lib, value, fields, order + [op], todo)
  {
    assert Elems([op]) == {op};
    NoDupJoin(order, [op]);
  }

  lemma AllVisited(lib: Library, value: Json, fields: Fields, order: seq<string>)
    requires Visited(lib, value, fields, order, {})
    ensures IsOrder(order, fields) && OrderVerdict(lib, value, fields, order) == Holds
    ensures ConditionHolds(lib, value, Obj(fields))
  {
    assert forall op :: op in fields.Keys ==> op in Elems(order);
    HoldingPrefix(lib, value, fields, order, []);
    assert order + [] == order;
  }

  /** The order that visits before, then op, then the rest gives the verdict of op. */
  lemma StopsAt(lib: Library, value: Json, fields: Fields, before: seq<string>, op: string, rest: seq<string>, todo: set<string>)
    requires op in fields && OpVerdict(lib, op, value, fields[op]) != Holds
    requires Visited(lib, value, fields, before, todo + {op}) && op !in todo && NoDup(rest) && Elems(rest) == todo
    ensures IsOrder(before + [op] + rest, fields)
    ensures OrderVerdict(lib, value, fields, before + [op] + rest) == OpVerdict(lib, op, value, fields[op])
  {
    assert op !in Elems(before) && Elems([op]) == {op};
    NoDupJoin(before, [op]);
    NoDupJoin(before + [op], rest);
    assert before + [op] + rest == before + ([op] + rest);
    HoldingPrefix(lib, value, fields, before, [op] + rest);
  }

  /** Some operator has this verdict. */
  ghost predicate SomeOp(lib: Library, value: Json, fields: Fields, v: Verdict) {
    exists op :: op in fields && OpVerdict(lib, op, value, fields[op]) == v
  }

  lemma FirstOpDecides(lib: Library, value: Json, fields: Fields, v: Verdict) returns (order: seq<string>)
    requires SomeOp(lib, value, fields, v) && v != Holds
    ensures IsOrder(order, fields) && OrderVerdict(lib, value, fields, order) == v
  {
    var op :| op in fields && OpVerdict(lib, op, value, fields[op]) == v;
    var rest := Enumerate(fields.Keys - {op});
    StopsAt(lib, value, fields, [], op, rest, fields.Keys - {op});
    order := [] + [op] + rest;
  }

  /** All iteration orders give one answer, exactly unless one operator fails and another one panics. */
  lemma ConditionOrderMatters(lib: Library, value: Json, fields: Fields)
    ensures (forall a, b :: IsOrder(a, fields) && IsOrder(b, fields) ==>
               OrderVerdict(lib, value, fields, a) == OrderVerdict(lib, value, fields, b))
       <==> !(SomeOp(lib, value, fields, Fails) && SomeOp(lib, value, fields, Panics))
  {
    if SomeOp(lib, value, fields, Fails) && SomeOp(lib, value, fields, Panics) {
      var a := FirstOpDecides(lib, value, fields, Fails);
      var b := FirstOpDecides(lib, value, fields, Panics);
      assert OrderVerdict(lib, value, fields, a) != OrderVerdict(lib, value, fields, b);
    } else {
      forall a, b | IsOrder(a, fields) && IsOrder(b, fields)
        ensures OrderVerdict(lib, value, fields, a) == OrderVerdict(lib, value, fields, b)
      {
        assert forall op :: op in fields.Keys ==> op in Elems(a) && op in Elems(b);
        OrderVerdictIs(lib, value, fields, a);
        OrderVerdictIs(lib, value, fields, b);
      }
    }
  }

  // ---------------------------------------------------------------------------------------------
  // matchesCriteriaEnhanced: nested $and / $or
  // ---------------------------------------------------------------------------------------------

  predicate WellTyped(crit: Fields)
    decreases Obj(crit)
  {
    forall k :: k in crit ==>
      if k == "$and" || k == "$or" then
        crit[k].Arr? ==> forall x :: x in crit[k].items ==> x.Obj? ==> WellTyped(x.fields)
      else WellTypedCondition(crit[k])
  }

  /** The Boolean meaning of criteria: a conjunction over the keys, with $and and $or over lists of criteria. */
  predicate Meaning(lib: Library, doc: Fields, crit: Fields)
    decreases Obj(crit), 0
  {
    forall k :: k in crit ==> KeyMeaning(lib, doc, k, crit[k])
  }

  predicate KeyMeaning(lib: Library, doc: Fields, k: string, cond: Json)
    decreases cond, 1
  {
    if k == "$and" then cond.Arr? && forall x :: x in cond.items ==> x.Obj? && Meaning(lib, doc, x.fields)
    else if k == "$or" then cond.Arr? && exists x :: x in cond.items && x.Obj? && Meaning(lib, doc, x.fields)
    else ConditionHolds(lib, Nested(Obj(doc), Split(k)), cond)
  }

  /** Terminates on every criteria; whatever order the keys come in, an answer is the Boolean meaning, and on well-typed
      criteria there is one. */
  method MatchesCriteriaEnhanced(lib: Library, doc: Fields, crit: Fields) returns (v: Verdict)
    ensures v != Panics ==> v == OfBool(Meaning(lib, doc, crit))
    ensures WellTyped(crit) ==> v != Panics
    decreases Obj(crit), 1
  {
    var todo := crit.Keys;
    while todo != {}
      invariant todo <= crit.Keys
      invariant forall k :: k in crit && k !in todo ==> KeyMeaning(lib, doc, k, crit[k])
    {
      var k :| k in todo;
      todo := todo - {k};
      assert crit[k] < Obj(crit);
      if k == "$and" {
        if !crit[k].Arr? { return Fails; }
        v := MatchesAll(lib, doc, crit[k].items);
      } else if k == "$or" {
        if !crit[k].Arr? { return Fails; }
        v := MatchesAny(lib, doc, crit[k].items);
      } else {
        var value := GetNestedValue(doc, k);
        ghost var order;
        v, order := MatchesCondition(lib, value, crit[k]);
      }
      assert v != Panics ==> v == OfBool(KeyMeaning(lib, doc, k, crit[k]));
      if v != Holds {
        return;
      }
    }
    v := Holds;
  }

  /** The list under $and. */
  method MatchesAll(lib: Library, doc: Fields, conds: seq<Json>) returns (v: Verdict)
    ensures v != Panics ==> v == OfBool(forall x :: x in conds ==> x.Obj? && Meaning(lib, doc, x.fields))
    ensures (forall x :: x in conds ==> x.Obj? ==> WellTyped(x.fields)) ==> v != Panics
    decreases conds
  {
    for i := 0 to |conds|
      invariant forall x :: x in conds[..i] ==> x.Obj? && Meaning(lib, doc, x.fields)
    {
      assert conds[i] in conds;
      if !conds[i].Obj? { return Fails; }
      v := MatchesCriteriaEnhanced(lib, doc, conds[i].fields);
      if v != Holds { return; }
    }
    v := Holds;
  }

  /** The list under $or. */
  method MatchesAny(lib: Library, doc: Fields, conds: seq<Json>) returns (v: Verdict)
    ensures v != Panics ==> v == OfBool(exists x :: x in conds && x.Obj? && Meaning(lib, doc, x.fields))
    ensures (forall x :: x in conds ==> x.Obj? ==> WellTyped(x.fields)) ==> v != Panics
    decreases conds
  {
    for i := 0 to |conds|
      invariant forall x :: x in conds[..i] ==> !(x.Obj? && Meaning(lib, doc, x.fields))
    {
      assert conds[i] in conds;
      if conds[i].Obj? {
        v := MatchesCriteriaEnhanced(lib, doc, conds[i].fields);
        if v != Fails { return; }
      }
    }
    v := Fails;
  }

  // ---------------------------------------------------------------------------------------------
  // criteriaFilter: an OR of ANDs
  // ---------------------------------------------------------------------------------------------

  predicate AllKeysHold(lib: Library, doc: Fields, crit: Fields) {
    forall k :: k in crit ==> ConditionHolds(lib, Nested(Obj(doc), Split(k)), crit[k])
  }

  predicate WellTypedFilters(criteria: seq<Fields>) {
    forall c, k :: c in criteria && k in c ==> WellTypedCondition(c[k])
  }

  /** What criteriaFilter answers for a stored value. */
  predicate Passes(lib: Library, criteria: seq<Fields>, doc: Json) {
    doc.Obj? && exists c :: c in criteria && AllKeysHold(lib, doc.fields, c)
  }

  /** The filter of a query, as a predicate. */
  function FilterOf(lib: Library, criteria: seq<Fields>): Json -> bool {
    d => Passes(lib, criteria, d)
  }

  /** criteriaFilter: whatever order the keys come in, an answer is right, and well-typed filters are answered. */
  method CriteriaFilter(lib: Library, criteria: seq<Fields>, doc: Json) returns (v: Verdict)
    ensures v != Panics ==> v == OfBool(Passes(lib, criteria, doc))
    ensures WellTypedFilters(criteria) ==> v != Panics
  {
    if !doc.Obj? { return Fails; }
    for i := 0 to |criteria|
      invariant forall c :: c in criteria[..i] ==> !AllKeysHold(lib, doc.fields, c)
    {
      var crit := criteria[i];
      assert crit in criteria;
      var all := true;
      var todo := crit.Keys;
      while todo != {} && all
        invariant todo <= crit.Keys
        invariant all ==> forall k :: k in crit && k !in todo ==> ConditionHolds(lib, Nested(doc, Split(k)), crit[k])
        invariant !all ==> !AllKeysHold(lib, doc.fields, crit)
        decreases todo
      {
        var k :| k in todo;
        todo := todo - {k};
        var value := GetNestedValue(doc.fields, k);
        ghost var order;
        v, order := MatchesCondition(lib, value, crit[k]);
        if v == Panics { return; }
        all := v == Holds;
      }
      if all { return Holds; }
    }
    v := Fails;
  }

  // ---------------------------------------------------------------------------------------------
  // What filters mean, in terms of documents
  // ---------------------------------------------------------------------------------------------

  /** The filter with one condition on one field. */
  function On(field: string, cond: Json): seq<Fields> {
    [map[field := cond]]
  }

  /** The filter with one operator on one field. */
  function Where(field: string, op: string, arg: Json): seq<Fields> {
    On(field, Obj(map[op := arg]))
  }

  lemma OneField(lib: Library, c: Fields, field: string, doc: Fields)
    requires c.Keys == {field}
    ensures Passes(lib, [c], Obj(doc)) <==> ConditionHolds(lib, Nested(Obj(doc), Split(field)), c[field])
  {
    assert c in [c] && field in c;
  }

  lemma OneOperator(lib: Library, field: string, op: string, arg: Json, doc: Fields)
    requires '.' !in field
    ensures Passes(lib, Where(field, op, arg), Obj(doc)) <==> OpVerdict(lib, op, Lookup(doc, field), arg) == Holds
  {
    PlainPathIsField(doc, field);
    var ops := map[op := arg];
    OneField(lib, map[field := Obj(ops)], field, doc);
    assert op in ops && Obj(ops).fields == ops;
  }

  /** The number a comparison takes a value for: numbers and strings that parse as one are themselves, all else is 0. */
  ghost predicate CountsAs(lib: Library, v: Json, n: real) {
    || v == Num(n)
    || (v.Str? && lib.parseFloat(v.s) == Some(n))
    || (n == 0.0 && !v.Num? && (v.Str? ==> lib.parseFloat(v.s).None?))
  }

  /** The order operators compare the field with the threshold as numbers. */
  lemma Comparisons(lib: Library, field: string, doc: Fields, arg: Json, n: real, m: real)
    requires '.' !in field
    requires CountsAs(lib, if field in doc then doc[field] else Null, n) && CountsAs(lib, arg, m)
    ensures Passes(lib, Where(field, "$gt", arg), Obj(doc)) <==> n > m
    ensures Passes(lib, Where(field, "$gte", arg), Obj(doc)) <==> n >= m
    ensures Passes(lib, Where(field, "$lt", arg), Obj(doc)) <==> n < m
    ensures Passes(lib, Where(field, "$lte", arg), Obj(doc)) <==> n <= m
  {
    OneOperator(lib, field, "$gt", arg, doc);
    OneOperator(lib, field, "$gte", arg, doc);
    OneOperator(lib, field, "$lt", arg, doc);
    OneOperator(lib, field, "$lte", arg, doc);
  }

  /** Membership: of an element in a list, or of a text in a text. */
  ghost predicate Within(item: Json, list: Json) {
    || (list.Arr? && item in list.items)
    || (list.Str? && item.Str? && exists a, b :: list.s == a + item.s + b)
  }

  lemma WithinIs(list: Json, item: Json)
    ensures ArrayContains(list, item) <==> Within(item, list)
  {
    if list.Str? && item.Str? {
      if i :| 0 <= i <= |list.s| && OccursAt(list.s, item.s, i) {
        assert list.s == list.s[..i] + item.s + list.s[i + |item.s|..];
      }
      if a, b :| list.s == a + item.s + b {
        assert OccursAt(list.s, item.s, |a|);
      }
    }
  }

  /** $in asks whether the field is in the argument, $contains whether the argument is in the field, and $all whether
      every element of the argument is. */
  lemma Memberships(lib: Library, field: string, doc: Fields, arg: Json)
    requires '.' !in field
    ensures var v := if field in doc then doc[field] else Null;
            && (Passes(lib, Where(field, "$in", arg), Obj(doc)) <==> Within(v, arg))
            && (Passes(lib, Where(field, "$contains", arg), Obj(doc)) <==> Within(arg, v))
            && (Passes(lib, Where(field, "$all", arg), Obj(doc)) <==> arg.Arr? && forall x :: x in arg.items ==> Within(x, v))
  {
    var v := Lookup(doc, field);
    OneOperator(lib, field, "$in", arg, doc);
    OneOperator(lib, field, "$contains", arg, doc);
    OneOperator(lib, field, "$all", arg, doc);
    WithinIs(arg, v);
    WithinIs(v, arg);
    forall x ensures ArrayContains(v, x) <==> Within(x, v) { WithinIs(v, x); }
  }

  const OPERATORS := {"$gt", "$gte", "$lt", "$lte", "$in", "$contains", "$all", "$regex", "$exists", "$ne"}

  /** $exists asks whether the field is there, null not counting; a plain condition asks for equality and $ne for its
      negation; $regex asks whether a text matches; an operator of another name asks for nothing. */
  lemma Equalities(lib: Library, field: string, doc: Fields, arg: Json)
    requires '.' !in field
    ensures var v := if field in doc then doc[field] else Null;
            && (Passes(lib, Where(field, "$ne", arg), Obj(doc)) <==> v != arg)
            && (!arg.Obj? ==> (Passes(lib, On(field, arg), Obj(doc)) <==> v == arg))
            && (arg.Bool? ==> (Passes(lib, Where(field, "$exists", arg), Obj(doc)) <==> (v != Null) == arg.b))
            && (arg.Str? ==> (Passes(lib, Where(field, "$regex", arg), Obj(doc)) <==> v.Str? && lib.matchRegex(arg.s, v.s)))
            && forall op :: op !in OPERATORS ==> Passes(lib, Where(field, op, arg), Obj(doc))
  {
    OneOperator(lib, field, "$ne", arg, doc);
    OneOperator(lib, field, "$exists", arg, doc);
    OneOperator(lib, field, "$regex", arg, doc);
    forall op | op !in OPERATORS ensures Passes(lib, Where(field, op, arg), Obj(doc)) { OneOperator(lib, field, op, arg, doc); }
    PlainPathIsField(doc, field);
    OneField(lib, map[field := arg], field, doc);
  }

  /** The operators of a condition hold together, and so do the keys of a filter; of a list of filters one is enough.
      Only objects pass. */
  lemma FilterIsOrOfAnds(lib: Library, a: seq<Fields>, b: seq<Fields>, field: string, fields: Fields, doc: Json)
    ensures Passes(lib, a + b, doc) <==> Passes(lib, a, doc) || Passes(lib, b, doc)
    ensures !Passes(lib, [], doc) && (!doc.Obj? ==> !Passes(lib, a, doc))
    ensures doc.Obj? ==>
              && (Passes(lib, [fields], doc) <==> forall k :: k in fields ==> Passes(lib, On(k, fields[k]), doc))
              && (Passes(lib, On(field, Obj(fields)), doc) <==>
                    forall op :: op in fields ==> Passes(lib, Where(field, op, fields[op]), doc))
  {
    assert forall c :: c in a + b <==> c in a || c in b;
    if doc.Obj? {
      assert fields in [fields];
      forall k | k in fields
        ensures Passes(lib, On(k, fields[k]), doc) <==> ConditionHolds(lib, Nested(doc, Split(k)), fields[k])
      {
        OneField(lib, map[k := fields[k]], k, doc.fields);
      }
      var v := Nested(doc, Split(field));
      OneField(lib, map[field := Obj(fields)], field, doc.fields);
      forall op | op in fields
        ensures Passes(lib, Where(field, op, fields[op]), doc) <==> OpVerdict(lib, op, v, fields[op]) == Holds
      {
        var ops := map[op := fields[op]];
        OneField(lib, map[field := Obj(ops)], field, doc.fields);
        assert op in ops && Obj(ops).fields == ops;
      }
    }
  }

  /** A condition on a dotted path is one on the object in the field before the dot; without one, nothing is there. */
  lemma DottedFilter(lib: Library, a: string, b: string, cond: Json, doc: Fields)
    requires '.' !in a
    ensures Passes(lib, On(a + "." + b, cond), Obj(doc)) <==>
            Passes(lib, On(b, cond), if a in doc && doc[a].Obj? then doc[a] else Obj(map[]))
  {
    var inner: Fields := if a in doc && doc[a].Obj? then doc[a].fields else map[];
    DottedPathDescends(doc, a, b);
    OneField(lib, map[a + "." + b := cond], a + "." + b, doc);
    OneField(lib, map[b := cond], b, inner);
    if inner == map[] { assert Nested(Obj(inner), Split(b)) == Null; }
  }

  /** The criteria of matchesCriteriaEnhanced hold key by key: $and asks for all of a list of criteria, $or for one of
      them, and any other key for what it asks for in a filter. */
  lemma CriteriaMean(lib: Library, doc: Fields, crit: Fields, k: string, cond: Json)
    ensures Meaning(lib, doc, crit) <==> forall k' :: k' in crit ==> Meaning(lib, doc, map[k' := crit[k']])
    ensures k != "$and" && k != "$or" ==> (Meaning(lib, doc, map[k := cond]) <==> Passes(lib, On(k, cond), Obj(doc)))
    ensures Meaning(lib, doc, map["$and" := cond]) <==>
            cond.Arr? && forall x :: x in cond.items ==> x.Obj? && Meaning(lib, doc, x.fields)
    ensures Meaning(lib, doc, map["$or" := cond]) <==>
            cond.Arr? && exists x :: x in cond.items && x.Obj? && Meaning(lib, doc, x.fields)
  {
    OneKey(lib, doc, k, cond);
    OneKey(lib, doc, "$and", cond);
    OneKey(lib, doc, "$or", cond);
    forall k' | k' in crit ensures Meaning(lib, doc, map[k' := crit[k']]) <==> KeyMeaning(lib, doc, k', crit[k']) {
      OneKey(lib, doc, k', crit[k']);
    }
    OneField(lib, map[k := cond], k, doc);
  }

  lemma OneKey(lib: Library, doc: Fields, k: string, cond: Json)
    ensures Meaning(lib, doc, map[k := cond]) <==> KeyMeaning(lib, doc, k, cond)
  {
    var crit: Fields := map[k := cond];
    assert k in crit && crit[k] == cond;
  }

  /** Evaluating a condition object can panic exactly when an argument of $regex is no text or one of $exists no Boolean. */
  lemma CanPanicIff(lib: Library, value: Json, fields: Fields)
    ensures (exists order :: IsOrder(order, fields) && OrderVerdict(lib, value, fields, order) == Panics)
       <==> ("$regex" in fields && !fields["$regex"].Str?) || ("$exists" in fields && !fields["$exists"].Bool?)
  {
    if SomeOp(lib, value, fields, Panics) {
      var order := FirstOpDecides(lib, value, fields, Panics);
    } else {
      forall order | IsOrder(order, fields) ensures OrderVerdict(lib, value, fields, order) != Panics {
        assert forall op :: op in fields.Keys ==> op in Elems(order);
        OrderVerdictIs(lib, value, fields, order);
      }
    }
    assert SomeOp(lib, value, fields, Panics) <==>
           ("$regex" in fields && !fields["$regex"].Str?) || ("$exists" in fields && !fields["$exists"].Bool?) by {
      if "$regex" in fields && !fields["$regex"].Str? { assert OpVerdict(lib, "$regex", value, fields["$regex"]) == Panics; }
      if "$exists" in fields && !fields["$exists"].Bool? { assert OpVerdict(lib, "$exists", value, fields["$exists"]) == Panics; }
    }
  }


  function AsObjects(criteria: seq<Fields>): seq<Json> {
    seq(|criteria|, i requires 0 <= i < |criteria| => Obj(criteria[i]))
  }

  /** The two matchers agree: a list of filters without logical keys means what the single criterion $or of
      the list means. */
  lemma FilterIsOr(lib: Library, criteria: seq<Fields>, doc: Fields)
    requires forall c :: c in criteria ==> "$and" !in c && "$or" !in c
    ensures Passes(lib, criteria, Obj(doc)) == Meaning(lib, doc, map["$or" := Arr(AsObjects(criteria))])
  {
    var list := AsObjects(criteria);
    OrMeaning(lib, doc, list);
    if c :| c in criteria && AllKeysHold(lib, doc, c) {
      var i :| 0 <= i < |criteria| && criteria[i] == c;
      assert list[i] == Obj(c);
      PlainMeaning(lib, doc, c);
      assert Obj(c) in list && Obj(c).Obj? && Meaning(lib, doc, Obj(c).fields);
    }
    if x :| x in list && x.Obj? && Meaning(lib, doc, x.fields) {
      var i :| 0 <= i < |list| && list[i] == x;
      assert criteria[i] in criteria;
      PlainMeaning(lib, doc, criteria[i]);
    }
  }

  lemma PlainMeaning(lib: Library, doc: Fields, c: Fields)
    requires "$and" !in c && "$or" !in c
    ensures AllKeysHold(lib, doc, c) == Meaning(lib, doc, c)
  {
  }

  lemma OrMeaning(lib: Library, doc: Fields, list: seq<Json>)
    ensures Meaning(lib, doc, map["$or" := Arr(list)]) <==> exists x :: x in list && x.Obj? && Meaning(lib, doc, x.fields)
  {
    var crit: Fields := map["$or" := Arr(list)];
    assert crit["$or"] == Arr(list);
  }

  /** With a logical key the matchers part: criteriaFilter reads "$or" as the name of a field. */
  lemma LogicalKeysDiffer(lib: Library)
    ensures var c: Fields := map["$or" := Arr([Obj(map[])])];
            !Passes(lib, [c], Obj(map[])) && Meaning(lib, map[], c)
  {
    var c: Fields := map["$or" := Arr([Obj(map[])])];
    var empty: Fields := map[];
    PlainPathIsField(empty, "$or");
    assert !AllKeysHold(lib, empty, c) by { assert "$or" in c; }
    assert Meaning(lib, empty, empty);
    assert Obj(empty) in c["$or"].items;
  }

  // ---------------------------------------------------------------------------------------------
  // The equalities a filter implies
  // ---------------------------------------------------------------------------------------------

  predicate TopLevelEquality(k: string, cond: Json) {
    cond.Str? && k != "" && '.' !in k
  }

  predicate Satisfies(doc: Fields, equal: map<string, string>) {
    forall k :: k in equal ==> k in doc && doc[k] == Str(equal[k])
  }

  /** indexableEqualities: the string equalities on top-level fields of a single filter. */
  method IndexableEqualities(criteria: seq<Fields>) returns (equal: map<string, string>)
    ensures |criteria| != 1 ==> equal == map[]
    ensures |criteria| == 1 ==>
              forall k :: (k in equal <==> k in criteria[0] && criteria[0][k].Str? && k != "" && '.' !in k)
                          && (k in equal ==> Str(equal[k]) == criteria[0][k])
    ensures forall lib: Library, doc: Fields :: Passes(lib, criteria, Obj(doc)) ==> Satisfies(doc, equal)
  {
    equal := map[];
    if |criteria| != 1 { return; }
    var crit := criteria[0];
    var todo := crit.Keys;
    while todo != {}
      invariant todo <= crit.Keys
      invariant equal == map k | k in crit && k !in todo && TopLevelEquality(k, crit[k]) :: crit[k].s
    {
      var k :| k in todo;
      todo := todo - {k};
      if TopLevelEquality(k, crit[k]) { equal := equal[k := crit[k].s]; }
    }
    forall lib: Library, doc: Fields | Passes(lib, criteria, Obj(doc)) ensures Satisfies(doc, equal) {
      PassImpliesEqualities(lib, crit, doc);
    }
  }

  /** exactEqualities: succeeds only on a non-empty filter made of such equalities and nothing else, and then a
      document passes exactly when it satisfies them. */
  method ExactEqualities(criteria: seq<Fields>) returns (equal: map<string, string>, ok: bool)
    ensures ok <==> |criteria| == 1 && criteria[0] != map[]
                    && forall k :: k in criteria[0] ==> criteria[0][k].Str? && k != "" && '.' !in k
    ensures ok ==> equal != map[] && equal == map k | k in criteria[0] :: criteria[0][k].s
    ensures ok ==> forall lib: Library, doc: Fields :: Passes(lib, criteria, Obj(doc)) <==> Satisfies(doc, equal)
  {
    equal := map[];
    if |criteria| != 1 || criteria[0] == map[] { return map[], false; }
    var crit := criteria[0];
    var todo := crit.Keys;
    while todo != {}
      invariant todo <= crit.Keys
      invariant forall k :: k in crit && k !in todo ==> TopLevelEquality(k, crit[k])
      invariant equal == map k | k in crit && k !in todo && crit[k].Str? :: crit[k].s
    {
      var k :| k in todo;
      todo := todo - {k};
      if !TopLevelEquality(k, crit[k]) { return map[], false; }
      equal := equal[k := crit[k].s];
    }
    ok := true;
    var k :| k in crit;
    assert k in equal;
    forall lib: Library, doc: Fields ensures Passes(lib, criteria, Obj(doc)) <==> Satisfies(doc, equal) {
      PassImpliesEqualities(lib, crit, doc);
      if Satisfies(doc, equal) {
        forall k | k in crit ensures ConditionHolds(lib, Nested(Obj(doc), Split(k)), crit[k]) {
          assert k in equal;
          PlainPathIsField(doc, k);
        }
        assert crit in criteria;
      }
    }
  }

  /** A document that passes a filter satisfies each of its string equalities on top-level fields. */
  lemma PassImpliesEqualities(lib: Library, crit: Fields, doc: Fields)
    ensures Passes(lib, [crit], Obj(doc)) ==>
              forall k :: k in crit && TopLevelEquality(k, crit[k]) ==> k in doc && doc[k] == crit[k]
  {
    if Passes(lib, [crit], Obj(doc)) {
      assert AllKeysHold(lib, doc, crit);
      forall k | k in crit && TopLevelEquality(k, crit[k]) ensures k in doc && doc[k] == crit[k] {
        PlainPathIsField(doc, k);
      }
    }
  }

}
