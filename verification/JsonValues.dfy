/** JSON values as Go decodes them into interface{}, and dotted paths into them. */
module JsonValues {

  import opened Prelude

  /** A decoded JSON value. Object members form a map, so Go's reflect.DeepEqual is plain equality and
      "for k, v := range m" is a loop that picks the keys in an arbitrary order. */
  datatype Json =
    | Null
    | Bool(b: bool)
    | Num(n: real)
    | Str(s: string)
    | Arr(items: seq<Json>)
    | Obj(fields: map<string, Json>)

  type Fields = map<string, Json>

  /** strings.Split(path, "."). */
  function Split(path: string): (keys: seq<string>)
    ensures keys != []
  {
    if path == "" then [""]
    else
      var rest := Split(path[1..]);
      if path[0] == '.' then [""] + rest else [[path[0]] + rest[0]] + rest[1..]
  }

  lemma {:induction false} SplitPlain(path: string)
    requires '.' !in path
    ensures Split(path) == [path]
  {
    if path != "" {
      SplitPlain(path[1..]);
      assert [path[0]] + path[1..] == path;
      assert path[0] in path;
    }
  }

  /** m[key] in Go: the zero value nil when the key is absent. */
  function Lookup(m: Fields, key: string): Json {
    if key in m then m[key] else Null
  }

  /** The value a list of keys leads to; a missing or null step gives null. */
  function Nested(v: Json, keys: seq<string>): Json
    decreases |keys|
  {
    if keys == [] then v
    else if v.Obj? && keys[0] in v.fields then Nested(v.fields[keys[0]], keys[1..])
    else Null
  }

  method GetNestedValue(data: Fields, path: string) returns (v: Json)
    ensures v == Nested(Obj(data), Split(path))
  {
    var keys := Split(path);
    v := Obj(data);
    var i := 0;
    while i < |keys|
      invariant 0 <= i <= |keys|
      invariant Nested(v, keys[i..]) == Nested(Obj(data), keys)
    {
      if !v.Obj? {
        return Null;
      }
      assert keys[i..][1..] == keys[i + 1..];
      v := Lookup(v.fields, keys[i]);
      i := i + 1;
      if v == Null {
        return Null;
      }
    }
  }

  lemma {:induction false} SplitDotted(a: string, b: string)
    requires '.' !in a
    ensures Split(a + "." + b) == [a] + Split(b)
    decreases a
  {
    var path := a + "." + b;
    if a == "" {
      assert path[1..] == b;
    } else {
      assert a[0] in a && path[0] == a[0] && path[1..] == a[1..] + "." + b;
      SplitDotted(a[1..], b);
      assert [a[0]] + a[1..] == a;
    }
  }

  /** A dotted path leads through the field before its first dot; other values than objects have no fields. */
  lemma DottedPathDescends(data: Fields, a: string, b: string)
    requires '.' !in a
    ensures Nested(Obj(data), Split(a + "." + b)) ==
            if a in data && data[a].Obj? then Nested(data[a], Split(b)) else Null
  {
    SplitDotted(a, b);
    var keys := [a] + Split(b);
    assert keys[0] == a && keys[1..] == Split(b);
    if a in data { assert Nested(Obj(data), keys) == Nested(data[a], Split(b)); }
  }

  /** A path without a dot names a top-level field. */
  lemma PlainPathIsField(data: Fields, path: string)
    requires '.' !in path
    ensures Nested(Obj(data), Split(path)) == Lookup(data, path)
  {
    SplitPlain(path);
    if path in data {
      assert Nested(Obj(data), [path]) == Nested(data[path], [path][1..]);
    }
  }
}
