/** Datatypes and sequence facts shared by every module. */
module Prelude {

  datatype Option<+T> = None | Some(value: T)

  /** A Go (value, error) pair; the text of the error is not modelled. */
  datatype Result<+T> = Ok(value: T) | Error

  predicate NoDup<T(==)>(s: seq<T>) {
    forall i, j :: 0 <= i < j < |s| ==> s[i] != s[j]
  }

  function Elems<T(==)>(s: seq<T>): set<T> {
    set x | x in s
  }

  lemma {:induction false} NoDupSize(keys: seq<string>)
    requires NoDup(keys)
    ensures |Elems(keys)| == |keys|
  {
    if keys != [] {
      var n := |keys| - 1;
      NoDupSize(keys[..n]);
      assert keys[n] !in keys[..n];
      assert Elems(keys) == Elems(keys[..n]) + {keys[n]};
    }
  }

  function Flatten<T>(ss: seq<seq<T>>): seq<T> {
    if ss == [] then [] else ss[0] + Flatten(ss[1..])
  }

  lemma {:induction false} FlattenConcat<T>(a: seq<seq<T>>, b: seq<seq<T>>)
    ensures Flatten(a + b) == Flatten(a) + Flatten(b)
    decreases a
  {
    if a == [] {
      assert a + b == b;
    } else {
      assert (a + b)[0] == a[0] && (a + b)[1..] == a[1..] + b;
      FlattenConcat(a[1..], b);
      assert Flatten(a + b) == a[0] + Flatten(a[1..] + b);
    }
  }

  /** Some sequence without duplicates lists the elements of any finite set. */
  lemma {:induction false} Enumerate<T>(s: set<T>) returns (xs: seq<T>)
    ensures NoDup(xs) && Elems(xs) == s
    decreases s
  {
    if s == {} {
      xs := [];
    } else {
      var x :| x in s;
      var rest := Enumerate(s - {x});
      assert x !in rest by { assert x !in Elems(rest); }
      xs := [x] + rest;
      assert Elems(xs) == {x} + Elems(rest);
    }
  }

  /** values[i] is what m maps keys[i] to. */
  ghost predicate Values<K, V>(m: map<K, V>, keys: seq<K>, values: seq<V>) {
    |values| == |keys| && forall i :: 0 <= i < |keys| ==> keys[i] in m && values[i] == m[keys[i]]
  }

  lemma HasElement<T>(s: seq<T>)
    requires s != []
    ensures exists x :: x in s
  {
    assert s[0] in s;
  }

  lemma NoElements<T>(s: seq<T>)
    requires Elems(s) == {}
    ensures s == []
  {
    forall x ensures x !in s {
      assert x in s ==> x in Elems(s);
    }
    if s != [] { HasElement(s); }
  }

  lemma NoDupJoin<T>(a: seq<T>, b: seq<T>)
    requires NoDup(a) && NoDup(b) && Elems(a) !! Elems(b)
    ensures NoDup(a + b) && Elems(a + b) == Elems(a) + Elems(b)
  {
    var c := a + b;
    forall i, j | 0 <= i < j < |c| ensures c[i] != c[j] {
      if i < |a| <= j { assert a[i] in Elems(a) && b[j - |a|] in Elems(b); }
    }
  }

  /** Appending to both sequences, or to the second only, keeps the first from having an element more often. */
  lemma CountNext<T>(kept: seq<T>, all: seq<T>, last: T, keep: bool, x: T)
    requires multiset(kept)[x] <= multiset(all)[x]
    ensures multiset(if keep then kept + [last] else kept)[x] <= multiset(all + [last])[x]
    ensures multiset(kept)[x] == multiset(all)[x] && (keep || last != x) ==>
              multiset(if keep then kept + [last] else kept)[x] == multiset(all + [last])[x]
  {
  }

  /** p picks the positions at of e, in order. */
  ghost predicate Picks<T>(p: seq<T>, e: seq<T>, at: seq<nat>) {
    && |at| == |p|
    && (forall i, j :: 0 <= i < j < |at| ==> at[i] < at[j])
    && (forall i :: 0 <= i < |at| ==> at[i] < |e| && p[i] == e[at[i]])
  }

  ghost predicate Subsequence<T>(p: seq<T>, e: seq<T>) {
    exists at :: Picks(p, e, at)
  }

  lemma SubsequenceNext<T>(p: seq<T>, e: seq<T>, x: T)
    requires Subsequence(p, e)
    ensures Subsequence(p, e + [x]) && Subsequence(p + [x], e + [x])
  {
    var at: seq<nat> :| Picks(p, e, at);
    assert Picks(p, e + [x], at);
    assert Picks(p + [x], e + [x], at + [|e|]);
  }

  function DropAt<T>(s: seq<T>, j: nat): seq<T>
    requires j < |s|
  {
    s[..j] + s[j + 1..]
  }

  lemma DropAtOne<T>(s: seq<T>, j: nat)
    requires j < |s|
    ensures multiset(s) == multiset(DropAt(s, j)) + multiset{s[j]}
  {
    assert s == s[..j] + ([s[j]] + s[j + 1..]);
  }

  lemma DropAtKey<K>(keys: seq<K>, j: nat)
    requires NoDup(keys) && j < |keys|
    ensures NoDup(DropAt(keys, j)) && Elems(DropAt(keys, j)) == Elems(keys) - {keys[j]}
  {
    var rest := DropAt(keys, j);
    forall k ensures k in rest <==> k in keys && k != keys[j] {
      if k in keys {
        var i :| 0 <= i < |keys| && keys[i] == k;
        if i < j { assert rest[i] == k; } else if i > j { assert rest[i - 1] == k; }
      }
    }
  }

  /** Two listings of the values under the same set of keys are permutations of each other. */
  lemma {:induction false} ListingsAgree<K, V>(m: map<K, V>, keys: seq<K>, values: seq<V>, keys': seq<K>, values': seq<V>)
    requires NoDup(keys) && NoDup(keys') && Elems(keys) == Elems(keys')
    requires Values(m, keys, values) && Values(m, keys', values')
    ensures multiset(values) == multiset(values')
    decreases keys
  {
    assert |keys'| > 0 ==> keys'[0] in Elems(keys');
    if keys != [] {
      assert keys[0] in Elems(keys');
      var j :| 0 <= j < |keys'| && keys'[j] == keys[0];
      DropAtKey(keys, 0);
      DropAtKey(keys', j);
      ListingsAgree(m, DropAt(keys, 0), DropAt(values, 0), DropAt(keys', j), DropAt(values', j));
      DropAtOne(values, 0);
      DropAtOne(values', j);
    }
  }

  /** The elements of a Go map-as-set, in the arbitrary order a range loop gives them. */
  method ListSet(s: set<string>) returns (keys: seq<string>)
    ensures NoDup(keys) && Elems(keys) == s
  {
    keys := [];
    var todo := s;
    while todo != {}
      invariant todo <= s && NoDup(keys) && Elems(keys) == s - todo
    {
      var k :| k in todo;
      todo := todo - {k};
      assert k !in keys by { assert k !in Elems(keys); }
      keys := keys + [k];
      assert Elems(keys) == Elems(keys[..|keys| - 1]) + {k};
    }
  }
}
