/** strings.TrimSpace and strings.ToLower on ASCII text. */
module Text {

  predicate IsSpace(c: char) {
    c == ' ' || '\t' <= c <= '\r'
  }

  function LowerChar(c: char): char {
    if 'A' <= c <= 'Z' then c - 'A' + 'a' else c
  }

  /** strings.ToLower on ASCII. */
  function Lower(s: string): (r: string)
    ensures |r| == |s| && forall i :: 0 <= i < |s| ==> r[i] == LowerChar(s[i])
  {
    if s == "" then "" else [LowerChar(s[0])] + Lower(s[1..])
  }

  function TrimLeft(s: string): (r: string)
    ensures r == "" || !IsSpace(r[0])
  {
    if s != "" && IsSpace(s[0]) then TrimLeft(s[1..]) else s
  }

  function TrimRight(s: string): (r: string)
    ensures r == "" || !IsSpace(r[|r| - 1])
    ensures r <= s
  {
    if s != "" && IsSpace(s[|s| - 1]) then TrimRight(s[..|s| - 1]) else s
  }

  function TrimSpace(s: string): string {
    TrimRight(TrimLeft(s))
  }

  ghost predicate AllSpaces(s: string) {
    forall i :: 0 <= i < |s| ==> s[i] == ' ' || '\t' <= s[i] <= '\r'
  }

  lemma {:induction false} TrimLeftDrops(s: string) returns (a: string)
    ensures AllSpaces(a) && s == a + TrimLeft(s)
  {
    a := "";
    if s != "" && IsSpace(s[0]) {
      var rest := TrimLeftDrops(s[1..]);
      a := [s[0]] + rest;
      assert s == [s[0]] + s[1..];
      assert forall i :: 1 <= i < |a| ==> a[i] == rest[i - 1];
    }
  }

  lemma {:induction false} TrimRightDrops(s: string) returns (b: string)
    ensures AllSpaces(b) && s == TrimRight(s) + b
  {
    b := "";
    if s != "" && IsSpace(s[|s| - 1]) {
      var init := s[..|s| - 1];
      var rest := TrimRightDrops(init);
      b := rest + [s[|s| - 1]];
      assert s == init + [s[|s| - 1]];
      assert forall i :: 0 <= i < |rest| ==> b[i] == rest[i];
    }
  }

  /** Trimming takes off spaces at both ends, all of them and nothing else. */
  lemma TrimDropsSpaces(s: string)
    ensures var r := TrimSpace(s);
            && (exists a, b :: s == a + r + b && AllSpaces(a) && AllSpaces(b))
            && (r != "" ==> !AllSpaces([r[0]]) && !AllSpaces([r[|r| - 1]]))
  {
    var r := TrimSpace(s);
    var a := TrimLeftDrops(s);
    var b := TrimRightDrops(TrimLeft(s));
    assert s == a + r + b;
    assert r != "" ==> r[0] == TrimLeft(s)[0] && [r[0]][0] == r[0] && [r[|r| - 1]][0] == r[|r| - 1];
  }

  /** Capital letters become the small letter in their place, 32 code points on; nothing else changes. */
  lemma LowerIs(s: string, i: nat)
    requires i < |s|
    ensures Lower(s)[i] as int == if 'A' <= s[i] <= 'Z' then s[i] as int + 32 else s[i] as int
  {
  }
}
