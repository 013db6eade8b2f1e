module Sequences {

  lemma Associates<T>(a: seq<T>, b: seq<T>, c: seq<T>)
    ensures (a + b) + c == a + (b + c)
  {
  }

  lemma SuffixOfSuffix<T>(s: seq<T>, i: nat, j: nat)
    requires i + j <= |s|
    ensures s[i..][j..] == s[i + j..]
  {
  }

  lemma SameTail<T>(x: T, a: seq<T>, b: seq<T>)
    requires [x] + a == [x] + b
    ensures a == b
  {
    assert a == ([x] + a)[1..] == ([x] + b)[1..] == b;
  }
}
