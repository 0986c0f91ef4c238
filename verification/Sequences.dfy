/** A few facts about sequences that the solver does not find by itself. */
module Sequences {

  lemma Assoc<T>(a: seq<T>, b: seq<T>, c: seq<T>)
    ensures (a + b) + c == a + (b + c)
  {
  }

  lemma Drop<T>(a: seq<T>, b: seq<T>)
    ensures (a + b)[|a|..] == b
  {
  }

  lemma NothingFirst<T>(s: seq<T>)
    ensures [] + s == s
  {
  }

  lemma Unfold<T>(s: seq<T>, i: nat)
    requires i < |s|
    ensures s[i..] == [s[i]] + s[i + 1..]
    ensures s[i..][0] == s[i] && s[i..][1..] == s[i + 1..]
    ensures s[..i + 1] == s[..i] + [s[i]]
  {
  }

  lemma TakeOneMore<T>(s: seq<T>, m: nat)
    requires m < |s|
    ensures s[..m + 1] == [s[0]] + s[1..][..m]
    ensures s[..m + 1][0] == s[0] && s[..m + 1][1..] == s[1..][..m]
  {
  }
}
