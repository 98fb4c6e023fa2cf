/** Regrouping of concatenations, stated once so that proofs need not rediscover it. */
module Sequences {

  lemma Regroup<T>(e: seq<T>, k: nat, tail: seq<T>)
    requires k <= |e|
    ensures e + tail == e[..k] + (e[k..] + tail)
  {}

  lemma RegroupTwice<T>(e: seq<T>, k: nat, m: nat, tail: seq<T>)
    requires k <= m <= |e|
    ensures e + tail == e[..k] + (e[k..m] + (e[m..] + tail))
  {}

  lemma Uncons<T>(e: seq<T>, tail: seq<T>)
    requires e != []
    ensures (e + tail)[0] == e[0] && (e + tail)[1..] == e[1..] + tail
  {}

  lemma Reassociate<T>(a: seq<T>, b: seq<T>, c: seq<T>, d: seq<T>)
    ensures a + b + c + d == a + (b + c + d)
    ensures (a + b) + (c + d) == a + (b + c + d)
    ensures a + (b + c) + d == a + (b + c + d)
  {}

  lemma ShortenedTo<T>(s: seq<T>, tail: seq<T>)
    ensures (s + tail)[..|s|] == s && (s + tail)[|s|..] == tail
  {}

  lemma SplitAt<T>(e: seq<T>, k: nat)
    requires k <= |e|
    ensures e == e[..k] + e[k..]
  {}

  lemma Singleton<T>(x: T, tail: seq<T>)
    ensures ([x] + tail)[0] == x && ([x] + tail)[1..] == tail
  {}

  lemma Assoc<T>(a: seq<T>, b: seq<T>, c: seq<T>)
    ensures a + b + c == a + (b + c)
  {}

  lemma Empty<T>(a: seq<T>)
    ensures a + [] == a && [] + a == a
  {}
}
