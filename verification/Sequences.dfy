/** Facts about sequences that several modules use. */
module Sequences {
  lemma Associated<T>(a: seq<T>, b: seq<T>, c: seq<T>)
    ensures a + (b + c) == a + b + c
  {}

  lemma Parted<T>(s: seq<T>, p: nat, q: nat)
    requires p <= q <= |s|
    ensures s == s[..p] + s[p..q] + s[q..] && s[..q][..p] == s[..p]
  {}
}
