/** Facts about concatenation and slices, stated once and called where a proof would otherwise search for them. */
module Sequences {
  lemma Regroup<T>(a: seq<T>, b: seq<T>, c: seq<T>)
    ensures a + (b + c) == a + b + c
  {
  }

  /** One slice more. */
  lemma TakeOn<T>(before: seq<T>, data: seq<T>, i: nat, j: nat)
    requires i <= j <= |data|
    ensures before + data[..i] + data[i..j] == before + data[..j]
    ensures before + data[..i] + data[i..] == before + data
  {
  }

  lemma CutOut<T>(s: seq<T>, p: nat)
    requires p < |s|
    ensures var cut := s[..p] + s[p + 1..];
      |cut| == |s| - 1 && forall q :: 0 <= q < |cut| ==> cut[q] == s[if q < p then q else q + 1]
  {
  }

  lemma Empty<T>(s: seq<T>)
    ensures [] + s == s && s + [] == s
  {
  }
}
