/** Ranges of positions, the elements at given positions, concatenation, and sizes of sets. */
module Sequences {

  function Range(a: nat, b: nat): (s: seq<nat>)
    requires a <= b
    ensures |s| == b - a && forall i :: 0 <= i < |s| ==> s[i] == a + i
  {
    seq(b - a, i => a + i)
  }

  ghost predicate Inside<T>(s: seq<T>, idx: seq<nat>) {
    forall i :: 0 <= i < |idx| ==> idx[i] < |s|
  }

  function ElementsAt<T>(s: seq<T>, idx: seq<nat>): (out: seq<T>)
    requires Inside(s, idx)
    ensures |out| == |idx| && forall i :: 0 <= i < |idx| ==> out[i] == s[idx[i]]
  {
    seq(|idx|, i requires 0 <= i < |idx| => s[idx[i]])
  }

  lemma AppendRange<T>(s: seq<T>, idx: seq<nat>, a: nat, b: nat)
    requires a <= b <= |s| && Inside(s, idx)
    ensures ElementsAt(s, idx + Range(a, b)) == ElementsAt(s, idx) + s[a..b]
  {
  }

  lemma RangesJoin(a: nat, b: nat, c: nat)
    requires a <= b <= c
    ensures Range(a, b) + Range(b, c) == Range(a, c)
  {
  }

  lemma Regroup<T>(a: seq<T>, b: seq<T>, c: seq<T>)
    ensures a + (b + c) == (a + b) + c
  {
  }

  lemma {:induction false} SubsetSize<T>(a: set<T>, b: set<T>)
    requires a <= b
    ensures |a| <= |b|
  {
    if x :| x in a {
      SubsetSize(a - {x}, b - {x});
    }
  }
}
