/** Element-wise maps over sequences, as Python builds lists by appending
    one result per input in a loop. */
module Seqs {

  /** `[f(x) for x in s]`, grown at the end. */
  function MapSeq<A, B>(f: A -> B, s: seq<A>): seq<B>
    decreases |s|
  {
    if s == [] then [] else MapSeq(f, s[..|s| - 1]) + [f(s[|s| - 1])]
  }

  lemma {:induction false} MapSeqIndex<A, B>(f: A -> B, s: seq<A>)
    ensures |MapSeq(f, s)| == |s|
    ensures forall i :: 0 <= i < |s| ==> MapSeq(f, s)[i] == f(s[i])
    decreases |s|
  {
    if s != [] {
      var init := s[..|s| - 1];
      MapSeqIndex(f, init);
      assert forall i :: 0 <= i < |init| ==> init[i] == s[i];
    }
  }

  lemma {:induction false} MapSeqAppend<A, B>(f: A -> B, a: seq<A>, b: seq<A>)
    ensures MapSeq(f, a + b) == MapSeq(f, a) + MapSeq(f, b)
    decreases |b|
  {
    if b == [] {
      assert a + b == a;
    } else {
      assert (a + b)[..|a + b| - 1] == a + b[..|b| - 1];
      MapSeqAppend(f, a, b[..|b| - 1]);
    }
  }

  /** The results of `f` for each element, concatenated in order. */
  function FlatMap<A, B>(f: A -> seq<B>, s: seq<A>): seq<B>
    decreases |s|
  {
    if s == [] then [] else FlatMap(f, s[..|s| - 1]) + f(s[|s| - 1])
  }

  lemma {:induction false} FlatMapEmptyIff<A, B>(f: A -> seq<B>, s: seq<A>)
    ensures FlatMap(f, s) == [] <==> forall i :: 0 <= i < |s| ==> f(s[i]) == []
    decreases |s|
  {
    if s != [] {
      var init := s[..|s| - 1];
      FlatMapEmptyIff(f, init);
      assert forall i :: 0 <= i < |init| ==> init[i] == s[i];
    }
  }

  lemma {:induction false} FlatMapMembers<A, B>(f: A -> seq<B>, s: seq<A>)
    ensures forall y :: y in FlatMap(f, s) ==> exists i :: 0 <= i < |s| && y in f(s[i])
    decreases |s|
  {
    if s != [] {
      var init := s[..|s| - 1];
      FlatMapMembers(f, init);
      forall y | y in FlatMap(f, s)
        ensures exists i :: 0 <= i < |s| && y in f(s[i])
      {
        if y in FlatMap(f, init) {
          var i :| 0 <= i < |init| && y in f(init[i]);
          assert init[i] == s[i];
        } else {
          assert y in f(s[|s| - 1]);
        }
      }
    }
  }
}
