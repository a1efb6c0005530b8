/** A stable insertion sort by a caller-supplied `<=`, standing in for
    Python's `sorted(...)` and `list.sort(key=...)`. */
module Sorting {

  /** Any two values are comparable one way or the other. */
  ghost predicate Total<T(!new)>(le: (T, T) -> bool) {
    forall a, b :: le(a, b) || le(b, a)
  }

  /** Every element is `<=` its successor. */
  predicate SortedBy<T>(s: seq<T>, le: (T, T) -> bool) {
    forall i :: 0 < i < |s| ==> le(s[i - 1], s[i])
  }

  /** Insert `x` before the first element it is `<=` to. */
  function Insert<T>(x: T, s: seq<T>, le: (T, T) -> bool): seq<T>
    decreases |s|
  {
    if s == [] then [x]
    else if le(x, s[0]) then [x] + s
    else [s[0]] + Insert(x, s[1..], le)
  }

  function SortBy<T>(s: seq<T>, le: (T, T) -> bool): seq<T>
    decreases |s|
  {
    if s == [] then [] else Insert(s[0], SortBy(s[1..], le), le)
  }

  lemma {:induction false} InsertPermutes<T>(x: T, s: seq<T>, le: (T, T) -> bool)
    ensures multiset(Insert(x, s, le)) == multiset(s) + multiset{x}
    decreases |s|
  {
    if s != [] && !le(x, s[0]) {
      InsertPermutes(x, s[1..], le);
      assert s == [s[0]] + s[1..];
    }
  }

  lemma {:induction false} InsertSorted<T(!new)>(x: T, s: seq<T>, le: (T, T) -> bool)
    requires Total(le) && SortedBy(s, le)
    ensures SortedBy(Insert(x, s, le), le)
    ensures Insert(x, s, le)[0] == x || (s != [] && Insert(x, s, le)[0] == s[0])
    decreases |s|
  {
    if s != [] && !le(x, s[0]) {
      assert le(s[0], x);
      InsertSorted(x, s[1..], le);
    }
  }

  /** The sorted sequence is a permutation of the input, in non-decreasing order. */
  lemma {:induction false} SortByCorrect<T(!new)>(s: seq<T>, le: (T, T) -> bool)
    requires Total(le)
    ensures multiset(SortBy(s, le)) == multiset(s)
    ensures SortedBy(SortBy(s, le), le)
    decreases |s|
  {
    if s != [] {
      SortByCorrect(s[1..], le);
      InsertPermutes(s[0], SortBy(s[1..], le), le);
      InsertSorted(s[0], SortBy(s[1..], le), le);
      assert s == [s[0]] + s[1..];
    }
  }

  ghost predicate Transitive<T(!new)>(le: (T, T) -> bool) {
    forall a, b, c :: le(a, b) && le(b, c) ==> le(a, c)
  }

  ghost predicate Antisymmetric<T(!new)>(le: (T, T) -> bool) {
    forall a, b :: le(a, b) && le(b, a) ==> a == b
  }

  /** The elements of `s` tied with `y` (each `<=` the other), in their order. */
  function Ties<T>(s: seq<T>, y: T, le: (T, T) -> bool): seq<T>
    decreases |s|
  {
    if s == [] then [] else TiesOf(s[0], y, le) + Ties(s[1..], y, le)
  }

  /** Inserting `x` puts it ahead of every element already tied with it. */
  lemma {:induction false} InsertTies<T(!new)>(x: T, s: seq<T>, y: T, le: (T, T) -> bool)
    requires TransitiveThrough(x, y, le)
    ensures Ties(Insert(x, s, le), y, le) == TiesOf(x, y, le) + Ties(s, y, le)
    decreases |s|
  {
    if s == [] {
      TiesCons(x, [], y, le);
    } else if le(x, s[0]) {
      TiesCons(x, s, y, le);
    } else {
      InsertTies(x, s[1..], y, le);
      TiesCons(s[0], Insert(x, s[1..], le), y, le);
      TiesCons(s[0], s[1..], y, le);
      assert s == [s[0]] + s[1..];
      TiesNotBoth(x, s[0], y, le);
      SwapPast(TiesOf(x, y, le), TiesOf(s[0], y, le), Ties(s[1..], y, le));
    }
  }

  /** Transitivity for chains `x <= y <= e`, with `x` and `y` fixed. */
  ghost predicate TransitiveThrough<T(!new)>(x: T, y: T, le: (T, T) -> bool) {
    forall e :: le(x, y) && le(y, e) ==> le(x, e)
  }

  /** `[x]` when `x` is tied with `y`, else nothing. */
  function TiesOf<T>(x: T, y: T, le: (T, T) -> bool): seq<T> {
    if le(x, y) && le(y, x) then [x] else []
  }

  lemma TiesCons<T>(h: T, t: seq<T>, y: T, le: (T, T) -> bool)
    ensures Ties([h] + t, y, le) == TiesOf(h, y, le) + Ties(t, y, le)
  {
    assert ([h] + t)[1..] == t;
  }

  /** An element `x` passes over cannot be tied with `y` when `x` is. */
  lemma TiesNotBoth<T(!new)>(x: T, e: T, y: T, le: (T, T) -> bool)
    requires TransitiveThrough(x, y, le) && !le(x, e)
    ensures TiesOf(x, y, le) == [] || TiesOf(e, y, le) == []
  {
  }

  lemma SwapPast<T>(a: seq<T>, b: seq<T>, r: seq<T>)
    requires a == [] || b == []
    ensures b + (a + r) == a + (b + r)
  {
    if a == [] {
      assert a + r == r && a + (b + r) == b + r;
    } else {
      assert b + (a + r) == a + r && b + r == r;
    }
  }

  /** The sort is stable: elements tied with any `y` keep their input order. */
  lemma {:induction false} SortByStable<T(!new)>(s: seq<T>, y: T, le: (T, T) -> bool)
    requires Transitive(le)
    ensures Ties(SortBy(s, le), y, le) == Ties(s, y, le)
    decreases |s|
  {
    if s != [] {
      SortByStable(s[1..], y, le);
      assert TransitiveThrough(s[0], y, le);
      InsertTies(s[0], SortBy(s[1..], le), y, le);
    }
  }

  lemma {:induction false} SortedHeadIsLeast<T(!new)>(s: seq<T>, le: (T, T) -> bool)
    requires Total(le) && Transitive(le) && SortedBy(s, le)
    ensures forall i :: 0 <= i < |s| ==> le(s[0], s[i])
    decreases |s|
  {
    if |s| > 1 {
      SortedHeadIsLeast(s[1..], le);
      assert forall i :: 1 <= i < |s| ==> s[i] == s[1..][i - 1];
    }
  }

  /** Under a total, transitive, antisymmetric order there is only one sorted
      arrangement of a multiset. */
  lemma {:induction false} SortedUnique<T(!new)>(a: seq<T>, b: seq<T>, le: (T, T) -> bool)
    requires Total(le) && Transitive(le) && Antisymmetric(le)
    requires SortedBy(a, le) && SortedBy(b, le) && multiset(a) == multiset(b)
    ensures a == b
    decreases |a|
  {
    if a == [] {
      assert |multiset(b)| == 0;
    } else {
      SortedSameHead(a, b, le);
      SameTail(a, b);
      SortedUnique(a[1..], b[1..], le);
    }
  }

  lemma SortedSameHead<T(!new)>(a: seq<T>, b: seq<T>, le: (T, T) -> bool)
    requires Total(le) && Transitive(le) && Antisymmetric(le)
    requires SortedBy(a, le) && SortedBy(b, le) && multiset(a) == multiset(b) && a != []
    ensures b != [] && a[0] == b[0]
  {
    assert a[0] in multiset(b);
    assert b != [];
    assert b[0] in multiset(a);
    SortedHeadIsLeast(a, le);
    SortedHeadIsLeast(b, le);
    assert le(a[0], b[0]) && le(b[0], a[0]);
  }

  lemma SameTail<T>(a: seq<T>, b: seq<T>)
    requires a != [] && b != [] && a[0] == b[0] && multiset(a) == multiset(b)
    ensures multiset(a[1..]) == multiset(b[1..])
  {
    assert a == [a[0]] + a[1..];
    assert b == [b[0]] + b[1..];
    assert multiset(a) == multiset([a[0]]) + multiset(a[1..]);
    assert multiset(b) == multiset([b[0]]) + multiset(b[1..]);
    assert multiset(a[1..]) == multiset(a) - multiset([a[0]]);
    assert multiset(b[1..]) == multiset(b) - multiset([b[0]]);
  }

  /** So sorting forgets the order of its input: permutations sort alike. */
  lemma SortByIgnoresOrder<T(!new)>(a: seq<T>, b: seq<T>, le: (T, T) -> bool)
    requires Total(le) && Transitive(le) && Antisymmetric(le)
    requires multiset(a) == multiset(b)
    ensures SortBy(a, le) == SortBy(b, le)
  {
    SortByCorrect(a, le);
    SortByCorrect(b, le);
    SortedUnique(SortBy(a, le), SortBy(b, le), le);
  }
}
