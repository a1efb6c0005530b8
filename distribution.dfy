/** Target question counts per PART and the rebalancing pass
    (src/quizen/distribution.py). PARTs are given by their names, in order. */
module Distribution {
  import opened Text
  import opened Models

  /** The closed form of `minimum_distribution`: every name gets the floor
      share, plus one for each of its occurrences among the first
      `total mod |names|` names. Empty when there is nothing to distribute. */
  function Allocation(total: int, names: seq<string>): map<string, int> {
    if total <= 0 || |names| == 0 then map[]
    else map n | n in names :: total / |names| + Occurrences(names[..total % |names|], n)
  }

  /** The names of `parts`, in order. */
  function PartNames(parts: seq<Part>): (names: seq<string>)
    ensures |names| == |parts|
  {
    seq(|parts|, i requires 0 <= i < |parts| => parts[i].partName)
  }

  /** The allocation after the first `idx` round-robin increments. */
  function RoundRobin(names: seq<string>, base: int, idx: nat): map<string, int>
    requires idx <= |names|
  {
    map n | n in names :: base + Occurrences(names[..idx], n)
  }

  lemma RoundRobinStep(names: seq<string>, base: int, idx: nat)
    requires idx < |names|
    ensures names[idx] in RoundRobin(names, base, idx)
    ensures RoundRobin(names, base, idx + 1) ==
      RoundRobin(names, base, idx)[names[idx] := RoundRobin(names, base, idx)[names[idx]] + 1]
  {
    assert names[..idx + 1][..idx] == names[..idx];
  }

  /** `minimum_distribution`: start every part at the floor share, then add
      one to each of the first `remainder` parts in list order. The parts
      (PARTs or summaries) are given by their names. */
  method MinimumDistribution(total: int, names: seq<string>) returns (allocation: map<string, int>)
    ensures allocation == Allocation(total, names)
  {
    if total <= 0 || |names| == 0 {
      return map[];
    }
    var base := total / |names|;
    var remainder := total % |names|;
    allocation := map n | n in names :: base;
    assert allocation == RoundRobin(names, base, 0);
    for idx := 0 to remainder
      invariant allocation == RoundRobin(names, base, idx)
    {
      RoundRobinStep(names, base, idx);
      allocation := allocation[names[idx] := allocation[names[idx]] + 1];
    }
  }

  /** The sum of `m` over `names`, in order. */
  function SumOver(names: seq<string>, m: map<string, int>): int
    requires forall n :: n in names ==> n in m
    decreases |names|
  {
    if names == [] then 0 else SumOver(names[..|names| - 1], m) + m[names[|names| - 1]]
  }

  lemma {:induction false} OccurrencesOfDistinct(names: seq<string>, i: nat, k: nat)
    requires Distinct(names) && i < |names| && k <= |names|
    ensures Occurrences(names[..k], names[i]) == if i < k then 1 else 0
    decreases k
  {
    if k > 0 {
      assert names[..k][..k - 1] == names[..k - 1];
      OccurrencesOfDistinct(names, i, k - 1);
    }
  }

  /** With distinct names each part gets the floor share, and exactly the
      first `total mod |names|` parts in list order get one more. */
  lemma AllocationOfDistinct(total: int, names: seq<string>, i: nat)
    requires total > 0 && Distinct(names) && i < |names|
    ensures names[i] in Allocation(total, names)
    ensures Allocation(total, names)[names[i]] ==
      total / |names| + (if i < total % |names| then 1 else 0)
  {
    OccurrencesOfDistinct(names, i, total % |names|);
  }

  /** Nothing is allocated for a non-positive total or no parts; otherwise
      exactly the part names are keys. */
  lemma AllocationKeys(total: int, names: seq<string>)
    ensures (total <= 0 || names == []) ==> Allocation(total, names) == map[]
    ensures total > 0 && names != [] ==> forall n :: n in Allocation(total, names) <==> n in names
    ensures forall n :: n in Allocation(total, names) ==> Allocation(total, names)[n] >= 0
  {
    if total > 0 && names != [] {
      assert total / |names| >= 0;
    }
  }

  lemma {:induction false} PrefixSum(names: seq<string>, a: map<string, int>, base: int, rem: int, k: nat)
    requires k <= |names| && Covers(a, names)
    requires forall i :: 0 <= i < |names| ==> a[names[i]] == base + (if i < rem then 1 else 0)
    ensures SumOver(names[..k], a) == k * base + (if k < rem then k else if rem < 0 then 0 else rem)
    decreases k
  {
    if k > 0 {
      assert names[..k][..k - 1] == names[..k - 1];
      PrefixSum(names, a, base, rem, k - 1);
      assert k * base == (k - 1) * base + base;
    }
  }

  /** With distinct names the allocation adds up to the total. */
  lemma AllocationSum(total: int, names: seq<string>)
    requires total > 0 && names != [] && Distinct(names)
    ensures forall n :: n in names ==> n in Allocation(total, names)
    ensures SumOver(names, Allocation(total, names)) == total
  {
    var a := Allocation(total, names);
    var base, rem := total / |names|, total % |names|;
    forall i | 0 <= i < |names|
      ensures a[names[i]] == base + (if i < rem then 1 else 0)
    {
      AllocationOfDistinct(total, names, i);
    }
    PrefixSum(names, a, base, rem, |names|);
    assert names[..|names|] == names;
    EuclideanSplit(total, |names|);
  }

  lemma EuclideanSplit(total: int, n: nat)
    requires n > 0
    ensures n * (total / n) + total % n == total && 0 <= total % n < n
  {
  }

  /** With distinct names any two counts differ by at most one. */
  lemma AllocationSpread(total: int, names: seq<string>, i: nat, j: nat)
    requires total > 0 && Distinct(names) && i < |names| && j < |names|
    ensures Allocation(total, names)[names[i]] - Allocation(total, names)[names[j]] <= 1
  {
    AllocationOfDistinct(total, names, i);
    AllocationOfDistinct(total, names, j);
  }

  /** Five questions over two parts give three to the first and two to the second. */
  lemma FiveOverTwo(a: string, b: string)
    requires a != b
    ensures Allocation(5, [a, b]) == map[a := 3, b := 2]
  {
    AllocationOfDistinct(5, [a, b], 0);
    AllocationOfDistinct(5, [a, b], 1);
    assert Allocation(5, [a, b]).Keys == {a, b};
  }

  // ---------------------------------------------------------------------
  // Rebalancing

  /** The questions of part `n`, in their original order. */
  function FilterName(qs: seq<Question>, n: string): seq<Question>
    decreases |qs|
  {
    if qs == [] then []
    else FilterName(qs[..|qs| - 1], n) + (if qs[|qs| - 1].partName == n then [qs[|qs| - 1]] else [])
  }

  /** `s[:k]` with Python's clamping. */
  function Take(s: seq<Question>, k: int): (r: seq<Question>)
    ensures r <= s
    ensures |r| == if k <= 0 then 0 else if k >= |s| then |s| else k
  {
    if k <= 0 then [] else if k >= |s| then s else s[..k]
  }

  predicate Covers<V>(m: map<string, V>, names: seq<string>) {
    forall n :: n in names ==> n in m
  }

  /** The questions of part `n` the first pass keeps: its first `target[n]`, in order. */
  function Kept(qs: seq<Question>, n: string, target: map<string, int>): seq<Question>
    requires n in target
  {
    Take(FilterName(qs, n), target[n])
  }

  /** Whether `q`, met after `prefix`, goes to overflow in the first pass:
      its part is unknown, or that part's target is already filled by
      earlier questions of the same part. */
  predicate Overflows(prefix: seq<Question>, q: Question, names: seq<string>, target: map<string, int>)
    requires Covers(target, names)
  {
    q.partName !in names || |FilterName(prefix, q.partName)| >= target[q.partName]
  }

  /** The overflow queue after the first pass: the questions that overflow,
      in their original order. */
  function OverflowOf(qs: seq<Question>, names: seq<string>, target: map<string, int>): seq<Question>
    requires Covers(target, names)
    decreases |qs|
  {
    if qs == [] then []
    else
      var prefix := qs[..|qs| - 1];
      OverflowOf(prefix, names, target) +
      (if Overflows(prefix, qs[|qs| - 1], names, target) then [qs[|qs| - 1]] else [])
  }

  /** The groups of `f` for `names`, in order. */
  function Groups(names: seq<string>, f: map<string, seq<Question>>): (gs: seq<seq<Question>>)
    requires Covers(f, names)
    ensures |gs| == |names|
  {
    seq(|names|, k requires 0 <= k < |names| => f[names[k]])
  }

  function Flatten(gs: seq<seq<Question>>): seq<Question>
    decreases |gs|
  {
    if gs == [] then [] else Flatten(gs[..|gs| - 1]) + gs[|gs| - 1]
  }

  lemma FlattenSnoc(gs: seq<seq<Question>>, g: seq<Question>)
    ensures Flatten(gs + [g]) == Flatten(gs) + g
  {
    assert (gs + [g])[..|gs|] == gs;
  }

  /** The groups of `names` concatenated in order. */
  function Flat(names: seq<string>, f: map<string, seq<Question>>): seq<Question>
    requires Covers(f, names)
  {
    Flatten(Groups(names, f))
  }

  lemma FlatSnoc(names: seq<string>, f: map<string, seq<Question>>)
    requires Covers(f, names) && names != []
    ensures Flat(names, f) == Flat(names[..|names| - 1], f) + f[names[|names| - 1]]
  {
    assert Groups(names, f)[..|names| - 1] == Groups(names[..|names| - 1], f);
  }

  /** Rewriting one group that `names` does not mention changes nothing. */
  lemma {:induction false} FlatIgnoresOthers(names: seq<string>, f: map<string, seq<Question>>, n: string, g: seq<Question>)
    requires Covers(f, names) && n !in names
    ensures Flat(names, f[n := g]) == Flat(names, f)
    decreases |names|
  {
    if names != [] {
      FlatSnoc(names, f);
      FlatSnoc(names, f[n := g]);
      FlatIgnoresOthers(names[..|names| - 1], f, n, g);
    }
  }

  /** Extending the group of a name that occurs once extends the flattening's contents. */
  lemma {:induction false} FlatExtend(names: seq<string>, f: map<string, seq<Question>>, n: string, x: seq<Question>)
    requires Covers(f, names) && Distinct(names) && n in names
    ensures multiset(Flat(names, f[n := f[n] + x])) == multiset(Flat(names, f)) + multiset(x)
    decreases |names|
  {
    var f' := f[n := f[n] + x];
    var init := names[..|names| - 1];
    FlatSnoc(names, f);
    FlatSnoc(names, f');
    if names[|names| - 1] == n {
      assert n !in init;
      FlatIgnoresOthers(init, f, n, f[n] + x);
    } else {
      assert n in init;
      FlatExtend(init, f, n, x);
    }
  }

  function SumLengths(names: seq<string>, f: map<string, seq<Question>>): int
    requires Covers(f, names)
    decreases |names|
  {
    if names == [] then 0 else SumLengths(names[..|names| - 1], f) + |f[names[|names| - 1]]|
  }

  lemma {:induction false} FlatLength(names: seq<string>, f: map<string, seq<Question>>)
    requires Covers(f, names)
    ensures |Flat(names, f)| == SumLengths(names, f)
    decreases |names|
  {
    if names != [] {
      FlatSnoc(names, f);
      FlatLength(names[..|names| - 1], f);
    }
  }

  /** Group sizes bounded by the targets and summing to the targets' sum
      are exactly the targets; equal sizes sum to the targets' sum. */
  lemma {:induction false} SizesMeetTargets(names: seq<string>, f: map<string, seq<Question>>, target: map<string, int>)
    requires Covers(f, names) && Covers(target, names)
    requires forall j :: 0 <= j < |names| ==> |f[names[j]]| <= target[names[j]]
    ensures SumLengths(names, f) <= SumOver(names, target)
    ensures SumLengths(names, f) == SumOver(names, target) ==>
      forall j :: 0 <= j < |names| ==> |f[names[j]]| == target[names[j]]
    decreases |names|
  {
    if names != [] {
      var init := names[..|names| - 1];
      assert forall j :: 0 <= j < |init| ==> init[j] == names[j];
      SizesMeetTargets(init, f, target);
    }
  }

  lemma {:induction false} SizesEqualTargets(names: seq<string>, f: map<string, seq<Question>>, target: map<string, int>)
    requires Covers(f, names) && Covers(target, names)
    requires forall j :: 0 <= j < |names| ==> |f[names[j]]| == target[names[j]]
    ensures SumLengths(names, f) == SumOver(names, target)
    decreases |names|
  {
    if names != [] {
      var init := names[..|names| - 1];
      assert forall j :: 0 <= j < |init| ==> init[j] == names[j];
      SizesEqualTargets(init, f, target);
    }
  }

  lemma FilterNameSnoc(qs: seq<Question>, q: Question, n: string)
    ensures FilterName(qs + [q], n) == FilterName(qs, n) + (if q.partName == n then [q] else [])
  {
    assert (qs + [q])[..|qs|] == qs;
  }

  /** What one more question does to the first pass: it joins its part's
      kept list unless it overflows, and the overflow queue otherwise. */
  lemma FirstPassStep(prefix: seq<Question>, q: Question, names: seq<string>, target: map<string, int>)
    requires Covers(target, names)
    ensures forall m :: m in names ==>
      Kept(prefix + [q], m, target) ==
        Kept(prefix, m, target) + (if m == q.partName && !Overflows(prefix, q, names, target) then [q] else [])
    ensures OverflowOf(prefix + [q], names, target) ==
      OverflowOf(prefix, names, target) + (if Overflows(prefix, q, names, target) then [q] else [])
  {
    assert (prefix + [q])[..|prefix|] == prefix;
    forall m | m in names
      ensures Kept(prefix + [q], m, target) ==
        Kept(prefix, m, target) + (if m == q.partName && !Overflows(prefix, q, names, target) then [q] else [])
    {
      FilterNameSnoc(prefix, q, m);
    }
  }

  /** The first pass after the questions of `prefix`: each part holds what it
      keeps of them, the queue holds the rest in order. */
  ghost predicate FirstPassState(prefix: seq<Question>, names: seq<string>, target: map<string, int>,
                           perPart: map<string, seq<Question>>, overflow: seq<Question>)
  {
    && Covers(target, names)
    && (forall n :: n in perPart <==> n in names)
    && (forall n :: n in names ==> perPart[n] == Kept(prefix, n, target))
    && overflow == OverflowOf(prefix, names, target)
    && (Distinct(names) ==> multiset(Flat(names, perPart)) + multiset(overflow) == multiset(prefix))
  }

  lemma FirstPassStart(names: seq<string>, target: map<string, int>)
    requires Covers(target, names)
    ensures FirstPassState([], names, target, map n | n in names :: [], [])
  {
    var perPart: map<string, seq<Question>> := map n | n in names :: [];
    assert forall k :: 0 <= k < |names| ==> Groups(names, perPart)[k] == [];
    EmptyGroupsFlatten(Groups(names, perPart));
  }

  lemma FirstPassKeep(prefix: seq<Question>, q: Question, names: seq<string>, target: map<string, int>,
                      perPart: map<string, seq<Question>>, overflow: seq<Question>)
    requires FirstPassState(prefix, names, target, perPart, overflow)
    requires q.partName in perPart && |perPart[q.partName]| < target[q.partName]
    ensures FirstPassState(prefix + [q], names, target, perPart[q.partName := perPart[q.partName] + [q]], overflow)
  {
    FirstPassStep(prefix, q, names, target);
    if Distinct(names) {
      FlatExtend(names, perPart, q.partName, [q]);
    }
  }

  lemma FirstPassOverflow(prefix: seq<Question>, q: Question, names: seq<string>, target: map<string, int>,
                          perPart: map<string, seq<Question>>, overflow: seq<Question>)
    requires FirstPassState(prefix, names, target, perPart, overflow)
    requires !(q.partName in perPart && |perPart[q.partName]| < target[q.partName])
    ensures FirstPassState(prefix + [q], names, target, perPart, overflow + [q])
  {
    FirstPassStep(prefix, q, names, target);
  }

  /** First pass: keep each question in its part's list while that part is
      short of its target; everything else joins the overflow queue. */
  method DistributeKnown(qs: seq<Question>, names: seq<string>, target: map<string, int>)
    returns (perPart: map<string, seq<Question>>, overflow: seq<Question>)
    requires Covers(target, names)
    ensures FirstPassState(qs, names, target, perPart, overflow)
  {
    perPart := map n | n in names :: [];
    overflow := [];
    FirstPassStart(names, target);
    for i := 0 to |qs|
      invariant FirstPassState(qs[..i], names, target, perPart, overflow)
    {
      var q := qs[i];
      var n := q.partName;
      assert qs[..i + 1] == qs[..i] + [q];
      if n in perPart && |perPart[n]| < target[n] {
        FirstPassKeep(qs[..i], q, names, target, perPart, overflow);
        perPart := perPart[n := perPart[n] + [q]];
      } else {
        FirstPassOverflow(qs[..i], q, names, target, perPart, overflow);
        overflow := overflow + [q];
      }
    }
    assert qs[..|qs|] == qs;
  }

  lemma {:induction false} EmptyGroupsFlatten(gs: seq<seq<Question>>)
    requires forall k :: 0 <= k < |gs| ==> gs[k] == []
    ensures Flatten(gs) == []
    decreases |gs|
  {
    if gs != [] {
      EmptyGroupsFlatten(gs[..|gs| - 1]);
    }
  }

  /** The second pass after topping up the first `k` parts: every part keeps
      its first-pass list as a prefix and stays within its target, and each
      part already visited is full unless the queue has run dry. */
  ghost predicate BackfillBounds(k: nat, names: seq<string>, target: map<string, int>,
                                 perPart0: map<string, seq<Question>>,
                                 perPart: map<string, seq<Question>>, overflow: seq<Question>)
  {
    && k <= |names|
    && Covers(target, names)
    && (forall n :: n in perPart0 <==> n in names)
    && (forall n :: n in perPart <==> n in names)
    && (forall n :: n in names ==> perPart0[n] <= perPart[n] && |perPart[n]| <= target[n])
    && (forall j :: 0 <= j < k ==> |perPart[names[j]]| == target[names[j]] || overflow == [])
  }

  /** With distinct names: nothing is lost or duplicated, part `names[j]`
      received `backfill[j]` (nothing yet for the parts not visited), and the
      pieces handed out are consecutive slices of the front of the queue. */
  ghost predicate BackfillTrace(k: nat, names: seq<string>,
                                perPart0: map<string, seq<Question>>, overflow0: seq<Question>,
                                perPart: map<string, seq<Question>>, overflow: seq<Question>,
                                backfill: seq<seq<Question>>)
    requires k <= |names| && Covers(perPart0, names) && Covers(perPart, names)
  {
    && multiset(Flat(names, perPart)) + multiset(overflow) == multiset(Flat(names, perPart0)) + multiset(overflow0)
    && |backfill| == k
    && (forall j :: 0 <= j < k ==> perPart[names[j]] == perPart0[names[j]] + backfill[j])
    && (forall j :: k <= j < |names| ==> perPart[names[j]] == perPart0[names[j]])
    && Flatten(backfill) + overflow == overflow0
  }

  ghost predicate BackfillState(k: nat, names: seq<string>, target: map<string, int>,
                                perPart0: map<string, seq<Question>>, overflow0: seq<Question>,
                                perPart: map<string, seq<Question>>, overflow: seq<Question>,
                                backfill: seq<seq<Question>>)
  {
    && BackfillBounds(k, names, target, perPart0, perPart, overflow)
    && (Distinct(names) ==> BackfillTrace(k, names, perPart0, overflow0, perPart, overflow, backfill))
  }

  lemma BackfillStart(names: seq<string>, target: map<string, int>,
                      perPart0: map<string, seq<Question>>, overflow0: seq<Question>)
    requires Covers(target, names)
    requires forall n :: n in perPart0 <==> n in names
    requires forall n :: n in names ==> |perPart0[n]| <= target[n]
    ensures BackfillState(0, names, target, perPart0, overflow0, perPart0, overflow0, [])
  {
  }

  /** What part `names[k]` takes: as many queued questions as it is short of
      its target, or the whole queue if that holds fewer. */
  ghost predicate TakesShortfall(moved: seq<Question>, overflow: seq<Question>, needed: int) {
    && moved <= overflow
    && if needed <= 0 then moved == [] else if needed <= |overflow| then |moved| == needed else moved == overflow
  }

  lemma BackfillBoundsStep(k: nat, names: seq<string>, target: map<string, int>,
                           perPart0: map<string, seq<Question>>,
                           perPart: map<string, seq<Question>>, overflow: seq<Question>, moved: seq<Question>)
    requires BackfillBounds(k, names, target, perPart0, perPart, overflow) && k < |names|
    requires TakesShortfall(moved, overflow, target[names[k]] - |perPart[names[k]]|)
    ensures BackfillBounds(k + 1, names, target, perPart0, perPart[names[k] := perPart[names[k]] + moved], overflow[|moved|..])
  {
    var name := names[k];
    var perPart' := perPart[name := perPart[name] + moved];
    var overflow' := overflow[|moved|..];
    forall n | n in names ensures perPart0[n] <= perPart'[n] && |perPart'[n]| <= target[n] {
      if n == name {
        assert perPart0[n] <= perPart[n] <= perPart'[n];
      }
    }
    forall j | 0 <= j < k + 1 ensures |perPart'[names[j]]| == target[names[j]] || overflow' == [] {
      if j < k && overflow' != [] {
        assert |perPart[names[j]]| == target[names[j]];
      }
    }
  }

  lemma BackfillTraceStep(k: nat, names: seq<string>,
                          perPart0: map<string, seq<Question>>, overflow0: seq<Question>,
                          perPart: map<string, seq<Question>>, overflow: seq<Question>,
                          backfill: seq<seq<Question>>, moved: seq<Question>)
    requires k < |names| && Covers(perPart0, names) && Covers(perPart, names) && Distinct(names)
    requires BackfillTrace(k, names, perPart0, overflow0, perPart, overflow, backfill)
    requires moved <= overflow
    ensures BackfillTrace(k + 1, names, perPart0, overflow0,
                          perPart[names[k] := perPart[names[k]] + moved], overflow[|moved|..], backfill + [moved])
  {
    var name := names[k];
    var perPart' := perPart[name := perPart[name] + moved];
    var overflow' := overflow[|moved|..];
    var backfill' := backfill + [moved];
    MovedKeepsMultiset(names, perPart, overflow, name, moved);
    MovedKeepsOrder(backfill, overflow, moved);
    forall j | 0 <= j < |names| && j != k ensures perPart'[names[j]] == perPart[names[j]] {
      assert names[j] != name;
    }
  }

  /** Moving a front run of the queue into one part keeps every question. */
  lemma MovedKeepsMultiset(names: seq<string>, perPart: map<string, seq<Question>>, overflow: seq<Question>,
                           name: string, moved: seq<Question>)
    requires Covers(perPart, names) && Distinct(names) && name in names && moved <= overflow
    ensures multiset(Flat(names, perPart[name := perPart[name] + moved])) + multiset(overflow[|moved|..]) ==
            multiset(Flat(names, perPart)) + multiset(overflow)
  {
    FlatExtend(names, perPart, name, moved);
    assert overflow == moved + overflow[|moved|..];
    assert multiset(overflow) == multiset(moved) + multiset(overflow[|moved|..]);
  }

  /** ... and the moved runs, then the queue, still spell the first queue. */
  lemma MovedKeepsOrder(backfill: seq<seq<Question>>, overflow: seq<Question>, moved: seq<Question>)
    requires moved <= overflow
    ensures Flatten(backfill + [moved]) + overflow[|moved|..] == Flatten(backfill) + overflow
  {
    FlattenSnoc(backfill, moved);
    assert overflow == moved + overflow[|moved|..];
    assert (Flatten(backfill) + moved) + overflow[|moved|..] == Flatten(backfill) + (moved + overflow[|moved|..]);
  }

  /** Second pass: in part order, top up each part that is short of its
      target from the front of the overflow queue. */
  method Backfill(names: seq<string>, target: map<string, int>, perPart0: map<string, seq<Question>>, overflow0: seq<Question>)
    returns (perPart: map<string, seq<Question>>, overflow: seq<Question>, ghost backfill: seq<seq<Question>>)
    requires Covers(target, names)
    requires forall n :: n in perPart0 <==> n in names
    requires forall n :: n in names ==> |perPart0[n]| <= target[n]
    ensures BackfillState(|names|, names, target, perPart0, overflow0, perPart, overflow, backfill)
  {
    perPart, overflow, backfill := perPart0, overflow0, [];
    BackfillStart(names, target, perPart0, overflow0);
    for k := 0 to |names|
      invariant BackfillState(k, names, target, perPart0, overflow0, perPart, overflow, backfill)
    {
      var name := names[k];
      var needed := target[name] - |perPart[name]|;
      var moved: seq<Question> := [];
      if needed > 0 {
        moved := if needed <= |overflow| then overflow[..needed] else overflow;
      }
      BackfillBoundsStep(k, names, target, perPart0, perPart, overflow, moved);
      if Distinct(names) {
        BackfillTraceStep(k, names, perPart0, overflow0, perPart, overflow, backfill, moved);
      }
      if needed > 0 {
        perPart := perPart[name := perPart[name] + moved];
        overflow := overflow[|moved|..];
      } else {
        assert perPart[name] + moved == perPart[name];
        assert perPart[name := perPart[name] + moved] == perPart;
        assert overflow[|moved|..] == overflow;
      }
      backfill := backfill + [moved];
    }
  }

  /** After both passes with distinct names, the queue is empty and every
      part holds exactly its target. */
  lemma {:induction false} BackfillFillsTargets(qs: seq<Question>, names: seq<string>, target: map<string, int>,
                                                perPart: map<string, seq<Question>>, overflow: seq<Question>)
    requires Distinct(names) && Covers(target, names) && Covers(perPart, names)
    requires forall j :: 0 <= j < |names| ==> |perPart[names[j]]| <= target[names[j]]
    requires forall j :: 0 <= j < |names| ==> |perPart[names[j]]| == target[names[j]] || overflow == []
    requires multiset(Flat(names, perPart)) + multiset(overflow) == multiset(qs)
    requires SumOver(names, target) == |qs|
    ensures overflow == []
    ensures forall j :: 0 <= j < |names| ==> |perPart[names[j]]| == target[names[j]]
  {
    assert |Flat(names, perPart)| + |overflow| == |qs| by {
      assert |multiset(Flat(names, perPart)) + multiset(overflow)| == |multiset(qs)|;
    }
    FlatLength(names, perPart);
    SizesMeetTargets(names, perPart, target);
    if overflow != [] {
      SizesEqualTargets(names, perPart, target);
    }
  }

  /** The list both passes leave, read back in part order and followed by
      the (drained) queue, is the rebalanced list promised. */
  lemma PassesGiveBalanced(qs: seq<Question>, names: seq<string>, target: map<string, int>,
                           perPart: map<string, seq<Question>>, overflow: seq<Question>,
                           perPart2: map<string, seq<Question>>, overflow2: seq<Question>,
                           backfill: seq<seq<Question>>, balanced: seq<Question>)
    requires Distinct(names) && Covers(target, names) && SumOver(names, target) == |qs|
    requires FirstPassState(qs, names, target, perPart, overflow)
    requires BackfillState(|names|, names, target, perPart, overflow, perPart2, overflow2, backfill)
    requires balanced == Flat(names, perPart2) + overflow2
    ensures multiset(balanced) == multiset(qs)
    ensures |backfill| == |names|
    ensures Flatten(backfill) == OverflowOf(qs, names, target)
    ensures balanced == Flatten(seq(|names|, k requires 0 <= k < |names| => Kept(qs, names[k], target) + backfill[k]))
    ensures forall k :: 0 <= k < |names| ==> |Kept(qs, names[k], target) + backfill[k]| == target[names[k]]
  {
    PassesFillTargets(qs, names, target, perPart, overflow, perPart2, overflow2, backfill);
    PassesBuildBlocks(qs, names, target, perPart, overflow, perPart2, overflow2, backfill);
    BackfillDrainsOverflow(qs, names, target, perPart, overflow, perPart2, overflow2, backfill);
    assert balanced == Flat(names, perPart2);
    forall k | 0 <= k < |names|
      ensures |Kept(qs, names[k], target) + backfill[k]| == target[names[k]]
    {
      assert Groups(names, perPart2)[k] == perPart2[names[k]];
    }
  }

  /** The targets of a non-empty rebalance cover every part, bound what the
      first pass keeps, and (with distinct names) add up to the input size. */
  lemma TargetsFit(qs: seq<Question>, names: seq<string>)
    requires qs != [] && names != []
    ensures Covers(Allocation(|qs|, names), names)
    ensures forall n :: n in names ==> |Kept(qs, n, Allocation(|qs|, names))| <= Allocation(|qs|, names)[n]
    ensures Distinct(names) ==> SumOver(names, Allocation(|qs|, names)) == |qs|
  {
    AllocationKeys(|qs|, names);
    if Distinct(names) {
      AllocationSum(|qs|, names);
    }
  }

  /** The final loop of `rebalance_questions`: the parts' lists in part
      order, then what is left in the queue. */
  method ConcatenateParts(names: seq<string>, perPart: map<string, seq<Question>>, overflow: seq<Question>)
    returns (balanced: seq<Question>)
    requires Covers(perPart, names)
    ensures balanced == Flat(names, perPart) + overflow
  {
    balanced := [];
    for k := 0 to |names|
      invariant balanced == Flat(names[..k], perPart)
    {
      FlatSnoc(names[..k + 1], perPart);
      assert names[..k + 1][..k] == names[..k];
      balanced := balanced + perPart[names[k]];
    }
    assert names[..|names|] == names;
    balanced := balanced + overflow;
  }

  /** After both passes (distinct names, targets summing to the input size)
      the queue is drained, every part is full, and nothing was lost. */
  lemma PassesFillTargets(qs: seq<Question>, names: seq<string>, target: map<string, int>,
                          perPart: map<string, seq<Question>>, overflow: seq<Question>,
                          perPart2: map<string, seq<Question>>, overflow2: seq<Question>,
                          backfill: seq<seq<Question>>)
    requires Distinct(names) && Covers(target, names) && SumOver(names, target) == |qs|
    requires FirstPassState(qs, names, target, perPart, overflow)
    requires BackfillState(|names|, names, target, perPart, overflow, perPart2, overflow2, backfill)
    ensures overflow2 == []
    ensures multiset(Flat(names, perPart2)) == multiset(qs)
    ensures forall j :: 0 <= j < |names| ==> |perPart2[names[j]]| == target[names[j]]
  {
    assert multiset(Flat(names, perPart2)) + multiset(overflow2) == multiset(qs) by {
      assert BackfillTrace(|names|, names, perPart, overflow, perPart2, overflow2, backfill);
    }
    assert forall j :: 0 <= j < |names| ==> |perPart2[names[j]]| <= target[names[j]] by {
      assert BackfillBounds(|names|, names, target, perPart, perPart2, overflow2);
    }
    BackfillFillsTargets(qs, names, target, perPart2, overflow2);
  }

  /** After both passes with distinct names, part `names[k]` holds its kept
      questions followed by its slice of the queue. */
  lemma PassesBuildBlocks(qs: seq<Question>, names: seq<string>, target: map<string, int>,
                          perPart: map<string, seq<Question>>, overflow: seq<Question>,
                          perPart2: map<string, seq<Question>>, overflow2: seq<Question>,
                          backfill: seq<seq<Question>>)
    requires Distinct(names)
    requires FirstPassState(qs, names, target, perPart, overflow)
    requires BackfillState(|names|, names, target, perPart, overflow, perPart2, overflow2, backfill)
    ensures |backfill| == |names|
    ensures Groups(names, perPart2) ==
      seq(|names|, k requires 0 <= k < |names| => Kept(qs, names[k], target) + backfill[k])
  {
    forall k | 0 <= k < |names|
      ensures perPart2[names[k]] == Kept(qs, names[k], target) + backfill[k]
    {
      assert BackfillTrace(|names|, names, perPart, overflow, perPart2, overflow2, backfill);
    }
  }

  lemma BackfillDrainsOverflow(qs: seq<Question>, names: seq<string>, target: map<string, int>,
                               perPart: map<string, seq<Question>>, overflow: seq<Question>,
                               perPart2: map<string, seq<Question>>, overflow2: seq<Question>,
                               backfill: seq<seq<Question>>)
    requires Distinct(names) && overflow2 == []
    requires FirstPassState(qs, names, target, perPart, overflow)
    requires BackfillState(|names|, names, target, perPart, overflow, perPart2, overflow2, backfill)
    ensures Flatten(backfill) == OverflowOf(qs, names, target)
  {
    assert Flatten(backfill) + overflow2 == overflow;
  }

  /** `rebalance_questions`. Rebuilds the list so that part `names[k]`
      contributes a block of exactly its target size: the first questions of
      that part in input order, topped up by the next slice of the overflow
      queue (the questions of unknown parts and those beyond their part's
      target, in input order). Only positions change: the result is a
      permutation of the input, and no question is rewritten. */
  method RebalanceQuestions(qs: seq<Question>, parts: seq<Part>)
    returns (balanced: seq<Question>, ghost backfill: seq<seq<Question>>)
    ensures qs == [] || parts == [] ==> balanced == qs
    ensures Distinct(PartNames(parts)) ==> multiset(balanced) == multiset(qs)
    ensures Distinct(PartNames(parts)) && qs != [] && parts != [] ==>
      var names := PartNames(parts);
      var target := Allocation(|qs|, names);
      && Covers(target, names)
      && |backfill| == |names|
      && Flatten(backfill) == OverflowOf(qs, names, target)
      && balanced == Flatten(seq(|names|, k requires 0 <= k < |names| => Kept(qs, names[k], target) + backfill[k]))
      && forall k :: 0 <= k < |names| ==> |Kept(qs, names[k], target) + backfill[k]| == target[names[k]]
  {
    if qs == [] || parts == [] {
      return qs, [];
    }
    var names := PartNames(parts);
    var target := MinimumDistribution(|qs|, names);
    TargetsFit(qs, names);
    var perPart, overflow := DistributeKnown(qs, names, target);
    var perPart2, overflow2;
    perPart2, overflow2, backfill := Backfill(names, target, perPart, overflow);
    balanced := ConcatenateParts(names, perPart2, overflow2);
    if Distinct(names) {
      PassesGiveBalanced(qs, names, target, perPart, overflow, perPart2, overflow2, backfill, balanced);
    }
  }
}
