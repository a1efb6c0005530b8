/** PART classification: the partition check, the deterministic fallback
    split and the retrying classifier (src/quizen/parts.py). */
module Parts {
  import opened Wrappers
  import opened Text
  import opened Sorting
  import opened Seqs
  import opened Models

  // ---------------------------------------------------------------------
  // `_validate_parts`

  /** What `_validate_parts` can object to. */
  datatype PartProblem =
    | InvalidCode(code: string)
    | NameWithoutCode(name: string)
    | UnknownLecture(id: string)
    | Unassigned(ids: seq<string>)
    | MultiplyAssigned(ids: seq<string>)

  /** The message text the source appends for a problem. */
  function ProblemMessage(p: PartProblem): string {
    match p
    case InvalidCode(code) => "Invalid part_code: " + code
    case NameWithoutCode(name) => "part_name must prefix part_code: " + name
    case UnknownLecture(id) => "Unknown lecture_id in parts: " + id
    case Unassigned(ids) => "Unassigned lectures: " + Join(ids, ", ")
    case MultiplyAssigned(ids) => "Lecture assigned to multiple parts: " + Join(ids, ", ")
  }

  function ProblemMessages(ps: seq<PartProblem>): (ms: seq<string>)
    ensures |ms| == |ps|
  {
    MapSeqIndex(ProblemMessage, ps);
    MapSeq(ProblemMessage, ps)
  }

  lemma ProblemMessagesAppend(a: seq<PartProblem>, b: seq<PartProblem>)
    ensures ProblemMessages(a + b) == ProblemMessages(a) + ProblemMessages(b)
  {
    MapSeqAppend(ProblemMessage, a, b);
  }

  /** The lecture ids, in lecture order. */
  function LectureIds(lectures: seq<Lecture>): (ids: seq<string>)
    ensures |ids| == |lectures|
  {
    seq(|lectures|, i requires 0 <= i < |lectures| => lectures[i].id)
  }

  /** The set `{lec.id for lec in lectures}`. */
  function KnownIds(lectures: seq<Lecture>): set<string> {
    set i | 0 <= i < |lectures| :: lectures[i].id
  }

  /** The unknown members of one part, in member order. */
  function MemberProblems(ids: seq<string>, known: set<string>): seq<PartProblem>
    decreases |ids|
  {
    if ids == [] then []
    else
      MemberProblems(ids[..|ids| - 1], known) +
      (if ids[|ids| - 1] !in known then [UnknownLecture(ids[|ids| - 1])] else [])
  }

  /** One part's own problems: code, then name, then members. */
  function OwnProblems(p: Part, known: set<string>): seq<PartProblem> {
    (if !StartsWith(p.partCode, PartPrefix) then [InvalidCode(p.partCode)] else []) +
    (if !StartsWith(p.partName, p.partCode) then [NameWithoutCode(p.partName)] else []) +
    MemberProblems(p.lectureIds, known)
  }

  function PerPartProblems(parts: seq<Part>, known: set<string>): seq<PartProblem>
    decreases |parts|
  {
    if parts == [] then []
    else PerPartProblems(parts[..|parts| - 1], known) + OwnProblems(parts[|parts| - 1], known)
  }

  /** How many times `id` is listed across all parts. */
  function AssignedCount(parts: seq<Part>, id: string): nat
    decreases |parts|
  {
    if parts == [] then 0
    else AssignedCount(parts[..|parts| - 1], id) + Occurrences(parts[|parts| - 1].lectureIds, id)
  }

  /** `ids` without repetitions, keeping first occurrences. */
  function Dedup(ids: seq<string>): seq<string>
    decreases |ids|
  {
    if ids == [] then []
    else
      var init := Dedup(ids[..|ids| - 1]);
      if ids[|ids| - 1] in init then init else init + [ids[|ids| - 1]]
  }

  lemma {:induction false} DedupCorrect(ids: seq<string>)
    ensures Distinct(Dedup(ids))
    ensures forall x :: x in Dedup(ids) <==> x in ids
    decreases |ids|
  {
    if ids != [] {
      var init := ids[..|ids| - 1];
      var last := ids[|ids| - 1];
      DedupCorrect(init);
      assert ids == init + [last];
      if last !in Dedup(init) {
        DistinctSnoc(Dedup(init), last);
      }
    }
  }

  /** Whether an id with `count` listings is reported as unassigned
      (`duplicates` false) or as multiply assigned (true). */
  predicate Selected(count: nat, duplicates: bool) {
    if duplicates then count > 1 else count == 0
  }

  /** The ids of `ids` listed in no part (`duplicates` false) or in several (true). */
  function SelectIds(ids: seq<string>, parts: seq<Part>, duplicates: bool): seq<string>
    decreases |ids|
  {
    if ids == [] then []
    else
      var last := ids[|ids| - 1];
      SelectIds(ids[..|ids| - 1], parts, duplicates) + (if Selected(AssignedCount(parts, last), duplicates) then [last] else [])
  }

  lemma {:induction false} SelectIdsCorrect(ids: seq<string>, parts: seq<Part>, duplicates: bool)
    ensures forall x :: x in SelectIds(ids, parts, duplicates) <==> x in ids && Selected(AssignedCount(parts, x), duplicates)
    ensures Distinct(ids) ==> Distinct(SelectIds(ids, parts, duplicates))
    decreases |ids|
  {
    if ids != [] {
      var init := ids[..|ids| - 1];
      var last := ids[|ids| - 1];
      SelectIdsCorrect(init, parts, duplicates);
      assert ids == init + [last];
      if Distinct(ids) && Selected(AssignedCount(parts, last), duplicates) {
        assert last !in init;
        DistinctSnoc(SelectIds(init, parts, duplicates), last);
      }
    }
  }

  /** The ids reported before sorting: duplicate-free, and exactly the known
      ids with the wanted count. */
  lemma SelectedLectureIds(parts: seq<Part>, lectures: seq<Lecture>, duplicates: bool)
    ensures var s := SelectIds(Dedup(LectureIds(lectures)), parts, duplicates);
      && Distinct(s)
      && forall x :: x in s <==> x in KnownIds(lectures) && Selected(AssignedCount(parts, x), duplicates)
  {
    DedupCorrect(LectureIds(lectures));
    SelectIdsCorrect(Dedup(LectureIds(lectures)), parts, duplicates);
    LectureIdsAreKnown(lectures);
  }

  /** The known lecture ids with the wanted count, sorted as Python sorts strings. */
  function ReportedIds(parts: seq<Part>, lectures: seq<Lecture>, duplicates: bool): seq<string> {
    SortBy(SelectIds(Dedup(LectureIds(lectures)), parts, duplicates), StrLe)
  }

  /** Everything `_validate_parts` reports, in its order: the per-part
      problems part by part, then the unassigned ids, then the ids assigned
      more than once. */
  function PartProblems(parts: seq<Part>, lectures: seq<Lecture>): seq<PartProblem> {
    var missing := ReportedIds(parts, lectures, false);
    var duplicates := ReportedIds(parts, lectures, true);
    PerPartProblems(parts, KnownIds(lectures)) +
    (if missing != [] then [Unassigned(missing)] else []) +
    (if duplicates != [] then [MultiplyAssigned(duplicates)] else [])
  }

  /** The counters after counting the members of `parts` and then `ids`. */
  function CountsOf(known: set<string>, parts: seq<Part>, ids: seq<string>): map<string, int> {
    map id | id in known :: AssignedCount(parts, id) + Occurrences(ids, id)
  }

  lemma CountsStep(known: set<string>, parts: seq<Part>, ids: seq<string>, x: string)
    ensures x in known ==> CountsOf(known, parts, ids + [x]) == CountsOf(known, parts, ids)[x := CountsOf(known, parts, ids)[x] + 1]
    ensures x !in known ==> CountsOf(known, parts, ids + [x]) == CountsOf(known, parts, ids)
  {
    assert (ids + [x])[..|ids|] == ids;
  }

  lemma CountsNextPart(known: set<string>, parts: seq<Part>, p: Part)
    ensures CountsOf(known, parts + [p], []) == CountsOf(known, parts, p.lectureIds)
  {
    assert (parts + [p])[..|parts|] == parts;
  }

  lemma StrLeIsOrder()
    ensures Total(StrLe) && Transitive(StrLe) && Antisymmetric(StrLe)
  {
    forall a, b ensures StrLe(a, b) || StrLe(b, a) {
      StrLeTotal(a, b);
    }
    forall a, b, c | StrLe(a, b) && StrLe(b, c) ensures StrLe(a, c) {
      StrLeTransitive(a, b, c);
    }
    forall a, b | StrLe(a, b) && StrLe(b, a) ensures a == b {
      StrLeAntisymmetric(a, b);
    }
  }

  /** Two duplicate-free lists with the same elements sort to the same list. */
  lemma SameElementsSortAlike(a: seq<string>, b: seq<string>)
    requires Distinct(a) && Distinct(b) && forall x :: x in a <==> x in b
    ensures SortBy(a, StrLe) == SortBy(b, StrLe)
  {
    forall x ensures multiset(a)[x] == multiset(b)[x] {
      DistinctMultiset(a, x);
      DistinctMultiset(b, x);
    }
    assert multiset(a) == multiset(b);
    StrLeIsOrder();
    SortByIgnoresOrder(a, b, StrLe);
  }

  /** `_validate_parts`. The unassigned and multiply assigned ids are
      gathered from the counters in whatever order the dictionary yields
      them and then sorted, so the messages do not depend on that order. */
  method ValidateParts(parts: seq<Part>, lectures: seq<Lecture>) returns (errors: seq<string>)
    ensures errors == ProblemMessages(PartProblems(parts, lectures))
  {
    var lectureIds := set i | 0 <= i < |lectures| :: lectures[i].id;
    var assignedCounts;
    errors, assignedCounts := CheckParts(parts, lectureIds);
    var missing, duplicates := UnassignedAndDuplicated(assignedCounts);
    ReportedIdsFromCounts(parts, lectures, missing, false);
    ReportedIdsFromCounts(parts, lectures, duplicates, true);
    var sortedMissing := SortBy(missing, StrLe);
    var sortedDuplicates := SortBy(duplicates, StrLe);
    SummaryMessages(parts, lectures, errors, sortedMissing, sortedDuplicates);
    if missing != [] {
      errors := errors + [ProblemMessage(Unassigned(sortedMissing))];
    }
    if duplicates != [] {
      errors := errors + [ProblemMessage(MultiplyAssigned(sortedDuplicates))];
    }
  }

  /** The per-part pass of `_validate_parts`: each part's problems, and how
      often each known id is listed. */
  method CheckParts(parts: seq<Part>, known: set<string>)
    returns (errors: seq<string>, assignedCounts: map<string, int>)
    ensures errors == ProblemMessages(PerPartProblems(parts, known))
    ensures assignedCounts == CountsOf(known, parts, [])
  {
    assignedCounts := map id | id in known :: 0;
    errors := [];
    assert assignedCounts == CountsOf(known, parts[..0], []);
    for i := 0 to |parts|
      invariant errors == ProblemMessages(PerPartProblems(parts[..i], known))
      invariant assignedCounts == CountsOf(known, parts[..i], [])
    {
      errors, assignedCounts := CheckPart(parts[..i], parts[i], known, errors, assignedCounts);
      assert parts[..i + 1] == parts[..i] + [parts[i]];
    }
    assert parts[..|parts|] == parts;
  }

  /** One iteration of the per-part pass. */
  method CheckPart(done: seq<Part>, part: Part, known: set<string>,
                   errors0: seq<string>, counts0: map<string, int>)
    returns (errors: seq<string>, assignedCounts: map<string, int>)
    requires errors0 == ProblemMessages(PerPartProblems(done, known))
    requires counts0 == CountsOf(known, done, [])
    ensures errors == ProblemMessages(PerPartProblems(done + [part], known))
    ensures assignedCounts == CountsOf(known, done + [part], [])
  {
    errors, assignedCounts := errors0, counts0;
    var codeProblems := if !StartsWith(part.partCode, PartPrefix) then [InvalidCode(part.partCode)] else [];
    var nameProblems := if !StartsWith(part.partName, part.partCode) then [NameWithoutCode(part.partName)] else [];
    if !StartsWith(part.partCode, PartPrefix) {
      errors := errors + [ProblemMessage(InvalidCode(part.partCode))];
    }
    if !StartsWith(part.partName, part.partCode) {
      errors := errors + [ProblemMessage(NameWithoutCode(part.partName))];
    }
    ProblemMessagesAppend(codeProblems, nameProblems);
    assert errors == errors0 + ProblemMessages(codeProblems + nameProblems);
    ghost var own := errors;
    errors, assignedCounts := CheckMembers(done, part.lectureIds, known, errors, assignedCounts);
    CountsNextPart(known, done, part);
    PartStepMessages(done, part, known, errors0, own, errors);
  }

  /** The inner loop of the per-part pass, over one part's members. */
  method CheckMembers(done: seq<Part>, ids: seq<string>, known: set<string>,
                      errors0: seq<string>, counts0: map<string, int>)
    returns (errors: seq<string>, assignedCounts: map<string, int>)
    requires counts0 == CountsOf(known, done, [])
    ensures errors == errors0 + ProblemMessages(MemberProblems(ids, known))
    ensures assignedCounts == CountsOf(known, done, ids)
  {
    errors, assignedCounts := errors0, counts0;
    assert ids[..0] == [];
    for j := 0 to |ids|
      invariant errors == errors0 + ProblemMessages(MemberProblems(ids[..j], known))
      invariant assignedCounts == CountsOf(known, done, ids[..j])
    {
      var lecId := ids[j];
      ghost var errorsBefore, countsBefore := errors, assignedCounts;
      if lecId !in assignedCounts {
        errors := errors + [ProblemMessage(UnknownLecture(lecId))];
      } else {
        assignedCounts := assignedCounts[lecId := assignedCounts[lecId] + 1];
      }
      MemberStep(done, ids, j, known, errors0, errorsBefore, countsBefore, errors, assignedCounts);
    }
    assert ids[..|ids|] == ids;
  }

  /** One member of the inner loop: an unknown id adds its message, a known
      one bumps its counter. */
  lemma MemberStep(done: seq<Part>, ids: seq<string>, j: nat, known: set<string>, errors0: seq<string>,
                   errors: seq<string>, counts: map<string, int>, errors': seq<string>, counts': map<string, int>)
    requires j < |ids|
    requires errors == errors0 + ProblemMessages(MemberProblems(ids[..j], known))
    requires counts == CountsOf(known, done, ids[..j])
    requires ids[j] !in counts ==> errors' == errors + [ProblemMessage(UnknownLecture(ids[j]))] && counts' == counts
    requires ids[j] in counts ==> errors' == errors && counts' == counts[ids[j] := counts[ids[j]] + 1]
    ensures errors' == errors0 + ProblemMessages(MemberProblems(ids[..j + 1], known))
    ensures counts' == CountsOf(known, done, ids[..j + 1])
  {
    assert ids[..j + 1] == ids[..j] + [ids[j]];
    CountsStep(known, done, ids[..j], ids[j]);
    MemberStepMessages(ids[..j], ids[j], known);
  }

  /** The closing pass over the counters: the ids never listed and the ids
      listed more than once, each once, in the dictionary's order. */
  method UnassignedAndDuplicated(assignedCounts: map<string, int>)
    returns (missing: seq<string>, duplicates: seq<string>)
    ensures Distinct(missing) && Distinct(duplicates)
    ensures forall id :: id in missing <==> id in assignedCounts && assignedCounts[id] == 0
    ensures forall id :: id in duplicates <==> id in assignedCounts && assignedCounts[id] > 1
  {
    missing, duplicates := [], [];
    var pending := assignedCounts.Keys;
    while pending != {}
      invariant pending <= assignedCounts.Keys
      invariant Distinct(missing) && Distinct(duplicates)
      invariant forall id :: id in missing <==> id in assignedCounts && id !in pending && assignedCounts[id] == 0
      invariant forall id :: id in duplicates <==> id in assignedCounts && id !in pending && assignedCounts[id] > 1
      decreases pending
    {
      var lecId :| lecId in pending;
      if assignedCounts[lecId] == 0 {
        DistinctSnoc(missing, lecId);
        missing := missing + [lecId];
      }
      if assignedCounts[lecId] > 1 {
        DistinctSnoc(duplicates, lecId);
        duplicates := duplicates + [lecId];
      }
      pending := pending - {lecId};
    }
  }

  lemma MemberStepMessages(ids: seq<string>, x: string, known: set<string>)
    ensures ProblemMessages(MemberProblems(ids + [x], known)) ==
      ProblemMessages(MemberProblems(ids, known)) + (if x !in known then [ProblemMessage(UnknownLecture(x))] else [])
  {
    assert (ids + [x])[..|ids|] == ids;
    var tail := if x !in known then [UnknownLecture(x)] else [];
    ProblemMessagesAppend(MemberProblems(ids, known), tail);
    assert ProblemMessages(tail) == if x !in known then [ProblemMessage(UnknownLecture(x))] else [];
  }

  lemma PartStepMessages(done: seq<Part>, part: Part, known: set<string>,
                         before: seq<string>, own: seq<string>, errors: seq<string>)
    requires before == ProblemMessages(PerPartProblems(done, known))
    requires own == before + ProblemMessages(
      (if !StartsWith(part.partCode, PartPrefix) then [InvalidCode(part.partCode)] else []) +
      (if !StartsWith(part.partName, part.partCode) then [NameWithoutCode(part.partName)] else []))
    requires errors == own + ProblemMessages(MemberProblems(part.lectureIds, known))
    ensures errors == ProblemMessages(PerPartProblems(done + [part], known))
  {
    var head :=
      (if !StartsWith(part.partCode, PartPrefix) then [InvalidCode(part.partCode)] else []) +
      (if !StartsWith(part.partName, part.partCode) then [NameWithoutCode(part.partName)] else []);
    var members := MemberProblems(part.lectureIds, known);
    var previous := PerPartProblems(done, known);
    PerPartProblemsSnoc(done, part, known);
    ProblemMessagesAppend(head, members);
    ProblemMessagesAppend(previous, head + members);
  }

  lemma PerPartProblemsSnoc(done: seq<Part>, part: Part, known: set<string>)
    ensures PerPartProblems(done + [part], known) == PerPartProblems(done, known) + OwnProblems(part, known)
  {
    assert (done + [part])[..|done|] == done;
  }

  /** Whatever order the counters are visited in, the sorted list is the
      reported one. */
  lemma ReportedIdsFromCounts(parts: seq<Part>, lectures: seq<Lecture>, found: seq<string>, duplicates: bool)
    requires Distinct(found)
    requires forall id :: id in found <==> id in KnownIds(lectures) && Selected(AssignedCount(parts, id), duplicates)
    ensures SortBy(found, StrLe) == ReportedIds(parts, lectures, duplicates)
    ensures found == [] <==> ReportedIds(parts, lectures, duplicates) == []
  {
    var spec := SelectIds(Dedup(LectureIds(lectures)), parts, duplicates);
    SelectedLectureIds(parts, lectures, duplicates);
    SameElementsSortAlike(found, spec);
    StrLeIsOrder();
    SortByCorrect(spec, StrLe);
    if spec != [] {
      assert spec[0] in multiset(SortBy(spec, StrLe));
    }
    if found != [] {
      assert found[0] in spec;
    }
  }

  lemma SummaryMessages(parts: seq<Part>, lectures: seq<Lecture>, errors: seq<string>,
                        sortedMissing: seq<string>, sortedDuplicates: seq<string>)
    requires errors == ProblemMessages(PerPartProblems(parts, KnownIds(lectures)))
    requires sortedMissing == ReportedIds(parts, lectures, false)
    requires sortedDuplicates == ReportedIds(parts, lectures, true)
    ensures ProblemMessages(PartProblems(parts, lectures)) ==
      errors +
      (if sortedMissing != [] then [ProblemMessage(Unassigned(sortedMissing))] else []) +
      (if sortedDuplicates != [] then [ProblemMessage(MultiplyAssigned(sortedDuplicates))] else [])
  {
    var a := PerPartProblems(parts, KnownIds(lectures));
    var b := if sortedMissing != [] then [Unassigned(sortedMissing)] else [];
    var c := if sortedDuplicates != [] then [MultiplyAssigned(sortedDuplicates)] else [];
    ProblemMessagesAppend(a, b);
    ProblemMessagesAppend(a + b, c);
  }

  lemma {:induction false} MemberProblemsEmptyIff(ids: seq<string>, known: set<string>)
    ensures MemberProblems(ids, known) == [] <==> forall x :: x in ids ==> x in known
    decreases |ids|
  {
    if ids != [] {
      var init := ids[..|ids| - 1];
      MemberProblemsEmptyIff(init, known);
      assert ids == init + [ids[|ids| - 1]];
      assert |MemberProblems(ids, known)| >= |MemberProblems(init, known)|;
    }
  }

  /** A part contributes no problem of its own exactly when it is well named
      and lists only known lectures. */
  predicate PartAcceptable(p: Part, known: set<string>) {
    && StartsWith(p.partCode, PartPrefix)
    && StartsWith(p.partName, p.partCode)
    && forall x :: x in p.lectureIds ==> x in known
  }

  lemma {:induction false} PerPartProblemsEmptyIff(parts: seq<Part>, known: set<string>)
    ensures PerPartProblems(parts, known) == [] <==> forall i :: 0 <= i < |parts| ==> PartAcceptable(parts[i], known)
    decreases |parts|
  {
    if parts != [] {
      var init := parts[..|parts| - 1];
      var last := parts[|parts| - 1];
      PerPartProblemsEmptyIff(init, known);
      MemberProblemsEmptyIff(last.lectureIds, known);
      assert |PerPartProblems(parts, known)| == |PerPartProblems(init, known)| + |OwnProblems(last, known)|;
      assert (forall i :: 0 <= i < |parts| ==> PartAcceptable(parts[i], known)) <==>
        (forall i :: 0 <= i < |init| ==> PartAcceptable(init[i], known)) && PartAcceptable(last, known);
    }
  }

  lemma LectureIdsAreKnown(lectures: seq<Lecture>)
    ensures forall x :: x in LectureIds(lectures) <==> x in KnownIds(lectures)
  {
    forall x | x in KnownIds(lectures) ensures x in LectureIds(lectures) {
      var i :| 0 <= i < |lectures| && lectures[i].id == x;
      assert LectureIds(lectures)[i] == x;
    }
  }

  /** The reported id lists are sorted, duplicate-free, and hold exactly the
      known ids listed nowhere (respectively more than once). */
  lemma ReportedIdsCharacterised(parts: seq<Part>, lectures: seq<Lecture>, duplicates: bool)
    ensures SortedBy(ReportedIds(parts, lectures, duplicates), StrLe)
    ensures Distinct(ReportedIds(parts, lectures, duplicates))
    ensures forall x :: x in ReportedIds(parts, lectures, duplicates) <==>
      x in KnownIds(lectures) && Selected(AssignedCount(parts, x), duplicates)
  {
    var s := SelectIds(Dedup(LectureIds(lectures)), parts, duplicates);
    SelectedLectureIds(parts, lectures, duplicates);
    StrLeIsOrder();
    SortByCorrect(s, StrLe);
    var r := SortBy(s, StrLe);
    forall x ensures multiset(r)[x] <= 1 {
      DistinctMultiset(s, x);
    }
    MultisetDistinct(r);
    forall x ensures x in r <==> x in s {
      assert x in r <==> x in multiset(r);
      assert x in s <==> x in multiset(s);
    }
  }

  lemma ReportedIdsEmptyIff(parts: seq<Part>, lectures: seq<Lecture>, duplicates: bool)
    ensures ReportedIds(parts, lectures, duplicates) == [] <==>
      forall x :: x in KnownIds(lectures) ==> !Selected(AssignedCount(parts, x), duplicates)
  {
    ReportedIdsCharacterised(parts, lectures, duplicates);
    var r := ReportedIds(parts, lectures, duplicates);
    if r != [] {
      assert r[0] in r;
    }
  }

  /** `_validate_parts` reports nothing exactly when every part is well named
      and lists only known lectures, and every known lecture is listed exactly
      once across all parts. */
  lemma ValidatePartsEmptyIff(parts: seq<Part>, lectures: seq<Lecture>)
    ensures PartProblems(parts, lectures) == [] <==>
      && (forall i :: 0 <= i < |parts| ==> PartAcceptable(parts[i], KnownIds(lectures)))
      && (forall id :: id in KnownIds(lectures) ==> AssignedCount(parts, id) == 1)
  {
    PerPartProblemsEmptyIff(parts, KnownIds(lectures));
    ReportedIdsEmptyIff(parts, lectures, false);
    ReportedIdsEmptyIff(parts, lectures, true);
  }

  // ---------------------------------------------------------------------
  // `fallback_split_parts`

  function Min(a: int, b: int): int { if a <= b then a else b }
  function Max(a: int, b: int): int { if a >= b then a else b }

  /** How many parts the fallback makes of `n` lectures: `n` itself below
      four, otherwise one per twenty lectures (rounded up), kept within 4..10. */
  function FallbackPartCount(n: nat): (count: nat)
    ensures n >= 1 ==> 1 <= count <= n
    ensures count <= 10
    ensures n >= 4 ==> 4 <= count
  {
    if n < 4 then n else Min(10, Max(4, (n + 19) / 20))
  }

  /** `n // count`, the lectures per bucket, at least one. */
  function BucketSize(n: nat, count: nat): (size: nat)
    requires count > 0
    ensures size >= 1
  {
    Max(1, Quotient(n, count))
  }

  /** `n // d` for non-negative operands, as repeated subtraction so that
      the bucket reasoning stays linear (see `QuotientIsDivision`). */
  function Quotient(n: nat, d: nat): nat
    requires d > 0
    decreases n
  {
    if n < d then 0 else 1 + Quotient(n - d, d)
  }

  lemma {:induction false} QuotientIsDivision(n: nat, d: nat)
    requires d > 0
    ensures Quotient(n, d) == n / d
    decreases n
  {
    if n >= d {
      QuotientIsDivision(n - d, d);
      DivisionStep(n, d);
    }
  }

  lemma DivisionStep(n: nat, d: nat)
    requires 0 < d <= n
    ensures n / d == (n - d) / d + 1
  {
    var q := (n - d) / d;
    var r := (n - d) % d;
    assert (q + 1) * d == q * d + d;
    DivisionUnique(n, d, q + 1, r);
  }

  /** The quotient is the only `q` with `n == q * d + r` and `0 <= r < d`. */
  lemma DivisionUnique(n: nat, d: nat, q: nat, r: nat)
    requires d > 0 && r < d && n == q * d + r
    ensures n / d == q
  {
    var q1 := n / d;
    assert n == q1 * d + n % d;
    assert (q1 + 1) * d == q1 * d + d && (q + 1) * d == q * d + d;
    if q1 < q {
      MulMonotone(q1 + 1, q, d);
    } else if q1 > q {
      MulMonotone(q + 1, q1, d);
    }
  }

  /** Python's clamping slice `s[start:end]` for non-negative bounds. */
  function Slice(s: seq<Lecture>, start: nat, end: nat): seq<Lecture> {
    if start >= end || start >= |s| then [] else s[start..Min(end, |s|)]
  }

  /** `idx * size`, written as repeated addition so that the reasoning
      about consecutive windows stays linear (see `WindowIsProduct`). */
  function Window(idx: nat, size: nat): nat
    decreases idx
  {
    if idx == 0 then 0 else Window(idx - 1, size) + size
  }

  lemma {:induction false} WindowIsProduct(idx: nat, size: nat)
    ensures Window(idx, size) == idx * size
    decreases idx
  {
    if idx > 0 {
      WindowIsProduct(idx - 1, size);
      assert idx * size == (idx - 1) * size + size;
    }
  }

  /** Bucket `idx` of the fallback: consecutive windows of the bucket size,
      the last one running to the end. */
  function Bucket(lectures: seq<Lecture>, idx: nat): seq<Lecture>
    requires idx < FallbackPartCount(|lectures|)
  {
    var count := FallbackPartCount(|lectures|);
    var size := BucketSize(|lectures|, count);
    Slice(lectures, Window(idx, size), if idx < count - 1 then Window(idx + 1, size) else |lectures|)
  }

  function FallbackCode(idx: nat): string
    requires idx < 99
  {
    PartPrefix + TwoDigits(idx + 1)
  }

  function FallbackPart(idx: nat, bucket: seq<Lecture>): (p: Part)
    requires idx < 99
    ensures p.partCode == FallbackCode(idx)
    ensures p.partName == p.partCode + " " + p.partTitle
    ensures p.lectureIds == LectureIds(bucket)
  {
    var code := FallbackCode(idx);
    var title := "코스 파트 " + NatToString(idx + 1);
    Part(code, title, code + " " + title, LectureIds(bucket))
  }

  /** The parts made from the first `k` buckets, skipping empty ones. */
  function FallbackPrefix(lectures: seq<Lecture>, k: nat): seq<Part>
    requires k <= FallbackPartCount(|lectures|)
    decreases k
  {
    if k == 0 then []
    else
      var bucket := Bucket(lectures, k - 1);
      FallbackPrefix(lectures, k - 1) + (if bucket == [] then [] else [FallbackPart(k - 1, bucket)])
  }

  function FallbackParts(lectures: seq<Lecture>): seq<Part> {
    FallbackPrefix(lectures, FallbackPartCount(|lectures|))
  }

  /** `fallback_split_parts`. */
  method FallbackSplitParts(lectures: seq<Lecture>) returns (parts: seq<Part>)
    ensures parts == FallbackParts(lectures)
  {
    if lectures == [] {
      return [];
    }
    var partCount := if |lectures| < 4 then |lectures| else Min(10, Max(4, (|lectures| + 19) / 20));
    var bucketSize := Max(1, |lectures| / partCount);
    QuotientIsDivision(|lectures|, partCount);
    assert partCount == FallbackPartCount(|lectures|) && bucketSize == BucketSize(|lectures|, partCount);
    parts := [];
    for idx := 0 to partCount
      invariant parts == FallbackPrefix(lectures, idx)
    {
      var start, end := BucketRange(|lectures|, partCount, bucketSize, idx);
      var bucket := Slice(lectures, start, end);
      assert bucket == Bucket(lectures, idx);
      if bucket == [] {
        assert FallbackPrefix(lectures, idx + 1) == parts;
        continue;
      }
      var code := PartPrefix + TwoDigits(idx + 1);
      var title := "코스 파트 " + NatToString(idx + 1);
      var part := Part(code, title, code + " " + title, LectureIds(bucket));
      assert part == FallbackPart(idx, bucket);
      assert FallbackPrefix(lectures, idx + 1) == parts + [part];
      parts := parts + [part];
    }
  }

  /** The window `[idx * size, (idx + 1) * size)` of bucket `idx`, the last
      one running to `n`. */
  method BucketRange(n: nat, partCount: nat, bucketSize: nat, idx: nat) returns (start: nat, end: nat)
    requires idx < partCount
    ensures start == Window(idx, bucketSize)
    ensures end == if idx < partCount - 1 then Window(idx + 1, bucketSize) else n
  {
    WindowIsProduct(idx, bucketSize);
    WindowIsProduct(idx + 1, bucketSize);
    start := idx * bucketSize;
    end := if idx < partCount - 1 then (idx + 1) * bucketSize else n;
  }

  /** Five lectures make four parts: three of one lecture, then the last two. */
  lemma FiveLecturesFourParts(lectures: seq<Lecture>)
    requires |lectures| == 5
    ensures |FallbackParts(lectures)| == 4
    ensures FallbackParts(lectures)[3].lectureIds == [lectures[3].id, lectures[4].id]
  {
    FallbackPrefixShape(lectures, 4);
    BucketWindow(lectures, 3);
    assert LectureIds(lectures[3..5]) == [lectures[3].id, lectures[4].id];
  }

  lemma MulMonotone(a: nat, b: nat, c: nat)
    requires a <= b
    ensures a * c <= b * c
  {
    assert b * c == a * c + (b - a) * c;
  }

  lemma BucketBounds(n: nat, idx: nat)
    requires n >= 1 && idx < FallbackPartCount(n)
    ensures Window(idx + 1, BucketSize(n, FallbackPartCount(n))) <= n
  {
    var count := FallbackPartCount(n);
    QuotientIsDivision(n, count);
    assert n / count >= 1;
    assert BucketSize(n, count) == n / count;
    assert count * (n / count) <= n;
    MulMonotone(idx + 1, count, n / count);
    WindowIsProduct(idx + 1, n / count);
  }

  /** Bucket `idx` is exactly the window from `idx * size`, of length `size`
      except for the last, which runs to the end; in particular no bucket is empty. */
  lemma BucketWindow(lectures: seq<Lecture>, idx: nat)
    requires lectures != [] && idx < FallbackPartCount(|lectures|)
    ensures var count := FallbackPartCount(|lectures|); var size := BucketSize(|lectures|, count);
      && Window(idx + 1, size) == Window(idx, size) + size <= |lectures|
      && Bucket(lectures, idx) ==
           lectures[Window(idx, size)..if idx < count - 1 then Window(idx + 1, size) else |lectures|]
      && Bucket(lectures, idx) != []
  {
    BucketBounds(|lectures|, idx);
  }

  /** No bucket is empty, so exactly `FallbackPartCount` parts come out, part
      `i` coded "PART." followed by `i + 1` in two digits. */
  lemma {:induction false} FallbackPrefixShape(lectures: seq<Lecture>, k: nat)
    requires lectures != [] && k <= FallbackPartCount(|lectures|)
    ensures ShapeUpTo(lectures, k)
    decreases k
  {
    if k > 0 {
      FallbackPrefixShape(lectures, k - 1);
      FallbackShapeStep(lectures, k);
    }
  }

  predicate ShapeUpTo(lectures: seq<Lecture>, k: nat)
    requires k <= FallbackPartCount(|lectures|)
  {
    && |FallbackPrefix(lectures, k)| == k
    && forall i :: 0 <= i < k ==> FallbackPrefix(lectures, k)[i] == FallbackPart(i, Bucket(lectures, i))
  }

  lemma FallbackShapeStep(lectures: seq<Lecture>, k: nat)
    requires lectures != [] && 0 < k <= FallbackPartCount(|lectures|)
    requires ShapeUpTo(lectures, k - 1)
    ensures ShapeUpTo(lectures, k)
  {
    BucketWindow(lectures, k - 1);
    var prev := FallbackPrefix(lectures, k - 1);
    var last := FallbackPart(k - 1, Bucket(lectures, k - 1));
    assert FallbackPrefix(lectures, k) == prev + [last];
    forall i | 0 <= i < k
      ensures FallbackPrefix(lectures, k)[i] == FallbackPart(i, Bucket(lectures, i))
    {
      if i < k - 1 {
        assert (prev + [last])[i] == prev[i];
      }
    }
  }

  function FlattenIds(parts: seq<Part>): seq<string>
    decreases |parts|
  {
    if parts == [] then [] else FlattenIds(parts[..|parts| - 1]) + parts[|parts| - 1].lectureIds
  }

  lemma LectureIdsSlice(lectures: seq<Lecture>, a: nat, b: nat, c: nat)
    requires a <= b <= c <= |lectures|
    ensures LectureIds(lectures[a..b]) + LectureIds(lectures[b..c]) == LectureIds(lectures[a..c])
  {
  }

  /** The first `k` fallback parts hold, in order, the ids of the lectures
      before window `k` (all of them once `k` is the part count). */
  predicate CoversUpTo(lectures: seq<Lecture>, k: nat)
    requires lectures != [] && k <= FallbackPartCount(|lectures|)
  {
    var count := FallbackPartCount(|lectures|);
    var size := BucketSize(|lectures|, count);
    && Window(k, size) <= |lectures|
    && FlattenIds(FallbackPrefix(lectures, k)) ==
         LectureIds(lectures[..if k == count then |lectures| else Window(k, size)])
  }

  lemma {:induction false} FallbackPrefixCovers(lectures: seq<Lecture>, k: nat)
    requires lectures != [] && k <= FallbackPartCount(|lectures|)
    ensures CoversUpTo(lectures, k)
    decreases k
  {
    if k == 0 {
      assert lectures[..0] == [];
    } else {
      FallbackPrefixCovers(lectures, k - 1);
      FallbackCoversStep(lectures, k);
    }
  }

  /** Adding bucket `k - 1` extends the covered prefix to the next window. */
  lemma FallbackCoversStep(lectures: seq<Lecture>, k: nat)
    requires lectures != [] && 0 < k <= FallbackPartCount(|lectures|)
    requires CoversUpTo(lectures, k - 1)
    ensures CoversUpTo(lectures, k)
  {
    var count := FallbackPartCount(|lectures|);
    var size := BucketSize(|lectures|, count);
    BucketWindow(lectures, k - 1);
    var start := Window(k - 1, size);
    var end := if k == count then |lectures| else Window(k, size);
    var bucket := Bucket(lectures, k - 1);
    assert bucket == lectures[start..end];
    var prefix := FallbackPrefix(lectures, k - 1);
    assert FallbackPrefix(lectures, k) == prefix + [FallbackPart(k - 1, bucket)];
    assert (prefix + [FallbackPart(k - 1, bucket)])[..|prefix|] == prefix;
    assert FlattenIds(FallbackPrefix(lectures, k)) == FlattenIds(prefix) + LectureIds(bucket);
    LectureIdsSlice(lectures, 0, start, end);
    assert lectures[..end] == lectures[0..end];
    assert lectures[..start] == lectures[0..start];
  }

  /** The fallback's member lists, concatenated, are the lecture ids in
      order: every lecture lands in exactly one bucket, in sequence. */
  lemma FallbackCoversLectures(lectures: seq<Lecture>)
    ensures FlattenIds(FallbackParts(lectures)) == LectureIds(lectures)
  {
    if lectures != [] {
      FallbackPrefixCovers(lectures, FallbackPartCount(|lectures|));
      assert lectures[..|lectures|] == lectures;
    }
  }

  lemma {:induction false} AssignedCountIsOccurrences(parts: seq<Part>, id: string)
    ensures AssignedCount(parts, id) == Occurrences(FlattenIds(parts), id)
    decreases |parts|
  {
    if parts != [] {
      AssignedCountIsOccurrences(parts[..|parts| - 1], id);
      OccurrencesAppend(FlattenIds(parts[..|parts| - 1]), parts[|parts| - 1].lectureIds, id);
    }
  }

  lemma {:induction false} OccurrencesAppend(a: seq<string>, b: seq<string>, id: string)
    ensures Occurrences(a + b, id) == Occurrences(a, id) + Occurrences(b, id)
    decreases |b|
  {
    if b == [] {
      assert a + b == a;
    } else {
      assert (a + b)[..|a + b| - 1] == a + b[..|b| - 1];
      OccurrencesAppend(a, b[..|b| - 1], id);
    }
  }

  lemma {:induction false} MembersOfFlatten(parts: seq<Part>, i: nat, x: string)
    requires i < |parts| && x in parts[i].lectureIds
    ensures x in FlattenIds(parts)
    decreases |parts|
  {
    if i < |parts| - 1 {
      MembersOfFlatten(parts[..|parts| - 1], i, x);
    }
  }

  /** With distinct lecture ids the fallback split passes `_validate_parts`. */
  lemma FallbackValidates(lectures: seq<Lecture>)
    requires Distinct(LectureIds(lectures))
    ensures PartProblems(FallbackParts(lectures), lectures) == []
  {
    FallbackPartsAcceptable(lectures);
    FallbackAssignsOnce(lectures);
    ValidatePartsEmptyIff(FallbackParts(lectures), lectures);
  }

  lemma FallbackPartsAcceptable(lectures: seq<Lecture>)
    ensures var parts := FallbackParts(lectures);
      forall i :: 0 <= i < |parts| ==> PartAcceptable(parts[i], KnownIds(lectures))
  {
    var parts := FallbackParts(lectures);
    if lectures != [] {
      FallbackPrefixShape(lectures, FallbackPartCount(|lectures|));
    }
    forall i | 0 <= i < |parts| ensures PartAcceptable(parts[i], KnownIds(lectures)) {
      FallbackPartNamed(i, Bucket(lectures, i));
      forall x | x in parts[i].lectureIds ensures x in KnownIds(lectures) {
        FallbackMemberKnown(lectures, i, x);
      }
    }
  }

  lemma FallbackPartNamed(idx: nat, bucket: seq<Lecture>)
    requires idx < 99
    ensures var p := FallbackPart(idx, bucket);
      StartsWith(p.partCode, PartPrefix) && StartsWith(p.partName, p.partCode)
  {
    var p := FallbackPart(idx, bucket);
    assert p.partName[..|p.partCode|] == p.partCode;
  }

  lemma FallbackMemberKnown(lectures: seq<Lecture>, i: nat, x: string)
    requires i < |FallbackParts(lectures)| && x in FallbackParts(lectures)[i].lectureIds
    ensures x in KnownIds(lectures)
  {
    MembersOfFlatten(FallbackParts(lectures), i, x);
    FallbackCoversLectures(lectures);
    var j :| 0 <= j < |lectures| && LectureIds(lectures)[j] == x;
  }

  lemma FallbackAssignsOnce(lectures: seq<Lecture>)
    requires Distinct(LectureIds(lectures))
    ensures forall id :: id in KnownIds(lectures) ==> AssignedCount(FallbackParts(lectures), id) == 1
  {
    var parts := FallbackParts(lectures);
    FallbackCoversLectures(lectures);
    forall id | id in KnownIds(lectures) ensures AssignedCount(parts, id) == 1 {
      AssignedCountIsOccurrences(parts, id);
      var j :| 0 <= j < |lectures| && lectures[j].id == id;
      DistinctOccursOnce(LectureIds(lectures), j);
    }
  }

  lemma {:induction false} DistinctOccursOnce(s: seq<string>, j: nat)
    requires Distinct(s) && j < |s|
    ensures Occurrences(s, s[j]) == 1
    decreases |s|
  {
    var init := s[..|s| - 1];
    if j < |s| - 1 {
      DistinctOccursOnce(init, j);
    } else {
      NotInNoOccurrences(init, s[j]);
    }
  }

  lemma {:induction false} NotInNoOccurrences(s: seq<string>, x: string)
    requires x !in s
    ensures Occurrences(s, x) == 0
    decreases |s|
  {
    if s != [] {
      NotInNoOccurrences(s[..|s| - 1], x);
    }
  }

  /** Every fallback part passes the `Part` validators. */
  lemma FallbackPartsConstructible(lectures: seq<Lecture>)
    ensures forall p :: p in FallbackParts(lectures) ==>
      NewPart(p.partCode, p.partTitle, p.partName, p.lectureIds) == Success(p)
  {
    if lectures != [] {
      var parts := FallbackParts(lectures);
      FallbackPrefixShape(lectures, FallbackPartCount(|lectures|));
      forall p | p in parts ensures NewPart(p.partCode, p.partTitle, p.partName, p.lectureIds) == Success(p) {
        var i :| 0 <= i < |parts| && parts[i] == p;
        FallbackPartConstructible(i, Bucket(lectures, i));
      }
    }
  }

  lemma FallbackPartConstructible(idx: nat, bucket: seq<Lecture>)
    requires idx < 99
    ensures var p := FallbackPart(idx, bucket);
      NewPart(p.partCode, p.partTitle, p.partName, p.lectureIds) == Success(p)
  {
    var p := FallbackPart(idx, bucket);
    TwoDigitCodeIsValid(idx + 1);
    assert p.partName[..|PartPrefix|] == PartPrefix;
  }

  // ---------------------------------------------------------------------
  // `_normalize_part_payload` and `PartClassifier.classify`

  /** One entry of a reply's "parts" list; a key the entry lacks is None. */
  datatype PartPayload = PartPayload(
    partCode: Option<string>,
    partTitle: Option<string>,
    partName: Option<string>,
    lectureIds: Option<seq<string>>)

  /** One `generate_json` call: it raises, or returns an object whose "parts"
      value is absent or empty (None) or a list of entries. */
  datatype Reply = Raised(message: string) | Payload(parts: Option<seq<PartPayload>>)

  /** Why an attempt failed. */
  datatype AttemptError =
    | CallFailed(message: string)       // the client raised
    | MissingKey(key: string)           // a KeyError while normalizing
    | InvalidPart(errors: seq<string>)  // the `Part` validators rejected an entry
    | InvalidParts(errors: seq<string>) // `_validate_parts` objected

  /** `str(exc)` of the failure. */
  function ErrorText(e: AttemptError): string {
    match e
    case CallFailed(message) => message
    case MissingKey(key) => "'" + key + "'"
    case InvalidPart(errors) => Join(errors, "; ")
    case InvalidParts(errors) => Join(errors, "; ")
  }

  /** `_normalize_part_payload`: the code, title and name are looked up in
      that order, the first missing one failing; missing ids default to []. */
  function NormalizePartPayload(p: PartPayload): (r: Result<Part, AttemptError>)
    ensures r.Success? <==>
      && p.partCode.Some? && p.partTitle.Some? && p.partName.Some?
      && ValidatePartCode(p.partCode.value) == Pass && StartsWith(p.partName.value, PartPrefix)
    ensures r.Success? ==>
      r.value == Part(p.partCode.value, p.partTitle.value, p.partName.value, if p.lectureIds.Some? then p.lectureIds.value else [])
    ensures r.Failure? && p.partCode.None? ==> r.error == MissingKey("part_code")
  {
    if p.partCode.None? then Failure(MissingKey("part_code"))
    else if p.partTitle.None? then Failure(MissingKey("part_title"))
    else if p.partName.None? then Failure(MissingKey("part_name"))
    else
      var ids := if p.lectureIds.Some? then p.lectureIds.value else [];
      match NewPart(p.partCode.value, p.partTitle.value, p.partName.value, ids)
      case Success(part) => Success(part)
      case Failure(errors) => Failure(InvalidPart(errors))
  }

  /** The list comprehension over the entries: the first failing entry decides. */
  function NormalizeAll(ps: seq<PartPayload>): (r: Result<seq<Part>, AttemptError>)
    ensures r.Success? <==> forall i :: 0 <= i < |ps| ==> NormalizePartPayload(ps[i]).Success?
    ensures r.Success? ==> |r.value| == |ps| && forall i :: 0 <= i < |ps| ==> r.value[i] == NormalizePartPayload(ps[i]).value
    ensures r.Failure? ==>
      exists i :: 0 <= i < |ps| && NormalizePartPayload(ps[i]) == Failure(r.error) &&
        forall j :: 0 <= j < i ==> NormalizePartPayload(ps[j]).Success?
    decreases |ps|
  {
    if ps == [] then Success([])
    else
      match NormalizePartPayload(ps[0])
      case Failure(e) => Failure(e)
      case Success(part) =>
        match NormalizeAll(ps[1..])
        case Failure(e) =>
          assert forall i :: 1 <= i < |ps| ==> ps[i] == ps[1..][i - 1];
          Failure(e)
        case Success(rest) =>
          assert forall i :: 1 <= i < |ps| ==> ps[i] == ps[1..][i - 1];
          Success([part] + rest)
  }

  /** One attempt of the retry loop; an accepted list of parts passes
      `_validate_parts`. */
  function Attempt(reply: Reply, lectures: seq<Lecture>): (r: Result<seq<Part>, AttemptError>)
    ensures r.Success? ==> PartProblems(r.value, lectures) == []
  {
    match reply
    case Raised(message) => Failure(CallFailed(message))
    case Payload(payload) =>
      var ps := if payload.Some? then payload.value else [];
      match NormalizeAll(ps)
      case Failure(e) => Failure(e)
      case Success(parts) =>
        var errors := ProblemMessages(PartProblems(parts, lectures));
        if errors != [] then Failure(InvalidParts(errors)) else Success(parts)
  }

  function FailureWarning(attempt: nat, text: string): string {
    "LLM classification failed (attempt " + NatToString(attempt) + "): " + text
  }

  /** The warnings a failed attempt leaves: its validation errors, if any,
      then one line naming the attempt. */
  function AttemptWarnings(e: AttemptError, attempt: nat): (ws: seq<string>)
    ensures |ws| >= 1 && ws[|ws| - 1] == FailureWarning(attempt, ErrorText(e))
  {
    (if e.InvalidParts? then e.errors else []) + [FailureWarning(attempt, ErrorText(e))]
  }

  const FallbackWarning: string := "Fallback PART split applied"

  /** `PartClassificationResult`. */
  datatype ClassificationResult = ClassificationResult(parts: seq<Part>, fallbackUsed: bool, warnings: seq<string>)

  /** `PartClassifier`: the LLM client is the script of its replies to
      successive calls (None when there is no client). */
  datatype PartClassifier = PartClassifier(llmClient: Option<seq<Reply>>, maxRetries: int)

  function DefaultClassifier(llmClient: Option<seq<Reply>>): (c: PartClassifier)
    ensures c.llmClient == llmClient && c.maxRetries == 1
  {
    PartClassifier(llmClient, 1)
  }

  /** How many calls the loop makes at most: `max_retries + 1`, none when negative. */
  function Budget(c: PartClassifier): nat {
    if c.maxRetries < 0 then 0 else c.maxRetries + 1
  }

  /** The classification left by the attempts still to come, whose
      outcomes are `outcomes`, numbered from `attempt` and following
      `warnings`; `fallback` is what the fallback split would give. */
  function ClassifyFrom(outcomes: seq<Result<seq<Part>, AttemptError>>, attempt: nat,
                        warnings: seq<string>, fallback: seq<Part>): ClassificationResult
    decreases |outcomes|
  {
    if outcomes == [] then ClassificationResult(fallback, true, warnings + [FallbackWarning])
    else
      match outcomes[0]
      case Success(parts) => ClassificationResult(parts, false, warnings)
      case Failure(e) => ClassifyFrom(outcomes[1..], attempt + 1, warnings + AttemptWarnings(e, attempt), fallback)
  }

  /** The outcome of each scripted reply. */
  function Outcomes(replies: seq<Reply>, lectures: seq<Lecture>): (os: seq<Result<seq<Part>, AttemptError>>)
    ensures |os| == |replies|
  {
    MapSeqIndex(r => Attempt(r, lectures), replies);
    MapSeq(r => Attempt(r, lectures), replies)
  }

  lemma OutcomesIndex(replies: seq<Reply>, lectures: seq<Lecture>)
    ensures forall i :: 0 <= i < |replies| ==> Outcomes(replies, lectures)[i] == Attempt(replies[i], lectures)
  {
    MapSeqIndex(r => Attempt(r, lectures), replies);
  }

  /** The scripted client answers every call the loop can make. */
  predicate EnoughReplies(c: PartClassifier) {
    c.llmClient.Some? ==> |c.llmClient.value| >= Budget(c)
  }

  /** The outcomes of the replies the loop may ask for. */
  function AskedOutcomes(c: PartClassifier, lectures: seq<Lecture>): (os: seq<Result<seq<Part>, AttemptError>>)
    requires EnoughReplies(c)
    ensures |os| == if c.llmClient.Some? then Budget(c) else 0
  {
    if c.llmClient.Some? then Outcomes(c.llmClient.value, lectures)[..Budget(c)] else []
  }

  /** What `classify` returns. */
  function Classification(c: PartClassifier, lectures: seq<Lecture>): ClassificationResult
    requires EnoughReplies(c)
  {
    if lectures == [] then ClassificationResult([], false, [])
    else ClassifyFrom(AskedOutcomes(c, lectures), 1, [], FallbackParts(lectures))
  }

  /** The body of the `try` block for the call answered by `replies[i]`:
      call, normalize, validate. */
  method TryReply(replies: seq<Reply>, i: nat, lectures: seq<Lecture>) returns (outcome: Result<seq<Part>, AttemptError>)
    requires i < |replies|
    ensures outcome == Outcomes(replies, lectures)[i]
  {
    OutcomesIndex(replies, lectures);
    match replies[i] {
      case Raised(message) =>
        return Failure(CallFailed(message));
      case Payload(payload) =>
        var ps := if payload.Some? then payload.value else [];
        var normalized := NormalizeAll(ps);
        if normalized.Failure? {
          return Failure(normalized.error);
        }
        var errors := ValidateParts(normalized.value, lectures);
        if errors != [] {
          return Failure(InvalidParts(errors));
        }
        return Success(normalized.value);
    }
  }

  /** `PartClassifier.classify`. */
  method Classify(c: PartClassifier, lectures: seq<Lecture>) returns (result: ClassificationResult)
    requires EnoughReplies(c)
    ensures result == Classification(c, lectures)
  {
    var warnings: seq<string> := [];
    if lectures == [] {
      return ClassificationResult([], false, []);
    }
    var attempts := 0;
    ghost var fallback := FallbackParts(lectures);
    ghost var outcomes := AskedOutcomes(c, lectures);
    ghost var spec := Classification(c, lectures);
    ClassificationStart(c, lectures);
    if c.llmClient.Some? {
      var replies := c.llmClient.value;
      while attempts <= c.maxRetries
        invariant 0 <= attempts <= |outcomes|
        invariant ClassifyFrom(outcomes[attempts..], attempts + 1, warnings, fallback) == spec
        decreases |outcomes| - attempts
      {
        attempts := attempts + 1;
        var outcome := TryReply(replies, attempts - 1, lectures);
        AttemptStep(outcomes, attempts - 1, warnings, fallback, outcome);
        match outcome {
          case Success(parts) =>
            return ClassificationResult(parts, false, warnings);
          case Failure(e) =>
            ghost var before := warnings;
            if e.InvalidParts? {
              warnings := warnings + e.errors;
            }
            warnings := warnings + [FailureWarning(attempts, ErrorText(e))];
            assert warnings == (before + (if e.InvalidParts? then e.errors else [])) + [FailureWarning(attempts, ErrorText(e))];
        }
      }
    }
    var parts := FallbackSplitParts(lectures);
    warnings := warnings + [FallbackWarning];
    return ClassificationResult(parts, true, warnings);
  }

  lemma ClassificationStart(c: PartClassifier, lectures: seq<Lecture>)
    requires EnoughReplies(c) && lectures != []
    ensures ClassifyFrom(AskedOutcomes(c, lectures)[0..], 1, [], FallbackParts(lectures)) == Classification(c, lectures)
  {
    assert AskedOutcomes(c, lectures)[0..] == AskedOutcomes(c, lectures);
  }

  /** One attempt of the loop, as the specification sees it. */
  lemma AttemptStep(outcomes: seq<Result<seq<Part>, AttemptError>>, k: nat,
                    warnings: seq<string>, fallback: seq<Part>, outcome: Result<seq<Part>, AttemptError>)
    requires k < |outcomes| && outcomes[k] == outcome
    ensures outcome.Success? ==>
      ClassifyFrom(outcomes[k..], k + 1, warnings, fallback) == ClassificationResult(outcome.value, false, warnings)
    ensures outcome.Failure? ==>
      ClassifyFrom(outcomes[k..], k + 1, warnings, fallback) ==
      ClassifyFrom(outcomes[k + 1..], k + 2,
        (warnings + (if outcome.error.InvalidParts? then outcome.error.errors else [])) +
        [FailureWarning(k + 1, ErrorText(outcome.error))], fallback)
  {
    assert outcomes[k..][1..] == outcomes[k + 1..];
    if outcome.Failure? {
      var e := outcome.error;
      assert warnings + AttemptWarnings(e, k + 1) ==
        (warnings + (if e.InvalidParts? then e.errors else [])) + [FailureWarning(k + 1, ErrorText(e))];
    }
  }

  /** The remaining attempts only ever add warnings; the fallback comes
      after at least one warning per failed attempt and ends with the
      fallback warning. */
  lemma {:induction false} ClassifyFromWarnings(outcomes: seq<Result<seq<Part>, AttemptError>>, attempt: nat,
                                                warnings: seq<string>, fallback: seq<Part>)
    ensures var r := ClassifyFrom(outcomes, attempt, warnings, fallback);
      && |r.warnings| >= |warnings| && r.warnings[..|warnings|] == warnings
      && (r.fallbackUsed ==>
            && r.parts == fallback
            && |r.warnings| >= |warnings| + |outcomes| + 1
            && r.warnings[|r.warnings| - 1] == FallbackWarning)
    decreases |outcomes|
  {
    if outcomes != [] && outcomes[0].Failure? {
      var w := warnings + AttemptWarnings(outcomes[0].error, attempt);
      ClassifyFromWarnings(outcomes[1..], attempt + 1, w, fallback);
      var r := ClassifyFrom(outcomes[1..], attempt + 1, w, fallback);
      assert r.warnings[..|warnings|] == r.warnings[..|w|][..|warnings|];
    }
  }

  /** The first accepted outcome wins; the fallback is used exactly when
      every outcome is a failure. */
  lemma {:induction false} ClassifyFromChoice(outcomes: seq<Result<seq<Part>, AttemptError>>, attempt: nat,
                                              warnings: seq<string>, fallback: seq<Part>)
    ensures var r := ClassifyFrom(outcomes, attempt, warnings, fallback);
      && (r.fallbackUsed <==> forall i :: 0 <= i < |outcomes| ==> outcomes[i].Failure?)
      && (!r.fallbackUsed ==>
            exists i :: 0 <= i < |outcomes| && outcomes[i] == Success(r.parts) &&
              forall j :: 0 <= j < i ==> outcomes[j].Failure?)
    decreases |outcomes|
  {
    if outcomes != [] && outcomes[0].Failure? {
      var w := warnings + AttemptWarnings(outcomes[0].error, attempt);
      var rest := outcomes[1..];
      ClassifyFromChoice(rest, attempt + 1, w, fallback);
      var r := ClassifyFrom(rest, attempt + 1, w, fallback);
      assert forall i :: 1 <= i < |outcomes| ==> outcomes[i] == rest[i - 1];
      if !r.fallbackUsed {
        var i :| 0 <= i < |rest| && rest[i] == Success(r.parts) && forall j :: 0 <= j < i ==> rest[j].Failure?;
        assert outcomes[i + 1] == Success(r.parts);
      }
    }
  }

  /** `classify([])` makes no parts, uses no fallback and warns of nothing;
      with no client it applies the fallback split and warns exactly once. */
  lemma ClassifyWithoutInputOrClient(c: PartClassifier, lectures: seq<Lecture>)
    requires EnoughReplies(c)
    ensures lectures == [] ==> Classification(c, lectures) == ClassificationResult([], false, [])
    ensures lectures != [] && c.llmClient.None? ==>
      Classification(c, lectures) == ClassificationResult(FallbackParts(lectures), true, [FallbackWarning])
  {
    if lectures != [] && c.llmClient.None? {
      assert AskedOutcomes(c, lectures) == [];
    }
  }

  lemma AskedOutcomesIndex(c: PartClassifier, lectures: seq<Lecture>)
    requires EnoughReplies(c) && c.llmClient.Some?
    ensures forall i :: 0 <= i < Budget(c) ==> AskedOutcomes(c, lectures)[i] == Attempt(c.llmClient.value[i], lectures)
  {
    OutcomesIndex(c.llmClient.value, lectures);
  }

  /** With a client, the fallback is used exactly when all `max_retries + 1`
      replies fail. */
  lemma ClassificationFallbackIff(c: PartClassifier, lectures: seq<Lecture>)
    requires EnoughReplies(c) && lectures != [] && c.llmClient.Some?
    ensures Classification(c, lectures).fallbackUsed <==>
      forall i :: 0 <= i < Budget(c) ==> Attempt(c.llmClient.value[i], lectures).Failure?
  {
    ClassifyFromChoice(AskedOutcomes(c, lectures), 1, [], FallbackParts(lectures));
    AskedOutcomesIndex(c, lectures);
  }

  /** When the fallback is used, its split follows one warning or more per
      failed attempt and ends with the fallback warning. */
  lemma ClassificationFallbackShape(c: PartClassifier, lectures: seq<Lecture>)
    requires EnoughReplies(c) && lectures != [] && c.llmClient.Some?
    ensures var r := Classification(c, lectures);
      r.fallbackUsed ==>
        && r.parts == FallbackParts(lectures)
        && |r.warnings| >= Budget(c) + 1
        && r.warnings[|r.warnings| - 1] == FallbackWarning
  {
    var outcomes := AskedOutcomes(c, lectures);
    var fallback := FallbackParts(lectures);
    assert Classification(c, lectures) == ClassifyFrom(outcomes, 1, [], fallback);
    ClassifyFromWarnings(outcomes, 1, [], fallback);
  }

  /** Otherwise the result is the first reply that passes validation. */
  lemma ClassificationFirstSuccess(c: PartClassifier, lectures: seq<Lecture>)
    requires EnoughReplies(c) && lectures != [] && c.llmClient.Some?
    ensures var r := Classification(c, lectures); var replies := c.llmClient.value;
      !r.fallbackUsed ==>
        && PartProblems(r.parts, lectures) == []
        && exists i :: 0 <= i < Budget(c) && Attempt(replies[i], lectures) == Success(r.parts) &&
             forall j :: 0 <= j < i ==> Attempt(replies[j], lectures).Failure?
  {
    var outcomes := AskedOutcomes(c, lectures);
    var fallback := FallbackParts(lectures);
    var r := ClassifyFrom(outcomes, 1, [], fallback);
    assert Classification(c, lectures) == r;
    ClassifyFromChoice(outcomes, 1, [], fallback);
    if !r.fallbackUsed {
      var i :| 0 <= i < |outcomes| && outcomes[i] == Success(r.parts) &&
        forall j :: 0 <= j < i ==> outcomes[j].Failure?;
      FirstSuccessAttempt(c, lectures, i, r.parts);
    }
  }

  lemma FirstSuccessAttempt(c: PartClassifier, lectures: seq<Lecture>, i: nat, parts: seq<Part>)
    requires EnoughReplies(c) && c.llmClient.Some? && i < Budget(c)
    requires AskedOutcomes(c, lectures)[i] == Success(parts)
    requires forall j :: 0 <= j < i ==> AskedOutcomes(c, lectures)[j].Failure?
    ensures PartProblems(parts, lectures) == []
    ensures Attempt(c.llmClient.value[i], lectures) == Success(parts)
    ensures forall j :: 0 <= j < i ==> Attempt(c.llmClient.value[j], lectures).Failure?
  {
    AskedOutcomesIndex(c, lectures);
  }

  /** When the lecture ids are distinct, whatever the client says, the
      classification passes `_validate_parts`. */
  lemma ClassificationValidates(c: PartClassifier, lectures: seq<Lecture>)
    requires EnoughReplies(c) && Distinct(LectureIds(lectures))
    ensures PartProblems(Classification(c, lectures).parts, lectures) == []
  {
    if lectures == [] {
      assert PerPartProblems([], KnownIds(lectures)) == [];
      ValidatePartsEmptyIff([], lectures);
    } else {
      var outcomes := AskedOutcomes(c, lectures);
      ClassifyFromWarnings(outcomes, 1, [], FallbackParts(lectures));
      ClassifyFromChoice(outcomes, 1, [], FallbackParts(lectures));
      FallbackValidates(lectures);
      var r := Classification(c, lectures);
      if !r.fallbackUsed {
        var i :| 0 <= i < |outcomes| && outcomes[i] == Success(r.parts);
        OutcomesIndex(c.llmClient.value, lectures);
        assert outcomes[i] == Outcomes(c.llmClient.value, lectures)[i];
        assert Attempt(c.llmClient.value[i], lectures) == Success(r.parts);
      }
    }
  }
}
