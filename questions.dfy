/** Placeholder question generation (src/quizen/questions.py). */
module Questions {
  import opened Wrappers
  import opened Text
  import opened Models
  import opened Distribution

  /** `QuestionGenerationOptions`. */
  datatype GenerationOptions = GenerationOptions(
    difficulty: int,
    totalQuestions: int,
    includeMcq: bool,
    includeOx: bool)

  /** The dataclass defaults. */
  const DefaultOptions: GenerationOptions := GenerationOptions(3, 10, true, true)

  /** `QuestionGenerationOptions.validate`: the first rule broken, if any. */
  function ValidateOptions(o: GenerationOptions): (r: Outcome<string>)
    ensures r == Pass <==> 1 <= o.difficulty <= 5 && o.totalQuestions > 0 && (o.includeMcq || o.includeOx)
    ensures !(1 <= o.difficulty <= 5) ==> r == Fail("difficulty must be 1~5")
  {
    if o.difficulty !in {1, 2, 3, 4, 5} then Fail("difficulty must be 1~5")
    else if o.totalQuestions <= 0 then Fail("total_questions must be positive")
    else if !(o.includeMcq || o.includeOx) then Fail("At least one question type must be enabled")
    else Pass
  }

  /** `_pick_question_type`: with both types allowed, even-numbered parts get
      MCQ and odd-numbered parts OX; otherwise the allowed type (OX when
      MCQ is not allowed). */
  function PickQuestionType(partIndex: nat, allowMcq: bool, allowOx: bool): (t: int)
    ensures t == MCQ || t == OX
    ensures t == MCQ <==> allowMcq && (!allowOx || partIndex % 2 == 0)
  {
    if allowMcq && allowOx then (if partIndex % 2 == 0 then MCQ else OX)
    else if allowMcq then MCQ
    else OX
  }

  /** `_build_mcq_options`: four choices naming the part and the counter. */
  function McqOptions(partName: string, idx: nat): (choices: seq<string>)
    ensures |choices| == 4
    ensures forall k :: 0 <= k < 4 ==> StartsWith(choices[k], partName + " ")
  {
    var n := NatToString(idx);
    [partName + " 핵심 개념 " + n + " 요약",
     partName + " 사례 " + n,
     partName + " 정의 " + n,
     partName + " 오해 " + n]
  }

  /** `s` contains `m` wherever it is placed. */
  lemma ContainsInfix(a: string, m: string, b: string)
    ensures Contains(a + m + b, m)
  {
    var s := a + m + b;
    assert s[|a|..][..|m|] == m;
    ContainsSuffix(s, m, |a|);
  }

  /** Every choice carries the counter, and the four choices differ. */
  lemma McqOptionsCarryCounter(partName: string, idx: nat)
    ensures var choices := McqOptions(partName, idx);
      && (forall k :: 0 <= k < 4 ==> Contains(choices[k], NatToString(idx)))
      && (forall i, j :: 0 <= i < j < 4 ==> choices[i] != choices[j])
  {
    var n := NatToString(idx);
    var choices := McqOptions(partName, idx);
    ContainsInfix(partName + " 핵심 개념 ", n, " 요약");
    ContainsInfix(partName + " 사례 ", n, "");
    ContainsInfix(partName + " 정의 ", n, "");
    ContainsInfix(partName + " 오해 ", n, "");
    assert partName + " 사례 " + n + "" == choices[1];
    assert partName + " 정의 " + n + "" == choices[2];
    assert partName + " 오해 " + n + "" == choices[3];
    var at := |partName| + 1;
    assert choices[0][at] == '핵' && choices[1][at] == '사' && choices[2][at] == '정' && choices[3][at] == '오';
  }

  function StubText(partName: string, counter: nat): string {
    partName + "의 핵심 내용을 이해했나요? (Q" + NatToString(counter) + ")"
  }

  function StubExplanation(partName: string): string {
    partName + " 요약을 기반으로 한 확인 질문입니다."
  }

  /** The placeholder question numbered `counter` for the part at `partIndex`. */
  function StubQuestion(partName: string, partIndex: nat, counter: nat, o: GenerationOptions): (q: Question)
    ensures q.partName == partName && q.answerCode == 1 && q.difficultyCode == o.difficulty
    ensures q.questionText == StubText(partName, counter)
    ensures q.questionTypeCode == PickQuestionType(partIndex, o.includeMcq, o.includeOx)
    ensures q.explanationText == StubExplanation(partName)
    ensures q.options == (if q.questionTypeCode == MCQ then McqOptions(partName, counter) else [])
    ensures q.validityScore == None && q.styleViolationFlags == []
    ensures 1 <= o.difficulty <= 5 ==> WellFormed(q)
  {
    var t := PickQuestionType(partIndex, o.includeMcq, o.includeOx);
    Question(o.difficulty, t, StubText(partName, counter), StubExplanation(partName), 1,
             if t == MCQ then McqOptions(partName, counter) else [], partName, None, [])
  }

  /** `dict.get(key, 0)`. */
  function Planned(plan: map<string, int>, name: string): int {
    if name in plan then plan[name] else 0
  }

  /** Which part a generated question belongs to: its name and its position. */
  datatype Slot = Slot(partName: string, partIndex: nat)

  function Repeat(x: Slot, count: int): (r: seq<Slot>)
    ensures |r| == if count < 0 then 0 else count
    ensures forall j :: 0 <= j < |r| ==> r[j] == x
  {
    seq(if count < 0 then 0 else count, _ => x)
  }

  /** The slots the loops of `generate_stub_questions` fill, in order: part
      `k` of `names` repeated as often as planned for it. */
  function Slots(names: seq<string>, plan: map<string, int>): seq<Slot>
    decreases |names|
  {
    if names == [] then []
    else
      var k := |names| - 1;
      Slots(names[..k], plan) + Repeat(Slot(names[k], k), Planned(plan, names[k]))
  }

  /** The questions for `slots`: question `i` belongs to slot `i` and is numbered `i + 1`. */
  function StubsOf(slots: seq<Slot>, o: GenerationOptions): (qs: seq<Question>)
    ensures |qs| == |slots|
  {
    seq(|slots|, i requires 0 <= i < |slots| => StubQuestion(slots[i].partName, slots[i].partIndex, i + 1, o))
  }

  /** Question `i` names the part of slot `i`, is numbered `i + 1` in its
      text, has the type picked for the slot's part index, and is well
      formed whenever the difficulty is valid. */
  lemma StubsOfSpec(slots: seq<Slot>, o: GenerationOptions)
    ensures var qs := StubsOf(slots, o);
      && (forall i :: 0 <= i < |qs| ==>
        && qs[i].partName == slots[i].partName
        && qs[i].questionText == StubText(slots[i].partName, i + 1)
        && qs[i].questionTypeCode == PickQuestionType(slots[i].partIndex, o.includeMcq, o.includeOx))
      && (1 <= o.difficulty <= 5 ==> forall i :: 0 <= i < |qs| ==> WellFormed(qs[i]))
  {
    var qs := StubsOf(slots, o);
    forall i | 0 <= i < |qs|
      ensures qs[i] == StubQuestion(slots[i].partName, slots[i].partIndex, i + 1, o)
    {
    }
  }

  lemma StubsOfSnoc(slots: seq<Slot>, x: Slot, o: GenerationOptions)
    ensures StubsOf(slots + [x], o) == StubsOf(slots, o) + [StubQuestion(x.partName, x.partIndex, |slots| + 1, o)]
  {
    var a := StubsOf(slots + [x], o);
    var b := StubsOf(slots, o) + [StubQuestion(x.partName, x.partIndex, |slots| + 1, o)];
    assert forall i :: 0 <= i < |a| ==> a[i] == b[i] by {
      forall i | 0 <= i < |a| ensures a[i] == b[i] {
        if i < |slots| {
          assert (slots + [x])[i] == slots[i];
        }
      }
    }
  }

  function SummaryNames(summaries: seq<PartSummary>): (names: seq<string>)
    ensures |names| == |summaries|
  {
    seq(|summaries|, i requires 0 <= i < |summaries| => summaries[i].partName)
  }

  /** `generate_stub_questions`: an error for invalid options, nothing for no
      summaries, and otherwise one placeholder per slot of the distribution
      of `totalQuestions` over the summaries' parts. */
  method GenerateStubQuestions(summaries: seq<PartSummary>, o: GenerationOptions)
    returns (r: Result<seq<Question>, string>)
    ensures ValidateOptions(o).Fail? ==> r == Failure(ValidateOptions(o).error)
    ensures ValidateOptions(o) == Pass ==>
      r == Success(StubsOf(Slots(SummaryNames(summaries), Allocation(o.totalQuestions, SummaryNames(summaries))), o))
  {
    var check := ValidateOptions(o);
    if check.Fail? {
      return Failure(check.error);
    }
    if summaries == [] {
      return Success([]);
    }
    var names := SummaryNames(summaries);
    var plan := MinimumDistribution(o.totalQuestions, names);
    var questions: seq<Question> := [];
    ghost var slots: seq<Slot> := [];
    var counter := 1;
    for partIdx := 0 to |names|
      invariant slots == Slots(names[..partIdx], plan)
      invariant questions == StubsOf(slots, o)
      invariant counter == |slots| + 1
    {
      var partName := names[partIdx];
      var planned := Planned(plan, partName);
      questions, counter, slots := AppendPartStubs(questions, counter, slots, partName, partIdx, planned, o);
      assert names[..partIdx + 1][..partIdx] == names[..partIdx];
      assert names[..partIdx + 1][partIdx] == partName;
    }
    assert names[..|names|] == names;
    return Success(questions);
  }

  /** The inner loop of `generate_stub_questions`: `planned` placeholders
      for the part at `partIdx`, numbered on from `counter`. */
  method AppendPartStubs(questions0: seq<Question>, counter0: nat, ghost slots0: seq<Slot>,
                         partName: string, partIdx: nat, planned: int, o: GenerationOptions)
    returns (questions: seq<Question>, counter: nat, ghost slots: seq<Slot>)
    requires questions0 == StubsOf(slots0, o) && counter0 == |slots0| + 1
    ensures slots == slots0 + Repeat(Slot(partName, partIdx), planned)
    ensures questions == StubsOf(slots, o) && counter == |slots| + 1
  {
    questions, counter, slots := questions0, counter0, slots0;
    var j := 0;
    while j < planned
      invariant 0 <= j <= (if planned < 0 then 0 else planned)
      invariant slots == slots0 + Repeat(Slot(partName, partIdx), j)
      invariant questions == StubsOf(slots, o)
      invariant counter == |slots| + 1
    {
      var qType := PickQuestionType(partIdx, o.includeMcq, o.includeOx);
      var choices: seq<string>;
      var answerCode: int;
      if qType == MCQ {
        choices := McqOptions(partName, counter);
        answerCode := 1;
      } else {
        choices := [];
        answerCode := 1;
      }
      var q := Question(o.difficulty, qType, StubText(partName, counter), StubExplanation(partName),
                        answerCode, choices, partName, None, []);
      assert q == StubQuestion(partName, partIdx, |slots| + 1, o);
      StubsOfSnoc(slots, Slot(partName, partIdx), o);
      assert Repeat(Slot(partName, partIdx), j + 1) == Repeat(Slot(partName, partIdx), j) + [Slot(partName, partIdx)];
      questions := questions + [q];
      slots := slots + [Slot(partName, partIdx)];
      counter := counter + 1;
      j := j + 1;
    }
    assert Repeat(Slot(partName, partIdx), j) == Repeat(Slot(partName, partIdx), planned);
  }

  function SumPlanned(names: seq<string>, plan: map<string, int>): int
    decreases |names|
  {
    if names == [] then 0
    else SumPlanned(names[..|names| - 1], plan) + (var p := Planned(plan, names[|names| - 1]); if p < 0 then 0 else p)
  }

  lemma {:induction false} SlotsLength(names: seq<string>, plan: map<string, int>)
    ensures |Slots(names, plan)| == SumPlanned(names, plan)
    decreases |names|
  {
    if names != [] {
      SlotsLength(names[..|names| - 1], plan);
    }
  }

  /** Slots come in part order, each naming the part at its index. */
  lemma {:induction false} SlotsInPartOrder(names: seq<string>, plan: map<string, int>)
    ensures forall i :: 0 <= i < |Slots(names, plan)| ==>
      Slots(names, plan)[i].partIndex < |names| && names[Slots(names, plan)[i].partIndex] == Slots(names, plan)[i].partName
    ensures forall i, j :: 0 <= i < j < |Slots(names, plan)| ==> Slots(names, plan)[i].partIndex <= Slots(names, plan)[j].partIndex
    decreases |names|
  {
    if names != [] {
      var k := |names| - 1;
      var init := names[..k];
      SlotsInPartOrder(init, plan);
      var a := Slots(init, plan);
      var s := Slots(names, plan);
      assert forall i :: 0 <= i < |a| ==> s[i] == a[i];
      assert forall i :: |a| <= i < |s| ==> s[i] == Slot(names[k], k);
    }
  }

  lemma {:induction false} SumPlannedIsSumOver(names: seq<string>, plan: map<string, int>)
    requires Covers(plan, names) && forall n :: n in names ==> plan[n] >= 0
    ensures SumPlanned(names, plan) == SumOver(names, plan)
    decreases |names|
  {
    if names != [] {
      var init := names[..|names| - 1];
      assert forall n :: n in init ==> n in names;
      SumPlannedIsSumOver(init, plan);
    }
  }

  /** With distinct part names exactly `totalQuestions` questions are produced. */
  lemma StubCount(names: seq<string>, o: GenerationOptions)
    requires o.totalQuestions > 0 && names != [] && Distinct(names)
    ensures |Slots(names, Allocation(o.totalQuestions, names))| == o.totalQuestions
  {
    var plan := Allocation(o.totalQuestions, names);
    AllocationSum(o.totalQuestions, names);
    AllocationKeys(o.totalQuestions, names);
    SlotsLength(names, plan);
    SumPlannedIsSumOver(names, plan);
  }

  /** How many of `slots` belong to part `n`. */
  function SlotCount(slots: seq<Slot>, n: string): nat
    decreases |slots|
  {
    if slots == [] then 0
    else SlotCount(slots[..|slots| - 1], n) + (if slots[|slots| - 1].partName == n then 1 else 0)
  }

  lemma {:induction false} SlotCountAppendRepeat(slots: seq<Slot>, x: Slot, count: nat, n: string)
    ensures SlotCount(slots + Repeat(x, count), n) == SlotCount(slots, n) + (if x.partName == n then count else 0)
    decreases count
  {
    if count == 0 {
      assert slots + Repeat(x, count) == slots;
    } else {
      var shorter := slots + Repeat(x, count - 1);
      assert (slots + Repeat(x, count))[..|slots| + count - 1] == shorter;
      SlotCountAppendRepeat(slots, x, count - 1, n);
    }
  }

  lemma {:induction false} SlotCountAbsent(names: seq<string>, plan: map<string, int>, n: string)
    requires n !in names
    ensures SlotCount(Slots(names, plan), n) == 0
    decreases |names|
  {
    if names != [] {
      var k := |names| - 1;
      var p := Planned(plan, names[k]);
      SlotCountAbsent(names[..k], plan, n);
      SlotCountAppendRepeat(Slots(names[..k], plan), Slot(names[k], k), if p < 0 then 0 else p, n);
      assert Repeat(Slot(names[k], k), p) == Repeat(Slot(names[k], k), if p < 0 then 0 else p);
    }
  }

  /** With distinct names each part receives exactly its planned number of
      questions (so every part with a positive plan is covered). */
  lemma {:induction false} SlotsPerPart(names: seq<string>, plan: map<string, int>, n: string)
    requires Distinct(names) && n in names && n in plan && plan[n] >= 0
    ensures SlotCount(Slots(names, plan), n) == plan[n]
    decreases |names|
  {
    var k := |names| - 1;
    var init := names[..k];
    var p := Planned(plan, names[k]);
    SlotCountAppendRepeat(Slots(init, plan), Slot(names[k], k), if p < 0 then 0 else p, n);
    assert Repeat(Slot(names[k], k), p) == Repeat(Slot(names[k], k), if p < 0 then 0 else p);
    if names[k] == n {
      assert n !in init;
      SlotCountAbsent(init, plan, n);
    } else {
      assert n in init;
      SlotsPerPart(init, plan, n);
    }
  }
}
