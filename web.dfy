/** The pure helpers behind the review pages (src/quizen/web.py): the run
    state shown for an event log, the question filter, and the question
    edit with its payload. */
module Web {
  import opened Wrappers
  import opened Text
  import opened Models
  import opened Validation
  import Pipeline
  import Seqs

  type Event = Pipeline.Event
  type Value = Pipeline.Value

  /** `PIPELINE_STAGES`: the events that mark progress, in order. */
  const PipelineStages: seq<string> := [
    "run_started", "part_classification_completed", "part_summary_completed",
    "question_generation_completed", "export_ready"]

  /** `a` is `b` with some elements left out, the rest in their order. */
  predicate IsSubsequence<T(==)>(a: seq<T>, b: seq<T>)
    decreases |b|
  {
    if b == [] then a == []
    else
      || (a != [] && a[|a| - 1] == b[|b| - 1] && IsSubsequence(a[..|a| - 1], b[..|b| - 1]))
      || IsSubsequence(a, b[..|b| - 1])
  }

  /** Growing both at the end, keeping or dropping the new element, keeps
      the one a subsequence of the other. */
  lemma SubsequenceSnoc<T>(a: seq<T>, b: seq<T>, x: T, keep: bool)
    requires IsSubsequence(a, b)
    ensures IsSubsequence(a + (if keep then [x] else []), b + [x])
  {
    var b' := b + [x];
    assert b'[..|b'| - 1] == b && b'[|b'| - 1] == x;
    if keep {
      var a' := a + [x];
      assert a'[..|a'| - 1] == a && a'[|a'| - 1] == x;
    } else {
      assert a + [] == a;
    }
  }

  // ---------------------------------------------------------------------
  // `_build_state`

  /** `xs.index(x)` when `x` occurs, `|xs|` otherwise. */
  function Position(xs: seq<string>, x: string): (i: nat)
    ensures i <= |xs|
    ensures i < |xs| ==> xs[i] == x
    ensures forall j :: 0 <= j < i ==> xs[j] != x
    decreases |xs|
  {
    if xs == [] then 0 else if xs[0] == x then 0 else 1 + Position(xs[1..], x)
  }

  /** The 1-based stage an event marks, 0 for an event without a recognised
      name (no "event" key, a value that is not a string, an unknown name). */
  function EventStage(e: Event): (k: nat)
    ensures k <= |PipelineStages|
    ensures k > 0 ==> "event" in e && e["event"] == Pipeline.VStr(PipelineStages[k - 1])
  {
    if "event" in e && e["event"].VStr? then
      var i := Position(PipelineStages, e["event"].s);
      if i < |PipelineStages| then i + 1 else 0
    else 0
  }

  function Max(a: nat, b: nat): nat {
    if a < b then b else a
  }

  /** `max(0, ...)` over a list of stages. */
  function MaxStage(stages: seq<nat>): nat
    decreases |stages|
  {
    if stages == [] then 0 else Max(MaxStage(stages[..|stages| - 1]), stages[|stages| - 1])
  }

  /** The greatest stage any event marks; `progress` is this over 5. */
  function StageReached(events: seq<Event>): nat {
    MaxStage(Seqs.MapSeq(EventStage, events))
  }

  datatype RunStatus = Pending | Running | Completed

  /** The text the state dictionary carries for a status. */
  function StatusText(status: RunStatus): string {
    match status
    case Pending => "pending"
    case Running => "running"
    case Completed => "completed"
  }

  /** `status`: completed once the last stage is reached, otherwise running
      when there is any event and pending when there is none. */
  function Status(stage: nat, events: seq<Event>): RunStatus {
    if stage >= |PipelineStages| then Completed
    else if events != [] then Running
    else Pending
  }

  /** Python truthiness of a JSON value. */
  predicate Truthy(v: Value) {
    match v
    case VNull => false
    case VInt(i) => i != 0
    case VStr(s) => s != ""
    case VList(items) => items != []
  }

  /** `[w for w in items if w]`. */
  function KeepTruthy(items: seq<Value>): seq<Value>
    decreases |items|
  {
    if items == [] then []
    else KeepTruthy(items[..|items| - 1]) + (if Truthy(items[|items| - 1]) then [items[|items| - 1]] else [])
  }

  /** The one-character strings iterating a string yields. */
  function Characters(s: string): (cs: seq<Value>)
    ensures |cs| == |s|
    ensures forall i :: 0 <= i < |s| ==> cs[i] == Pipeline.VStr([s[i]])
  {
    seq(|s|, i requires 0 <= i < |s| => Pipeline.VStr([s[i]]))
  }

  const NotIterable: string := "TypeError: 'int' object is not iterable"

  /** The warnings one event contributes: `event.get("warnings") or []`,
      iterated and filtered for truthy entries. A list gives its entries, a
      string its characters; a non-zero number cannot be iterated and raises. */
  function EventWarnings(e: Event): Result<seq<Value>, string> {
    var v := if "warnings" in e then e["warnings"] else Pipeline.VNull;
    if !Truthy(v) then Success([])
    else match v
      case VList(items) => Success(KeepTruthy(items))
      case VStr(s) => Success(KeepTruthy(Characters(s)))
      case VInt(_) => Failure(NotIterable)
      case VNull => Success([])
  }

  /** The warnings of every event, in event order; the first event whose
      warnings cannot be iterated raises. */
  function AllWarnings(events: seq<Event>): Result<seq<Value>, string>
    decreases |events|
  {
    if events == [] then Success([])
    else match EventWarnings(events[0])
      case Failure(m) => Failure(m)
      case Success(ws) => Prepend(ws, AllWarnings(events[1..]))
  }

  function Prepend(ws: seq<Value>, r: Result<seq<Value>, string>): Result<seq<Value>, string> {
    match r
    case Success(rest) => Success(ws + rest)
    case Failure(m) => Failure(m)
  }

  /** The state dictionary; `progress` is `stagesReached / 5`. */
  datatype RunState = RunState(stagesReached: nat, status: RunStatus, warnings: seq<Value>)

  function Progress(state: RunState): real {
    state.stagesReached as real / |PipelineStages| as real
  }

  /** What `_build_state` returns for an event log, or the error it raises. */
  function StateOf(events: seq<Event>): Result<RunState, string> {
    var stage := StageReached(events);
    match AllWarnings(events)
    case Failure(m) => Failure(m)
    case Success(ws) => Success(RunState(stage, Status(stage, events), ws))
  }

  /** `_build_state`: one pass for the progress, then one for the warnings. */
  method BuildState(events: seq<Event>) returns (r: Result<RunState, string>)
    ensures r == StateOf(events)
  {
    var stage := StageOfEvents(events);
    var status := Pending;
    if stage >= |PipelineStages| {
      status := Completed;
    } else if events != [] {
      status := Running;
    }
    var warnings := CollectWarnings(events);
    if warnings.Failure? {
      return Failure(warnings.error);
    }
    r := Success(RunState(stage, status, warnings.value));
  }

  /** The progress loop of `_build_state`: the greatest stage seen so far. */
  method StageOfEvents(events: seq<Event>) returns (stage: nat)
    ensures stage == StageReached(events)
  {
    stage := 0;
    for i := 0 to |events|
      invariant stage == StageReached(events[..i])
    {
      ProgressStep(events, i);
      stage := Max(stage, EventStage(events[i]));
    }
    assert events[..|events|] == events;
  }

  /** The warnings loop of `_build_state`: each event's warnings extend the
      list, until one cannot be iterated. */
  method CollectWarnings(events: seq<Event>) returns (r: Result<seq<Value>, string>)
    ensures r == AllWarnings(events)
  {
    var warnings: seq<Value> := [];
    assert events[0..] == events;
    PrependEmpty(AllWarnings(events));
    for i := 0 to |events|
      invariant AllWarnings(events) == Prepend(warnings, AllWarnings(events[i..]))
    {
      var eventWarnings := EventWarnings(events[i]);
      WarningsStep(events, i, warnings);
      if eventWarnings.Failure? {
        return Failure(eventWarnings.error);
      }
      warnings := warnings + eventWarnings.value;
    }
    assert events[|events|..] == [];
    assert warnings + [] == warnings;
    r := Success(warnings);
  }

  lemma PrependEmpty(r: Result<seq<Value>, string>)
    ensures Prepend([], r) == r
  {
    if r.Success? {
      assert [] + r.value == r.value;
    }
  }

  /** One event of the warnings pass: its warnings are appended, or its
      failure is the failure of the whole pass. */
  lemma WarningsStep(events: seq<Event>, i: nat, warnings: seq<Value>)
    requires i < |events|
    ensures EventWarnings(events[i]).Failure? ==>
      Prepend(warnings, AllWarnings(events[i..])) == Failure(EventWarnings(events[i]).error)
    ensures EventWarnings(events[i]).Success? ==>
      Prepend(warnings, AllWarnings(events[i..])) ==
      Prepend(warnings + EventWarnings(events[i]).value, AllWarnings(events[i + 1..]))
  {
    var rest := events[i..];
    assert rest[0] == events[i] && rest[1..] == events[i + 1..];
    var r := AllWarnings(events[i + 1..]);
    if EventWarnings(events[i]).Success? && r.Success? {
      var ws := EventWarnings(events[i]).value;
      assert warnings + (ws + r.value) == (warnings + ws) + r.value;
    }
  }

  lemma ProgressStep(events: seq<Event>, i: nat)
    requires i < |events|
    ensures StageReached(events[..i + 1]) == Max(StageReached(events[..i]), EventStage(events[i]))
  {
    assert events[..i + 1][..i] == events[..i];
    var stages := Seqs.MapSeq(EventStage, events[..i + 1]);
    assert stages == Seqs.MapSeq(EventStage, events[..i]) + [EventStage(events[i])];
    assert stages[..|stages| - 1] == Seqs.MapSeq(EventStage, events[..i]);
  }

  /** The greatest of a list of stages: none exceeds it, and unless it is 0
      it is one of them. */
  lemma {:induction false} MaxStageIsMaximum(stages: seq<nat>)
    ensures forall i :: 0 <= i < |stages| ==> stages[i] <= MaxStage(stages)
    ensures MaxStage(stages) > 0 ==> exists i :: 0 <= i < |stages| && stages[i] == MaxStage(stages)
    decreases |stages|
  {
    if stages != [] {
      var init := stages[..|stages| - 1];
      MaxStageIsMaximum(init);
      assert forall i :: 0 <= i < |init| ==> init[i] == stages[i];
      if MaxStage(init) > 0 && MaxStage(init) >= stages[|stages| - 1] {
        var i :| 0 <= i < |init| && init[i] == MaxStage(init);
        assert stages[i] == MaxStage(stages);
      }
    }
  }

  /** The stage reached is the greatest one any event marks: none exceeds
      it, and unless it is 0 some event marks it. */
  lemma StageReachedIsMaximum(events: seq<Event>)
    ensures StageReached(events) <= |PipelineStages|
    ensures forall i :: 0 <= i < |events| ==> EventStage(events[i]) <= StageReached(events)
    ensures StageReached(events) > 0 ==>
      exists i :: 0 <= i < |events| && EventStage(events[i]) == StageReached(events)
  {
    var stages := Seqs.MapSeq(EventStage, events);
    Seqs.MapSeqIndex(EventStage, events);
    MaxStageIsMaximum(stages);
  }

  lemma StagesDistinct()
    ensures forall i, j :: 0 <= i < j < |PipelineStages| ==> PipelineStages[i] != PipelineStages[j]
  {
    assert PipelineStages[1][0] != PipelineStages[3][0];
  }

  /** The stage an event marks is its name's one-based position. */
  lemma StagePositions(e: Event, k: nat)
    requires 0 < k <= |PipelineStages|
    ensures EventStage(e) == k <==> "event" in e && e["event"] == Pipeline.VStr(PipelineStages[k - 1])
  {
    if "event" in e && e["event"] == Pipeline.VStr(PipelineStages[k - 1]) {
      var i := Position(PipelineStages, PipelineStages[k - 1]);
      StagesDistinct();
      assert i == k - 1;
    }
  }

  /** The status is completed exactly when some event is "export_ready",
      pending exactly when there is no event, and running otherwise. */
  lemma StatusMeaning(events: seq<Event>)
    ensures Status(StageReached(events), events) == Completed <==>
      exists i :: 0 <= i < |events| && "event" in events[i] && events[i]["event"] == Pipeline.VStr(PipelineStages[4])
    ensures Status(StageReached(events), events) == Pending <==> events == []
  {
    StageReachedIsMaximum(events);
    var k := StageReached(events);
    if k >= |PipelineStages| {
      var i :| 0 <= i < |events| && EventStage(events[i]) == k;
      StagePositions(events[i], 5);
    }
    forall i | 0 <= i < |events| && "event" in events[i] && events[i]["event"] == Pipeline.VStr(PipelineStages[4])
      ensures k == 5
    {
      StagePositions(events[i], 5);
    }
  }

  /** Progress runs from 0 to 1 and is 1 exactly when the status is completed. */
  lemma ProgressMeaning(events: seq<Event>)
    requires StateOf(events).Success?
    ensures var state := StateOf(events).value;
      && 0.0 <= Progress(state) <= 1.0
      && (Progress(state) == 1.0 <==> state.status == Completed)
  {
    StageReachedIsMaximum(events);
  }

  /** Every warning reported is truthy, and each truthy entry of a list is kept. */
  lemma {:induction false} KeepTruthyMembers(items: seq<Value>)
    ensures forall w :: w in KeepTruthy(items) <==> w in items && Truthy(w)
    ensures IsSubsequence(KeepTruthy(items), items)
    decreases |items|
  {
    if items != [] {
      var init := items[..|items| - 1];
      KeepTruthyMembers(init);
      assert items == init + [items[|items| - 1]];
      SubsequenceSnoc(KeepTruthy(init), init, items[|items| - 1], Truthy(items[|items| - 1]));
    }
  }

  /** The warnings are the truthy entries of the events' warnings, and
      reading them fails exactly when some event carries a non-zero number. */
  lemma {:induction false} AllWarningsMeaning(events: seq<Event>)
    ensures AllWarnings(events).Failure? <==>
      exists i :: 0 <= i < |events| && EventWarnings(events[i]).Failure?
    ensures AllWarnings(events).Success? ==> forall w :: w in AllWarnings(events).value ==> Truthy(w)
    decreases |events|
  {
    if events != [] {
      var rest := events[1..];
      AllWarningsMeaning(rest);
      assert forall i :: 0 <= i < |rest| ==> rest[i] == events[i + 1];
      if EventWarnings(events[0]).Success? {
        EventWarningsTruthy(events[0]);
        if AllWarnings(events).Failure? {
          var i :| 0 <= i < |rest| && EventWarnings(rest[i]).Failure?;
          assert EventWarnings(events[i + 1]).Failure?;
        }
        forall i | 0 <= i < |events| && EventWarnings(events[i]).Failure?
          ensures AllWarnings(events).Failure?
        {
          assert i > 0 && EventWarnings(rest[i - 1]).Failure?;
        }
      }
    }
  }

  lemma EventWarningsTruthy(e: Event)
    requires EventWarnings(e).Success?
    ensures forall w :: w in EventWarnings(e).value ==> Truthy(w)
  {
    var v := if "warnings" in e then e["warnings"] else Pipeline.VNull;
    if Truthy(v) {
      match v
      case VList(items) => KeepTruthyMembers(items);
      case VStr(s) => KeepTruthyMembers(Characters(s));
      case VInt(_) =>
      case VNull =>
    }
  }

  /** Only a non-zero number in "warnings" makes an event's warnings fail. */
  lemma EventWarningsFailIff(e: Event)
    ensures EventWarnings(e).Failure? <==> "warnings" in e && e["warnings"].VInt? && e["warnings"].i != 0
  {
  }

  /** An event the pipeline pushes for stage `k` marks stage `k + 1` and
      carries no warnings. */
  lemma PushedEventState(name: string, payload: map<string, Value>, k: nat)
    requires k < |PipelineStages| && name == Pipeline.StageEventNames[k]
    requires "event" !in payload && "warnings" !in payload
    ensures EventStage(Pipeline.EventOf(name, payload)) == k + 1
    ensures EventWarnings(Pipeline.EventOf(name, payload)) == Success([])
  {
    var e := Pipeline.EventOf(name, payload);
    assert e["event"] == Pipeline.VStr(PipelineStages[k]);
    StagePositions(e, k + 1);
    assert "warnings" !in e;
  }

  lemma {:induction false} QuietStages(events: seq<Event>)
    requires forall i :: 0 <= i < |events| ==> EventStage(events[i]) == i + 1
    ensures StageReached(events) == |events|
    decreases |events|
  {
    if events != [] {
      var n := |events|;
      var init := events[..n - 1];
      assert forall i :: 0 <= i < |init| ==> init[i] == events[i];
      QuietStages(init);
      ProgressStep(events, n - 1);
      assert events[..n] == events;
    }
  }

  lemma {:induction false} QuietWarnings(events: seq<Event>)
    requires forall i :: 0 <= i < |events| ==> EventWarnings(events[i]) == Success([])
    ensures AllWarnings(events) == Success([])
    decreases |events|
  {
    if events != [] {
      var rest := events[1..];
      assert forall i :: 0 <= i < |rest| ==> rest[i] == events[i + 1];
      QuietWarnings(rest);
      PrependEmpty(Success([]));
    }
  }

  /** What `_build_state` reports for the event log of any run of the
      pipeline, cut wherever the run stopped: as many stages as events, no
      warnings, "completed" after a full run and "running" for a log cut
      after fewer stages. The page itself never stores such a cut log: a
      run that raises yields no context to save (web.py answers a
      ValueError with status 400 and lets any other exception propagate). */
  lemma RunOutcomeState(runner: Pipeline.PipelineRunner, events: seq<Event>, parts: seq<Part>, summaries: seq<PartSummary>,
      questions: seq<Question>, rows: seq<ExportRow>, failure: Option<string>, generated: seq<Question>)
    requires Pipeline.RunOutcome(runner, events, parts, summaries, questions, rows, failure, generated)
    ensures StateOf(events) == Success(RunState(|events|, if failure.None? then Completed else Running, []))
  {
    RunPrefixState(parts, summaries, questions, rows, |events|);
  }

  /** The first `n` events of a run, as the page shows them. */
  lemma RunPrefixState(parts: seq<Part>, summaries: seq<PartSummary>, questions: seq<Question>, rows: seq<ExportRow>, n: nat)
    requires 1 <= n <= |PipelineStages|
    ensures StateOf(Pipeline.RunEvents(parts, summaries, questions, rows)[..n]) ==
      Success(RunState(n, if n == |PipelineStages| then Completed else Running, []))
  {
    var all := Pipeline.RunEvents(parts, summaries, questions, rows);
    var events := all[..n];
    forall i | 0 <= i < n
      ensures EventStage(events[i]) == i + 1 && EventWarnings(events[i]) == Success([])
    {
      RunEventQuiet(parts, summaries, questions, rows, i);
    }
    QuietStages(events);
    QuietWarnings(events);
  }

  /** Each event of a run marks the stage of its position and carries no warnings. */
  lemma RunEventQuiet(parts: seq<Part>, summaries: seq<PartSummary>, questions: seq<Question>, rows: seq<ExportRow>, i: nat)
    requires i < |PipelineStages|
    ensures EventStage(Pipeline.RunEvents(parts, summaries, questions, rows)[i]) == i + 1
    ensures EventWarnings(Pipeline.RunEvents(parts, summaries, questions, rows)[i]) == Success([])
  {
    var all := Pipeline.RunEvents(parts, summaries, questions, rows);
    var payload: map<string, Value> :=
      if i == 0 then map[]
      else if i == 1 then map["part_count" := Pipeline.VInt(|parts|)]
      else if i == 2 then map["token_estimates" := Pipeline.VList(Seqs.MapSeq(Pipeline.EstimateValue, summaries))]
      else if i == 3 then map["question_count" := Pipeline.VInt(|questions|)]
      else map["row_count" := Pipeline.VInt(|rows|)];
    assert all[i] == Pipeline.EventOf(Pipeline.StageEventNames[i], payload);
    PushedEventState(Pipeline.StageEventNames[i], payload, i);
  }

  // ---------------------------------------------------------------------
  // `_filter_questions`

  /** The filter arguments; an absent, empty or zero value is inactive. */
  datatype QuestionFilter = QuestionFilter(
    partName: Option<string>,
    questionType: Option<int>,
    minScore: Option<real>,
    styleOnly: bool,
    search: Option<string>)

  predicate PartFilterActive(f: QuestionFilter) { f.partName.Some? && f.partName.value != "" }
  predicate TypeFilterActive(f: QuestionFilter) { f.questionType.Some? && f.questionType.value != 0 }
  predicate SearchActive(f: QuestionFilter) { f.search.Some? && f.search.value != "" }

  predicate NoFilter(f: QuestionFilter) {
    !PartFilterActive(f) && !TypeFilterActive(f) && f.minScore.None? && !f.styleOnly && !SearchActive(f)
  }

  /** The text the search looks in: question and explanation, lower-cased. */
  function SearchBlob(q: Question): string {
    Lower(q.questionText + " " + q.explanationText)
  }

  /** A question is kept when it meets every active filter. */
  predicate Passes(f: QuestionFilter, q: Question) {
    && (PartFilterActive(f) ==> q.partName == f.partName.value)
    && (TypeFilterActive(f) ==> q.questionTypeCode == f.questionType.value)
    && (f.minScore.Some? ==> q.validityScore.Some? && q.validityScore.value >= f.minScore.value)
    && (f.styleOnly ==> q.styleViolationFlags != [])
    && (SearchActive(f) ==> Contains(SearchBlob(q), Lower(f.search.value)))
  }

  /** The questions kept, in input order. */
  function Filtered(questions: seq<Question>, f: QuestionFilter): seq<Question>
    decreases |questions|
  {
    if questions == [] then []
    else
      var last := questions[|questions| - 1];
      Filtered(questions[..|questions| - 1], f) + (if Passes(f, last) then [last] else [])
  }

  /** `_filter_questions`: each check skips the question as soon as it fails. */
  method FilterQuestions(questions: seq<Question>, f: QuestionFilter) returns (filtered: seq<Question>)
    ensures filtered == Filtered(questions, f)
  {
    filtered := [];
    for i := 0 to |questions|
      invariant filtered == Filtered(questions[..i], f)
    {
      var q := questions[i];
      assert questions[..i + 1][..i] == questions[..i];
      if f.partName.Some? && f.partName.value != "" && q.partName != f.partName.value {
        continue;
      }
      if f.questionType.Some? && f.questionType.value != 0 && q.questionTypeCode != f.questionType.value {
        continue;
      }
      if f.minScore.Some? {
        if q.validityScore.None? || q.validityScore.value < f.minScore.value {
          continue;
        }
      }
      if f.styleOnly && q.styleViolationFlags == [] {
        continue;
      }
      if f.search.Some? && f.search.value != "" {
        var blob := Lower(q.questionText + " " + q.explanationText);
        if !Contains(blob, Lower(f.search.value)) {
          continue;
        }
      }
      filtered := filtered + [q];
    }
    assert questions[..|questions|] == questions;
  }

  /** Exactly the questions that meet every active filter are kept, in
      their original order. */
  lemma {:induction false} FilteredMembers(questions: seq<Question>, f: QuestionFilter)
    ensures forall q :: q in Filtered(questions, f) <==> q in questions && Passes(f, q)
    ensures IsSubsequence(Filtered(questions, f), questions)
    decreases |questions|
  {
    if questions != [] {
      var init := questions[..|questions| - 1];
      FilteredMembers(init, f);
      assert questions == init + [questions[|questions| - 1]];
      SubsequenceSnoc(Filtered(init, f), init, questions[|questions| - 1], Passes(f, questions[|questions| - 1]));
    }
  }

  /** With no active filter every question is kept. */
  lemma {:induction false} NoFilterKeepsAll(questions: seq<Question>, f: QuestionFilter)
    requires NoFilter(f)
    ensures Filtered(questions, f) == questions
    decreases |questions|
  {
    if questions != [] {
      NoFilterKeepsAll(questions[..|questions| - 1], f);
    }
  }

  /** Filtering what a filter kept keeps all of it. */
  lemma {:induction false} FilterIdempotent(questions: seq<Question>, f: QuestionFilter)
    ensures Filtered(Filtered(questions, f), f) == Filtered(questions, f)
    decreases |questions|
  {
    if questions != [] {
      var init := questions[..|questions| - 1];
      var last := questions[|questions| - 1];
      FilterIdempotent(init, f);
      var kept := Filtered(questions, f);
      if Passes(f, last) {
        assert kept == Filtered(init, f) + [last];
        assert kept[..|kept| - 1] == Filtered(init, f) && kept[|kept| - 1] == last;
        assert Filtered(kept, f) == Filtered(Filtered(init, f), f) + [last];
      } else {
        assert kept == Filtered(init, f) + [];
        assert Filtered(init, f) + [] == Filtered(init, f);
      }
    }
  }

  // ---------------------------------------------------------------------
  // `QuestionEditPayload` and `_apply_question_edit`

  /** A constructed edit payload: each field either absent or the new value. */
  datatype EditPayload = EditPayload(
    questionText: Option<string>,
    explanationText: Option<string>,
    options: Option<seq<string>>,
    answerCode: Option<int>,
    difficultyCode: Option<int>)

  /** `normalize_options`: the entries that are not None, in order. */
  function NormalizeOptions(value: Option<seq<Option<string>>>): (r: Option<seq<string>>)
    ensures r.None? <==> value.None?
  {
    match value
    case None => None
    case Some(entries) => Some(PresentEntries(entries))
  }

  function PresentEntries(entries: seq<Option<string>>): seq<string>
    decreases |entries|
  {
    if entries == [] then []
    else
      var last := entries[|entries| - 1];
      PresentEntries(entries[..|entries| - 1]) + (if last.Some? then [last.value] else [])
  }

  /** The entries kept are exactly the strings present, in order, and a list
      without None entries is kept whole. */
  lemma {:induction false} PresentEntriesMeaning(entries: seq<Option<string>>)
    ensures forall s :: s in PresentEntries(entries) <==> Some(s) in entries
    ensures |PresentEntries(entries)| <= |entries|
    ensures (forall i :: 0 <= i < |entries| ==> entries[i].Some?) ==>
      && |PresentEntries(entries)| == |entries|
      && (forall i :: 0 <= i < |entries| ==> PresentEntries(entries)[i] == entries[i].value)
    decreases |entries|
  {
    if entries != [] {
      var init := entries[..|entries| - 1];
      PresentEntriesMeaning(init);
      assert entries == init + [entries[|entries| - 1]];
      assert forall i :: 0 <= i < |init| ==> init[i] == entries[i];
    }
  }

  /** The constraints on the payload fields: `answer_code` at least 1,
      `difficulty_code` from 1 to 5, and every option a string. */
  function PayloadErrors(answerCode: Option<int>, difficultyCode: Option<int>, options: Option<seq<Option<string>>>): (errors: seq<string>)
    ensures errors == [] <==>
      && (answerCode.Some? ==> answerCode.value >= 1)
      && (difficultyCode.Some? ==> 1 <= difficultyCode.value <= 5)
      && (options.Some? ==> forall i :: 0 <= i < |options.value| ==> options.value[i].Some?)
  {
    var optionErrors :=
      if options.Some? && exists i :: 0 <= i < |options.value| && options.value[i].None?
      then ["options: each entry must be a string"] else [];
    var answerErrors := if answerCode.Some? && answerCode.value < 1 then ["answer_code must be at least 1"] else [];
    var difficultyErrors :=
      if difficultyCode.Some? && !(1 <= difficultyCode.value <= 5) then ["difficulty_code must be between 1 and 5"] else [];
    optionErrors + answerErrors + difficultyErrors
  }

  /** `QuestionEditPayload(...)`: the field checks, then `normalize_options`
      on the options that passed the `List[str]` check. */
  function NewEditPayload(questionText: Option<string>, explanationText: Option<string>, options: Option<seq<Option<string>>>,
      answerCode: Option<int>, difficultyCode: Option<int>): Result<EditPayload, seq<string>>
  {
    var errors := PayloadErrors(answerCode, difficultyCode, options);
    if errors != [] then Failure(errors)
    else Success(EditPayload(questionText, explanationText, NormalizeOptions(options), answerCode, difficultyCode))
  }

  /** A payload is built exactly when its fields meet their constraints, and
      then its options are the ones given, none dropped. */
  lemma NewEditPayloadMeaning(questionText: Option<string>, explanationText: Option<string>, options: Option<seq<Option<string>>>,
      answerCode: Option<int>, difficultyCode: Option<int>)
    ensures var r := NewEditPayload(questionText, explanationText, options, answerCode, difficultyCode);
      && (r.Success? <==> PayloadErrors(answerCode, difficultyCode, options) == [])
      && (r.Success? ==>
        && r.value.questionText == questionText && r.value.explanationText == explanationText
        && r.value.answerCode == answerCode && r.value.difficultyCode == difficultyCode
        && (options.None? <==> r.value.options.None?)
        && (options.Some? ==>
          && |r.value.options.value| == |options.value|
          && (forall i :: 0 <= i < |options.value| ==> r.value.options.value[i] == options.value[i].value)))
  {
    if options.Some? {
      PresentEntriesMeaning(options.value);
    }
  }

  /** The field values after the edit: each present payload value replaces
      its field, the others are copied. */
  function Edited(q: Question, p: EditPayload): Question {
    q.(questionText := if p.questionText.Some? then p.questionText.value else q.questionText)
     .(explanationText := if p.explanationText.Some? then p.explanationText.value else q.explanationText)
     .(options := if p.options.Some? then p.options.value else q.options)
     .(answerCode := if p.answerCode.Some? then p.answerCode.value else q.answerCode)
     .(difficultyCode := if p.difficultyCode.Some? then p.difficultyCode.value else q.difficultyCode)
  }

  /** `_apply_question_edit`: the edited fields constructed as a `Question`
      and then checked by `validate_question`; either step may raise. */
  function ApplyQuestionEdit(q: Question, p: EditPayload): Result<Question, seq<string>> {
    match NewQuestion(Edited(q, p))
    case Failure(errors) => Failure(errors)
    case Success(model) =>
      match ValidateQuestion(model)
      case Fail(message) => Failure([message])
      case Pass => Success(model)
  }

  /** A field the payload sets takes the payload's value; every other field,
      including part name, type, score and style flags, keeps its value. */
  lemma EditedFields(q: Question, p: EditPayload)
    ensures var e := Edited(q, p);
      && e.questionText == (if p.questionText.Some? then p.questionText.value else q.questionText)
      && e.explanationText == (if p.explanationText.Some? then p.explanationText.value else q.explanationText)
      && e.options == (if p.options.Some? then p.options.value else q.options)
      && e.answerCode == (if p.answerCode.Some? then p.answerCode.value else q.answerCode)
      && e.difficultyCode == (if p.difficultyCode.Some? then p.difficultyCode.value else q.difficultyCode)
      && e.questionTypeCode == q.questionTypeCode && e.partName == q.partName
      && e.validityScore == q.validityScore && e.styleViolationFlags == q.styleViolationFlags
  {
  }

  /** The edit succeeds exactly when the edited question is well formed, and
      then returns it; `validate_question` never rejects what the
      constructor accepted. */
  lemma ApplyQuestionEditMeaning(q: Question, p: EditPayload)
    ensures ApplyQuestionEdit(q, p).Success? <==> WellFormed(Edited(q, p))
    ensures ApplyQuestionEdit(q, p).Success? ==> ApplyQuestionEdit(q, p).value == Edited(q, p)
    ensures ApplyQuestionEdit(q, p).Failure? ==> ApplyQuestionEdit(q, p).error == QuestionErrors(Edited(q, p))
  {
    WellFormedIffValidated(Edited(q, p));
  }

  /** Applying the same edit again changes nothing, and an empty edit
      returns a well-formed question as it was. */
  lemma EditIdempotent(q: Question, p: EditPayload)
    ensures Edited(Edited(q, p), p) == Edited(q, p)
    ensures ApplyQuestionEdit(q, p).Success? ==> ApplyQuestionEdit(ApplyQuestionEdit(q, p).value, p) == ApplyQuestionEdit(q, p)
    ensures WellFormed(q) ==> ApplyQuestionEdit(q, EditPayload(None, None, None, None, None)) == Success(q)
  {
    ApplyQuestionEditMeaning(q, p);
    ApplyQuestionEditMeaning(Edited(q, p), p);
    ApplyQuestionEditMeaning(q, EditPayload(None, None, None, None, None));
  }
}
