/** The run of the quiz pipeline and its event log (src/quizen/pipeline.py). */
module Pipeline {
  import opened Wrappers
  import opened Text
  import opened Models
  import opened Seqs
  import opened Validation
  import Distribution

  /** The values an event payload carries. */
  datatype Value = VNull | VInt(i: int) | VStr(s: string) | VList(items: seq<Value>)

  /** An event: `{"event": name, **payload}`. */
  type Event = map<string, Value>

  /** The dictionary `push` appends; a payload key "event" would overwrite
      the name, as in the dictionary display it comes from. */
  function EventOf(name: string, payload: map<string, Value>): (e: Event)
    ensures "event" in e
    ensures "event" !in payload ==> e["event"] == VStr(name)
    ensures forall k :: k in payload ==> k in e && e[k] == payload[k]
  {
    map["event" := VStr(name)] + payload
  }

  /** The in-memory event log. */
  class PipelineEvents {
    var events: seq<Event>

    constructor()
      ensures events == []
    {
      events := [];
    }

    /** `push`: exactly one event appended; those before it untouched. */
    method Push(name: string, payload: map<string, Value>)
      modifies this
      ensures events == old(events) + [EventOf(name, payload)]
    {
      events := events + [EventOf(name, payload)];
    }
  }

  /** The shared state of one run. */
  class PipelineContext {
    var parts: seq<Part>
    var summaries: seq<PartSummary>
    var questions: seq<Question>
    var exportRows: seq<ExportRow>
    var events: PipelineEvents

    constructor()
      ensures parts == [] && summaries == [] && questions == [] && exportRows == []
      ensures fresh(events) && events.events == []
    {
      parts := [];
      summaries := [];
      questions := [];
      exportRows := [];
      events := new PipelineEvents();
    }
  }

  /** The four injected stages. Each either returns its value or raises;
      a raise is a `Failure` carrying the exception's message. */
  datatype PipelineRunner = PipelineRunner(
    classifyParts: () -> Result<seq<Part>, string>,
    summarizeParts: seq<Part> -> Result<seq<PartSummary>, string>,
    generateQuestions: seq<PartSummary> -> Result<seq<Question>, string>,
    mapExportRows: seq<Question> -> Result<seq<ExportRow>, string>)

  const StageEventNames: seq<string> := [
    "run_started", "part_classification_completed", "part_summary_completed",
    "question_generation_completed", "export_ready"]

  function EstimateValue(s: PartSummary): Value {
    if s.tokenEstimate.Some? then VInt(s.tokenEstimate.value) else VNull
  }

  /** The five events of a run that reaches the end, with their payloads. */
  function RunEvents(parts: seq<Part>, summaries: seq<PartSummary>, questions: seq<Question>, rows: seq<ExportRow>): seq<Event> {
    [ EventOf(StageEventNames[0], map[]),
      EventOf(StageEventNames[1], map["part_count" := VInt(|parts|)]),
      EventOf(StageEventNames[2], map["token_estimates" := VList(MapSeq(EstimateValue, summaries))]),
      EventOf(StageEventNames[3], map["question_count" := VInt(|questions|)]),
      EventOf(StageEventNames[4], map["row_count" := VInt(|rows|)]) ]
  }

  /** What `rebalance_questions` promises about its result. */
  predicate Rebalanced(generated: seq<Question>, parts: seq<Part>, questions: seq<Question>) {
    && (generated == [] || parts == [] ==> questions == generated)
    && (Distinct(Distribution.PartNames(parts)) ==> multiset(questions) == multiset(generated))
  }

  /** The call of `rebalance_questions`, seen through what it promises. */
  method Rebalance(generated: seq<Question>, parts: seq<Part>) returns (questions: seq<Question>)
    ensures Rebalanced(generated, parts, questions)
  {
    ghost var backfill;
    questions, backfill := Distribution.RebalanceQuestions(generated, parts);
  }

  /** What a run leaves behind, with `n` the number of events pushed:
      every event is the one of the full run at its position; the run
      reaches stage `k` exactly when the stages before it returned; each
      stage is fed the value the one before produced; the first raise is
      reported and stops the run, and the fields it did not reach keep
      their defaults. */
  ghost predicate RunOutcome(runner: PipelineRunner, events: seq<Event>, parts: seq<Part>, summaries: seq<PartSummary>,
                             questions: seq<Question>, rows: seq<ExportRow>, failure: Option<string>, generated: seq<Question>)
  {
    var n := |events|;
    && 1 <= n <= 5
    && events == RunEvents(parts, summaries, questions, rows)[..n]
    && (failure.None? <==> n == 5)
    && (n >= 2 <==> runner.classifyParts().Success?)
    && (n >= 2 ==> parts == runner.classifyParts().value)
    && (n == 1 ==> parts == [] && failure == Some(runner.classifyParts().error))
    && (n >= 3 <==> n >= 2 && runner.summarizeParts(parts).Success?)
    && (n >= 3 ==> summaries == runner.summarizeParts(parts).value)
    && (n <= 2 ==> summaries == [])
    && (n == 2 ==> failure == Some(runner.summarizeParts(parts).error))
    && (n >= 4 <==> n >= 3 && runner.generateQuestions(summaries).Success?)
    && (n >= 4 ==> generated == runner.generateQuestions(summaries).value && Rebalanced(generated, parts, questions))
    && (n <= 3 ==> questions == [])
    && (n == 3 ==> failure == Some(runner.generateQuestions(summaries).error))
    && (n == 5 <==> n >= 4 && runner.mapExportRows(questions).Success?)
    && (n == 5 ==> rows == runner.mapExportRows(questions).value)
    && (n <= 4 ==> rows == [])
    && (n == 4 ==> failure == Some(runner.mapExportRows(questions).error))
  }

  /** `PipelineRunner.run`. */
  method Run(runner: PipelineRunner) returns (ctx: PipelineContext, failure: Option<string>, ghost generated: seq<Question>)
    ensures fresh(ctx) && fresh(ctx.events)
    ensures RunOutcome(runner, ctx.events.events, ctx.parts, ctx.summaries, ctx.questions, ctx.exportRows, failure, generated)
  {
    generated := [];
    ctx := new PipelineContext();
    ctx.events.Push(StageEventNames[0], map[]);

    var classified := runner.classifyParts();
    if classified.Failure? {
      failure := Some(classified.error);
      StopsAtClassification(runner, ctx.events.events, ctx.parts, ctx.summaries, ctx.questions, ctx.exportRows, failure, generated);
      return;
    }
    ctx.parts := classified.value;
    ctx.events.Push(StageEventNames[1], map["part_count" := VInt(|ctx.parts|)]);
    failure, generated := RunFromSummaries(runner, ctx);
  }

  /** The rest of `run` once the parts are classified: the summary stage,
      then the remaining ones. */
  method RunFromSummaries(runner: PipelineRunner, ctx: PipelineContext) returns (failure: Option<string>, ghost generated: seq<Question>)
    requires runner.classifyParts() == Success(ctx.parts)
    requires ctx.summaries == [] && ctx.questions == [] && ctx.exportRows == []
    requires ctx.events.events == [] + [EventOf(StageEventNames[0], map[])] + [EventOf(StageEventNames[1], map["part_count" := VInt(|ctx.parts|)])]
    modifies ctx, ctx.events
    ensures ctx.events == old(ctx.events)
    ensures RunOutcome(runner, ctx.events.events, ctx.parts, ctx.summaries, ctx.questions, ctx.exportRows, failure, generated)
  {
    generated := [];
    var summarized := runner.summarizeParts(ctx.parts);
    if summarized.Failure? {
      failure := Some(summarized.error);
      StopsAtSummary(runner, ctx.events.events, ctx.parts, ctx.summaries, ctx.questions, ctx.exportRows, failure, generated);
      return;
    }
    ctx.summaries := summarized.value;
    var estimates := TokenEstimates(ctx.summaries);
    ctx.events.Push(StageEventNames[2], map["token_estimates" := VList(estimates)]);
    failure, generated := RunFromQuestions(runner, ctx);
  }

  /** The rest of `run` once the summaries are made: question generation
      and rebalancing, then the export rows. */
  method RunFromQuestions(runner: PipelineRunner, ctx: PipelineContext) returns (failure: Option<string>, ghost generated: seq<Question>)
    requires runner.classifyParts() == Success(ctx.parts) && runner.summarizeParts(ctx.parts) == Success(ctx.summaries)
    requires ctx.questions == [] && ctx.exportRows == []
    requires ctx.events.events == [] + [EventOf(StageEventNames[0], map[])] + [EventOf(StageEventNames[1], map["part_count" := VInt(|ctx.parts|)])] + [EventOf(StageEventNames[2], map["token_estimates" := VList(MapSeq(EstimateValue, ctx.summaries))])]
    modifies ctx, ctx.events
    ensures ctx.events == old(ctx.events)
    ensures RunOutcome(runner, ctx.events.events, ctx.parts, ctx.summaries, ctx.questions, ctx.exportRows, failure, generated)
  {
    generated := [];
    var produced := runner.generateQuestions(ctx.summaries);
    if produced.Failure? {
      failure := Some(produced.error);
      StopsAtGeneration(runner, ctx.events.events, ctx.parts, ctx.summaries, ctx.questions, ctx.exportRows, failure, generated);
      return;
    }
    generated := produced.value;
    ctx.questions := Rebalance(produced.value, ctx.parts);
    ctx.events.Push(StageEventNames[3], map["question_count" := VInt(|ctx.questions|)]);

    var mapped := runner.mapExportRows(ctx.questions);
    if mapped.Failure? {
      failure := Some(mapped.error);
      StopsAtExport(runner, ctx.events.events, ctx.parts, ctx.summaries, ctx.questions, ctx.exportRows, failure, generated);
      return;
    }
    ctx.exportRows := mapped.value;
    ctx.events.Push(StageEventNames[4], map["row_count" := VInt(|ctx.exportRows|)]);
    failure := None;
    Completes(runner, ctx.events.events, ctx.parts, ctx.summaries, ctx.questions, ctx.exportRows, failure, generated);
  }

  lemma StopsAtClassification(runner: PipelineRunner, events: seq<Event>, parts: seq<Part>, summaries: seq<PartSummary>,
      questions: seq<Question>, rows: seq<ExportRow>, failure: Option<string>, generated: seq<Question>)
    requires runner.classifyParts().Failure? && failure == Some(runner.classifyParts().error)
    requires parts == [] && summaries == [] && questions == [] && rows == [] && generated == []
    requires events == [] + [EventOf(StageEventNames[0], map[])]
    ensures RunOutcome(runner, events, parts, summaries, questions, rows, failure, generated)
  {
    assert RunEvents(parts, summaries, questions, rows)[..1] == events;
  }

  lemma StopsAtSummary(runner: PipelineRunner, events: seq<Event>, parts: seq<Part>, summaries: seq<PartSummary>,
      questions: seq<Question>, rows: seq<ExportRow>, failure: Option<string>, generated: seq<Question>)
    requires runner.classifyParts() == Success(parts) && runner.summarizeParts(parts).Failure?
    requires failure == Some(runner.summarizeParts(parts).error)
    requires summaries == [] && questions == [] && rows == [] && generated == []
    requires events == [] + [EventOf(StageEventNames[0], map[])] + [EventOf(StageEventNames[1], map["part_count" := VInt(|parts|)])]
    ensures RunOutcome(runner, events, parts, summaries, questions, rows, failure, generated)
  {
    assert RunEvents(parts, summaries, questions, rows)[..2] == events;
  }

  lemma StopsAtGeneration(runner: PipelineRunner, events: seq<Event>, parts: seq<Part>, summaries: seq<PartSummary>,
      questions: seq<Question>, rows: seq<ExportRow>, failure: Option<string>, generated: seq<Question>)
    requires runner.classifyParts() == Success(parts) && runner.summarizeParts(parts) == Success(summaries)
    requires runner.generateQuestions(summaries).Failure? && failure == Some(runner.generateQuestions(summaries).error)
    requires questions == [] && rows == [] && generated == []
    requires events == [] + [EventOf(StageEventNames[0], map[])] + [EventOf(StageEventNames[1], map["part_count" := VInt(|parts|)])] + [EventOf(StageEventNames[2], map["token_estimates" := VList(MapSeq(EstimateValue, summaries))])]
    ensures RunOutcome(runner, events, parts, summaries, questions, rows, failure, generated)
  {
    assert RunEvents(parts, summaries, questions, rows)[..3] == events;
  }

  lemma StopsAtExport(runner: PipelineRunner, events: seq<Event>, parts: seq<Part>, summaries: seq<PartSummary>,
      questions: seq<Question>, rows: seq<ExportRow>, failure: Option<string>, generated: seq<Question>)
    requires runner.classifyParts() == Success(parts) && runner.summarizeParts(parts) == Success(summaries)
    requires runner.generateQuestions(summaries) == Success(generated) && Rebalanced(generated, parts, questions)
    requires runner.mapExportRows(questions).Failure? && failure == Some(runner.mapExportRows(questions).error)
    requires rows == []
    requires events == [] + [EventOf(StageEventNames[0], map[])] + [EventOf(StageEventNames[1], map["part_count" := VInt(|parts|)])] + [EventOf(StageEventNames[2], map["token_estimates" := VList(MapSeq(EstimateValue, summaries))])] + [EventOf(StageEventNames[3], map["question_count" := VInt(|questions|)])]
    ensures RunOutcome(runner, events, parts, summaries, questions, rows, failure, generated)
  {
    assert RunEvents(parts, summaries, questions, rows)[..4] == events;
  }

  lemma Completes(runner: PipelineRunner, events: seq<Event>, parts: seq<Part>, summaries: seq<PartSummary>,
      questions: seq<Question>, rows: seq<ExportRow>, failure: Option<string>, generated: seq<Question>)
    requires runner.classifyParts() == Success(parts) && runner.summarizeParts(parts) == Success(summaries)
    requires runner.generateQuestions(summaries) == Success(generated) && Rebalanced(generated, parts, questions)
    requires runner.mapExportRows(questions) == Success(rows) && failure.None?
    requires events == [] + [EventOf(StageEventNames[0], map[])] + [EventOf(StageEventNames[1], map["part_count" := VInt(|parts|)])] + [EventOf(StageEventNames[2], map["token_estimates" := VList(MapSeq(EstimateValue, summaries))])] + [EventOf(StageEventNames[3], map["question_count" := VInt(|questions|)])] + [EventOf(StageEventNames[4], map["row_count" := VInt(|rows|)])]
    ensures RunOutcome(runner, events, parts, summaries, questions, rows, failure, generated)
  {
    assert RunEvents(parts, summaries, questions, rows)[..5] == events;
  }

  /** `[s.token_estimate for s in ctx.summaries]`. */
  method TokenEstimates(summaries: seq<PartSummary>) returns (estimates: seq<Value>)
    ensures estimates == MapSeq(EstimateValue, summaries)
  {
    estimates := [];
    for i := 0 to |summaries|
      invariant estimates == MapSeq(EstimateValue, summaries[..i])
    {
      assert summaries[..i + 1][..i] == summaries[..i];
      estimates := estimates + [EstimateValue(summaries[i])];
    }
    assert summaries[..|summaries|] == summaries;
  }

  /** Whatever the stages return, the events carry the five stage names in
      order, and each payload counts the value of its stage. */
  lemma RunEventsShape(parts: seq<Part>, summaries: seq<PartSummary>, questions: seq<Question>, rows: seq<ExportRow>)
    ensures var events := RunEvents(parts, summaries, questions, rows);
      && |events| == 5
      && (forall i :: 0 <= i < 5 ==> "event" in events[i] && events[i]["event"] == VStr(StageEventNames[i]))
      && events[1]["part_count"] == VInt(|parts|)
      && events[2]["token_estimates"].VList?
      && |events[2]["token_estimates"].items| == |summaries|
      && (forall j :: 0 <= j < |summaries| ==>
        events[2]["token_estimates"].items[j] == (if summaries[j].tokenEstimate.Some? then VInt(summaries[j].tokenEstimate.value) else VNull))
      && events[3]["question_count"] == VInt(|questions|)
      && events[4]["row_count"] == VInt(|rows|)
  {
    MapSeqIndex(EstimateValue, summaries);
  }

  /** The row `default_export_mapper` makes of one question: the five shared
      fields copied, the options kept for MCQ and dropped for every other type. */
  function ExportRowOf(q: Question): (row: ExportRow)
    ensures row.difficultyCode == q.difficultyCode && row.questionTypeCode == q.questionTypeCode
    ensures row.questionText == q.questionText && row.explanationText == q.explanationText
    ensures row.answerCode == q.answerCode
    ensures row.options == (if q.questionTypeCode == MCQ then q.options else [])
  {
    var options := if q.questionTypeCode == MCQ then q.options else [];
    ExportRow(q.difficultyCode, q.questionTypeCode, q.questionText, q.explanationText, q.answerCode, options)
  }

  /** `default_export_mapper`: one row per question, in order. */
  method DefaultExportMapper(questions: seq<Question>) returns (rows: seq<ExportRow>)
    ensures rows == MapSeq(ExportRowOf, questions)
  {
    rows := [];
    for i := 0 to |questions|
      invariant rows == MapSeq(ExportRowOf, questions[..i])
    {
      var q := questions[i];
      var options := if q.questionTypeCode == MCQ then q.options else [];
      assert questions[..i + 1][..i] == questions[..i];
      rows := rows + [ExportRow(q.difficultyCode, q.questionTypeCode, q.questionText, q.explanationText, q.answerCode, options)];
    }
    assert questions[..|questions|] == questions;
  }

  /** Exporting constructed questions gives rows the sheet check accepts. */
  lemma ExportOfWellFormedValidates(questions: seq<Question>)
    requires forall i :: 0 <= i < |questions| ==> WellFormed(questions[i])
    ensures ErrorsOfRows(MapSeq(ExportRowOf, questions)) == []
  {
    var rows := MapSeq(ExportRowOf, questions);
    MapSeqIndex(ExportRowOf, questions);
    forall i | 0 <= i < |rows|
      ensures RowErrors(rows[i], i + FirstSheetRow) == []
    {
      RowOfWellFormedPasses(questions[i], i + FirstSheetRow);
    }
    ErrorsOfRowsEmptyIff(rows);
  }

  lemma RowOfWellFormedPasses(q: Question, rowNumber: int)
    requires WellFormed(q)
    ensures RowErrors(ExportRowOf(q), rowNumber) == []
  {
  }

  /** The sheet cells of an exported non-MCQ question carry no options. */
  lemma NonMcqCellsHaveNoOptions(q: Question)
    requires q.questionTypeCode != MCQ
    ensures forall k :: 5 <= k < 9 ==> SheetCells(ExportRowOf(q))[k] == ""
  {
    var cells := SheetCells(ExportRowOf(q));
    forall k | 5 <= k < 9
      ensures cells[k] == ""
    {
      assert cells[5 + (k - 5)] == "";
    }
  }
}
