/** Structural checks on questions and export rows (src/quizen/validation.py). */
module Validation {
  import opened Wrappers
  import opened Text
  import opened Models

  const McqAnswerRange: set<int> := {1, 2, 3, 4}
  const OxAnswerRange: set<int> := {1, 2}

  /** `validate_question`: passes, or fails with the first violated rule.
      MCQ checks the option count before the answer; OX checks the answer
      before the options; any other type passes. */
  function ValidateQuestion(q: Question): (r: Outcome<string>)
    ensures r.Fail? <==>
      || (q.questionTypeCode == MCQ && (|q.options| != 4 || q.answerCode !in McqAnswerRange))
      || (q.questionTypeCode == OX && (q.answerCode !in OxAnswerRange || q.options != []))
    ensures q.questionTypeCode == MCQ && |q.options| != 4 ==> r == Fail("MCQ must have exactly four options")
    ensures q.questionTypeCode == MCQ && |q.options| == 4 && q.answerCode !in McqAnswerRange ==>
      r == Fail("MCQ answer must be between 1 and 4")
    ensures q.questionTypeCode == OX && q.answerCode !in OxAnswerRange ==> r == Fail("OX answer must be 1 or 2")
    ensures q.questionTypeCode == OX && q.answerCode in OxAnswerRange && q.options != [] ==>
      r == Fail("OX options should be empty")
  {
    if q.questionTypeCode == MCQ && |q.options| != 4 then Fail("MCQ must have exactly four options")
    else if q.questionTypeCode == MCQ && q.answerCode !in McqAnswerRange then Fail("MCQ answer must be between 1 and 4")
    else if q.questionTypeCode == OX && q.answerCode !in OxAnswerRange then Fail("OX answer must be 1 or 2")
    else if q.questionTypeCode == OX && q.options != [] then Fail("OX options should be empty")
    else Pass
  }

  /** A well-formed question is exactly one that passes `validate_question`
      and whose remaining fields (difficulty, type, score) are in range; in
      particular every constructed `Question` passes `validate_question`. */
  lemma WellFormedIffValidated(q: Question)
    ensures WellFormed(q) <==>
      && ValidateQuestion(q) == Pass
      && 1 <= q.difficultyCode <= 5
      && (q.questionTypeCode == MCQ || q.questionTypeCode == OX)
      && (q.validityScore.Some? ==> 0.0 <= q.validityScore.value <= 100.0)
    ensures NewQuestion(q).Success? ==> ValidateQuestion(NewQuestion(q).value) == Pass
  {
  }

  /** The label `f"Row {idx}: "` that prefixes every message about a row. */
  function RowTag(rowNumber: int): string {
    "Row " + IntToString(rowNumber) + ": "
  }

  /** The rules a sheet row can break. */
  datatype RowProblem = BadDifficulty | BadType | McqOptionCount | McqAnswer | OxAnswer

  /** One violation: which rule, in which spreadsheet row. */
  datatype RowError = RowError(rowNumber: int, problem: RowProblem)

  function ProblemText(p: RowProblem): string {
    match p
    case BadDifficulty => "difficulty must be 1-5"
    case BadType => "question_type must be 1 or 3"
    case McqOptionCount => "MCQ must have 4 options"
    case McqAnswer => "MCQ answer must be 1-4"
    case OxAnswer => "OX answer must be 1 or 2"
  }

  /** The message text the source appends for a violation. */
  function Message(e: RowError): string {
    RowTag(e.rowNumber) + ProblemText(e.problem)
  }

  function Messages(es: seq<RowError>): (ms: seq<string>)
    ensures |ms| == |es|
  {
    seq(|es|, i requires 0 <= i < |es| => Message(es[i]))
  }

  lemma MessagesAppend(a: seq<RowError>, b: seq<RowError>)
    ensures Messages(a + b) == Messages(a) + Messages(b)
  {
    forall i | 0 <= i < |a + b|
      ensures Messages(a + b)[i] == (Messages(a) + Messages(b))[i]
    {
      if i < |a| {
        assert (a + b)[i] == a[i];
      } else {
        assert (a + b)[i] == b[i - |a|];
      }
    }
  }

  /** One error when `violated`, none otherwise. */
  function Check(violated: bool, e: RowError): (r: seq<RowError>)
    ensures |r| <= 1
  {
    if violated then [e] else []
  }

  /** The violations of one sheet row, in the order difficulty, type,
      options, answer. OX options are not checked. */
  function RowErrors(row: ExportRow, rowNumber: int): seq<RowError> {
    Check(row.difficultyCode !in {1, 2, 3, 4, 5}, RowError(rowNumber, BadDifficulty)) +
    Check(row.questionTypeCode !in {1, 3}, RowError(rowNumber, BadType)) +
    Check(row.questionTypeCode == MCQ && |row.options| != 4, RowError(rowNumber, McqOptionCount)) +
    Check(row.questionTypeCode == MCQ && row.answerCode !in McqAnswerRange, RowError(rowNumber, McqAnswer)) +
    Check(row.questionTypeCode == OX && row.answerCode !in OxAnswerRange, RowError(rowNumber, OxAnswer))
  }

  /** Spreadsheet rows start at 3: the row at position i is "Row i+3". */
  const FirstSheetRow: int := 3

  /** All violations of all rows, in row order. */
  function ErrorsOfRows(rows: seq<ExportRow>): seq<RowError>
    decreases |rows|
  {
    if rows == [] then []
    else ErrorsOfRows(rows[..|rows| - 1]) + RowErrors(rows[|rows| - 1], |rows| - 1 + FirstSheetRow)
  }

  /** `validate_export_rows`: collects the message of every violation instead
      of stopping at the first, and reports ok exactly when there is none. */
  method ValidateExportRows(rows: seq<ExportRow>) returns (ok: bool, errors: seq<string>)
    ensures errors == Messages(ErrorsOfRows(rows))
    ensures ok <==> errors == []
  {
    errors := [];
    var i := 0;
    while i < |rows|
      invariant 0 <= i <= |rows|
      invariant errors == Messages(ErrorsOfRows(rows[..i]))
    {
      // The checks of one row, in the source's order, appended together.
      var rowErrors := RowErrors(rows[i], i + FirstSheetRow);
      MessagesAppend(ErrorsOfRows(rows[..i]), rowErrors);
      errors := errors + Messages(rowErrors);
      assert rows[..i + 1][..i] == rows[..i];
      i := i + 1;
    }
    assert rows[..i] == rows;
    ok := errors == [];
  }

  /** A row is free of errors exactly when its fields are in range for its type. */
  lemma RowErrorsEmptyIff(row: ExportRow, rowNumber: int)
    ensures RowErrors(row, rowNumber) == [] <==>
      && 1 <= row.difficultyCode <= 5
      && (row.questionTypeCode == MCQ || row.questionTypeCode == OX)
      && (row.questionTypeCode == MCQ ==> |row.options| == 4 && 1 <= row.answerCode <= 4)
      && (row.questionTypeCode == OX ==> 1 <= row.answerCode <= 2)
  {
  }

  /** A row contributes at most three errors; a row of unknown type only the
      difficulty and type errors. */
  lemma RowErrorsBounded(row: ExportRow, rowNumber: int)
    ensures |RowErrors(row, rowNumber)| <= 3
    ensures row.questionTypeCode != MCQ && row.questionTypeCode != OX ==>
      RowErrors(row, rowNumber) ==
        Check(row.difficultyCode !in {1, 2, 3, 4, 5}, RowError(rowNumber, BadDifficulty)) +
        [RowError(rowNumber, BadType)]
  {
  }

  /** Unlike `validate_question`, the row check never looks at OX options. */
  lemma OxRowOptionsIgnored(row: ExportRow, rowNumber: int)
    requires row.questionTypeCode == OX
    ensures RowErrors(row, rowNumber) == RowErrors(row.(options := []), rowNumber)
  {
  }

  /** The total error count is the sum over the rows, so it is at most three per row. */
  lemma {:induction false} ErrorsOfRowsBounded(rows: seq<ExportRow>)
    ensures |ErrorsOfRows(rows)| <= 3 * |rows|
    decreases |rows|
  {
    if rows != [] {
      ErrorsOfRowsBounded(rows[..|rows| - 1]);
      RowErrorsBounded(rows[|rows| - 1], |rows| - 1 + FirstSheetRow);
    }
  }

  /** The export validates exactly when every row, under its own row number, is free of errors. */
  lemma {:induction false} ErrorsOfRowsEmptyIff(rows: seq<ExportRow>)
    ensures ErrorsOfRows(rows) == [] <==>
      forall i :: 0 <= i < |rows| ==> RowErrors(rows[i], i + FirstSheetRow) == []
    decreases |rows|
  {
    if rows != [] {
      var init := rows[..|rows| - 1];
      var last := RowErrors(rows[|rows| - 1], |rows| - 1 + FirstSheetRow);
      ErrorsOfRowsEmptyIff(init);
      assert ErrorsOfRows(rows) == ErrorsOfRows(init) + last;
      CleanRowsSnoc(rows, init);
    }
  }

  lemma CleanRowsSnoc(rows: seq<ExportRow>, init: seq<ExportRow>)
    requires rows != [] && init == rows[..|rows| - 1]
    ensures (forall i :: 0 <= i < |rows| ==> RowErrors(rows[i], i + FirstSheetRow) == []) <==>
      (forall i :: 0 <= i < |init| ==> RowErrors(init[i], i + FirstSheetRow) == [])
      && RowErrors(rows[|rows| - 1], |rows| - 1 + FirstSheetRow) == []
  {
    assert forall i :: 0 <= i < |init| ==> init[i] == rows[i];
  }

  /** An MCQ row with three options (otherwise valid) yields exactly one error, naming its row. */
  lemma ThreeOptionMcqRow(row: ExportRow, rowNumber: int)
    requires row.questionTypeCode == MCQ && |row.options| == 3
    requires 1 <= row.difficultyCode <= 5 && 1 <= row.answerCode <= 4
    ensures RowErrors(row, rowNumber) == [RowError(rowNumber, McqOptionCount)]
  {
  }
}
