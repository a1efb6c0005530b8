/** The records of the quiz pipeline (src/quizen/models.py) and the field
    validators that run when a `Part` or a `Question` is constructed. */
module Models {
  import opened Wrappers
  import opened Text

  /** Lecture metadata parsed from an SRT file name. */
  datatype Lecture = Lecture(
    order: string,
    id: string,
    title: string,
    partCode: Option<string>,
    filePath: Option<string>)

  /** A PART grouping of lectures. */
  datatype Part = Part(partCode: string, partTitle: string, partName: string, lectureIds: seq<string>)

  /** A quiz item. `validityScore` is Python's `Optional[float]`. */
  datatype Question = Question(
    difficultyCode: int,
    questionTypeCode: int,
    questionText: string,
    explanationText: string,
    answerCode: int,
    options: seq<string>,
    partName: string,
    validityScore: Option<real>,
    styleViolationFlags: seq<string>)

  /** A per-PART summary. */
  datatype PartSummary = PartSummary(partName: string, content: string, tokenEstimate: Option<int>)

  /** A row of the export sheet; constructing one checks nothing. */
  datatype ExportRow = ExportRow(
    difficultyCode: int,
    questionTypeCode: int,
    questionText: string,
    explanationText: string,
    answerCode: int,
    options: seq<string>)

  const MCQ: int := 1
  const OX: int := 3
  const PartPrefix: string := "PART."

  /** `s.split(sep)[-1]`: the text after the last occurrence of `sep` (all of
      `s` when `sep` does not occur). */
  function LastPiece(s: string, sep: string): (r: string)
    requires |sep| > 0
    ensures |r| <= |s|
    decreases |s|
  {
    if s == [] then ""
    else if StartsWith(s, sep) then LastPiece(s[|sep|..], sep)
    else if Contains(s[1..], sep) then LastPiece(s[1..], sep)
    else s
  }

  lemma {:induction false} ContainsSuffix(s: string, sep: string, k: nat)
    requires k <= |s| && Contains(s[k..], sep)
    ensures Contains(s, sep)
    decreases k
  {
    if k > 0 {
      assert s[1..][k - 1..] == s[k..];
      ContainsSuffix(s[1..], sep, k - 1);
    }
  }

  lemma EndsWithAfterPrefix(a: string, b: string, sep: string)
    requires EndsWith(b, sep)
    ensures EndsWith(a + b, sep)
  {
    assert (a + b)[|a + b| - |sep|..] == b[|b| - |sep|..];
  }

  /** `LastPiece` is a suffix of its input that holds no separator, and
      either it is the whole input or a separator stands right before it. */
  lemma {:induction false} LastPieceIsAfterLastSeparator(s: string, sep: string)
    requires |sep| > 0
    ensures var r := LastPiece(s, sep);
      && r == s[|s| - |r|..]
      && !Contains(r, sep)
      && (r == s || EndsWith(s[..|s| - |r|], sep))
    decreases |s|
  {
    var r := LastPiece(s, sep);
    if s != [] && (StartsWith(s, sep) || Contains(s[1..], sep)) {
      var k := if StartsWith(s, sep) then |sep| else 1;
      var t := s[k..];
      assert r == LastPiece(t, sep);
      LastPieceIsAfterLastSeparator(t, sep);
      assert t[|t| - |r|..] == s[|s| - |r|..];
      assert s[..|s| - |r|] == s[..k] + t[..|t| - |r|];
      if !StartsWith(s, sep) {
        assert t == s[1..] && Contains(t, sep);
        assert r != t;
      }
      if r == t {
        assert s[..|s| - |r|] == sep;
      } else {
        EndsWithAfterPrefix(s[..k], t[..|t| - |r|], sep);
      }
    } else if s != [] {
      assert !Contains(s, sep);
    }
  }

  /** The `part_code` field validator. */
  function ValidatePartCode(code: string): Outcome<string> {
    if !StartsWith(code, PartPrefix) then Fail("part_code must start with 'PART.'")
    else
      var suffix := LastPiece(code, PartPrefix);
      if |suffix| != 2 || !AllDigits(suffix) then
        Fail("part_code must be zero-padded two digits, e.g., PART.01")
      else Pass
  }

  /** The `part_name` field validator: only the prefix is checked. */
  function ValidatePartName(name: string): Outcome<string> {
    if !StartsWith(name, PartPrefix) then Fail("part_name must begin with PART code") else Pass
  }

  /** Two zero-padded digits, as `f"{k:02d}"` prints numbers below 100. */
  function TwoDigits(k: nat): (s: string)
    requires k < 100
    ensures |s| == 2 && AllDigits(s) && DigitsValue(s) == k
  {
    var s := [DigitChar(k / 10), DigitChar(k % 10)];
    assert s[..1] == [DigitChar(k / 10)] && s[..1][..0] == [];
    assert DigitsValue(s[..1]) == k / 10;
    s
  }

  lemma {:induction false} ContainsIsNoLonger(s: string, sub: string)
    requires Contains(s, sub)
    ensures |sub| <= |s|
    decreases |s|
  {
    if !StartsWith(s, sub) {
      ContainsIsNoLonger(s[1..], sub);
    }
  }

  /** Every code "PART." followed by two digits passes the `part_code` validator. */
  lemma {:induction false} TwoDigitCodeIsValid(k: nat)
    requires k < 100
    ensures ValidatePartCode(PartPrefix + TwoDigits(k)) == Pass
  {
    var t := TwoDigits(k);
    var code := PartPrefix + t;
    assert StartsWith(code, PartPrefix);
    assert code[|PartPrefix|..] == t;
    if Contains(t[1..], PartPrefix) {
      ContainsIsNoLonger(t[1..], PartPrefix);
    }
    assert LastPiece(t, PartPrefix) == t;
  }

  /** Construction of a `Part` (pydantic runs both validators and reports every failure). */
  function NewPart(code: string, title: string, name: string, ids: seq<string>): (r: Result<Part, seq<string>>)
    ensures r.Success? <==> ValidatePartCode(code) == Pass && StartsWith(name, PartPrefix)
    ensures r.Success? ==> r.value == Part(code, title, name, ids)
    ensures r.Failure? ==> 1 <= |r.error| <= 2
  {
    var errors :=
      (if ValidatePartCode(code).Fail? then [ValidatePartCode(code).error] else []) +
      (if ValidatePartName(name).Fail? then [ValidatePartName(name).error] else []);
    if errors == [] then Success(Part(code, title, name, ids)) else Failure(errors)
  }

  /** What a constructed `Question` satisfies: the field constraints, with the
      answer range and option count fixed by the type. */
  predicate WellFormed(q: Question) {
    && 1 <= q.difficultyCode <= 5
    && (q.questionTypeCode == MCQ || q.questionTypeCode == OX)
    && (q.questionTypeCode == MCQ ==> 1 <= q.answerCode <= 4 && |q.options| == 4)
    && (q.questionTypeCode == OX ==> 1 <= q.answerCode <= 2 && q.options == [])
    && (q.validityScore.Some? ==> 0.0 <= q.validityScore.value <= 100.0)
  }

  /** The answer-range validator, which runs only once the type is valid. */
  function AnswerErrors(q: Question): (errors: seq<string>)
    requires q.questionTypeCode == MCQ || q.questionTypeCode == OX
    ensures |errors| <= 1
    ensures errors == [] <==>
      (q.questionTypeCode == MCQ ==> 1 <= q.answerCode <= 4) && (q.questionTypeCode == OX ==> 1 <= q.answerCode <= 2)
  {
    if q.questionTypeCode == MCQ && !(1 <= q.answerCode <= 4) then ["MCQ answers must be 1-4"]
    else if q.questionTypeCode == OX && !(1 <= q.answerCode <= 2) then ["OX answers must be 1 or 2"]
    else []
  }

  /** The options validator, which runs only once the type is valid. */
  function OptionsErrors(q: Question): (errors: seq<string>)
    requires q.questionTypeCode == MCQ || q.questionTypeCode == OX
    ensures |errors| <= 1
    ensures errors == [] <==>
      (q.questionTypeCode == MCQ ==> |q.options| == 4) && (q.questionTypeCode == OX ==> q.options == [])
  {
    if q.questionTypeCode == MCQ && |q.options| != 4 then ["MCQ questions require four options"]
    else if q.questionTypeCode == OX && q.options != [] then ["OX questions should have empty options"]
    else []
  }

  /** The errors pydantic collects for a candidate `Question`, in field order.
      The answer and options validators read the type from the fields already
      validated, so they check nothing when the type itself is invalid. */
  function QuestionErrors(q: Question): (errors: seq<string>)
    ensures errors == [] <==> WellFormed(q)
    ensures |errors| <= 4
  {
    var typeOk := q.questionTypeCode == MCQ || q.questionTypeCode == OX;
    var difficulty := if !(1 <= q.difficultyCode <= 5) then ["difficulty_code must be between 1 and 5"] else [];
    var questionType := if !typeOk then ["question_type_code must be 1 (MCQ) or 3 (OX)"] else [];
    var answer := if typeOk then AnswerErrors(q) else [];
    var options := if typeOk then OptionsErrors(q) else [];
    var score :=
      if q.validityScore.Some? && !(0.0 <= q.validityScore.value <= 100.0)
      then ["validity_score must be between 0 and 100"] else [];
    assert |difficulty + questionType + answer + options + score| ==
      |difficulty| + |questionType| + |answer| + |options| + |score|;
    difficulty + questionType + answer + options + score
  }

  /** `Question(**fields)`: the candidate itself, or every validation error. */
  function NewQuestion(q: Question): (r: Result<Question, seq<string>>)
    ensures r.Success? <==> WellFormed(q)
    ensures r.Success? ==> r.value == q
    ensures r.Failure? ==> r.error != [] && |r.error| <= 4
  {
    var errors := QuestionErrors(q);
    if errors == [] then Success(q) else Failure(errors)
  }

  /** `ExportRow.sheet_cells`: the A-I cells of the export sheet. */
  function SheetCells(row: ExportRow): (cells: seq<string>)
    ensures |cells| == 9
    ensures cells[0] == IntToString(row.difficultyCode)
    ensures cells[1] == IntToString(row.questionTypeCode)
    ensures cells[2] == row.questionText && cells[3] == row.explanationText
    ensures cells[4] == IntToString(row.answerCode)
    ensures forall k :: 0 <= k < 4 ==> cells[5 + k] == (if k < |row.options| then row.options[k] else "")
  {
    var padded := row.options + ["", "", "", ""];
    [IntToString(row.difficultyCode), IntToString(row.questionTypeCode),
     row.questionText, row.explanationText, IntToString(row.answerCode)] + padded[..4]
  }

  /** Options beyond the fourth never reach the sheet. */
  lemma {:induction false} SheetCellsIgnoreExtraOptions(row: ExportRow, extra: seq<string>)
    requires |row.options| >= 4
    ensures SheetCells(row.(options := row.options + extra)) == SheetCells(row)
  {
    var a := SheetCells(row.(options := row.options + extra));
    var b := SheetCells(row);
    assert forall k :: 0 <= k < 9 ==> a[k] == b[k] by {
      forall k | 0 <= k < 9 ensures a[k] == b[k] {
        if k >= 5 {
          assert a[5 + (k - 5)] == b[5 + (k - 5)];
        }
      }
    }
  }
}
