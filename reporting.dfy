/** The rows of the optional `quizen_meta` sheet (src/quizen/reporting.py). */
module Reporting {
  import opened Text
  import opened Models

  const PartHeader: seq<string> := ["part_code", "part_title", "lecture_count", "lecture_ids"]
  const QuestionHeader: seq<string> := ["#", "part_name", "question_type_code", "difficulty_code", "answer_code"]

  /** One part: code, title, the number of lectures and their ids joined by ", ". */
  function PartRow(part: Part): seq<string> {
    [part.partCode, part.partTitle, NatToString(|part.lectureIds|), Join(part.lectureIds, ", ")]
  }

  /** The question numbered `idx`: number, part name, type, difficulty, answer. */
  function QuestionRow(idx: nat, q: Question): seq<string> {
    [NatToString(idx), q.partName, IntToString(q.questionTypeCode), IntToString(q.difficultyCode), IntToString(q.answerCode)]
  }

  /** The sheet: the part header and block, an empty row, the question
      header and block, questions numbered from 1. */
  function MetaSheetRows(parts: seq<Part>, questions: seq<Question>): seq<seq<string>> {
    [PartHeader]
    + seq(|parts|, i requires 0 <= i < |parts| => PartRow(parts[i]))
    + [[], QuestionHeader]
    + seq(|questions|, j requires 0 <= j < |questions| => QuestionRow(j + 1, questions[j]))
  }

  /** `build_meta_sheet_rows`. */
  method BuildMetaSheetRows(parts: seq<Part>, questions: seq<Question>) returns (rows: seq<seq<string>>)
    ensures rows == MetaSheetRows(parts, questions)
  {
    rows := [PartHeader];
    for i := 0 to |parts|
      invariant |rows| == 1 + i && rows[0] == PartHeader
      invariant forall k :: 0 <= k < i ==> rows[1 + k] == PartRow(parts[k])
    {
      var lectureIds := Join(parts[i].lectureIds, ", ");
      rows := rows + [[parts[i].partCode, parts[i].partTitle, NatToString(|parts[i].lectureIds|), lectureIds]];
    }
    rows := rows + [[]];
    rows := rows + [QuestionHeader];
    ghost var top := rows;
    for j := 0 to |questions|
      invariant |rows| == |parts| + 3 + j && rows[..|parts| + 3] == top
      invariant forall k :: 0 <= k < j ==> rows[|parts| + 3 + k] == QuestionRow(k + 1, questions[k])
    {
      var q := questions[j];
      rows := rows + [[NatToString(j + 1), q.partName, IntToString(q.questionTypeCode), IntToString(q.difficultyCode), IntToString(q.answerCode)]];
    }
    assert forall r :: 0 <= r < |parts| + 3 ==> rows[r] == top[r];
  }

  /** Where each row sits: the header, one row per part in order, the empty
      row, the question header, one row per question in order; that is
      |parts| + |questions| + 3 rows. */
  lemma MetaSheetLayout(parts: seq<Part>, questions: seq<Question>)
    ensures var rows := MetaSheetRows(parts, questions);
      && |rows| == |parts| + |questions| + 3
      && rows[0] == PartHeader
      && (forall i :: 0 <= i < |parts| ==> rows[1 + i] == PartRow(parts[i]))
      && rows[|parts| + 1] == [] && rows[|parts| + 2] == QuestionHeader
      && (forall j :: 0 <= j < |questions| ==> rows[|parts| + 3 + j] == QuestionRow(j + 1, questions[j]))
  {
  }

  /** The empty row is the only empty one, so it splits the two blocks
      unambiguously. */
  lemma BlankRowSeparates(parts: seq<Part>, questions: seq<Question>)
    ensures var rows := MetaSheetRows(parts, questions);
      forall r :: 0 <= r < |rows| ==> (rows[r] == [] <==> r == |parts| + 1)
  {
    var rows := MetaSheetRows(parts, questions);
    forall r | 0 <= r < |rows|
      ensures rows[r] == [] <==> r == |parts| + 1
    {
      if r == 0 {
      } else if r <= |parts| {
        assert rows[r] == PartRow(parts[r - 1]);
      } else if r > |parts| + 2 {
        assert rows[r] == QuestionRow(r - |parts| - 2, questions[r - |parts| - 3]);
      }
    }
  }

  /** The counting cells read back: a part row's lecture count is the number
      of its lectures, and a question row carries its own number. */
  lemma CountCellsReadBack(part: Part, idx: nat, q: Question)
    ensures AllDigits(PartRow(part)[2]) && DigitsValue(PartRow(part)[2]) == |part.lectureIds|
    ensures AllDigits(QuestionRow(idx, q)[0]) && DigitsValue(QuestionRow(idx, q)[0]) == idx
  {
    NatToStringRoundTrip(|part.lectureIds|);
    NatToStringRoundTrip(idx);
  }
}
