/** Heuristic validity scores and style flags (src/quizen/scoring.py). */
module Scoring {
  import opened Wrappers
  import opened Text
  import opened Models

  /** Sentence endings an explanation must close with to count as polite. */
  const PoliteEndings: seq<string> := ["습니다", "합니다", "하십시오", "합니까", "입니까"]
  const McqPromptEnding: string := "시오."
  const OxPromptEnding: string := "다."

  const McqPromptStyle: string := "mcq_prompt_style"
  const OxTone: string := "ox_tone"
  const ExplanationTone: string := "explanation_tone"

  /** Python `s.endswith(tuple)`: ends with at least one of `ps`. */
  predicate EndsWithAny(s: string, ps: seq<string>) {
    exists i :: 0 <= i < |ps| && EndsWith(s, ps[i])
  }

  predicate McqPromptViolated(q: Question) {
    q.questionTypeCode == MCQ && !EndsWith(q.questionText, McqPromptEnding)
  }

  predicate OxToneViolated(q: Question) {
    q.questionTypeCode == OX && !EndsWith(q.questionText, OxPromptEnding)
  }

  /** An empty explanation is never flagged; otherwise, ignoring trailing
      whitespace, it must end politely. */
  predicate ExplanationToneViolated(q: Question) {
    q.explanationText != [] && !EndsWithAny(RStrip(q.explanationText), PoliteEndings)
  }

  /** `_detect_style_flags`: the names of the style rules `q` breaks, in the
      order MCQ prompt, OX tone, explanation tone. */
  function DetectStyleFlags(q: Question): (flags: seq<string>)
    ensures McqPromptStyle in flags <==> McqPromptViolated(q)
    ensures OxTone in flags <==> OxToneViolated(q)
    ensures ExplanationTone in flags <==> ExplanationToneViolated(q)
    ensures forall f :: f in flags ==> f in {McqPromptStyle, OxTone, ExplanationTone}
    ensures |flags| <= 2
    ensures forall i, j :: 0 <= i < j < |flags| ==> flags[i] != flags[j]
    ensures McqPromptStyle in flags ==> flags[0] == McqPromptStyle
    ensures ExplanationTone in flags ==> flags[|flags| - 1] == ExplanationTone
    ensures flags == [] <==> !McqPromptViolated(q) && !OxToneViolated(q) && !ExplanationToneViolated(q)
  {
    (if McqPromptViolated(q) then [McqPromptStyle] else []) +
    (if OxToneViolated(q) then [OxTone] else []) +
    (if ExplanationToneViolated(q) then [ExplanationTone] else [])
  }

  /** The score `score_questions` assigns: 85, or 80 for OX, less 5 when any
      style rule is broken. */
  function Score(q: Question): (score: real)
    ensures score == (if q.questionTypeCode == OX then 80.0 else 85.0) - (if DetectStyleFlags(q) == [] then 0.0 else 5.0)
    ensures score in {75.0, 80.0, 85.0}
  {
    var base := if q.questionTypeCode == OX then 80.0 else 85.0;
    if DetectStyleFlags(q) != [] then base - 5.0 else base
  }

  /** `q` after scoring: score and flags set, every other field kept. */
  function Scored(q: Question): (r: Question)
    ensures r.validityScore == Some(Score(q))
    ensures r.styleViolationFlags == DetectStyleFlags(q)
    ensures r.(validityScore := q.validityScore, styleViolationFlags := q.styleViolationFlags) == q
  {
    q.(validityScore := Some(Score(q)), styleViolationFlags := DetectStyleFlags(q))
  }

  /** `score_questions`: scores every question of the list in place and
      hands the same list back. */
  method ScoreQuestions(questions: array<Question>) returns (result: array<Question>)
    modifies questions
    ensures result == questions
    ensures forall i :: 0 <= i < questions.Length ==> questions[i] == Scored(old(questions[i]))
  {
    for i := 0 to questions.Length
      invariant forall j :: 0 <= j < i ==> questions[j] == Scored(old(questions[j]))
      invariant forall j :: i <= j < questions.Length ==> questions[j] == old(questions[j])
    {
      questions[i] := Scored(questions[i]);
    }
    result := questions;
  }

  /** Scoring keeps a question constructible: the score lies within 0-100. */
  lemma ScoredStaysWellFormed(q: Question)
    requires WellFormed(q)
    ensures WellFormed(Scored(q))
    ensures NewQuestion(Scored(q)) == Success(Scored(q))
  {
  }

  /** The flags and score depend only on the type and the texts, so scoring
      twice gives the same result as scoring once. */
  lemma ScoringIsIdempotent(q: Question)
    ensures Scored(Scored(q)) == Scored(q)
  {
    assert DetectStyleFlags(Scored(q)) == DetectStyleFlags(q);
  }

  /** An explanation's trailing whitespace never changes its flag. */
  lemma TrailingSpaceIgnored(q: Question, pad: string)
    requires q.explanationText != [] && forall i :: 0 <= i < |pad| ==> IsSpace(pad[i])
    ensures ExplanationToneViolated(q.(explanationText := q.explanationText + pad)) == ExplanationToneViolated(q)
  {
    RStripIgnoresTrailingSpace(q.explanationText, pad);
  }

  lemma {:induction false} RStripIgnoresTrailingSpace(s: string, pad: string)
    requires forall i :: 0 <= i < |pad| ==> IsSpace(pad[i])
    ensures RStrip(s + pad) == RStrip(s)
    decreases |pad|
  {
    if pad != [] {
      var shorter := pad[..|pad| - 1];
      assert (s + pad)[..|s + pad| - 1] == s + shorter;
      RStripIgnoresTrailingSpace(s, shorter);
    } else {
      assert s + pad == s;
    }
  }
}
