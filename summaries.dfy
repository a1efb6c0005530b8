/** PART summaries from an LLM or a deterministic fallback
    (src/quizen/summaries.py). */
module Summaries {
  import opened Wrappers
  import opened Text
  import opened Models

  /** What one `generate_json` call for a summary does: raise, or return an
      object whose "summary" value is a string or absent (None). */
  datatype SummaryReply = SummaryRaised | SummaryPayload(summary: Option<string>)

  const SummaryLabel: string := " 강의 요약: "

  /** `_default_summary_text`. */
  function DefaultSummaryText(part: Part, lectureTitles: seq<string>): string {
    part.partName + SummaryLabel + Join(lectureTitles, "; ")
  }

  /** The text kept for one part, given the reply to its call (None when
      there is no client): the reply's summary when it is a non-empty
      string, the fallback text in every other case. */
  function SummaryContent(part: Part, reply: Option<SummaryReply>): (content: string)
    ensures reply.Some? && reply.value.SummaryPayload? && reply.value.summary.Some? && reply.value.summary.value != [] ==>
      content == reply.value.summary.value
    ensures reply.None? || reply.value.SummaryRaised? || reply.value.summary.None? || reply.value.summary.value == [] ==>
      content == DefaultSummaryText(part, part.lectureIds)
  {
    var fallback := DefaultSummaryText(part, part.lectureIds);
    match reply
    case None => fallback
    case Some(SummaryRaised) => fallback
    case Some(SummaryPayload(summary)) =>
      if summary.Some? && summary.value != [] then summary.value else fallback
  }

  /** The summary of one part: its name, the kept text and that text's word count. */
  function SummaryOf(part: Part, reply: Option<SummaryReply>): (s: PartSummary)
    ensures s.partName == part.partName
    ensures s.content == SummaryContent(part, reply)
    ensures s.tokenEstimate == Some(|Words(s.content)|)
  {
    var content := SummaryContent(part, reply);
    PartSummary(part.partName, content, Some(|Words(content)|))
  }

  /** The scripted client answers one call per part. */
  predicate EnoughReplies(parts: seq<Part>, llmClient: Option<seq<SummaryReply>>) {
    llmClient.Some? ==> |llmClient.value| >= |parts|
  }

  /** The reply to the call for part `i`, if there is a client. */
  function ReplyFor(llmClient: Option<seq<SummaryReply>>, i: nat): Option<SummaryReply>
    requires llmClient.Some? ==> i < |llmClient.value|
  {
    if llmClient.Some? then Some(llmClient.value[i]) else None
  }

  /** `summarize_parts`: one summary per part, in part order, the `i`-th
      made from the reply to the `i`-th call. */
  method SummarizeParts(parts: seq<Part>, llmClient: Option<seq<SummaryReply>>) returns (summaries: seq<PartSummary>)
    requires EnoughReplies(parts, llmClient)
    ensures |summaries| == |parts|
    ensures forall i :: 0 <= i < |parts| ==> summaries[i] == SummaryOf(parts[i], ReplyFor(llmClient, i))
  {
    summaries := [];
    for i := 0 to |parts|
      invariant |summaries| == i
      invariant forall j :: 0 <= j < i ==> summaries[j] == SummaryOf(parts[j], ReplyFor(llmClient, j))
    {
      var part := parts[i];
      var content: string;
      if llmClient.Some? {
        match llmClient.value[i] {
          case SummaryRaised =>
            content := DefaultSummaryText(part, part.lectureIds);
          case SummaryPayload(summary) =>
            content := if summary.Some? && summary.value != [] then summary.value else DefaultSummaryText(part, part.lectureIds);
        }
      } else {
        content := DefaultSummaryText(part, part.lectureIds);
      }
      summaries := summaries + [PartSummary(part.partName, content, Some(|Words(content)|))];
    }
  }

  /** The kept text is never empty: the fallback always carries the part
      name and the label. */
  lemma SummaryContentNonEmpty(part: Part, reply: Option<SummaryReply>)
    ensures SummaryContent(part, reply) != []
    ensures StartsWith(DefaultSummaryText(part, part.lectureIds), part.partName + SummaryLabel)
  {
    var fallback := DefaultSummaryText(part, part.lectureIds);
    assert fallback[..|part.partName + SummaryLabel|] == part.partName + SummaryLabel;
    assert |fallback| >= |SummaryLabel|;
  }

  /** A summary's token estimate counts the positions of its text where a
      whitespace-separated word starts. */
  lemma TokenEstimateCountsWords(part: Part, reply: Option<SummaryReply>)
    ensures SummaryOf(part, reply).tokenEstimate == Some(WordStarts(SummaryOf(part, reply).content, true))
  {
    WordCountIsWordStarts(SummaryContent(part, reply));
  }

  /** An empty summary in the reply falls back exactly as a failed call does. */
  lemma EmptySummaryLikeFailure(part: Part)
    ensures SummaryOf(part, Some(SummaryPayload(Some("")))) == SummaryOf(part, Some(SummaryRaised))
    ensures SummaryOf(part, Some(SummaryPayload(None))) == SummaryOf(part, None)
  {
  }
}
