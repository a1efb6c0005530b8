# quizen core, modelled in Dafny

quizen turns a folder of lecture subtitle files (`.srt`) into a quiz sheet.
It parses the file names into lectures. A language model groups the
lectures into PARTs; when that fails, a deterministic split takes over.
Each PART gets a summary, placeholder questions are generated and spread
evenly over the PARTs, and the questions are scored for tone. The
questions are then mapped to spreadsheet rows and validated. A small web
front end reads the run's event log to show progress, filters the
question list and applies edits to single questions.

This project models that core, one Dafny module per Python module:

- `Parsing`: the file-name pattern and the folder scan.
- `Parts`: PART validation, the fallback split, payload normalisation and
  the retrying classifier.
- `Distribution`: the minimum allocation and the rebalancing passes.
- `Models`: the field validators of `Part` and `Question`, and the sheet
  cells of an `ExportRow`.
- `Validation`: question and export-row validation.
- `Questions`: options validation and placeholder generation.
- `Scoring`: style flags and the validity score.
- `Summaries`: per-PART summaries with their fallbacks.
- `Pipeline`: the event log, the run context, the four-stage runner and
  the default export mapper.
- `Reporting`: the meta-sheet layout.
- `Web`: run state from events, the question filter, the edit payload and
  edit application.

Four support modules hold shared pieces:

- `Wrappers`: Option, Result and Outcome.
- `Text`: the Python string built-ins the core uses.
- `Seqs`: element-wise maps over sequences.
- `Sorting`: a stable insertion sort proved to be a permutation and sorted.

Python code that loops over state is modelled as Dafny methods with loop
invariants. Each method is proved equal to a specification function or
given its new state, and lemmas state what the source promises about
those functions and states. The event log
and run context are classes, which the runner updates in place.
`score_questions` overwrites the cells of an array. Raised exceptions
become `Result`/`Outcome` values that carry the message.

`Web.RunOutcomeState` relates the runner to the run-state view.
`_build_state`, given the event log of a run cut after k stages, reports
k stages, no warnings, and `completed` exactly when k is five; a shorter
log reads as `running`. The page never stores such a cut log: a run that
raises hands no context back, and the web handlers answer a ValueError
with status 400 before anything is saved.

## Model

| member | source | states |
|---|---|---|
| Parsing.MatchSound | src/quizen/parsing.py:10 | a name the pattern accepts is exactly three digits, whitespace, a word, whitespace, a title without newline and ".srt" (optionally one final newline) |
| Parsing.MatchComplete | src/quizen/parsing.py:10 | every name of that shape is accepted with that order and id, and with that title when the title does not open with whitespace |
| Parsing.SrtSuffixRequired | src/quizen/parsing.py:10 | only names ending in ".srt" (or ".srt" and one newline) can match |
| Parsing.SingleWordNeverMatches | src/quizen/parsing.py:10 | order, whitespace and a single word before ".srt" never match, because the title group needs its own separator |
| Parsing.FileName | src/quizen/parsing.py:16 | `path.name` is the suffix of the path after its last '/', and holds no '/' |
| Parsing.ParseFilename | src/quizen/parsing.py:13-29 | the lecture keeps the path as `file_path` and never carries a part code |
| Parsing.ParseFilenameCorrect | src/quizen/parsing.py:13-29 | no warning iff the name matches; on a match the groups fill order, id and title; otherwise exactly the mismatch warning, an empty order, and the stem as id and title |
| Parsing.StemDropsSuffix | src/quizen/parsing.py:20 | the stem of "base.ext" is "base" when base and ext are non-empty and ext holds no dot |
| Parsing.SortLecturesCorrect | src/quizen/parsing.py:43 | the sort by (order, title) is a permutation and is ordered by that key |
| Parsing.LectureKeyTies | src/quizen/parsing.py:43 | two lectures tie under the key exactly when they share order and title |
| Parsing.SortLecturesStable | src/quizen/parsing.py:43 | lectures tied with any key come out in listing order, as `list.sort` keeps them |
| Parsing.ParseCourseFolder | src/quizen/parsing.py:32-44 | the lectures are the sorted parses of the listed files and the warnings are their warnings in listing order |
| Parsing.ParseEach | src/quizen/parsing.py:38-41 | the loop appends each file's lecture and its warnings in order |
| Parsing.ParseWarningsEmptyIff | src/quizen/parsing.py:38-41 | the folder yields no warning iff every listed name matches |
| Parsing.ParseWarningsSound | src/quizen/parsing.py:18 | every warning names a listed file whose name does not match |
| Parsing.ParseCourseFolderKeepsLectures | src/quizen/parsing.py:38-43 | one lecture per file, none lost or added by the sort |
| Models.LastPieceIsAfterLastSeparator | src/quizen/models.py:31 | `split(sep)[-1]` is a suffix holding no separator, preceded by the separator unless it is the whole string |
| Models.TwoDigitCodeIsValid | src/quizen/models.py:27-34 | "PART." plus two zero-padded digits passes the part-code validator |
| Models.NewPart | src/quizen/models.py:19-40 | a part is built iff the code validator and the name-prefix validator pass; then it holds exactly the given fields; otherwise one or two errors |
| Models.AnswerErrors | src/quizen/models.py:62-69 | no error iff the answer lies in 1-4 for MCQ and in 1-2 for OX |
| Models.OptionsErrors | src/quizen/models.py:71-79 | no error iff an MCQ has four options and an OX has none |
| Models.QuestionErrors | src/quizen/models.py:43-79 | no error iff the question is well formed (difficulty, type, answer, options, score range); at most four errors |
| Models.NewQuestion | src/quizen/models.py:43-79 | construction succeeds iff the question is well formed, returns it unchanged, and otherwise reports one to four errors |
| Models.SheetCells | src/quizen/models.py:108-119 | nine cells: difficulty, type, texts and answer as text, then the first four options padded with "" |
| Models.SheetCellsIgnoreExtraOptions | src/quizen/models.py:111-118 | options past the fourth never reach the sheet |
| Validation.ValidateQuestion | src/quizen/validation.py:17-28 | fails iff an MCQ lacks four options or a 1-4 answer, or an OX lacks a 1-2 answer or has options; each of the four failures, tested in the source's order, carries its own message |
| Validation.WellFormedIffValidated | src/quizen/validation.py:17-28 | a question is well formed iff it validates and meets the field ranges; every constructible question validates |
| Validation.ValidateExportRows | src/quizen/validation.py:31-47 | the errors are the messages of every row's problems, rows numbered from 3; ok iff there are none |
| Validation.RowErrorsEmptyIff | src/quizen/validation.py:35-46 | a row is clean iff difficulty is 1-5, type is 1 or 3, an MCQ has four options and a 1-4 answer, an OX has a 1-2 answer |
| Validation.OxRowOptionsIgnored | src/quizen/validation.py:44-46 | an OX row's options never cause an error |
| Validation.ErrorsOfRowsEmptyIff | src/quizen/validation.py:31-47 | validation passes iff every row, at sheet row i + 3, is clean |
| Validation.ErrorsOfRowsBounded | src/quizen/validation.py:34-46 | each row contributes at most three errors |
| Validation.ThreeOptionMcqRow | src/quizen/validation.py:39-41 | an otherwise valid MCQ row with three options yields exactly the option-count error |
| Parts.ValidateParts | src/quizen/parts.py:66-88 | the errors are the per-part messages in order, then the sorted unassigned ids, then the sorted multiply-assigned ids |
| Parts.CheckParts | src/quizen/parts.py:71-80 | the loop over parts yields the per-part messages and the assignment counts of the known ids |
| Parts.CheckPart | src/quizen/parts.py:72-80 | one part adds its prefix messages, then its member messages, and counts its known members |
| Parts.CheckMembers | src/quizen/parts.py:76-80 | unknown ids add a message each; known ids raise their count |
| Parts.UnassignedAndDuplicated | src/quizen/parts.py:82-83 | the missing ids are exactly those counted 0, the duplicates exactly those counted above 1, each listed once |
| Parts.ReportedIdsCharacterised | src/quizen/parts.py:82-87 | each reported list is sorted, duplicate-free and holds exactly the lecture ids with the selected count |
| Parts.ValidatePartsEmptyIff | src/quizen/parts.py:66-88 | no error iff every part has the "PART." code prefix, a name starting with its code and only known members, and every lecture is assigned exactly once |
| Parts.FallbackSplitParts | src/quizen/parts.py:91-124 | the loop builds the fallback parts |
| Parts.FallbackPrefixShape | src/quizen/parts.py:101-123 | part k has code "PART." and k + 1 in two digits, and holds the k-th bucket (window k times the bucket size, the last one running to the end), never empty |
| Parts.FiveLecturesFourParts | src/quizen/parts.py:101-123 | five lectures make four parts, the last one holding lectures four and five |
| Parts.FallbackCoversLectures | src/quizen/parts.py:108-123 | the fallback parts list every lecture id once, in order |
| Parts.FallbackValidates | src/quizen/parts.py:91-124 | with distinct lecture ids the fallback split passes part validation |
| Parts.FallbackPartsConstructible | src/quizen/parts.py:116-122 | every fallback part passes the `Part` validators unchanged |
| Parts.QuotientIsDivision | src/quizen/parts.py:104-106 | the linear quotient used for `//` is floor division |
| Parts.WindowIsProduct | src/quizen/parts.py:109-110 | the linear window used for `idx * bucket_size` is the product |
| Parts.NormalizePartPayload | src/quizen/parts.py:57-63 | succeeds iff code, title and name are present and pass the validators; the part has those fields and the ids or []; a missing code is reported first |
| Parts.NormalizeAll | src/quizen/parts.py:154 | all entries normalise iff each does, in order; otherwise the first failing entry's error |
| Parts.Attempt | src/quizen/parts.py:151-161 | an accepted attempt's parts pass validation |
| Parts.Classify | src/quizen/parts.py:141-167 | the loop returns the classification the attempt outcomes determine |
| Parts.ClassifyWithoutInputOrClient | src/quizen/parts.py:143-144 | no lectures give no parts and no warning; no client gives the fallback split and the one fallback warning |
| Parts.ClassificationFallbackIff | src/quizen/parts.py:148-167 | the fallback is used iff every allowed attempt fails |
| Parts.ClassificationFallbackShape | src/quizen/parts.py:162-167 | a fallback result holds the fallback split, one warning per attempt at least, and ends with the fallback warning |
| Parts.ClassificationFirstSuccess | src/quizen/parts.py:149-161 | otherwise the parts are those of the first accepted attempt, after failed ones only, and they validate |
| Parts.ClassificationValidates | src/quizen/parts.py:141-167 | with distinct lecture ids the classified parts always validate |
| Distribution.MinimumDistribution | src/quizen/distribution.py:9-18 | the allocation maps each part name to the floor share plus one for the first remainder names, and is empty for no parts or no questions |
| Distribution.AllocationKeys | src/quizen/distribution.py:11-15 | the keys are exactly the part names, every count non-negative |
| Distribution.AllocationSum | src/quizen/distribution.py:13-17 | with distinct names the counts add up to the total |
| Distribution.AllocationSpread | src/quizen/distribution.py:13-17 | with distinct part names and a positive total, any two counts differ by at most one |
| Distribution.FiveOverTwo | src/quizen/distribution.py:9-18 | five questions over two parts give 3 and 2 |
| Distribution.DistributeKnown | src/quizen/distribution.py:30-34 | the first pass keeps each question with its part while below target, in order, and sends the rest to the overflow in order |
| Distribution.Backfill | src/quizen/distribution.py:37-41 | each part in turn takes the next overflow questions up to its shortfall |
| Distribution.ConcatenateParts | src/quizen/distribution.py:43-47 | the result is the parts' lists in part order, then the remaining overflow |
| Distribution.PassesFillTargets | src/quizen/distribution.py:26-41 | with distinct names every part ends at its target and no overflow is left |
| Distribution.PassesGiveBalanced | src/quizen/distribution.py:26-47 | with distinct part names the balanced list is a permutation of the input |
| Distribution.RebalanceQuestions | src/quizen/distribution.py:21-47 | no questions or no parts return the input; with distinct part names the result is a permutation made of each part's kept questions followed by its backfill, in part order |
| Questions.ValidateOptions | src/quizen/questions.py:18-24 | passes iff difficulty is 1-5, the total is positive and some type is enabled; a bad difficulty is reported first |
| Questions.PickQuestionType | src/quizen/questions.py:27-32 | MCQ iff MCQ is allowed and either OX is not or the part index is even; otherwise OX |
| Questions.McqOptions | src/quizen/questions.py:35-41 | four choices, each opening with the part name |
| Questions.McqOptionsCarryCounter | src/quizen/questions.py:35-41 | every choice contains the counter, and the four choices are distinct |
| Questions.StubQuestion | src/quizen/questions.py:65-85 | the placeholder carries the part, its question and explanation texts, answer 1, the options' difficulty, the picked type, for MCQ the four options of its counter and for OX none, no score and no flags |
| Questions.GenerateStubQuestions | src/quizen/questions.py:44-88 | invalid options give their error; otherwise the placeholders for the allocation's slots, numbered from 1 |
| Questions.AppendPartStubs | src/quizen/questions.py:63-86 | the inner loop appends the planned placeholders of one part and advances the counter |
| Questions.StubsOfSpec | src/quizen/questions.py:62-86 | question i belongs to slot i, is numbered i + 1, has its part's type, and is well formed for a valid difficulty |
| Questions.SlotsInPartOrder | src/quizen/questions.py:62-64 | slots come in part order, each naming the part at its index |
| Questions.StubCount | src/quizen/questions.py:58-86 | with distinct part names exactly the requested number of questions is produced |
| Questions.SlotsPerPart | src/quizen/questions.py:63-64 | with distinct part names each part receives exactly its planned number of questions |
| Scoring.DetectStyleFlags | src/quizen/scoring.py:9-18 | each flag is present iff its rule is broken; no other flag and no repeat; at most two; the MCQ flag first and the explanation flag last when present |
| Scoring.Score | src/quizen/scoring.py:29-35 | 85, or 80 for OX, less 5 when any flag is raised |
| Scoring.Scored | src/quizen/scoring.py:36-37 | score and flags are set and every other field is kept |
| Scoring.ScoreQuestions | src/quizen/scoring.py:21-38 | every question of the list is replaced by its scored form, and the same list is returned |
| Scoring.ScoredStaysWellFormed | src/quizen/scoring.py:29-37 | scoring keeps a well-formed question constructible |
| Scoring.ScoringIsIdempotent | src/quizen/scoring.py:29-37 | scoring twice equals scoring once |
| Scoring.TrailingSpaceIgnored | src/quizen/scoring.py:16 | trailing whitespace on a non-empty explanation never changes its flag |
| Summaries.SummaryContent | src/quizen/summaries.py:22-42 | the reply's summary when it is a non-empty string, the fallback text otherwise |
| Summaries.SummaryOf | src/quizen/summaries.py:44-50 | a summary keeps the part name, that text and its word count |
| Summaries.SummarizeParts | src/quizen/summaries.py:15-51 | one summary per part, in order, from the reply to that part's call |
| Summaries.SummaryContentNonEmpty | src/quizen/summaries.py:10-12 | the kept text is never empty; the fallback opens with the part name and the label |
| Summaries.TokenEstimateCountsWords | src/quizen/summaries.py:48 | the token estimate counts the positions where a whitespace-separated word starts |
| Summaries.EmptySummaryLikeFailure | src/quizen/summaries.py:38-40 | an empty summary behaves as a raised call, a missing one as no client |
| Pipeline.EventOf | src/quizen/pipeline.py:17-18 | the event holds every payload entry and, unless the payload overrides it, the name under "event" |
| Pipeline.PipelineEvents.constructor | src/quizen/pipeline.py:15 | a new log is empty |
| Pipeline.PipelineEvents.Push | src/quizen/pipeline.py:17-18 | push appends exactly one event |
| Pipeline.PipelineContext.constructor | src/quizen/pipeline.py:21-29 | a new context has empty lists and a fresh empty log |
| Pipeline.Rebalance | src/quizen/pipeline.py:58 | the runner's rebalancing keeps the input for no parts and is a permutation for distinct part names |
| Pipeline.Run | src/quizen/pipeline.py:47-63 | the events are a prefix of the full run's five events; stage k runs iff the stages before it returned, each fed the value before; the first raise is reported and stops the run |
| Pipeline.RunFromSummaries | src/quizen/pipeline.py:54-63 | the run from the summary stage on |
| Pipeline.RunFromQuestions | src/quizen/pipeline.py:57-63 | the run from the question stage on |
| Pipeline.TokenEstimates | src/quizen/pipeline.py:55 | the summaries' token estimates in order |
| Pipeline.RunEventsShape | src/quizen/pipeline.py:49-62 | five events named by stage, carrying the part count, the token estimates, the question count and the row count |
| Pipeline.ExportRowOf | src/quizen/pipeline.py:70-79 | a row copies the codes and texts, and the options only for MCQ |
| Pipeline.DefaultExportMapper | src/quizen/pipeline.py:66-81 | one row per question, in order |
| Pipeline.ExportOfWellFormedValidates | src/quizen/pipeline.py:66-81 | rows mapped from well-formed questions always pass export validation |
| Reporting.BuildMetaSheetRows | src/quizen/reporting.py:11-35 | the loops build the meta-sheet layout |
| Reporting.MetaSheetLayout | src/quizen/reporting.py:18-34 | part header, one row per part, a blank row, question header, one row per question numbered from 1 |
| Reporting.BlankRowSeparates | src/quizen/reporting.py:23 | the only empty row is the one after the parts |
| Reporting.CountCellsReadBack | src/quizen/reporting.py:21-28 | the lecture count and the question number cells read back as those numbers |
| Web.StageOfEvents | src/quizen/web.py:108-113 | the first loop yields the furthest stage named by any event |
| Web.StageReachedIsMaximum | src/quizen/web.py:108-113 | the stage reached is at most five, bounds every event's stage and is attained by some event |
| Web.StatusMeaning | src/quizen/web.py:115-119 | completed iff some event is "export_ready"; pending iff there are no events; running otherwise |
| Web.ProgressMeaning | src/quizen/web.py:108-117 | progress lies in 0..1 and is 1 iff the status is completed |
| Web.CollectWarnings | src/quizen/web.py:121-124 | the second loop collects every event's truthy warnings, or fails on a non-iterable value |
| Web.AllWarningsMeaning | src/quizen/web.py:121-124 | collection fails iff some event's warnings fail; every collected warning is truthy |
| Web.KeepTruthyMembers | src/quizen/web.py:124 | the kept warnings are exactly the truthy items, in their order |
| Web.EventWarningsFailIff | src/quizen/web.py:123 | an event's warnings fail iff they are a non-zero integer |
| Web.BuildState | src/quizen/web.py:107-126 | the state is the stage reached, its status and the collected warnings |
| Web.RunOutcomeState | src/quizen/web.py:107-126 | a run's event log shows as many stages as events, no warnings, and completed iff the run did not raise, running otherwise |
| Web.FilterQuestions | src/quizen/web.py:142-168 | the loop keeps the questions passing every active filter, in order |
| Web.FilteredMembers | src/quizen/web.py:152-167 | a question is kept iff it is in the input and passes; the result is a subsequence of the input |
| Web.NoFilterKeepsAll | src/quizen/web.py:142-168 | with no active filter every question is kept |
| Web.FilterIdempotent | src/quizen/web.py:142-168 | filtering twice equals filtering once |
| Web.NormalizeOptions | src/quizen/web.py:63-68 | absent options stay absent |
| Web.PresentEntriesMeaning | src/quizen/web.py:68 | the kept strings are exactly the present entries; with none missing the list is unchanged |
| Web.PayloadErrors | src/quizen/web.py:56-61 | no error iff a given answer is at least 1, a given difficulty is 1-5 and every given option is a string |
| Web.NewEditPayloadMeaning | src/quizen/web.py:56-68 | a payload is built iff those checks pass; it then holds the given fields |
| Web.EditedFields | src/quizen/web.py:185-195 | each given field replaces the question's, every other field is kept |
| Web.ApplyQuestionEditMeaning | src/quizen/web.py:184-199 | an edit is accepted iff the edited question is well formed; then it is the edited question, otherwise the constructor's errors |
| Web.EditIdempotent | src/quizen/web.py:184-199 | applying an accepted edit again changes nothing; an empty edit keeps a well-formed question |
| Text.NatToStringRoundTrip | src/quizen/reporting.py:21 | `str(n)` of a count reads back as n |
| Text.WordCountIsWordStarts | src/quizen/summaries.py:48 | `len(s.split())` counts the positions where a word starts |
| Sorting.SortByCorrect | src/quizen/parsing.py:43 | the sort is a permutation in non-decreasing order |
| Sorting.SortByStable | src/quizen/parsing.py:43 | under a transitive order the elements tied with any value keep their input order |
| Sorting.SortedUnique | src/quizen/parts.py:85-87 | under a total order there is one sorted arrangement of a multiset |
| Sorting.SortByIgnoresOrder | src/quizen/parts.py:85-87 | permutations sort alike, so the reported ids do not depend on dictionary order |

## Left out

- Prompt text is not modelled. This covers `build_classification_prompt` and the summary prompt, which are strings sent to the model.
- Language-model calls are scripted reply sequences: `Option<seq<Reply>>`, where None means no client. `Parts.EnoughReplies` and `Summaries.EnoughReplies` require one reply per call the source can make. This is a demand on the stand-in, not on the callers.
- Pydantic and ValueError message texts are approximated. Validation errors are joined with "; ", and a missing key's message is its quoted name.
- The regex classes `\d`, `\w` and `\s`, `str.isdigit`, `str.split()`, `rstrip()` and `lower()` are modelled over ASCII, apart from the complete whitespace list. Unicode digits and letters outside ASCII are not modelled.
- File-system access is not modelled. The folder listing (`sorted(folder.glob("*.srt"))`) is an input, and paths are taken as already normalised strings.
- Floating point is modelled as reals:
  - progress is k/5, without `round(..., 2)`;
  - scores are reals.
- The modules `storage`, `google_api`, `llm` and `runner` are I/O or orchestration and are not part of this model. Neither are `persist_run` and `_load_settings`.
- The web routes, authentication, templates and `_sort_questions` are not part of this model.
- Event values cover null, integers, strings and lists. Booleans, floats and dictionaries are not modelled.
- `Web.FilterQuestions` works on `Question` records, not on the raw dictionaries the page holds. A missing key therefore cannot occur.
- `Web.Truthy` applies to those event values only.
- Event sinks other than the in-memory list are not modelled.
- The runner's four stages are total functions that return a `Result`. Exceptions other than the ones they report are not modelled.
- Pipeline.Run: the stages are split into three methods, and a raise returns the partially filled context together with the message. The caller never receives that context in Python; here it makes "no later event" statable.
- Pipeline.Rebalance: the runner knows of `rebalance_questions` only what `Distribution.RebalanceQuestions` promises: it keeps the input for no parts, and it is a permutation for distinct part names.
- Scoring.ScoreQuestions: the list is an array of values. The aliasing of Python objects shared with other lists is not captured.
- The `*` and `//` in `fallback_split_parts` are computed by the linear recursions `Parts.Window` and `Parts.Quotient`. `Parts.WindowIsProduct` and `Parts.QuotientIsDivision` prove them equal to the operators.
- Parsing.SingleWordNeverMatches: the worked example "002 badname.srt" is stated as this general lemma rather than on the literal name.
- The test suites exercise APIs outside the core (the Google and language-model clients, the runner script). They are not modelled.
