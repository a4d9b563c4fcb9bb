# ace — a verified model of the quiz engine, sessions, packs and widgets

`ace` is a terminal quiz game. Here is how it works:

- A player picks a **game mode** (Standard, Quick, Rapid, Hardcore or Custom). Each mode builds a **format**: its time rules, life rules, progression rules and question rules.
- A **session** then walks through a list of questions under that format. It grades each submitted **answer** with a **grade policy** (binary, accuracy, score or practice). It keeps score, lives and time, and ends as Completed, Failed or TimeExpired.
- Questions come from **packs**, JSON files of raw categories:
  - A raw pack can be **verified**. Verification reports missing fields, bad difficulties, out-of-range answers and duplicate IDs.
  - It can be **repaired**. Missing IDs are filled in from FNV-1a hashes.
  - It can be **converted** to domain questions.
- A **metadata** catalogue indexes the packs by ID, role and category. Two **caches** index the questions by ID and by difficulty, role and type.
- The interface is made of **widgets**:
  - a navigation **graph** of cursor-addressed nodes;
  - a **controller** that moves a cursor over that graph;
  - **selections** (single, multi, column-based, none);
  - factories for lists, bars, grids and the question widgets;
  - a **dual-column** widget that moves items between two columns;
  - **layouts** that stack shapes in containers.
- An application **context** keeps one on/off switch per known pack.

This project models that core in Dafny:

- Pure Go code (enums, graders, mode formats, hashing, report building) becomes datatypes and functions.
- Go objects updated in place become classes whose methods are proved against specification functions. These are the session, the validating question data, the raw pack, the caches, the metadata, the graph, the controller, the multi-selection, the dual-column widget, the container, the layout and the context.
- The lemmas then state what the source promises:
  - round trips;
  - invariants the session keeps over any sequence of operations;
  - exact counts of the errors a verification reports;
  - idempotence of repair;
  - navigability of the graphs the factories build;
  - conservation of items when the dual-column widget moves one.

Modules follow the Go packages:

- `Game`, `Questions`, `Grades`, `Graders`, `Rules`, `EngineFormat` and `Modes` cover `internal/engine`.
- `SessionStates`, `SessionModel`, `Sessions` and `SessionExamples` cover `internal/session`.
- `Reports`, `PackVerify`, `PackData`, `PackDomain`, `Hashing`, `RawSpec`, `RawPacks`, `PackMetadata` and `PackCache` cover `internal/pack`.
- `WidgetGraph`, `Selections`, `Controllers`, `Wiring`, `Widgets`, `DualColumn` and `Layouts` cover `internal/ui/widgets`.
- `Contexts` covers `internal/ui/context`.
- `Text`, `Collections` and `Wrappers` hold shared string and collection helpers and the `Option`/`Result` types.

Go map iteration order is unspecified. Loops over a map are modelled as picking any remaining key, and their contracts state only facts that hold for every order: which elements appear, each once.

## Model

| member | source | states |
|---|---|---|
| Game.DifficultyString | internal/engine/game.go:17-30 | a difficulty has a non-empty name exactly when it is one of the four valid levels (entry, junior, mid, senior) |
| Game.ParseDifficulty | internal/engine/game.go:36-49 | parsing yields 0 or a valid level, and a non-zero result names the parsed string back |
| Game.ParseDifficultyRoundTrip | internal/engine/game.go:17-49 | parsing the name of every valid difficulty gives that difficulty back, and the zero value is not a valid difficulty |
| Game.QuestionTypeString | internal/engine/game.go:63-76 | the four question types have names and anything else is "unknown" |
| Game.QuestionTypeNamesDistinct | internal/engine/game.go:63-76 | different question types have different names |
| Game.QuestionCountInt | internal/engine/game.go:87-98 | the count options map to 10, 30 and 50 in steps of 20, and anything else to 0 |
| Questions.Question.Type | internal/engine/questions.go:15-50 | each question variant reports its own distinct type tag |
| Questions.Question.GetAnswer | internal/engine/questions.go:17-54 | the correct answer has the question's type and carries the stored correct value |
| Questions.Answer.Type | internal/engine/answers.go:12-33 | each answer variant reports the type tag of the matching question kind |
| Questions.Answer.Value | internal/engine/answers.go:13-34 | the value is the variant's payload, tagged by its kind |
| Questions.ValueInjective | internal/engine/answers.go:13-34 | two answers with the same value are the same answer, so grading by comparing values loses nothing |
| Grades.GradeResult.IsCorrect | internal/engine/grade.go:26-54 | a practice result is always correct; every other result reports its stored flag |
| Grades.GradeResult.Type | internal/engine/grade.go:28-55 | each result kind has its own tag and a practice result has the zero tag |
| Graders.BinaryGrade | internal/engine/grader.go:10-28 | a binary result that is correct exactly when the answer equals the question's correct answer |
| Graders.KeywordsFound | internal/engine/grader.go:63-71 | the number of keywords found never exceeds the number of keywords |
| Graders.AllKeywordsFound | internal/engine/grader.go:63-71 | when the lower-cased answer contains every lower-cased keyword, all of them are counted |
| Graders.CountKeywordsFound | internal/engine/grader.go:63-71 | the keyword loop's count equals the specification count and is bounded by the keyword list |
| Graders.AccuracyGrade | internal/engine/grader.go:33-83 | accuracy is a fraction in [0, 1]; objective questions score 1 or 0 by equality; a text answer's accuracy is keywords found over keywords; a text question without keywords, or answered with a non-text answer, has accuracy 0; it is correct exactly at full accuracy |
| Graders.AccuracyIgnoresAnswerCase | internal/engine/grader.go:63-71 | lower-casing the player's text first never changes the accuracy result |
| Graders.ScoreGrade | internal/engine/grader.go:87-105 | a score result agrees with the binary verdict and carries no points |
| Graders.PracticeGrade | internal/engine/grader.go:109-113 | a practice result is always correct and shows the expected text answer |
| Graders.Grade | internal/engine/grader.go:10-113 | each policy produces its own result kind; binary, score and non-text accuracy grading agree on correctness; practice is always correct |
| Rules.BuildTimeRules | internal/engine/rules.go:45-78 | only total-time mode keeps the total duration; only per-question modes keep the per-question time and lock navigation; only the bonus mode keeps bonus and penalty |
| Rules.BuildLifeRules | internal/engine/rules.go:80-102 | lives are enabled except for NoLives, losing on a wrong answer follows that, and sudden death starts with one life |
| EngineFormat.Validate | internal/engine/format.go:25-67 | the format is accepted exactly when its time, lives and question rules are consistent; each error is returned exactly when its check is the first to fail, in the order total time, per-question time, bonus positive, bonus below per-question time, lives when disabled, lives when enabled, question count, question types |
| Modes.GetGameMode | internal/engine/mode.go:9-24 | each of the five known mode IDs yields its own mode, Custom with default settings; an unknown ID yields nothing |
| Modes.ModeFormat | internal/engine/mode.go:32-208 | each preset builds its documented time, lives, progression and question rules; Custom converts its seconds to durations and passes its own choices through |
| Modes.PresetsValidate | internal/engine/mode.go:32-144 | every preset format passes validation for every difficulty |
| Modes.RapidPenaltyDropped | internal/engine/mode.go:90-113 | Rapid's configured penalty is discarded because its time mode is not the bonus mode |
| Modes.HardcoreIgnoresDifficulty | internal/engine/mode.go:121-144 | the Hardcore format is the same whatever difficulty is requested |
| Modes.DefaultCustomFailsValidate | internal/engine/mode.go:169-208 | a freshly created Custom mode has no question types, so its format fails validation |
| Modes.CustomSecondsToDurations | internal/engine/mode.go:179-208 | Custom's second counts become the format's durations |
| Modes.CustomReproducesPresets | internal/engine/mode.go:32-208 | suitable Custom settings reproduce the rules of each preset |
| SessionStates.StateString | internal/session/state.go:13-28 | the five states have names and any other value is "unknown" |
| SessionStates.StateFacts | internal/session/state.go:30-32 | exactly Completed, Failed and TimeExpired are terminal; the zero value is no state |
| SessionStates.StateNamesDistinct | internal/session/state.go:13-28 | different states have different names |
| SessionModel.Initial | internal/session/session.go:51-61 | a new session is NotStarted at index 0 with no score, empty slots and the format's starting lives, and satisfies the session invariant |
| SessionModel.SeedTime | internal/session/session.go:64-86 | Begin starts with the whole budget under total time, one question's time under per-question modes and nothing under unlimited time |
| SessionModel.Begin | internal/session/session.go:64-86 | only a NotStarted session starts, becoming Running with seeded time; otherwise ErrAlreadyEnded with nothing changed |
| SessionModel.ApplyTimeBonus | internal/session/helper.go:45-51 | only the bonus mode adds the bonus to the remaining time |
| SessionModel.ApplyTimePenalty | internal/session/helper.go:53-62 | only the bonus mode subtracts the penalty, and the remaining time never goes below zero |
| SessionModel.ResetQuestionTimer | internal/session/helper.go:38-43 | per-question modes restart the question's time; the others keep it |
| SessionModel.CheckGameOver | internal/session/helper.go:9-25 | running out of enabled lives fails the session; otherwise the last question completes it; only the state changes |
| SessionModel.Advance | internal/session/helper.go:27-32 | moves one question forward and restarts the timer unless already at the last question, and never passes the last index |
| SessionModel.Score | internal/session/session.go:104-118 | a correct grade adds one point and the bonus; a wrong one costs a life when lives are lost on wrong answers, and the penalty |
| SessionModel.Submit | internal/session/session.go:89-127 | outside Running it fails with ErrNotRunning and changes nothing; otherwise it stores the answer and grade, scores, applies the time bonus or penalty, ends or advances (restarting the question timer on a locked advance); the invariant is kept |
| SessionModel.Next | internal/session/session.go:130-148 | errors in the order not running, navigation locked, last question; it succeeds exactly when running under free navigation before the last question, and then only the index moves forward by one |
| SessionModel.Prev | internal/session/session.go:151-169 | errors in the order not running, navigation locked, first question; it succeeds exactly when running under free navigation past the first question, and then only the index moves back by one |
| SessionModel.Tick | internal/session/session.go:172-192 | nothing changes unless Running with a clock; the elapsed time is spent and running out ends the session as TimeExpired |
| SessionModel.CountCorrect | internal/session/getter.go:92-118 | the number of correct graded slots is at most the number of slots |
| SessionModel.CountCorrectFill | internal/session/getter.go:92-118 | filling an empty result slot raises the correct count by one exactly when the new result is correct |
| SessionModel.Step | internal/session/session.go:64-192 | every operation keeps the session invariant |
| SessionModel.Run | internal/session/session.go:64-192 | any sequence of operations keeps the session invariant |
| SessionModel.StepMonotone | internal/session/session.go:89-192 | one operation raises the score by at most one and only when it submits, loses at most one life, never returns to NotStarted, and does nothing from a terminal state |
| SessionModel.RunMonotone | internal/session/session.go:64-192 | over any run the score never falls and rises by at most the number of submissions, lives only fall and by at most that number, and a started session never becomes NotStarted again |
| SessionModel.TerminalAbsorbing | internal/session/state.go:30-32 | no sequence of operations changes a session that has ended |
| SessionModel.LockedStep | internal/session/session.go:89-148 | under locked navigation each operation keeps the accounting between answered slots, the index and the score |
| SessionModel.LockedScoreIsCorrectCount | internal/session/getter.go:92-118 | under locked navigation the score always equals the number of correct results that GetResults reports |
| SessionModel.InitialLockedAccounting | internal/session/session.go:51-61 | a new session starts with the locked-navigation accounting in place |
| SessionModel.InitialCountZero | internal/session/getter.go:92-118 | a new session reports no correct answers |
| SessionExamples.StandardConfig | internal/engine/mode.go:32-52 | a two-question Standard session has free navigation and no lives |
| SessionExamples.ResubmissionScoresTwice | internal/session/session.go:89-127 | under free navigation, going back and submitting the same correct answer again scores a second point |
| SessionExamples.CompletionWithUnansweredQuestion | internal/session/helper.go:9-25 | answering only the last question completes the session with an earlier question unanswered |
| SessionExamples.HardcoreWrongAnswerFails | internal/engine/mode.go:121-144 | under Hardcore the first wrong answer fails the session |
| Sessions.Session.constructor | internal/session/session.go:51-61 | the new session holds its format, questions and grader and equals the model's initial snapshot |
| Sessions.Session.Begin | internal/session/session.go:64-86 | the error and the new fields are exactly the model's Begin |
| Sessions.Session.SubmitAnswer | internal/session/session.go:89-127 | the error and the new fields are exactly the model's Submit |
| Sessions.Session.NextQuestion | internal/session/session.go:130-148 | the error and the new fields are exactly the model's Next |
| Sessions.Session.PrevQuestion | internal/session/session.go:151-169 | the error and the new fields are exactly the model's Prev |
| Sessions.Session.Tick | internal/session/session.go:172-192 | the two results and the new fields are exactly the model's Tick |
| Sessions.Session.CheckGameOver | internal/session/helper.go:9-25 | the result and the new state are exactly the model's CheckGameOver |
| Sessions.Session.Advance | internal/session/helper.go:27-32 | the new fields are exactly the model's Advance |
| Sessions.Session.ResetQuestionTimer | internal/session/helper.go:38-43 | only the remaining time changes, as the model's timer reset says |
| Sessions.Session.ApplyTimeBonus | internal/session/helper.go:45-51 | only the remaining time changes, by the bonus rule |
| Sessions.Session.ApplyTimePenalty | internal/session/helper.go:53-62 | only the remaining time changes, by the penalty rule |
| Sessions.Session.HasStarted | internal/session/getter.go:9-11 | a session has started exactly when it is past NotStarted, which is exactly when Begin would refuse it |
| Sessions.Session.IsCompleted | internal/session/getter.go:55-59 | a completed session is in a terminal state, and then Next, Prev and every submission fail with ErrNotRunning |
| Sessions.Session.CanNavigateBack | internal/session/getter.go:61-63 | going back is possible exactly under free navigation; otherwise Prev fails |
| Sessions.Session.IsAnswered | internal/session/getter.go:65-74 | an index is answered exactly when it is in range and its answer slot is filled, and then it is graded |
| Sessions.Session.GetCurrentQuestion | internal/session/getter.go:13-17 | the question at the current index, which is in range |
| Sessions.Session.GetResults | internal/session/getter.go:92-118 | the correct count is the number of correct graded slots, correct plus incorrect is the question total, and score, state, answers and grades are reported as stored |
| Reports.Report.Merge | internal/pack/report.go:9-13 | repair counts add up and the other report's warnings and errors follow the receiver's own, in order |
| Reports.MergeMonoid | internal/pack/report.go:9-13 | merging is associative and the empty report is neutral on both sides |
| Reports.NewIssue | internal/pack/report.go:50-56 | the issue carries exactly the given level, kind, message, path and reference |
| Reports.NewError | internal/pack/report.go:66-68 | an issue at error level |
| Reports.NewWarning | internal/pack/report.go:70-72 | an issue at warning level |
| Reports.CountKindAppend | internal/pack/report.go:9-13 | counting issues of a kind distributes over concatenation, which merging performs |
| PackVerify.RawChoiceQuestion.Verify | internal/pack/verify.go:27-76 | the report has no warnings, no repairs, and exactly the choice question's specified errors |
| PackVerify.RawChoiceQuestion.Repair | internal/pack/verify.go:78-82 | repairing one question's issue is a no-op report |
| PackVerify.RawMultiQuestion.Verify | internal/pack/verify.go:84-146 | the report has exactly the multi-choice question's specified errors |
| PackVerify.RawMultiQuestion.VerifyAnswers | internal/pack/verify.go:122-144 | the answer checks append at most one error, for the first out-of-range answer |
| PackVerify.RawMultiQuestion.Repair | internal/pack/verify.go:148-152 | a no-op report |
| PackVerify.RawBoolQuestion.Verify | internal/pack/verify.go:154-185 | the report has exactly the common ID, prompt and difficulty errors |
| PackVerify.RawBoolQuestion.Repair | internal/pack/verify.go:187-191 | a no-op report |
| PackVerify.RawTextQuestion.Verify | internal/pack/verify.go:193-233 | the report has exactly the text question's specified errors |
| PackVerify.RawTextQuestion.Repair | internal/pack/verify.go:235-239 | a no-op report |
| PackVerify.VerifyCommon | internal/pack/verify.go:27-53 | the ID, prompt and difficulty checks append exactly the common errors |
| PackVerify.CommonIssues | internal/pack/verify.go:27-53 | at most three errors, each referring to the question ID except the missing-ID error |
| PackVerify.CommonIssuesCount | internal/pack/verify.go:27-53 | exactly one missing-ID error when the ID is empty, one missing-field error when the prompt is empty, one difficulty error when the difficulty does not parse, and nothing else |
| PackVerify.ChoiceIssues | internal/pack/verify.go:27-76 | no error exactly when ID, prompt and difficulty are valid and the answer indexes one of the options |
| PackVerify.ChoiceIssuesCount | internal/pack/verify.go:27-76 | the number of errors of each kind in a choice question's report |
| PackVerify.FirstOutOfRange | internal/pack/verify.go:122-144 | none exactly when every answer indexes an option; otherwise an offending answer |
| PackVerify.MultiAnswerIssue | internal/pack/verify.go:122-144 | at most one answer error per question |
| PackVerify.MultiIssues | internal/pack/verify.go:84-146 | all errors, at most six |
| PackVerify.MultiIssuesCount | internal/pack/verify.go:84-146 | the number of errors of each kind in a multi-choice question's report |
| PackVerify.MultiAnswerIssueCount | internal/pack/verify.go:110-144 | an empty answer list and an out-of-range answer each give one error of their kind |
| PackVerify.TextIssues | internal/pack/verify.go:193-233 | all errors, at most four |
| PackVerify.TextIssuesCount | internal/pack/verify.go:193-233 | the number of errors of each kind in a text question's report, including the missing expected answer |
| PackVerify.BoolIssuesBound | internal/pack/verify.go:154-185 | a true/false question reports at most three errors and none exactly when ID, prompt and difficulty are valid |
| PackData.IsValidDifficultyName | internal/pack/pack.go:191-193 | a difficulty string is valid exactly when it is the name of a valid difficulty |
| PackData.CommonCheck | internal/pack/pack.go:63-75 | a missing ID or prompt is reported first, then a duplicate ID, then an invalid difficulty |
| PackData.SeenAfter | internal/pack/pack.go:63-75 | validation records the question's ID among the seen IDs exactly when the ID and prompt are present |
| PackData.ChoiceCheck | internal/pack/pack.go:63-82 | a choice question passes exactly when the common checks pass and the answer indexes one of its options; the common error takes precedence |
| PackData.MultiCheck | internal/pack/pack.go:98-117 | a multi-choice question passes exactly when the common checks pass, there is at least one option, and it has at least one and at most as many answers as options (the answers' values are not checked here) |
| PackData.TextCheck | internal/pack/pack.go:163-182 | a text question passes exactly when the common checks pass, its expected answer has at least three characters and it has at least one keyword |
| PackData.RepairedID | internal/pack/pack.go:84-88 | a repaired ID is never empty and an existing ID is kept |
| PackData.RepairIdempotent | internal/pack/pack.go:84-88 | repairing twice gives the same ID as repairing once |
| PackData.RepairedIDsDistinct | internal/pack/pack.go:84-88 | repaired IDs of different indexes in one category and type differ |
| PackData.RevalidateIsDuplicate | internal/pack/pack.go:63-75 | validating the same question twice against one seen set reports a duplicate ID the second time |
| PackData.ChoiceQuestionData.Validate | internal/pack/pack.go:63-82 | the error is the choice check on the seen IDs before the call, and the seen IDs grow as the check records them |
| PackData.ChoiceQuestionData.Repair | internal/pack/pack.go:84-88 | the ID becomes the repaired ID and nothing else changes |
| PackData.MultipleChoiceQuestionData.Validate | internal/pack/pack.go:98-117 | the error is the multi-choice check, and the seen IDs grow as recorded |
| PackData.MultipleChoiceQuestionData.Repair | internal/pack/pack.go:119-123 | the ID becomes the repaired ID |
| PackData.TrueFalseQuestionData.Validate | internal/pack/pack.go:132-147 | the error is the common check, and the seen IDs grow as recorded |
| PackData.TrueFalseQuestionData.Repair | internal/pack/pack.go:149-153 | the ID becomes the repaired ID |
| PackData.TextEntryQuestionData.Validate | internal/pack/pack.go:163-182 | the error is the text check, and the seen IDs grow as recorded |
| PackData.TextEntryQuestionData.Repair | internal/pack/pack.go:184-188 | the ID becomes the repaired ID |
| PackData.ValidateCommon | internal/pack/pack.go:63-75 | the shared checks report the common error and record the ID |
| PackDomain.TypeString | internal/pack/question.go:21-34 | the four pack types have non-empty names and anything else has the empty name |
| PackDomain.TypeNamesDistinct | internal/pack/question.go:21-34 | different pack types have different names |
| PackDomain.FromEngineType | internal/pack/question.go:37-50 | each engine type maps to the pack type that converts back to it, and unknown engine types fall back to choice |
| PackDomain.EngineTagRoundTrip | internal/pack/question.go:37-50 | converting a pack type's engine tag back gives the pack type |
| PackDomain.FromEngineTypes | internal/pack/question.go:53-59 | the list is converted element by element |
| PackDomain.Validate | internal/pack/question.go:72-86 | valid exactly when ID, prompt, difficulty and answer are present, with the first missing one named in the error |
| PackDomain.ToEngine | internal/pack/question.go:88-130 | an unknown type converts to nothing; a known one converts to the engine question of the matching type with the same prompt and answer |
| PackDomain.QuestionsToEngine | internal/pack/question.go:132-138 | the list is converted element by element |
| PackDomain.Filtered | internal/pack/question.go:140-158 | the filtered questions are questions of the input that match the types and difficulty |
| PackDomain.Filter | internal/pack/question.go:140-158 | the loop keeps exactly the specified filtered questions |
| PackDomain.FilteredComplete | internal/pack/question.go:140-158 | no matching question is dropped |
| PackDomain.FilteredIsSubsequence | internal/pack/question.go:140-158 | the filter keeps the input order |
| PackDomain.FilterNothing | internal/pack/question.go:140-158 | with no types and difficulty 0, every question is kept |
| Hashing.FnvStep | internal/pack/hash.go:37-40 | one FNV-1a step stays within 64 bits |
| Hashing.FnvWriteAppend | internal/pack/hash.go:37-40 | writing two strings one after the other hashes like writing their concatenation |
| Hashing.Sum3 | internal/pack/hash.go:37-40 | three writes hash the concatenation of the three strings |
| Hashing.Hex | internal/pack/hash.go:41 | lower-case hexadecimal digits only, at least one |
| Hashing.HexLength | internal/pack/hash.go:41-42 | the hexadecimal form has at least six digits exactly when the sum is at least 0x100000, which is when taking six digits is defined |
| Hashing.Hash6 | internal/pack/hash.go:41-42 | the first six hexadecimal digits of the sum |
| Hashing.PackHash.Sum | internal/pack/hash.go:36-40 | the FNV-1a sum of name, creator and version |
| Hashing.PackHash.Hash | internal/pack/hash.go:36-43 | six hexadecimal digits, the prefix of the sum's hexadecimal form |
| Hashing.PackHash.ID | internal/pack/hash.go:45-47 | "pack-" followed by the six-digit hash |
| Hashing.QuestionHash.Sum | internal/pack/hash.go:60-64 | the FNV-1a sum of prompt, difficulty and category |
| Hashing.QuestionHash.Hash | internal/pack/hash.go:60-67 | six characters |
| Hashing.QuestionHash.ID | internal/pack/hash.go:69-71 | at least two characters |
| Hashing.QuestionHashIsFnv | internal/pack/hash.go:60-67 | a question hash is the six-digit hexadecimal prefix of its FNV-1a sum |
| Hashing.QuestionIDFormat | internal/pack/hash.go:69-71 | the ID is "q-", the pack hash, the type name, the two-digit index and the hash, dash-separated |
| Hashing.Format02d | internal/pack/hash.go:70 | at least two characters, with a minus sign exactly for negative numbers |
| Hashing.Format02dInjective | internal/pack/hash.go:70 | different indexes format differently |
| Hashing.QuestionIDsDistinctByIndex | internal/pack/hash.go:69-71 | two questions that differ only in index get different IDs |
| RawSpec.EmptyCount | internal/pack/raw.go:212-294 | the number of missing IDs is at most the number of IDs |
| RawSpec.EmptyCountAppend | internal/pack/raw.go:212-294 | missing-ID counts add up over concatenation |
| RawSpec.NonEmptySetMembers | internal/pack/raw.go:129-203 | the seen set holds exactly the non-empty IDs met so far |
| RawSpec.PackIssues | internal/pack/raw.go:83-126 | the pack-level checks give at most five errors |
| RawSpec.PackIssuesCount | internal/pack/raw.go:83-126 | the number of pack-level errors of each kind: missing ID, missing name, role or creator, and no categories |
| RawSpec.ScanDuplicateCount | internal/pack/raw.go:129-203 | the duplicate errors plus the distinct non-empty IDs equal the number of entries with a non-empty ID |
| RawSpec.ScanMissingIDCount | internal/pack/raw.go:129-203 | the scan reports one missing-ID error per question without an ID |
| RawSpec.ScanDuplicatesNamed | internal/pack/raw.go:129-203 | every duplicate error names a non-empty ID that occurs among the questions |
| RawSpec.ScanKeepsEntryIssues | internal/pack/raw.go:134-136 | every error of a question's own report appears in the pack report |
| RawSpec.EntriesFacts | internal/pack/raw.go:132-203 | the scanned entries carry the questions' IDs in order, each question reports no duplicate itself and one missing ID exactly when its ID is empty |
| RawSpec.VerifyCounts | internal/pack/raw.go:79-207 | in the pack report, duplicate errors plus distinct IDs equal the number of non-empty IDs, and missing-ID errors equal the missing pack ID plus the empty question IDs |
| RawSpec.HashedID | internal/pack/raw.go:228-236 | a hashed question ID is never empty |
| RawSpec.RepairChoice | internal/pack/raw.go:225-240 | a repaired choice question has an ID, keeps an existing one and changes nothing else |
| RawSpec.RepairChoices | internal/pack/raw.go:225-240 | each choice question is repaired at its own index |
| RawSpec.RepairMulti | internal/pack/raw.go:242-257 | a repaired multi-choice question has an ID and changes nothing else |
| RawSpec.RepairMultis | internal/pack/raw.go:242-257 | each multi-choice question is repaired at its own index |
| RawSpec.RepairBool | internal/pack/raw.go:259-274 | a repaired true/false question has an ID and changes nothing else |
| RawSpec.RepairBools | internal/pack/raw.go:259-274 | each true/false question is repaired at its own index |
| RawSpec.RepairText | internal/pack/raw.go:276-291 | a repaired text question has an ID and changes nothing else |
| RawSpec.RepairTexts | internal/pack/raw.go:276-291 | each text question is repaired at its own index |
| RawSpec.RepairAll | internal/pack/raw.go:223-291 | every category is repaired and the category list keeps its length and order |
| RawSpec.RepairCategoryIDs | internal/pack/raw.go:225-291 | after repair every ID in a category is non-empty and every existing ID is kept |
| RawSpec.RepairAllIDs | internal/pack/raw.go:223-291 | after repair every question ID of the pack is non-empty and every existing ID is kept |
| RawSpec.RepairClearsMissingIDs | internal/pack/raw.go:79-294 | verifying a repaired pack reports no missing ID |
| RawSpec.RepairAllIdempotent | internal/pack/raw.go:212-294 | repairing a repaired pack changes nothing |
| RawSpec.ChoiceDomain | internal/pack/raw.go:302-315 | one choice-type domain question per raw question, with its ID, parsed difficulty, category, prompt and answer |
| RawSpec.MultiDomain | internal/pack/raw.go:317-330 | one multi-choice domain question per raw question |
| RawSpec.BoolDomain | internal/pack/raw.go:332-343 | one true/false domain question per raw question |
| RawSpec.TextDomain | internal/pack/raw.go:346-358 | one text domain question per raw question, with expected answer and keywords |
| RawSpec.CategoryDomain | internal/pack/raw.go:302-358 | a category converts to as many questions as it holds |
| RawSpec.CategoryDomainFacts | internal/pack/raw.go:302-358 | converted questions carry their category, have answers fitting their type, and come in the order choice, multi-choice, true/false, text |
| RawSpec.DomainQuestions | internal/pack/raw.go:300-359 | the pack converts to as many questions as all its categories hold |
| RawSpec.DomainQuestionsFacts | internal/pack/raw.go:300-359 | every converted question converts on to an engine question and names one of the pack's categories |
| RawSpec.DomainIDs | internal/pack/raw.go:300-359 | the converted questions carry the raw question IDs in order |
| RawPacks.Raw.constructor | internal/pack/raw.go:13-23 | a raw pack holds the given fields |
| RawPacks.Raw.Verify | internal/pack/raw.go:79-207 | the report has no warnings or repairs and exactly the specified pack and question errors, including the duplicate scan |
| RawPacks.Raw.Repair | internal/pack/raw.go:212-294 | a missing pack ID becomes the pack hash ID, every category is repaired, and the repair count is the number of IDs filled in |
| RawPacks.Raw.ToDomain | internal/pack/raw.go:296-386 | the pack info copies the raw fields and path, the questions are the specified conversion, the count is their number, and the categories are the distinct category names |
| RawPacks.VerifyPackFields | internal/pack/raw.go:83-126 | the pack-level checks produce exactly the specified pack errors |
| RawPacks.VerifyCategory | internal/pack/raw.go:132-203 | one category's loops extend the report and the seen set by that category's entries |
| RawPacks.VerifyChoices | internal/pack/raw.go:134-149 | the choice loop extends the report and seen set by the choice entries |
| RawPacks.VerifyMultis | internal/pack/raw.go:152-167 | the multi-choice loop extends the report and seen set by its entries |
| RawPacks.VerifyBools | internal/pack/raw.go:170-185 | the true/false loop extends the report and seen set by its entries |
| RawPacks.VerifyTexts | internal/pack/raw.go:188-203 | the text loop extends the report and seen set by its entries |
| RawPacks.VerifyEntry | internal/pack/raw.go:135-148 | one question's report is merged and its ID checked against the seen set, as the scan specifies |
| RawPacks.RecordID | internal/pack/raw.go:138-148 | a non-empty ID already seen adds a duplicate error, and the ID is recorded |
| RawPacks.RepairCategories | internal/pack/raw.go:223-291 | the categories are repaired as specified and the count is their number of missing IDs |
| RawPacks.RepairCategoryLists | internal/pack/raw.go:225-291 | the four lists of one category are repaired as specified and the count is its number of missing IDs |
| RawPacks.RepairChoiceList | internal/pack/raw.go:225-240 | the choice list is repaired as specified and the count is its missing IDs |
| RawPacks.RepairMultiList | internal/pack/raw.go:242-257 | the multi-choice list is repaired as specified |
| RawPacks.RepairBoolList | internal/pack/raw.go:259-274 | the true/false list is repaired as specified |
| RawPacks.RepairTextList | internal/pack/raw.go:276-291 | the text list is repaired as specified |
| RawPacks.AppendCategory | internal/pack/raw.go:300-359 | one category's questions are appended after the earlier ones |
| RawPacks.AppendChoices | internal/pack/raw.go:302-315 | the converted choice questions are appended |
| RawPacks.AppendMultis | internal/pack/raw.go:317-330 | the converted multi-choice questions are appended |
| RawPacks.AppendBools | internal/pack/raw.go:332-343 | the converted true/false questions are appended |
| RawPacks.AppendTexts | internal/pack/raw.go:346-358 | the converted text questions are appended |
| RawPacks.CategoryNames | internal/pack/raw.go:361-369 | each category name appears once |
| PackMetadata.TotalCountAppend | internal/pack/metadata.go:40-45 | the question total adds up over the packs |
| PackMetadata.PacksIndexKeys | internal/pack/metadata.go:40-42 | the pack index has exactly the IDs of the packs |
| PackMetadata.PacksIndexLast | internal/pack/metadata.go:40-42 | when IDs repeat, the last pack with an ID is the one indexed |
| PackMetadata.PacksIndexSelfKeyed | internal/pack/metadata.go:40-42 | every indexed info carries the ID it is filed under |
| PackMetadata.RoleIDs | internal/pack/metadata.go:50-51 | a role's catalogue lists at most one ID per pack |
| PackMetadata.CatalogInOrder | internal/pack/metadata.go:50-51 | a role is in the catalogue exactly when some pack has it, and its list is its packs' IDs in input order |
| PackMetadata.RoleIDsMembers | internal/pack/metadata.go:50-51 | a role's list holds exactly the IDs of the packs with that role |
| PackMetadata.Elements | internal/pack/metadata.go:54-56 | the set of a list's elements |
| PackMetadata.CategorySetMembers | internal/pack/metadata.go:53-62 | the category set holds exactly the categories of some pack |
| PackMetadata.RoleSetMembers | internal/pack/metadata.go:47-65 | the role set holds exactly the roles of some pack |
| PackMetadata.KnownInfos | internal/pack/metadata.go:124-138 | looked-up infos come from IDs that are in the index, at most one per ID |
| PackMetadata.KnownInfosAppend | internal/pack/metadata.go:124-138 | lookups over concatenated ID lists concatenate |
| PackMetadata.PacksByRoleOfBuild | internal/pack/metadata.go:28-71 | with distinct pack IDs, the packs of a role found through the catalogue and the index are that role's packs in input order |
| PackMetadata.RoleInfosByIDs | internal/pack/metadata.go:124-138 | with distinct pack IDs, looking up a role's IDs in the index gives its packs' infos |
| PackMetadata.Metadata.Build | internal/pack/metadata.go:28-71 | the question total, the index by ID, the role catalogue, and the categories and roles each once |
| PackMetadata.Metadata.GetPacksByRole | internal/pack/metadata.go:124-138 | the infos of the role's catalogued IDs that are in the index, in catalogue order |
| PackMetadata.Metadata.GetCategoriesByRole | internal/pack/metadata.go:140-156 | each category of the role's packs exactly once |
| PackMetadata.Metadata.PackIDs | internal/pack/metadata.go:158-165 | one entry per indexed pack, holding exactly the indexed packs' IDs |
| PackMetadata.AddCategories | internal/pack/metadata.go:54-56 | the set gains the pack's categories |
| PackCache.IndexKeys | internal/pack/cache.go:61-79 | the question index has exactly the IDs of the questions |
| PackCache.IndexLast | internal/pack/cache.go:73-76 | the last question with an ID is the one indexed, as its engine question |
| PackCache.QuestionIndex.Generate | internal/pack/cache.go:61-79 | the index is rebuilt from scratch from the packs' questions |
| PackCache.QuestionIndex.AddPackQuestions | internal/pack/cache.go:73-76 | one pack's questions are added to the index |
| PackCache.QuestionIndex.Fetch | internal/pack/cache.go:81-89 | one result per requested ID: the indexed question, or nothing for an unknown ID |
| PackCache.LookupBuckets | internal/pack/cache.go:119-151 | each bucket of the built lookup is the matching question IDs of the packs with that role, in input order |
| PackCache.MatchingIDsMembers | internal/pack/cache.go:133-147 | a bucket holds exactly the IDs of questions of that difficulty and type |
| PackCache.BucketOfMembers | internal/pack/cache.go:119-151 | a bucket holds exactly the IDs of questions of that difficulty and type in packs of that role |
| PackCache.QuestionIDsFor | internal/pack/cache.go:153-179 | nothing for an unknown difficulty or role |
| PackCache.QuestionIDsOfBuild | internal/pack/cache.go:153-179 | on a built lookup, the requested IDs are the concatenated buckets of the requested types |
| PackCache.AvailableRoleOfBuild | internal/pack/cache.go:183-214 | a role is available on a built lookup exactly when one of its packs has a question of the difficulty and one of the types |
| PackCache.Lookup.Generate | internal/pack/cache.go:119-151 | the lookup is rebuilt from scratch from the packs |
| PackCache.Lookup.GetQuestionIDs | internal/pack/cache.go:153-179 | the IDs are the specified concatenation of buckets |
| PackCache.Lookup.GetAvailableRoles | internal/pack/cache.go:183-214 | each role once, exactly those with a non-empty bucket for one of the types at the difficulty |
| PackCache.TypesHaveQuestions | internal/pack/cache.go:197-205 | true exactly when some requested type has a non-empty bucket |
| PackCache.AddID | internal/pack/cache.go:135-146 | the ID is appended to its bucket, creating the levels on the way |
| Text.LowerChar | internal/engine/grader.go:63 | an upper-case ASCII letter becomes its lower-case letter and every other character stays |
| Text.ToLower | internal/engine/grader.go:63 | each character is lower-cased in place |
| Text.ToLowerIdempotent | internal/engine/grader.go:63-68 | lower-casing twice is lower-casing once |
| Text.ContainsAt | internal/engine/grader.go:68 | a string contains another exactly when it occurs at some position |
| Text.NatToString | internal/pack/hash.go:70 | decimal digits only, at least one, at least two for numbers from 10 |
| Text.NatToStringValue | internal/pack/hash.go:70 | the digits read back as the number |
| Text.NatToStringInjective | internal/pack/hash.go:70 | different numbers have different decimal forms |
| Text.Pad2 | internal/pack/hash.go:70 | at least two digits that read back as the number |
| Text.IntToString | internal/pack/hash.go:70 | never empty, and starting with a minus sign exactly for negative numbers |
| WidgetGraph.Invert | internal/ui/widgets/graph.go:29-42 | the four directions invert to their opposites and anything else stays |
| WidgetGraph.InvertInvolution | internal/ui/widgets/graph.go:29-42 | inverting twice gives the direction back |
| WidgetGraph.Move | internal/ui/widgets/graph.go:92-109 | the cursor moves along an edge exactly when it stands on an enabled node with that edge to an enabled non-empty node; otherwise it stays |
| WidgetGraph.Connected | internal/ui/widgets/graph.go:79-90 | only the source node gains the edge, and a missing node is left alone |
| WidgetGraph.BiLinked | internal/ui/widgets/graph.go:19-23 | the two nodes gain the edge and its inverse, and nothing else changes |
| WidgetGraph.BiEdgeNavigable | internal/ui/widgets/graph.go:19-23 | after linking two enabled, non-empty nodes both ways, moving along the edge and back reaches each from the other |
| WidgetGraph.Graph.constructor | internal/ui/widgets/graph.go:65-69 | a new graph has no nodes |
| WidgetGraph.Graph.AddNode | internal/ui/widgets/graph.go:71-77 | the node is stored at its cursor with no edges, replacing any node there |
| WidgetGraph.Graph.Connect | internal/ui/widgets/graph.go:79-90 | the nodes become the specified connected nodes |
| WidgetGraph.Graph.BiEdge | internal/ui/widgets/graph.go:19-23 | the nodes become the specified doubly linked nodes |
| Selections.Get | internal/ui/widgets/selection.go:47-49 | a missing map or key reads as false |
| Selections.Flipped | internal/ui/widgets/selection.go:32-37 | the cursor's checkbox is negated, a missing map is created, and every other checkbox reads as before |
| Selections.FlippedTwice | internal/ui/widgets/selection.go:32-37 | toggling twice restores every checkbox |
| Selections.MultiSelection.constructor | internal/ui/widgets/selection.go:30-31 | the selection holds the given map |
| Selections.MultiSelection.Toggle | internal/ui/widgets/selection.go:32-37 | the cursor's checkbox is negated and every other checkbox is unchanged |
| Selections.MultiSelection.Select | internal/ui/widgets/selection.go:39-41 | selecting toggles |
| Selections.MultiSelection.IsSelected | internal/ui/widgets/selection.go:47-49 | true exactly when the map holds true for the cursor |
| Selections.IsSelectable | internal/ui/widgets/selection.go:12-86 | single and multi selections accept a selection; column-based and no selection do not |
| Selections.IsSelected | internal/ui/widgets/selection.go:12-86 | single and no selection never select; multi reads its map; column-based reads the left map in column 0 and the right map in column 1 |
| Controllers.Controller.constructor | internal/ui/widgets/controller.go:1-8 | the controller holds the given cursor, selection and graph |
| Controllers.Controller.Move | internal/ui/widgets/controller.go:9-17 | the cursor moves as the graph's move says, stays without a graph, and selection and graph are untouched |
| Controllers.Controller.Toggle | internal/ui/widgets/controller.go:19-23 | a multi selection flips the cursor's checkbox and an unselectable selection is untouched |
| Controllers.Controller.Select | internal/ui/widgets/controller.go:25-29 | a multi selection flips the cursor's checkbox and an unselectable selection is untouched |
| Wiring.At | internal/ui/widgets/widget.go:112-126 | the i-th cell of a line sits at position i on that line |
| Wiring.OnLineNext | internal/ui/widgets/widget.go:112-119 | a line one longer has one more cell, the next one |
| Wiring.Forward | internal/ui/widgets/widget.go:122-126 | the forward direction of a line is not its own inverse |
| Wiring.AddLine | internal/ui/widgets/widget.go:112-119 | one node per item on the line, holding its item, and other nodes untouched |
| Wiring.LinkLine | internal/ui/widgets/widget.go:122-126 | consecutive cells of the line are linked both ways and nothing else changes |
| Wiring.BuildLine | internal/ui/widgets/widget.go:108-138 | a fresh graph that is exactly the line of the items |
| Wiring.LineMoves | internal/ui/widgets/widget.go:108-138 | on a built line, moving forward or back reaches the neighbour and any other move stays put |
| Wiring.BuildGrid | internal/ui/widgets/widget.go:59-105 | a fresh graph that is exactly the grid of the items |
| Wiring.AddGridNodes | internal/ui/widgets/widget.go:65-76 | one unlinked node per item at its row and column |
| Wiring.LinkGrid | internal/ui/widgets/widget.go:79-93 | every cell is linked right and down to its neighbours, both ways |
| Wiring.LinkGridRow | internal/ui/widgets/widget.go:79-93 | one row's links are added |
| Wiring.LinkGridCell | internal/ui/widgets/widget.go:80-92 | one cell's right and down links are added |
| Wiring.GridMoveDown | internal/ui/widgets/widget.go:79-93 | on a built grid, moving down reaches the cell below when it exists and otherwise stays |
| Wiring.GridMoveUp | internal/ui/widgets/widget.go:79-93 | moving up reaches the cell above when it exists and otherwise stays |
| Wiring.GridMoveRight | internal/ui/widgets/widget.go:79-93 | moving right reaches the next cell of the row when it exists and otherwise stays |
| Wiring.GridMoveLeft | internal/ui/widgets/widget.go:79-93 | moving left reaches the previous cell of the row when it exists and otherwise stays |
| Widgets.NewList | internal/ui/widgets/widget.go:108-138 | a vertical line of the items, single selection, cursor at the first cell |
| Widgets.NewCheckboxList | internal/ui/widgets/widget.go:141-169 | a vertical line with an empty checkbox map |
| Widgets.NewBar | internal/ui/widgets/widget.go:172-202 | a horizontal line of the items, single selection |
| Widgets.NewGrid | internal/ui/widgets/widget.go:59-105 | the grid of the items, single selection |
| Widgets.NewChoiceWidget | internal/ui/widgets/widget.go:209-239 | a vertical line of the options, single selection |
| Widgets.NewMultipleChoiceWidget | internal/ui/widgets/widget.go:242-270 | a vertical line of the options with an empty checkbox map |
| Widgets.NewBoolWidget | internal/ui/widgets/widget.go:273-301 | "True" above "False", linked both ways, single selection |
| Widgets.GetItem | internal/ui/widgets/widget.go:21-27 | the item under the cursor and true when a node is there; otherwise the empty item and false |
| Widgets.GetSelectedItems | internal/ui/widgets/widget.go:30-51 | for a multi selection, the items of exactly the checked cursors that have nodes, each once; nothing for other selections |
| DualColumn.NewDualColumnBase | internal/ui/widgets/dual_column.go:23-87 | two linked columns of the items, rows linked across, column-based selection with empty maps, cursor at the top left |
| DualColumn.BuildColumns | internal/ui/widgets/dual_column.go:32-62 | each column's nodes hold their items and are linked vertically |
| DualColumn.LinkAcross | internal/ui/widgets/dual_column.go:65-71 | rows present in both columns are linked across, both ways |
| DualColumn.LinkRowAcross | internal/ui/widgets/dual_column.go:65-71 | one more row is linked across |
| DualColumn.Filled | internal/ui/widgets/dual_column.go:153-172 | the items with text, never more than the column holds |
| DualColumn.Labels | internal/ui/widgets/dual_column.go:176-195 | the text of each item, in order |
| DualColumn.FilledMembers | internal/ui/widgets/dual_column.go:153-172 | the filled items are exactly the column's items with text |
| DualColumn.MoveKeepsItems | internal/ui/widgets/dual_column.go:91-138 | blanking an item in one column and appending it to the other keeps the multiset of items with text across both columns |
| DualColumn.DualColumnWidget.constructor | internal/ui/widgets/dual_column.go:12-20 | the widget holds the two item lists over a fresh dual-column graph with the cursor at the top left |
| DualColumn.DualColumnWidget.MoveItem | internal/ui/widgets/dual_column.go:91-138 | an item with text under the cursor moves to the end of the other column, leaving a blank, the graph is rebuilt and the cursor follows it; otherwise nothing changes; items with text are conserved either way |
| DualColumn.DualColumnWidget.Rebuild | internal/ui/widgets/dual_column.go:141-150 | a fresh graph for the current items, with cursor and selection kept |
| DualColumn.DualColumnWidget.GetLeftItems | internal/ui/widgets/dual_column.go:153-161 | the left column's items with text |
| DualColumn.DualColumnWidget.GetRightItems | internal/ui/widgets/dual_column.go:164-172 | the right column's items with text |
| DualColumn.DualColumnWidget.GetLeftItemLabels | internal/ui/widgets/dual_column.go:187-195 | the labels of the left column's items with text |
| DualColumn.DualColumnWidget.GetRightItemLabels | internal/ui/widgets/dual_column.go:176-184 | the labels of the right column's items with text |
| DualColumn.CollectFilled | internal/ui/widgets/dual_column.go:153-161 | the loop keeps exactly the items with text, in order |
| DualColumn.CollectLabels | internal/ui/widgets/dual_column.go:176-184 | the loop collects exactly the labels of the items with text |
| DualColumn.FilledLabels | internal/ui/widgets/dual_column.go:176-195 | a label is reported exactly when some item with that text is in the column |
| Layouts.Type | internal/ui/widgets/shape.go:33-59 | each rule's shape type is one of grid, bar and column |
| Layouts.TypeInjective | internal/ui/widgets/shape.go:33-59 | different rules have different shape types |
| Layouts.AllowMultiple | internal/ui/widgets/shape.go:35-61 | only a grid stands alone |
| Layouts.CanAttach | internal/ui/widgets/shape.go:37-65 | a rule attaches only next to shapes of its own type, and only when it stacks |
| Layouts.Normalize | internal/ui/widgets/shape.go:39-69 | a bar is one row high, a column one column wide, a grid keeps its size |
| Layouts.NormalizeIdempotent | internal/ui/widgets/shape.go:39-69 | normalising twice is normalising once |
| Layouts.NewShape | internal/ui/widgets/shape.go:71-83 | a zero size gives the zero shape; otherwise the rule's type with the normalised size |
| Layouts.NewShapeNormal | internal/ui/widgets/shape.go:71-83 | a new shape of non-zero size is already normalised |
| Layouts.FirstClash | internal/ui/widgets/layout.go:64-68 | no clash exactly when the rule can attach to every shape; otherwise the type of a shape it cannot attach to |
| Layouts.Attached | internal/ui/widgets/layout.go:57-72 | attaching succeeds exactly when the rule may stack or the container is empty and it fits every shape, and then the new shape is appended |
| Layouts.AttachedKeepsSingleType | internal/ui/widgets/layout.go:57-72 | attaching a shape of non-zero size keeps a container to one shape type |
| Layouts.AttachZeroPoisons | internal/ui/widgets/layout.go:57-72 | attaching a zero-size bar to a bar container succeeds but stores a grid, after which attaching another bar fails |
| Layouts.AttachedChecked | internal/ui/widgets/layout.go:57-72 | a zero size is rejected; otherwise attaching is as written |
| Layouts.AttachedCheckedKeepsSingleType | internal/ui/widgets/layout.go:57-72 | with the size check, every successful attach keeps a container to one shape type |
| Layouts.Dims | internal/ui/widgets/layout.go:74-102 | an empty container and an unknown first shape type are the only failures |
| Layouts.AttachGrowsStack | internal/ui/widgets/layout.go:57-102 | attaching a column adds its rows to the container's height; attaching a bar adds one row |
| Layouts.Container.constructor | internal/ui/widgets/layout.go:51-53 | a new container has no shapes |
| Layouts.Container.Attach | internal/ui/widgets/layout.go:57-72 | success stores exactly the specified attach result; failure reports its error and leaves the shapes alone |
| Layouts.Container.Dimensions | internal/ui/widgets/layout.go:74-102 | the specified dimensions, or the specified error with zero rows and columns |
| Layouts.CollectMeaning | internal/ui/widgets/layout.go:28-42 | collecting succeeds exactly when every present container has dimensions, giving one block per container; a failure is the first container's error |
| Layouts.LaidOutMeaning | internal/ui/widgets/layout.go:19-49 | a layout connects exactly when some container is present and all have dimensions; with none present it fails with the no-containers error |
| Layouts.Layout.constructor | internal/ui/widgets/layout.go:5-9 | the layout holds the given header, body and footer |
| Layouts.Layout.Connect | internal/ui/widgets/layout.go:19-49 | the blocks or error are exactly the specified layout of the present sections, header, body, footer in that order |
| Layouts.ShapesOf | internal/ui/widgets/layout.go:28-31 | a missing container is skipped and a present one contributes its shapes |
| Layouts.PresentSplit | internal/ui/widgets/layout.go:28-31 | skipping missing containers commutes with splitting the section list |
| Layouts.CollectFailureStays | internal/ui/widgets/layout.go:33-36 | after one container fails, later containers do not change the error |
| Contexts.FlipKnown | internal/ui/context/context.go:92-96 | a known pack's switch is negated, every other switch stays, and an unknown pack is not added |
| Contexts.FlipKnownTwice | internal/ui/context/context.go:92-96 | toggling a pack twice restores every switch |
| Contexts.FlipKnownCommutes | internal/ui/context/context.go:92-96 | toggling two packs gives the same switches in either order |
| Contexts.Context.constructor | internal/ui/context/context.go:42-53 | every indexed pack gets a switch, which is on exactly when the saved settings list it; unknown saved IDs are ignored |
| Contexts.Context.IsPackActive | internal/ui/context/context.go:87-89 | true only for a known pack whose switch is on |
| Contexts.Context.GetActivePacks | internal/ui/context/context.go:76-84 | each active pack once, and exactly the active ones |
| Contexts.Context.TogglePack | internal/ui/context/context.go:92-96 | the switches become the flipped switches, so a known pack becomes active exactly when it was inactive |

## Findings

| source | as written | input that shows it | evidently intended | confidence | as-written member | corrected member |
|---|---|---|---|---|---|---|
| internal/ui/widgets/layout.go:57-72 | `Attach` checks the rule against the stored shapes, then appends `NewShape(rule, rows, cols)`; for a zero size, `NewShape` (shape.go:71-83) prints a message and returns `Shape{}`, a 0 x 0 grid | attaching with the bar rule at 0 x 5 to a container holding one 5 x 1 bar succeeds; attaching another bar then fails with "cannot attach Bar to Grid" | a zero size should be rejected, so that a container keeps to one shape type | not executed | Layouts.AttachZeroPoisons | Layouts.AttachedChecked (with Layouts.AttachedCheckedKeepsSingleType) |

## Left out

- File I/O is not modelled. This covers `Raw.Save`, `Metadata.Save`/`Load`/`LoadPack`, the cache `Save`/`Load`, the loader (`Read`, `Unpack`, `LoadAll`, `Load`) and user settings. `Metadata.Build` and the cache `Generate` methods take the already-loaded packs rather than pack IDs read from disk, so their load-error paths are absent.
- `NewContext` reads the settings and packs from disk, and `buildCache`/`RebuildCache` regenerate the caches from disk. The context's constructor takes the metadata index and the saved active IDs as parameters, and the cache rebuild is not modelled.
- The session's mutex is not modelled: every method is taken as atomic. The wall-clock stamps `startTime`/`endTime` and `GetElapsedTime` are dropped, and `Tick` takes the elapsed time as a parameter.
- Durations and counters are unbounded integers. The source's `int`/`int64` overflow is not modelled.
- Graders.AccuracyGrade: the `float32` accuracy is represented exactly as the fraction found/total, so float rounding is not modelled.
- Graders.ScoreGrade: the never-set float multiplier of `ScoreResult` is left out.
- Strings are sequences of characters. `strings.ToLower` is modelled on ASCII letters only, and hashing writes one byte per character (non-ASCII text would be encoded differently).
- Hashing.QuestionHash.Hash: its own contract gives only the length; the hexadecimal content is stated by the lemma `Hashing.QuestionHashIsFnv`.
- Hashing.QuestionHash.ID: its own contract gives only a lower bound on the length; the exact format is stated by `Hashing.QuestionIDFormat`.
- The `String` methods of `TimeMode`, `Progression` and `Navigation` are not modelled, because nothing in the modelled core compares those names. The one-line getters of the session (`GetCurrentIndex`, `GetTimeRemaining`, `GetLivesRemaining`, `GetScore`, `GetState`, `GetFormat`) are field reads and have no members. `Metadata.GetRoles`/`GetCategories` are also field reads without members.
- `Metadata.ActivePacks` is an unfinished stub in the source and is not modelled.
- The following are rendering concerns and not modelled: widget renderers, `Render`, item `Action` closures, the item constructors, and the graph builder's forwarding methods. `cols` in `NewGrid` reaches only the renderer.
- `NewShape` prints a message for a zero size; the print is dropped.
- `Block.Items` is never filled by `Layout.Connect`, so the model's blocks carry no items beyond what the source sets.
- Go map iteration order is not modelled. Loops over maps pick any remaining key. `GetActivePacks`, `GetAvailableRoles`, `GetSelectedItems`, `Metadata.Build`'s categories and roles, and `Raw.ToDomain`'s category list therefore promise contents and distinctness, not order. `Raw.Verify`, `Raw.Repair` and `Raw.ToDomain` iterate over categories in the order of a given list.
- `MoveItem` and the repair loops update slices in place. The model reassigns sequences, so aliasing between the widget's item slices and the caller's slices is not captured.
- The source panics in the situations below. The model states each one as a precondition of the member named and does not model the panic itself:
  - SessionModel.Submit and Sessions.Session.SubmitAnswer (`SubmitDefined`): an empty question list, indexed at session.go:98, and an answer the grade policy cannot grade. Binary, Accuracy and Score assert a list answer for a multiple-choice question, and Practice asserts a text question (grader.go).
  - Graders.BinaryGrade, Graders.AccuracyGrade, Graders.ScoreGrade, Graders.PracticeGrade and Graders.Grade (`BinaryDefined`, `CanGrade`): the same type assertions.
  - Sessions.Session.GetCurrentQuestion: an empty question list, indexed at getter.go:16.
  - Rules.BuildTimeRules, Rules.BuildLifeRules and Modes.ModeFormat (`IsTimeMode`, `IsLifeMode`, `CanBuild`): an unknown time or life mode, which rules.go rejects by panicking.
  - Hashing.Hash6, Hashing.PackHash.Hash, Hashing.PackHash.ID, Hashing.QuestionHash.Hash and Hashing.QuestionHash.ID (`HashDefined`): a hexadecimal digest shorter than six digits, which `sum[:6]` at hash.go:42 and 66 would slice out of range.
  - RawPacks.Raw.Repair (`HashDefined`, `Hashable`): the same short digest, for the pack ID and for every question ID it fills.
  - PackDomain.ToEngine, PackDomain.QuestionsToEngine, PackCache.QuestionIndex.Generate (`AnswerFitsType`, `Convertible`): an answer value of the wrong dynamic type, which question.go:88-130 asserts.
  - Widgets.GetItem and Widgets.GetSelectedItems: a nil graph, which widget.go:21-51 dereferences.
  - DualColumn.DualColumnWidget.MoveItem: a negative cursor row inside a column's length, which dual_column.go:91-138 would index out of range.
