/** Raw question records as read from a pack file, and their own checks
    (internal/pack/raw.go, internal/pack/verify.go). Each `Verify` is a
    method that appends to its report step by step; the `...Issues`
    functions say which errors it must produce. */
module PackVerify {
  import opened Wrappers
  import opened Text
  import opened Game
  import opened Reports

  datatype RawChoiceQuestion = RawChoiceQuestion(
    id: string, difficulty: string, prompt: string, options: seq<string>, answer: int)
  {
    /** `RawChoiceQuestion.Verify`. */
    method Verify() returns (report: Report)
      ensures report == Report(0, [], ChoiceIssues(this))
    {
      report := VerifyCommon(id, prompt, difficulty, "choice");
      ghost var errors := report.errors;
      if |options| == 0 {
        report := report.(errors := report.errors + [NewError(IssueMissingField, "No options provided", "choice", id)]);
      }
      assert report.errors == errors + When(|options| == 0, NewError(IssueMissingField, "No options provided", "choice", id));
      if answer < 0 || answer >= |options| {
        report := report.(errors := report.errors + [AnswerIssue(answer, |options|, "choice", id)]);
      }
    }

    /** `RawChoiceQuestion.Repair` repairs nothing. */
    function Repair(issue: Issue): (r: Report)
      ensures r.repaired == 0 && r.errors == [] && r.warnings == []
    {
      EmptyReport
    }
  }

  datatype RawMultiQuestion = RawMultiQuestion(
    id: string, difficulty: string, prompt: string, options: seq<string>, answer: seq<int>)
  {
    /** `RawMultiQuestion.Verify`; the index scan stops at the first index
        out of range. */
    method Verify() returns (report: Report)
      ensures report == Report(0, [], MultiIssues(this))
    {
      report := VerifyCommon(id, prompt, difficulty, "multi");
      ghost var errors := report.errors;
      if |options| == 0 {
        report := report.(errors := report.errors + [NewError(IssueMissingField, "No options provided", "multi", id)]);
      }
      assert report.errors == errors + When(|options| == 0, NewError(IssueMissingField, "No options provided", "multi", id));
      errors := report.errors;
      if |answer| == 0 {
        report := report.(errors := report.errors + [NewError(IssueMissingField, "No correct answers specified", "multi", id)]);
      }
      assert report.errors == errors + When(|answer| == 0, NewError(IssueMissingField, "No correct answers specified", "multi", id));
      report := VerifyAnswers(report);
    }

    /** The index scan at the end of `Verify`: the first index out of
        range gets an InvalidAnswer error and ends the scan. */
    method VerifyAnswers(report: Report) returns (report': Report)
      ensures report' == report.(errors := report.errors + MultiAnswerIssue(this))
    {
      report' := report;
      var i := 0;
      while i < |answer|
        invariant 0 <= i <= |answer|
        invariant report' == report
        invariant FirstOutOfRange(answer, |options|) == FirstOutOfRange(answer[i..], |options|)
      {
        var ans := answer[i];
        if ans < 0 || ans >= |options| {
          assert FirstOutOfRange(answer, |options|) == Some(ans);
          report' := report'.(errors := report'.errors + [AnswerIssue(ans, |options|, "multi", id)]);
          return;
        }
        assert answer[i..][1..] == answer[i + 1..];
        i := i + 1;
      }
      assert answer[i..] == [];
    }

    /** `RawMultiQuestion.Repair` repairs nothing. */
    function Repair(issue: Issue): (r: Report)
      ensures r.repaired == 0 && r.errors == [] && r.warnings == []
    {
      EmptyReport
    }
  }

  datatype RawBoolQuestion = RawBoolQuestion(id: string, difficulty: string, prompt: string, answer: bool)
  {
    /** `RawBoolQuestion.Verify`. */
    method Verify() returns (report: Report)
      ensures report == Report(0, [], CommonIssues(id, prompt, difficulty, "bool"))
    {
      report := VerifyCommon(id, prompt, difficulty, "bool");
    }

    /** `RawBoolQuestion.Repair` repairs nothing. */
    function Repair(issue: Issue): (r: Report)
      ensures r.repaired == 0 && r.errors == [] && r.warnings == []
    {
      EmptyReport
    }
  }

  datatype RawTextQuestion = RawTextQuestion(
    id: string, difficulty: string, prompt: string, expected: string, keywords: seq<string>)
  {
    /** `RawTextQuestion.Verify`. */
    method Verify() returns (report: Report)
      ensures report == Report(0, [], TextIssues(this))
    {
      report := VerifyCommon(id, prompt, difficulty, "text");
      if expected == "" && |keywords| == 0 {
        report := report.(errors := report.errors
          + [NewError(IssueMissingField, "Must have either expected answer or keywords", "text", id)]);
      }
    }

    /** `RawTextQuestion.Repair` repairs nothing. */
    function Repair(issue: Issue): (r: Report)
      ensures r.repaired == 0 && r.errors == [] && r.warnings == []
    {
      EmptyReport
    }
  }

  /** One category's four question lists. */
  datatype RawCategory = RawCategory(
    choice: seq<RawChoiceQuestion>,
    multipleChoice: seq<RawMultiQuestion>,
    boolean: seq<RawBoolQuestion>,
    textEntry: seq<RawTextQuestion>)

  /** The InvalidDifficulty error. */
  function DifficultyIssue(difficulty: string, path: string, ref: string): Issue {
    NewError(IssueInvalidDifficulty, "Invalid difficulty: " + difficulty, path, ref)
  }

  /** The InvalidAnswer error for an index outside `0..optionCount-1`. */
  function AnswerIssue(ans: int, optionCount: int, path: string, ref: string): Issue {
    NewError(IssueInvalidAnswer,
             "Answer index " + IntToString(ans) + " out of range (0-" + IntToString(optionCount - 1) + ")",
             path, ref)
  }

  /** A one-element list when the condition holds, else empty. */
  function When(b: bool, issue: Issue): (r: seq<Issue>)
    ensures |r| == (if b then 1 else 0)
  {
    if b then [issue] else []
  }

  lemma CountWhen(b: bool, issue: Issue, k: IssueKind)
    ensures CountKind(When(b, issue), k) == (if b && issue.kind == k then 1 else 0)
  {
    if b {
      assert When(b, issue)[..0] == [];
    }
  }

  /** The checks all four kinds share: a missing ID (reported with an
      empty ref), a missing prompt, and a difficulty that does not parse. */
  function CommonIssues(id: string, prompt: string, difficulty: string, path: string): (r: seq<Issue>)
    ensures AllErrors(r) && |r| <= 3
    ensures forall i :: 0 <= i < |r| ==> (r[i].ref == if r[i].kind == IssueMissingID then "" else id)
  {
    When(id == "", NewError(IssueMissingID, "Missing question ID", path, ""))
    + When(prompt == "", NewError(IssueMissingField, "Missing prompt", path, id))
    + When(ParseDifficulty(difficulty) == 0, DifficultyIssue(difficulty, path, id))
  }

  /** The three checks every `Verify` starts with, in order. */
  method VerifyCommon(id: string, prompt: string, difficulty: string, path: string) returns (report: Report)
    ensures report == Report(0, [], CommonIssues(id, prompt, difficulty, path))
  {
    report := EmptyReport;
    if id == "" {
      report := report.(errors := report.errors + [NewError(IssueMissingID, "Missing question ID", path, "")]);
    }
    if prompt == "" {
      report := report.(errors := report.errors + [NewError(IssueMissingField, "Missing prompt", path, id)]);
    }
    if ParseDifficulty(difficulty) == 0 {
      report := report.(errors := report.errors + [DifficultyIssue(difficulty, path, id)]);
    }
  }

  /** One error per failed shared check. */
  lemma CommonIssuesCount(id: string, prompt: string, difficulty: string, path: string, k: IssueKind)
    ensures CountKind(CommonIssues(id, prompt, difficulty, path), k) ==
      (if id == "" && k == IssueMissingID then 1 else 0)
      + (if prompt == "" && k == IssueMissingField then 1 else 0)
      + (if !IsValidDifficulty(ParseDifficulty(difficulty)) && k == IssueInvalidDifficulty then 1 else 0)
  {
    var a := When(id == "", NewError(IssueMissingID, "Missing question ID", path, ""));
    var b := When(prompt == "", NewError(IssueMissingField, "Missing prompt", path, id));
    var c := When(ParseDifficulty(difficulty) == 0, DifficultyIssue(difficulty, path, id));
    CountKindSplit3(a, b, c, k);
    CountWhen(id == "", NewError(IssueMissingID, "Missing question ID", path, ""), k);
    CountWhen(prompt == "", NewError(IssueMissingField, "Missing prompt", path, id), k);
    CountWhen(ParseDifficulty(difficulty) == 0, DifficultyIssue(difficulty, path, id), k);
  }

  /** The errors a choice question gets: the shared ones, then no options,
      then an answer index outside the options. */
  function ChoiceIssues(q: RawChoiceQuestion): (r: seq<Issue>)
    ensures AllErrors(r) && |r| <= 5
    ensures r == [] <==> q.id != "" && q.prompt != "" && IsValidDifficulty(ParseDifficulty(q.difficulty))
                         && 0 <= q.answer < |q.options|
  {
    CommonIssues(q.id, q.prompt, q.difficulty, "choice")
    + When(|q.options| == 0, NewError(IssueMissingField, "No options provided", "choice", q.id))
    + When(q.answer < 0 || q.answer >= |q.options|, AnswerIssue(q.answer, |q.options|, "choice", q.id))
  }

  /** One error per failed check; in particular a question without options
      gets both a MissingField and an InvalidAnswer error. */
  lemma ChoiceIssuesCount(q: RawChoiceQuestion, k: IssueKind)
    ensures CountKind(ChoiceIssues(q), k) ==
      (if q.id == "" && k == IssueMissingID then 1 else 0)
      + (if q.prompt == "" && k == IssueMissingField then 1 else 0)
      + (if !IsValidDifficulty(ParseDifficulty(q.difficulty)) && k == IssueInvalidDifficulty then 1 else 0)
      + (if |q.options| == 0 && k == IssueMissingField then 1 else 0)
      + (if !(0 <= q.answer < |q.options|) && k == IssueInvalidAnswer then 1 else 0)
  {
    var common := CommonIssues(q.id, q.prompt, q.difficulty, "choice");
    var a := When(|q.options| == 0, NewError(IssueMissingField, "No options provided", "choice", q.id));
    var b := When(q.answer < 0 || q.answer >= |q.options|, AnswerIssue(q.answer, |q.options|, "choice", q.id));
    CountKindSplit3(common, a, b, k);
    CommonIssuesCount(q.id, q.prompt, q.difficulty, "choice", k);
    CountWhen(|q.options| == 0, NewError(IssueMissingField, "No options provided", "choice", q.id), k);
    CountWhen(q.answer < 0 || q.answer >= |q.options|, AnswerIssue(q.answer, |q.options|, "choice", q.id), k);
  }

  /** The first answer index outside `0..n-1`, if any. */
  function FirstOutOfRange(answers: seq<int>, n: int): (r: Option<int>)
    ensures r.None? <==> forall i :: 0 <= i < |answers| ==> 0 <= answers[i] < n
    ensures r.Some? ==> r.value in answers && !(0 <= r.value < n)
  {
    if answers == [] then None
    else if answers[0] < 0 || answers[0] >= n then Some(answers[0])
    else
      assert forall i :: 1 <= i < |answers| ==> answers[i] == answers[1..][i - 1];
      FirstOutOfRange(answers[1..], n)
  }

  /** The InvalidAnswer part of a multiple-choice report: the first index
      out of range only. */
  function MultiAnswerIssue(q: RawMultiQuestion): (r: seq<Issue>)
    ensures |r| <= 1
  {
    match FirstOutOfRange(q.answer, |q.options|)
    case None => []
    case Some(v) => [AnswerIssue(v, |q.options|, "multi", q.id)]
  }

  /** The errors a multiple-choice question gets: the shared ones, no
      options, no answers, and the first index out of range. */
  function MultiIssues(q: RawMultiQuestion): (r: seq<Issue>)
    ensures AllErrors(r) && |r| <= 6
  {
    CommonIssues(q.id, q.prompt, q.difficulty, "multi")
    + When(|q.options| == 0, NewError(IssueMissingField, "No options provided", "multi", q.id))
    + When(|q.answer| == 0, NewError(IssueMissingField, "No correct answers specified", "multi", q.id))
    + MultiAnswerIssue(q)
  }

  /** One error per failed check, and at most one InvalidAnswer error
      however many indices are out of range. */
  lemma MultiIssuesCount(q: RawMultiQuestion, k: IssueKind)
    ensures CountKind(MultiIssues(q), k) ==
      (if q.id == "" && k == IssueMissingID then 1 else 0)
      + (if q.prompt == "" && k == IssueMissingField then 1 else 0)
      + (if !IsValidDifficulty(ParseDifficulty(q.difficulty)) && k == IssueInvalidDifficulty then 1 else 0)
      + (if |q.options| == 0 && k == IssueMissingField then 1 else 0)
      + (if |q.answer| == 0 && k == IssueMissingField then 1 else 0)
      + (if (exists i :: 0 <= i < |q.answer| && !(0 <= q.answer[i] < |q.options|)) && k == IssueInvalidAnswer
         then 1 else 0)
  {
    var common := CommonIssues(q.id, q.prompt, q.difficulty, "multi");
    var a := When(|q.options| == 0, NewError(IssueMissingField, "No options provided", "multi", q.id));
    var b := When(|q.answer| == 0, NewError(IssueMissingField, "No correct answers specified", "multi", q.id));
    var c := MultiAnswerIssue(q);
    CountKindSplit4(common, a, b, c, k);
    CommonIssuesCount(q.id, q.prompt, q.difficulty, "multi", k);
    CountWhen(|q.options| == 0, NewError(IssueMissingField, "No options provided", "multi", q.id), k);
    CountWhen(|q.answer| == 0, NewError(IssueMissingField, "No correct answers specified", "multi", q.id), k);
    MultiAnswerIssueCount(q, k);
  }

  /** At most one InvalidAnswer error, present exactly when some index is
      out of range. */
  lemma MultiAnswerIssueCount(q: RawMultiQuestion, k: IssueKind)
    ensures CountKind(MultiAnswerIssue(q), k) ==
      if (exists i :: 0 <= i < |q.answer| && !(0 <= q.answer[i] < |q.options|)) && k == IssueInvalidAnswer then 1 else 0
  {
    var c := MultiAnswerIssue(q);
    if c != [] {
      assert c[..0] == [];
    }
  }

  /** The errors a text question gets: the shared ones, and one more when
      there is neither an expected answer nor a keyword. */
  function TextIssues(q: RawTextQuestion): (r: seq<Issue>)
    ensures AllErrors(r) && |r| <= 4
  {
    CommonIssues(q.id, q.prompt, q.difficulty, "text")
    + When(q.expected == "" && |q.keywords| == 0,
           NewError(IssueMissingField, "Must have either expected answer or keywords", "text", q.id))
  }

  /** One error per failed check; the answer check fails exactly when both
      the expected answer and the keywords are missing. */
  lemma TextIssuesCount(q: RawTextQuestion, k: IssueKind)
    ensures CountKind(TextIssues(q), k) ==
      (if q.id == "" && k == IssueMissingID then 1 else 0)
      + (if q.prompt == "" && k == IssueMissingField then 1 else 0)
      + (if !IsValidDifficulty(ParseDifficulty(q.difficulty)) && k == IssueInvalidDifficulty then 1 else 0)
      + (if q.expected == "" && |q.keywords| == 0 && k == IssueMissingField then 1 else 0)
  {
    var common := CommonIssues(q.id, q.prompt, q.difficulty, "text");
    var missing := NewError(IssueMissingField, "Must have either expected answer or keywords", "text", q.id);
    CountKindAppend(common, When(q.expected == "" && |q.keywords| == 0, missing), k);
    CommonIssuesCount(q.id, q.prompt, q.difficulty, "text", k);
    CountWhen(q.expected == "" && |q.keywords| == 0, missing, k);
  }

  /** A true/false question has at most the three common errors, and none
      when its ID, prompt and difficulty are present and valid. */
  lemma BoolIssuesBound(q: RawBoolQuestion)
    ensures |CommonIssues(q.id, q.prompt, q.difficulty, "bool")| <= 3
    ensures CommonIssues(q.id, q.prompt, q.difficulty, "bool") == [] <==>
      q.id != "" && q.prompt != "" && IsValidDifficulty(ParseDifficulty(q.difficulty))
  {
  }
}
