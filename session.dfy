/** The quiz session (internal/session/session.go, helper.go, getter.go):
    a mutable object whose operations perform the transitions of
    `SessionModel` in place. */
module Sessions {
  import opened Wrappers
  import opened Game
  import opened EngineFormat
  import opened Questions
  import opened Grades
  import opened Graders
  import opened SessionStates
  import SessionModel

  /** `Result` without the elapsed time. */
  datatype Result = Result(
    totalQuestions: int,
    correct: int,
    incorrect: int,
    score: int,
    state: State,
    answers: seq<Option<Answer>>,
    gradeResults: seq<Option<GradeResult>>)

  class Session {
    const format: Format
    const questions: seq<Question>
    const grader: GradePolicy

    var state: State
    var answers: seq<Option<Answer>>
    var currentIndex: int
    var gradeResults: seq<Option<GradeResult>>
    var score: int
    var livesRemaining: int
    var timeRemaining: int

    /** The fixed part of the session. */
    function Cfg(): SessionModel.Config {
      SessionModel.Config(format, questions, grader)
    }

    /** The mutable fields as a value. */
    function Snap(): SessionModel.Snapshot
      reads this
    {
      SessionModel.Snapshot(state, answers, gradeResults, currentIndex, score, livesRemaining, timeRemaining)
    }

    ghost predicate Valid()
      reads this
    {
      SessionModel.Valid(Cfg(), Snap())
    }

    /** `NewSession`. */
    constructor (format: Format, questions: seq<Question>, grader: GradePolicy)
      ensures this.format == format && this.questions == questions && this.grader == grader
      ensures Valid() && Snap() == SessionModel.Initial(Cfg())
    {
      this.format := format;
      this.questions := questions;
      this.grader := grader;
      answers := seq(|questions|, _ => None);
      gradeResults := seq(|questions|, _ => None);
      state := NotStarted;
      currentIndex := 0;
      score := 0;
      livesRemaining := format.lives.starting;
      timeRemaining := 0;
    }

    /** `Session.Begin`. */
    method Begin() returns (err: Option<SessionModel.SessionError>)
      requires Valid()
      modifies this
      ensures Valid()
      ensures SessionModel.Outcome(err, Snap()) == SessionModel.Begin(Cfg(), old(Snap()))
    {
      if state != NotStarted {
        return Some(SessionModel.ErrAlreadyEnded);
      }
      state := Running;
      if format.time.control == TotalTime {
        timeRemaining := format.time.totalDuration;
      } else if format.time.control == PerQuestion || format.time.control == PerQuestionWithBonus {
        timeRemaining := format.time.perQuestion;
      } else if format.time.control == Unlimited {
        timeRemaining := 0;
      }
      return None;
    }

    /** `Session.SubmitAnswer`. */
    method SubmitAnswer(answer: Answer) returns (err: Option<SessionModel.SessionError>)
      requires Valid() && SessionModel.SubmitDefined(Cfg(), Snap(), answer)
      modifies this
      ensures SessionModel.Outcome(err, Snap()) == SessionModel.Submit(Cfg(), old(Snap()), answer)
      ensures Valid()
    {
      if state != Running {
        return Some(SessionModel.ErrNotRunning);
      }
      answers := answers[currentIndex := Some(answer)];
      var question := questions[currentIndex];
      var result := Grade(grader, question, answer);
      gradeResults := gradeResults[currentIndex := Some(result)];

      if result.IsCorrect() {
        score := score + 1;
        ApplyTimeBonus();
      } else {
        if format.lives.enabled && format.lives.loseOnWrong {
          livesRemaining := livesRemaining - 1;
        }
        ApplyTimePenalty();
      }

      var over := CheckGameOver();
      if over {
        return None;
      }
      if format.time.navigation == Locked {
        Advance();
      }
      return None;
    }

    /** `Session.NextQuestion`. */
    method NextQuestion() returns (err: Option<SessionModel.SessionError>)
      requires Valid()
      modifies this
      ensures Valid()
      ensures SessionModel.Outcome(err, Snap()) == SessionModel.Next(Cfg(), old(Snap()))
    {
      if state != Running {
        return Some(SessionModel.ErrNotRunning);
      }
      if format.time.navigation != Free {
        return Some(SessionModel.ErrNoNavigation);
      }
      if currentIndex >= |questions| - 1 {
        return Some(SessionModel.ErrInvalidIndex);
      }
      currentIndex := currentIndex + 1;
      return None;
    }

    /** `Session.PrevQuestion`. */
    method PrevQuestion() returns (err: Option<SessionModel.SessionError>)
      requires Valid()
      modifies this
      ensures Valid()
      ensures SessionModel.Outcome(err, Snap()) == SessionModel.Prev(Cfg(), old(Snap()))
    {
      if state != Running {
        return Some(SessionModel.ErrNotRunning);
      }
      if format.time.navigation != Free {
        return Some(SessionModel.ErrNoNavigation);
      }
      if currentIndex <= 0 {
        return Some(SessionModel.ErrInvalidIndex);
      }
      currentIndex := currentIndex - 1;
      return None;
    }

    /** `Session.Tick`. */
    method Tick(elapsed: int) returns (timeExpired: bool, newState: State)
      requires Valid()
      modifies this
      ensures Valid()
      ensures SessionModel.TickOutcome(timeExpired, newState, Snap()) == SessionModel.Tick(Cfg(), old(Snap()), elapsed)
    {
      if state != Running {
        return false, state;
      }
      if format.time.control != Unlimited {
        timeRemaining := timeRemaining - elapsed;
        if timeRemaining <= 0 {
          timeRemaining := 0;
          state := TimeExpired;
          return true, TimeExpired;
        }
      }
      return false, Running;
    }

    /** `checkGameOver`. */
    method CheckGameOver() returns (over: bool)
      requires |answers| == |questions| && 0 <= currentIndex
      modifies this
      ensures (over, Snap()) == SessionModel.CheckGameOver(Cfg(), old(Snap()))
    {
      if format.lives.enabled && livesRemaining <= 0 {
        state := Failed;
        return true;
      }
      if IsLastQuestion() && answers[currentIndex].Some? {
        state := Completed;
        return true;
      }
      return false;
    }

    /** `advance`. */
    method Advance()
      modifies this
      ensures Snap() == SessionModel.Advance(Cfg(), old(Snap()))
    {
      if currentIndex < |questions| - 1 {
        currentIndex := currentIndex + 1;
        ResetQuestionTimer();
      }
    }

    /** `isLastQuestion`. */
    predicate IsLastQuestion()
      reads this
    {
      currentIndex == |questions| - 1
    }

    /** `resetQuestionTimer`. */
    method ResetQuestionTimer()
      modifies this
      ensures Snap() == old(Snap()).(timeRemaining := SessionModel.ResetQuestionTimer(format.time, old(timeRemaining)))
    {
      if format.time.control == PerQuestion || format.time.control == PerQuestionWithBonus {
        timeRemaining := format.time.perQuestion;
      }
    }

    /** `applyTimeBonus`. */
    method ApplyTimeBonus()
      modifies this
      ensures Snap() == old(Snap()).(timeRemaining := SessionModel.ApplyTimeBonus(format.time, old(timeRemaining)))
    {
      if format.time.control != PerQuestionWithBonus {
        return;
      }
      timeRemaining := timeRemaining + format.time.bonus;
    }

    /** `applyTimePenalty`. */
    method ApplyTimePenalty()
      modifies this
      ensures Snap() == old(Snap()).(timeRemaining := SessionModel.ApplyTimePenalty(format.time, old(timeRemaining)))
    {
      if format.time.control != PerQuestionWithBonus {
        return;
      }
      timeRemaining := timeRemaining - format.time.penalty;
      if timeRemaining < 0 {
        timeRemaining := 0;
      }
    }

    /** `HasStarted`: a started session refuses a second `Begin`. */
    function HasStarted(): (b: bool)
      requires Valid()
      reads this
      ensures b <==> state != NotStarted
      ensures b <==> SessionModel.Begin(Cfg(), Snap()).err == Some(SessionModel.ErrAlreadyEnded)
    {
      state != NotStarted
    }

    /** `IsCompleted`: the session has ended, and then no answer is taken
        and no navigation happens. */
    function IsCompleted(): (b: bool)
      requires Valid()
      reads this
      ensures b <==> IsTerminal(state)
      ensures b ==> SessionModel.Next(Cfg(), Snap()).err == Some(SessionModel.ErrNotRunning)
      ensures b ==> SessionModel.Prev(Cfg(), Snap()).err == Some(SessionModel.ErrNotRunning)
      ensures b ==> forall a :: SessionModel.Submit(Cfg(), Snap(), a).err == Some(SessionModel.ErrNotRunning)
    {
      IsTerminal(state)
    }

    /** `CanNavigateBack`: exactly under Free navigation; otherwise going
        back always fails. */
    function CanNavigateBack(): (b: bool)
      requires Valid()
      reads this
      ensures b <==> format.time.navigation == Free
      ensures !b ==> SessionModel.Prev(Cfg(), Snap()).err.Some?
    {
      format.time.navigation == Free
    }

    /** `IsAnswered`: false outside the slots, otherwise whether the slot
        holds an answer; an answered question also holds its grade. */
    function IsAnswered(index: int): (b: bool)
      requires Valid()
      reads this
      ensures b <==> 0 <= index < |answers| && answers[index].Some?
      ensures b ==> gradeResults[index].Some?
    {
      if index < 0 || index >= |answers| then false
      else
        assert SessionModel.SlotConsistent(Cfg(), answers, gradeResults, index);
        answers[index].Some?
    }

    /** `GetCurrentQuestion`; it panics on a session with no questions. */
    function GetCurrentQuestion(): (q: Question)
      requires Valid() && |questions| > 0
      reads this
      ensures 0 <= currentIndex < |questions| && q == questions[currentIndex]
    {
      questions[currentIndex]
    }

    /** `GetResults`, counts only: the correct results are the non-nil
        ones whose `IsCorrect` holds, and every other question, answered or
        not, counts as incorrect. */
    method GetResults() returns (r: Result)
      requires Valid()
      ensures r.correct == SessionModel.CountCorrect(gradeResults)
      ensures r.totalQuestions == |questions| && r.correct + r.incorrect == r.totalQuestions
      ensures 0 <= r.correct <= r.totalQuestions
      ensures r.score == score && r.state == state
      ensures r.answers == answers && r.gradeResults == gradeResults
    {
      var correct := 0;
      for i := 0 to |gradeResults|
        invariant correct == SessionModel.CountCorrect(gradeResults[..i])
      {
        assert gradeResults[..i + 1][..i] == gradeResults[..i];
        if gradeResults[i].Some? && gradeResults[i].value.IsCorrect() {
          correct := correct + 1;
        }
      }
      assert gradeResults[..|gradeResults|] == gradeResults;
      r := Result(|questions|, correct, |questions| - correct, score, state, answers, gradeResults);
    }
  }
}
