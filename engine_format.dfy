/** The rules record of one quiz and its consistency check
    (internal/engine/format.go). */
module EngineFormat {
  import opened Wrappers
  import opened Game
  import opened Rules

  datatype Format = Format(
    time: TimeRules,
    lives: LifeRules,
    progression: ProgressionRules,
    question: QuestionRules,
    description: string)

  /** The errors `Validate` can return, one per check, in check order. */
  datatype FormatError =
    | TotalTimeNotPositive            // "total time must be > 0"
    | PerQuestionTimeNotPositive      // "per-question time must be > 0"
    | BonusNotPositive                // "bonus time must be > 0"
    | BonusNotBelowPerQuestion        // "bonus time should be less than per-question time"
    | StartingLivesNotZero            // "starting life must be 0 when lives disabled"
    | StartingLivesNotPositive        // "start life must be > 0"
    | NegativeQuestionCount           // "max questions cannot be negative"
    | NoQuestionTypes                 // "at least one question type must be selected"
  {
    predicate IsTimeError() {
      TotalTimeNotPositive? || PerQuestionTimeNotPositive? || BonusNotPositive? || BonusNotBelowPerQuestion?
    }

    predicate IsLivesError() {
      StartingLivesNotZero? || StartingLivesNotPositive?
    }
  }

  /** The timing invariant of a rules record: a total duration must be
      positive, a per-question duration must be positive, and a bonus must
      be positive and strictly smaller than the per-question duration.
      Unlimited (and any other control value) constrains nothing. */
  predicate TimeConsistent(t: TimeRules) {
    && (t.control == TotalTime ==> t.totalDuration > 0)
    && (t.control == PerQuestion ==> t.perQuestion > 0)
    && (t.control == PerQuestionWithBonus ==> 0 < t.bonus < t.perQuestion)
  }

  /** The life invariant: exactly 0 lives when disabled, some when enabled. */
  predicate LivesConsistent(l: LifeRules) {
    if l.enabled then l.starting > 0 else l.starting == 0
  }

  /** The question invariant: a non-negative cap and at least one type. */
  predicate QuestionsConsistent(q: QuestionRules) {
    q.count >= 0 && |q.types| > 0
  }

  /** `Format.Validate`: None (a nil error) exactly when all three invariants
      hold; otherwise the first violated check, timing before lives before
      questions. */
  function Validate(f: Format): (r: Option<FormatError>)
    ensures r.None? <==> TimeConsistent(f.time) && LivesConsistent(f.lives) && QuestionsConsistent(f.question)
    ensures !TimeConsistent(f.time) ==> r.Some? && r.value.IsTimeError()
    ensures TimeConsistent(f.time) && !LivesConsistent(f.lives) ==> r.Some? && r.value.IsLivesError()
    ensures TimeConsistent(f.time) && LivesConsistent(f.lives) && !QuestionsConsistent(f.question) ==>
      r.Some? && (r.value.NegativeQuestionCount? || r.value.NoQuestionTypes?)
    ensures f.time.control == PerQuestionWithBonus && f.time.bonus >= f.time.perQuestion ==> r.Some?
    // Within each group, the exact error in check order.
    ensures r == Some(TotalTimeNotPositive) <==> f.time.control == TotalTime && f.time.totalDuration <= 0
    ensures r == Some(PerQuestionTimeNotPositive) <==>
      (f.time.control == PerQuestion || f.time.control == PerQuestionWithBonus) && f.time.perQuestion <= 0
    ensures r == Some(BonusNotPositive) <==>
      f.time.control == PerQuestionWithBonus && f.time.perQuestion > 0 && f.time.bonus <= 0
    ensures r == Some(BonusNotBelowPerQuestion) <==>
      f.time.control == PerQuestionWithBonus && f.time.perQuestion > 0 && 0 < f.time.bonus
        && f.time.bonus >= f.time.perQuestion
    ensures r == Some(StartingLivesNotZero) <==>
      TimeConsistent(f.time) && !f.lives.enabled && f.lives.starting != 0
    ensures r == Some(StartingLivesNotPositive) <==>
      TimeConsistent(f.time) && f.lives.enabled && f.lives.starting <= 0
    ensures r == Some(NegativeQuestionCount) <==>
      TimeConsistent(f.time) && LivesConsistent(f.lives) && f.question.count < 0
    ensures r == Some(NoQuestionTypes) <==>
      TimeConsistent(f.time) && LivesConsistent(f.lives) && f.question.count >= 0 && |f.question.types| == 0
  {
    var t := f.time;
    if t.control == TotalTime && t.totalDuration <= 0 then Some(TotalTimeNotPositive)
    else if t.control == PerQuestion && t.perQuestion <= 0 then Some(PerQuestionTimeNotPositive)
    else if t.control == PerQuestionWithBonus && t.perQuestion <= 0 then Some(PerQuestionTimeNotPositive)
    else if t.control == PerQuestionWithBonus && t.bonus <= 0 then Some(BonusNotPositive)
    else if t.control == PerQuestionWithBonus && t.bonus >= t.perQuestion then Some(BonusNotBelowPerQuestion)
    else if !f.lives.enabled && f.lives.starting != 0 then Some(StartingLivesNotZero)
    else if f.lives.enabled && f.lives.starting <= 0 then Some(StartingLivesNotPositive)
    else if f.question.count < 0 then Some(NegativeQuestionCount)
    else if |f.question.types| == 0 then Some(NoQuestionTypes)
    else None
  }
}
