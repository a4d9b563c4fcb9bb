/** Rule records and their derivation from the timing and life enums
    (internal/engine/rules.go). Durations are `time.Duration` values, i.e.
    integer nanoseconds. */
module Rules {
  import opened Game

  datatype TimeRules = TimeRules(
    control: TimeMode,
    totalDuration: int,
    perQuestion: int,
    bonus: int,
    penalty: int,
    navigation: Navigation)

  datatype TimeOptions = TimeOptions(totalDuration: int, perQuestion: int, bonus: int, penalty: int)

  datatype LifeRules = LifeRules(enabled: bool, starting: int, loseOnWrong: bool)

  datatype LifeOptions = LifeOptions(lives: int)

  datatype ProgressionRules = ProgressionRules(mode: Progression, difficulty: Difficulty)

  datatype QuestionRules = QuestionRules(
    categoryFilter: seq<Category>,
    types: seq<QuestionType>,
    randomize: bool,
    count: QuestionCount)

  /** The zero `TimeOptions{}` literal. */
  const NoTimeOptions := TimeOptions(0, 0, 0, 0)

  /** The four timing modes `BuildTimeRules` knows; any other panics. */
  predicate IsTimeMode(m: TimeMode) {
    Unlimited <= m <= PerQuestionWithBonus
  }

  /** The three life modes `BuildLifeRules` knows; any other panics. */
  predicate IsLifeMode(m: LifeMode) {
    NoLives <= m <= SuddenDeath
  }

  /** Timing modes that run a per-question countdown. */
  predicate IsPerQuestionMode(m: TimeMode) {
    m == PerQuestion || m == PerQuestionWithBonus
  }

  /** `BuildTimeRules`. Navigation is Locked exactly for the per-question
      modes; each mode carries only the options it uses and zero for the
      others. In particular plain PerQuestion drops Bonus AND Penalty. */
  function BuildTimeRules(control: TimeMode, opt: TimeOptions): (r: TimeRules)
    requires IsTimeMode(control)
    ensures r.control == control
    ensures r.navigation == (if IsPerQuestionMode(control) then Locked else Free)
    ensures r.totalDuration == (if control == TotalTime then opt.totalDuration else 0)
    ensures r.perQuestion == (if IsPerQuestionMode(control) then opt.perQuestion else 0)
    ensures r.bonus == (if control == PerQuestionWithBonus then opt.bonus else 0)
    ensures r.penalty == (if control == PerQuestionWithBonus then opt.penalty else 0)
  {
    if control == Unlimited then
      TimeRules(Unlimited, 0, 0, 0, 0, Free)
    else if control == TotalTime then
      TimeRules(TotalTime, opt.totalDuration, 0, 0, 0, Free)
    else if control == PerQuestion then
      TimeRules(PerQuestion, 0, opt.perQuestion, 0, 0, Locked)
    else
      TimeRules(PerQuestionWithBonus, 0, opt.perQuestion, opt.bonus, opt.penalty, Locked)
  }

  /** `BuildLifeRules`. NoLives is the zero record; FixedLives takes the
      caller's count; SuddenDeath has exactly one life whatever `opt` says.
      Lives are lost on a wrong answer exactly when they are enabled. */
  function BuildLifeRules(mode: LifeMode, opt: LifeOptions): (r: LifeRules)
    requires IsLifeMode(mode)
    ensures r.enabled <==> mode != NoLives
    ensures r.loseOnWrong == r.enabled
    ensures r.starting == (if mode == NoLives then 0 else if mode == FixedLives then opt.lives else 1)
  {
    if mode == NoLives then LifeRules(false, 0, false)
    else if mode == FixedLives then LifeRules(true, opt.lives, true)
    else LifeRules(true, 1, true)
  }
}
