/** Mode presets (internal/engine/mode.go): builders that turn a difficulty
    into a concrete `Format`. */
module Modes {
  import opened Wrappers
  import opened Game
  import opened Rules
  import opened EngineFormat

  /** One second as a `time.Duration` (nanoseconds). */
  const Second: int := 1_000_000_000

  /** The mode identifiers. Their numeric values are not part of this
      model; `UnknownMode` stands for every value GetGameMode does not list. */
  datatype ModeID = StandardMode | QuickMode | RapidMode | HardcoreMode | CustomMode | UnknownMode(code: int)

  /** The `Custom` struct: every axis chosen by the caller, durations in
      whole seconds. */
  datatype CustomSettings = CustomSettings(
    control: TimeMode,
    totalDuration: int,
    perQuestion: int,
    bonus: int,
    penalty: int,
    lifeMode: LifeMode,
    lives: int,
    progression: Progression,
    categories: seq<Category>,
    types: seq<QuestionType>,
    randomize: bool,
    questionCount: QuestionCount)

  /** The five `Mode` implementations. */
  datatype Mode = Standard | Quick | Rapid | Hardcore | Custom(settings: CustomSettings)

  /** `newCustomMode`: Unlimited, NoLives, Fixed, no randomising, no cap,
      and every other field at its zero value (in particular no types). */
  const DefaultCustom := CustomSettings(Unlimited, 0, 0, 0, 0, NoLives, 0, Fixed, [], [], false, AllQuestions)

  /** `GetGameMode`: the preset for each listed identifier, None (nil) for
      any other. */
  function GetGameMode(id: ModeID): (m: Option<Mode>)
    ensures m.None? <==> id.UnknownMode?
    ensures id == CustomMode ==> m == Some(Custom(DefaultCustom))
    ensures id == StandardMode ==> m == Some(Standard)
    ensures id == HardcoreMode ==> m == Some(Hardcore)
    ensures id == QuickMode ==> m == Some(Quick)
    ensures id == RapidMode ==> m == Some(Rapid)
  {
    match id
    case CustomMode => Some(Custom(DefaultCustom))
    case RapidMode => Some(Rapid)
    case QuickMode => Some(Quick)
    case HardcoreMode => Some(Hardcore)
    case StandardMode => Some(Standard)
    case UnknownMode(_) => None
  }

  /** A Custom mode can only be turned into a Format when its enums are
      known to `BuildTimeRules` and `BuildLifeRules`; otherwise they panic. */
  predicate CanBuild(m: Mode) {
    m.Custom? ==> IsTimeMode(m.settings.control) && IsLifeMode(m.settings.lifeMode)
  }

  /** The three non-text question types the timed presets use. */
  const ObjectiveTypes: seq<QuestionType> := [Choice, MultipleChoice, TrueFalse]

  /** `Mode.Format(difficulty)` for every preset. */
  function ModeFormat(m: Mode, difficulty: Difficulty): (f: Format)
    requires CanBuild(m)
    ensures m == Standard ==> (f.time.control == Unlimited && !f.lives.enabled && f.progression.mode == Scaling
                                && f.progression.difficulty == difficulty && f.question.types == [TextEntry])
    ensures m == Quick ==> (f.time.control == TotalTime && f.time.totalDuration == 300 * Second
                            && f.time.navigation == Free && !f.lives.enabled && f.progression.mode == Fixed)
    ensures m == Rapid ==> (f.time.control == PerQuestion && f.time.perQuestion == 40 * Second
                            && f.time.navigation == Locked && f.time.penalty == 0)
    ensures m == Hardcore ==> (f.time.control == PerQuestionWithBonus && f.time.perQuestion == 30 * Second
                               && f.time.bonus == 10 * Second && f.lives == LifeRules(true, 1, true)
                               && f.progression.difficulty == Entry)
    ensures m.Custom? ==> (f.progression == ProgressionRules(m.settings.progression, difficulty)
                           && f.question.types == m.settings.types)
  {
    match m
    case Standard =>
      Format(
        BuildTimeRules(Unlimited, NoTimeOptions),
        BuildLifeRules(NoLives, LifeOptions(0)),
        ProgressionRules(Scaling, difficulty),
        QuestionRules([], [TextEntry], true, AllQuestions),
        "Interview-style practice with grading")
    case Quick =>
      Format(
        BuildTimeRules(TotalTime, TimeOptions(300 * Second, 0, 0, 0)),
        BuildLifeRules(NoLives, LifeOptions(0)),
        ProgressionRules(Fixed, difficulty),
        QuestionRules([], ObjectiveTypes, true, AllQuestions),
        "Quick-fire questions to warm up before interviews")
    case Rapid =>
      Format(
        BuildTimeRules(PerQuestion, TimeOptions(0, 40 * Second, 0, 5 * Second)),
        BuildLifeRules(NoLives, LifeOptions(0)),
        ProgressionRules(Fixed, difficulty),
        QuestionRules([], ObjectiveTypes, true, AllQuestions),
        "Fast-paced reaction training")
    case Hardcore =>
      Format(
        BuildTimeRules(PerQuestionWithBonus, TimeOptions(0, 30 * Second, 10 * Second, 0)),
        BuildLifeRules(SuddenDeath, LifeOptions(0)),
        ProgressionRules(Scaling, Entry),
        QuestionRules([], ObjectiveTypes, true, AllQuestions),
        "High-pressure survival mode")
    case Custom(c) =>
      Format(
        BuildTimeRules(c.control, TimeOptions(c.totalDuration * Second, c.perQuestion * Second,
                                              c.bonus * Second, c.penalty * Second)),
        BuildLifeRules(c.lifeMode, LifeOptions(c.lives)),
        ProgressionRules(c.progression, difficulty),
        QuestionRules(c.categories, c.types, c.randomize, c.questionCount),
        "Custom practice mode")
  }

  /** The four fixed presets always produce a Format that passes Validate,
      whatever difficulty they are given. */
  lemma PresetsValidate(m: Mode, difficulty: Difficulty)
    requires !m.Custom?
    ensures Validate(ModeFormat(m, difficulty)).None?
  {
  }

  /** Rapid asks for a 5 s penalty, but plain PerQuestion timing drops it:
      the Format Rapid produces carries no penalty at all. */
  lemma RapidPenaltyDropped(difficulty: Difficulty)
    ensures ModeFormat(Rapid, difficulty).time.penalty == 0
    ensures ModeFormat(Rapid, difficulty).time.bonus == 0
  {
  }

  /** Hardcore ignores its argument: its Format is the same for every
      difficulty and always starts at Entry. */
  lemma HardcoreIgnoresDifficulty(d1: Difficulty, d2: Difficulty)
    ensures ModeFormat(Hardcore, d1) == ModeFormat(Hardcore, d2)
  {
  }

  /** The default Custom mode is Unlimited with no lives and Fixed
      progression, and its Format fails Validate on the type check. */
  lemma DefaultCustomFailsValidate(difficulty: Difficulty)
    ensures CanBuild(Custom(DefaultCustom))
    ensures Validate(ModeFormat(Custom(DefaultCustom), difficulty)) == Some(NoQuestionTypes)
  {
  }

  /** Custom's second-valued fields become durations of that many seconds,
      each kept only where its timing mode uses it. */
  lemma CustomSecondsToDurations(c: CustomSettings, difficulty: Difficulty)
    requires CanBuild(Custom(c))
    ensures var f := ModeFormat(Custom(c), difficulty);
      && (c.control == TotalTime ==> f.time.totalDuration == c.totalDuration * Second)
      && (IsPerQuestionMode(c.control) ==> f.time.perQuestion == c.perQuestion * Second)
      && (c.control == PerQuestionWithBonus ==> f.time.bonus == c.bonus * Second && f.time.penalty == c.penalty * Second)
  {
  }

  /** The rules of `f` apart from its description. */
  function RulesOf(f: Format): (TimeRules, LifeRules, ProgressionRules, QuestionRules) {
    (f.time, f.lives, f.progression, f.question)
  }

  /** Configuring Custom with a preset's own choices reproduces that preset's
      rules exactly (only the description differs). For Hardcore this holds
      at Entry difficulty, the only one Hardcore uses. */
  lemma CustomReproducesPresets(difficulty: Difficulty)
    ensures RulesOf(ModeFormat(Custom(CustomSettings(Unlimited, 0, 0, 0, 0, NoLives, 0, Scaling, [], [TextEntry], true, AllQuestions)), difficulty))
         == RulesOf(ModeFormat(Standard, difficulty))
    ensures RulesOf(ModeFormat(Custom(CustomSettings(TotalTime, 300, 0, 0, 0, NoLives, 0, Fixed, [], ObjectiveTypes, true, AllQuestions)), difficulty))
         == RulesOf(ModeFormat(Quick, difficulty))
    ensures RulesOf(ModeFormat(Custom(CustomSettings(PerQuestion, 0, 40, 0, 5, NoLives, 0, Fixed, [], ObjectiveTypes, true, AllQuestions)), difficulty))
         == RulesOf(ModeFormat(Rapid, difficulty))
    ensures RulesOf(ModeFormat(Custom(CustomSettings(PerQuestionWithBonus, 0, 30, 10, 0, SuddenDeath, 0, Scaling, [], ObjectiveTypes, true, AllQuestions)), Entry))
         == RulesOf(ModeFormat(Hardcore, difficulty))
  {
  }
}
