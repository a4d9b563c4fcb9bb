/** The engine's enumerations (internal/engine/game.go). Each Go enum is an
    `int` with named constants, so values outside the declared range stay
    representable, as they are in Go. */
module Game {

  // ---- Difficulty ----

  type Difficulty = int

  const Entry: Difficulty := 1
  const Junior: Difficulty := 2
  const Mid: Difficulty := 3
  const Senior: Difficulty := 4

  /** `Difficulty.IsValid`: Entry through Senior. */
  predicate IsValidDifficulty(d: Difficulty) {
    Entry <= d <= Senior
  }

  /** `Difficulty.String`: the lower-case name, "" for anything else. */
  function DifficultyString(d: Difficulty): (s: string)
    ensures s == "" <==> !IsValidDifficulty(d)
  {
    if d == Entry then "entry"
    else if d == Junior then "junior"
    else if d == Mid then "mid"
    else if d == Senior then "senior"
    else ""
  }

  /** `ParseDifficulty`: the difficulty named by `s`, or 0 for any other
      string. A non-zero result is valid and prints back as `s`. */
  function ParseDifficulty(s: string): (d: Difficulty)
    ensures d == 0 || IsValidDifficulty(d)
    ensures d != 0 ==> DifficultyString(d) == s
  {
    if s == "entry" then Entry
    else if s == "junior" then Junior
    else if s == "mid" then Mid
    else if s == "senior" then Senior
    else 0
  }

  /** Parsing the printed name of a valid difficulty gives it back; the
      "not found" result 0 is itself not a valid difficulty. */
  lemma ParseDifficultyRoundTrip(d: Difficulty)
    requires IsValidDifficulty(d)
    ensures ParseDifficulty(DifficultyString(d)) == d
    ensures !IsValidDifficulty(0)
  {
  }

  // ---- QuestionType ----

  type QuestionType = int

  const Choice: QuestionType := 1
  const MultipleChoice: QuestionType := 2
  const TextEntry: QuestionType := 3
  /** The boolean question tag. The source also spells it `Bool` in
      grader.go, answers.go and mode.go; both names stand for this tag. */
  const TrueFalse: QuestionType := 4

  /** `QuestionType.String`: a distinct name for each of the four tags and
      "unknown" for every other value. */
  function QuestionTypeString(t: QuestionType): (s: string)
    ensures (Choice <= t <= TrueFalse) <==> s != "unknown"
  {
    if t == Choice then "choice"
    else if t == MultipleChoice then "multiple choice"
    else if t == TextEntry then "text entry"
    else if t == TrueFalse then "true/false"
    else "unknown"
  }

  /** The four tags have four different names. */
  lemma QuestionTypeNamesDistinct(t: QuestionType, u: QuestionType)
    requires Choice <= t <= TrueFalse && Choice <= u <= TrueFalse && t != u
    ensures QuestionTypeString(t) != QuestionTypeString(u)
  {
  }

  // ---- QuestionCount ----

  type QuestionCount = int

  const AllQuestions: QuestionCount := 0
  const Ten: QuestionCount := 1
  const Thirty: QuestionCount := 2
  const Fifty: QuestionCount := 3

  /** `QuestionCount.Int`: 10, 30 or 50 for the three caps, 0 (no cap) for
      AllQuestions and every other value. */
  function QuestionCountInt(c: QuestionCount): (n: int)
    ensures n in {0, 10, 30, 50}
    ensures n != 0 <==> Ten <= c <= Fifty
    ensures Ten <= c <= Fifty ==> n == 10 + 20 * (c - Ten)
  {
    if c == Ten then 10
    else if c == Thirty then 30
    else if c == Fifty then 50
    else 0
  }

  // ---- Other policy enums ----

  type TimeMode = int

  const Unlimited: TimeMode := 0
  const PerQuestion: TimeMode := 1
  const TotalTime: TimeMode := 2
  const PerQuestionWithBonus: TimeMode := 3

  type Progression = int

  const Fixed: Progression := 0
  const Scaling: Progression := 1

  type Navigation = int

  const Free: Navigation := 0
  const Locked: Navigation := 1

  type LifeMode = int

  const NoLives: LifeMode := 0
  const FixedLives: LifeMode := 1
  const SuddenDeath: LifeMode := 2

  type Category = string
}
