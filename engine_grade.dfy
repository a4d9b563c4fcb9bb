/** Grading results (internal/engine/grade.go). Float fields are replaced
    by integers: an accuracy is the fraction `accuracyNum / accuracyDen`,
    and the Score result's float multiplier, never set, is left out. */
module Grades {

  type GradeType = int

  const AccuracyType: GradeType := 1
  const BinaryType: GradeType := 2
  const ScoreType: GradeType := 3
  /** `PracticeResult.Type` returns the zero value. */
  const PracticeType: GradeType := 0

  datatype GradeResult =
    | AccuracyResult(correct: bool, accuracyNum: nat, accuracyDen: nat, feedback: string)
    | BinaryResult(correct: bool)
    | ScoreResult(correct: bool, pointsEarned: int, maxPoints: int)
    | PracticeResult(correctAnswer: string, explanation: string)
  {
    /** `GradeResult.IsCorrect`: the stored flag, and always true for a
        practice result. */
    function IsCorrect(): (b: bool)
      ensures PracticeResult? ==> b
      ensures !PracticeResult? ==> b == correct
    {
      match this
      case PracticeResult(_, _) => true
      case AccuracyResult(c, _, _, _) => c
      case BinaryResult(c) => c
      case ScoreResult(c, _, _) => c
    }

    /** `GradeResult.Type`: a distinct tag per variant, 0 for practice. */
    function Type(): (t: GradeType)
      ensures AccuracyResult? <==> t == AccuracyType
      ensures BinaryResult? <==> t == BinaryType
      ensures ScoreResult? <==> t == ScoreType
      ensures PracticeResult? <==> t == PracticeType
    {
      match this
      case AccuracyResult(_, _, _, _) => AccuracyType
      case BinaryResult(_) => BinaryType
      case ScoreResult(_, _, _) => ScoreType
      case PracticeResult(_, _) => PracticeType
    }
  }
}
