/** The four grading policies (internal/engine/grader.go). */
module Graders {
  import opened Game
  import opened Text
  import opened Questions
  import opened Grades

  /** The `GradePolicy` implementations. */
  datatype GradePolicy = BinaryGrader | AccuracyGrader | ScoreGrader | PracticeGrader

  /** Binary and Score assert a multiple-choice answer's value to `[]int`
      when the question is multiple choice; any other answer panics there. */
  predicate BinaryDefined(q: Question, a: Answer) {
    q.MultipleChoiceQuestion? ==> a.MultipleChoiceAnswer?
  }

  /** The inputs on which `g.Grade(q, a)` returns instead of panicking:
      the comparing graders need a list answer for a multiple-choice
      question, and Practice asserts the canonical value to a string, which
      only a text question has. */
  predicate CanGrade(g: GradePolicy, q: Question, a: Answer) {
    match g
    case PracticeGrader => q.TextEntryQuestion?
    case _ => BinaryDefined(q, a)
  }

  /** The comparison Binary and Score share: index lists are compared
      element by element in order (`slices.Equal`), everything else by
      `Value()` equality, which is false across different Go types. */
  predicate Matches(q: Question, a: Answer)
    requires BinaryDefined(q, a)
  {
    if q.MultipleChoiceQuestion? then q.correctList == a.selectedList
    else q.GetAnswer().Value() == a.Value()
  }

  /** `BinaryGrader.Grade`: correct exactly when the submitted answer is the
      question's canonical answer (same variant, same value; for multiple
      choice the same indices in the same order). */
  function BinaryGrade(q: Question, a: Answer): (r: GradeResult)
    requires BinaryDefined(q, a)
    ensures r.BinaryResult?
    ensures r.IsCorrect() <==> a == q.GetAnswer()
  {
    if !q.MultipleChoiceQuestion? && Matches(q, a) then
      ValueInjective(q.GetAnswer(), a);
      BinaryResult(true)
    else
      BinaryResult(Matches(q, a))
  }

  /** Whether one keyword occurs in the (already lower-cased) answer text,
      ignoring the keyword's case. */
  predicate KeywordPresent(answerText: string, keyword: string) {
    Contains(answerText, ToLower(keyword))
  }

  /** The number of keywords present in the answer text. */
  function KeywordsFound(answerText: string, keywords: seq<string>): (n: nat)
    ensures n <= |keywords|
  {
    if keywords == [] then 0
    else KeywordsFound(answerText, keywords[..|keywords| - 1])
         + (if KeywordPresent(answerText, keywords[|keywords| - 1]) then 1 else 0)
  }

  /** All keywords are found exactly when every keyword is present. */
  lemma {:induction false} AllKeywordsFound(answerText: string, keywords: seq<string>)
    ensures KeywordsFound(answerText, keywords) == |keywords|
        <==> forall i :: 0 <= i < |keywords| ==> KeywordPresent(answerText, keywords[i])
  {
    if keywords != [] {
      var init := keywords[..|keywords| - 1];
      AllKeywordsFound(answerText, init);
      assert forall i :: 0 <= i < |init| ==> init[i] == keywords[i];
    }
  }

  /** The keyword-counting loop of `AccuracyGrader.Grade`. */
  method CountKeywordsFound(answerText: string, keywords: seq<string>) returns (found: nat)
    ensures found == KeywordsFound(answerText, keywords)
    ensures found <= |keywords|
  {
    found := 0;
    for i := 0 to |keywords|
      invariant found == KeywordsFound(answerText, keywords[..i])
    {
      assert keywords[..i + 1][..i] == keywords[..i];
      if Contains(answerText, ToLower(keywords[i])) {
        found := found + 1;
      }
    }
    assert keywords[..|keywords|] == keywords;
  }

  /** `AccuracyGrader.Grade`. A non-text question is graded as by Binary,
      with accuracy 1 or 0. A text answer to a text question has accuracy
      found/total over its keywords and is correct only when there is at
      least one keyword and every keyword occurs in the answer, ignoring
      case; with no keywords, or an answer of another type, it is
      incorrect with accuracy 0. */
  function AccuracyGrade(q: Question, a: Answer): (r: GradeResult)
    requires BinaryDefined(q, a)
    ensures r.AccuracyResult? && r.accuracyDen > 0 && r.accuracyNum <= r.accuracyDen
    ensures !q.TextEntryQuestion? ==> (r.IsCorrect() <==> a == q.GetAnswer())
    ensures !q.TextEntryQuestion? ==> r.accuracyNum == (if r.correct then 1 else 0) && r.accuracyDen == 1
    ensures q.TextEntryQuestion? ==>
      (r.IsCorrect() <==> a.TextEntryAnswer? && |q.keywords| > 0
                          && forall i :: 0 <= i < |q.keywords| ==> KeywordPresent(ToLower(a.text), q.keywords[i]))
    ensures q.TextEntryQuestion? && a.TextEntryAnswer? && |q.keywords| > 0 ==>
      r.accuracyNum == KeywordsFound(ToLower(a.text), q.keywords) && r.accuracyDen == |q.keywords|
    ensures q.TextEntryQuestion? && (!a.TextEntryAnswer? || |q.keywords| == 0) ==> r.accuracyNum == 0
    ensures r.IsCorrect() <==> r.accuracyNum == r.accuracyDen
  {
    if !q.TextEntryQuestion? then
      var isCorrect := BinaryGrade(q, a).IsCorrect();
      AccuracyResult(isCorrect, if isCorrect then 1 else 0, 1, "")
    else if !a.TextEntryAnswer? then
      AccuracyResult(false, 0, 1, "")
    else
      var answerText := ToLower(a.text);
      var found := KeywordsFound(answerText, q.keywords);
      AllKeywordsFound(answerText, q.keywords);
      if |q.keywords| > 0 then AccuracyResult(found == |q.keywords|, found, |q.keywords|, "")
      else AccuracyResult(false, 0, 1, "")
  }

  /** The case of a text answer does not matter to Accuracy grading. */
  lemma AccuracyIgnoresAnswerCase(q: Question, text: string)
    requires q.TextEntryQuestion?
    ensures AccuracyGrade(q, TextEntryAnswer(ToLower(text))) == AccuracyGrade(q, TextEntryAnswer(text))
  {
    ToLowerIdempotent(text);
  }

  /** `ScoreGrader.Grade`: the same verdict as Binary, and no points are
      filled in (`PointsEarned` and `MaxPoints` stay 0). */
  function ScoreGrade(q: Question, a: Answer): (r: GradeResult)
    requires BinaryDefined(q, a)
    ensures r.ScoreResult? && r.pointsEarned == 0 && r.maxPoints == 0
    ensures r.IsCorrect() == BinaryGrade(q, a).IsCorrect()
  {
    ScoreResult(Matches(q, a), 0, 0)
  }

  /** `PracticeGrader.Grade`: always correct, carrying the canonical text. */
  function PracticeGrade(q: Question, a: Answer): (r: GradeResult)
    requires q.TextEntryQuestion?
    ensures r.PracticeResult? && r.IsCorrect()
    ensures StringValue(r.correctAnswer) == q.GetAnswer().Value()
  {
    PracticeResult(q.expectedAnswer, "")
  }

  /** `GradePolicy.Grade`, dispatched on the policy. The result's variant is
      the policy's own; Binary, Score and non-text Accuracy agree on the
      verdict, and Practice never says incorrect. */
  function Grade(g: GradePolicy, q: Question, a: Answer): (r: GradeResult)
    requires CanGrade(g, q, a)
    ensures g == BinaryGrader <==> r.BinaryResult?
    ensures g == AccuracyGrader <==> r.AccuracyResult?
    ensures g == ScoreGrader <==> r.ScoreResult?
    ensures g == PracticeGrader <==> r.PracticeResult?
    ensures g == PracticeGrader ==> r.IsCorrect()
    ensures g == BinaryGrader || g == ScoreGrader || (g == AccuracyGrader && !q.TextEntryQuestion?) ==>
      (r.IsCorrect() <==> a == q.GetAnswer())
  {
    match g
    case BinaryGrader => BinaryGrade(q, a)
    case AccuracyGrader => AccuracyGrade(q, a)
    case ScoreGrader => ScoreGrade(q, a)
    case PracticeGrader => PracticeGrade(q, a)
  }
}
