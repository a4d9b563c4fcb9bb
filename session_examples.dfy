/** Consequences of the session rules as written, on concrete sessions. */
module SessionExamples {
  import opened Wrappers
  import opened Game
  import opened Questions
  import opened Grades
  import opened Graders
  import opened SessionStates
  import opened SessionModel
  import Modes

  const Q1 := TrueFalseQuestion("Go has generics", true)
  const Q2 := TrueFalseQuestion("Go has exceptions", false)

  /** A Standard session (Unlimited time, Free navigation, no lives) over
      two true/false questions, graded by Binary. */
  function StandardConfig(): (c: Config)
    ensures c.format.time.navigation == Free && !c.format.lives.enabled && |c.questions| == 2
  {
    Config(Modes.ModeFormat(Modes.Standard, Entry), [Q1, Q2], BinaryGrader)
  }

  /** Answering the same question correctly twice scores two points
      although only one question is correct: nothing stops a second
      submission at the same index under Free navigation. */
  lemma ResubmissionScoresTwice()
    ensures var c := StandardConfig();
            var s1 := Begin(c, Initial(c)).next;
            var s2 := Submit(c, s1, BoolAnswer(true)).next;
            var s3 := Submit(c, s2, BoolAnswer(true)).next;
            s3.state == Running && s3.score == 2 && CountCorrect(s3.gradeResults) == 1
  {
    var c := StandardConfig();
    var s1 := Begin(c, Initial(c)).next;
    var s2 := Submit(c, s1, BoolAnswer(true)).next;
    var s3 := Submit(c, s2, BoolAnswer(true)).next;
    assert s3.gradeResults == [Some(BinaryResult(true)), None];
    assert s3.gradeResults[..1] == [Some(BinaryResult(true))];
    assert s3.gradeResults[..1][..0] == [];
  }

  /** Answering only the last question completes the session, with the
      first question never answered. */
  lemma CompletionWithUnansweredQuestion()
    ensures var c := StandardConfig();
            var s1 := Begin(c, Initial(c)).next;
            var s2 := Next(c, s1).next;
            var s3 := Submit(c, s2, BoolAnswer(true)).next;
            s3.state == Completed && s3.answers[0].None?
  {
  }

  /** Under Hardcore (sudden death), the first wrong answer ends the
      session as Failed, wherever it happens. */
  lemma HardcoreWrongAnswerFails(questions: seq<Question>, s: Snapshot, a: Answer, d: Difficulty)
    requires var c := Config(Modes.ModeFormat(Modes.Hardcore, d), questions, BinaryGrader);
             Valid(c, s) && SubmitDefined(c, s, a) && s.state == Running && s.livesRemaining == 1
    requires |questions| > 0 && a != questions[s.currentIndex].GetAnswer()
    ensures var c := Config(Modes.ModeFormat(Modes.Hardcore, d), questions, BinaryGrader);
            Submit(c, s, a).next.state == Failed && Submit(c, s, a).next.livesRemaining == 0
  {
  }
}
