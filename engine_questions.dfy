/** The closed families of questions and answers
    (internal/engine/questions.go, internal/engine/answers.go). Go's
    interfaces over four structs become sum types; `Value() any` becomes a
    tagged `AnswerValue`, so comparing two values compares their dynamic
    types first, as Go's interface equality does. */
module Questions {
  import opened Game

  datatype Question =
    | ChoiceQuestion(prompt: string, options: seq<string>, correct: int)
    | MultipleChoiceQuestion(prompt: string, options: seq<string>, correctList: seq<int>)
    | TrueFalseQuestion(prompt: string, truth: bool)
    | TextEntryQuestion(prompt: string, expectedAnswer: string, keywords: seq<string>)
  {
    /** `Question.Type`: each variant's own tag. */
    function Type(): (t: QuestionType)
      ensures Choice <= t <= TrueFalse
      ensures t == Choice <==> ChoiceQuestion?
      ensures t == MultipleChoice <==> MultipleChoiceQuestion?
      ensures t == TrueFalse <==> TrueFalseQuestion?
      ensures t == TextEntry <==> TextEntryQuestion?
    {
      match this
      case ChoiceQuestion(_, _, _) => Choice
      case MultipleChoiceQuestion(_, _, _) => MultipleChoice
      case TrueFalseQuestion(_, _) => TrueFalse
      case TextEntryQuestion(_, _, _) => TextEntry
    }

    /** `Question.GetPrompt`. */
    function GetPrompt(): string {
      prompt
    }

    /** `Question.GetAnswer`: the canonical answer, an answer of the same
        type carrying the question's correct value. */
    function GetAnswer(): (a: Answer)
      ensures a.Type() == Type()
      ensures ChoiceQuestion? ==> a == ChoiceAnswer(correct)
      ensures MultipleChoiceQuestion? ==> a == MultipleChoiceAnswer(correctList)
      ensures TrueFalseQuestion? ==> a == BoolAnswer(truth)
      ensures TextEntryQuestion? ==> a == TextEntryAnswer(expectedAnswer)
    {
      match this
      case ChoiceQuestion(_, _, c) => ChoiceAnswer(c)
      case MultipleChoiceQuestion(_, _, cs) => MultipleChoiceAnswer(cs)
      case TrueFalseQuestion(_, b) => BoolAnswer(b)
      case TextEntryQuestion(_, e, _) => TextEntryAnswer(e)
    }
  }

  /** The dynamic value behind `Answer.Value() any`. */
  datatype AnswerValue = IntValue(i: int) | IntListValue(list: seq<int>) | BoolValue(b: bool) | StringValue(s: string)

  datatype Answer =
    | ChoiceAnswer(selected: int)
    | MultipleChoiceAnswer(selectedList: seq<int>)
    | BoolAnswer(answer: bool)
    | TextEntryAnswer(text: string)
  {
    /** `Answer.Type`: each variant's own tag. */
    function Type(): (t: QuestionType)
      ensures Choice <= t <= TrueFalse
      ensures t == Choice <==> ChoiceAnswer?
      ensures t == MultipleChoice <==> MultipleChoiceAnswer?
      ensures t == TrueFalse <==> BoolAnswer?
      ensures t == TextEntry <==> TextEntryAnswer?
    {
      match this
      case ChoiceAnswer(_) => Choice
      case MultipleChoiceAnswer(_) => MultipleChoice
      case BoolAnswer(_) => TrueFalse
      case TextEntryAnswer(_) => TextEntry
    }

    /** `Answer.Value`: the variant's payload, tagged with its Go type. */
    function Value(): (v: AnswerValue)
      ensures ChoiceAnswer? ==> v == IntValue(selected)
      ensures MultipleChoiceAnswer? ==> v == IntListValue(selectedList)
      ensures BoolAnswer? ==> v == BoolValue(answer)
      ensures TextEntryAnswer? ==> v == StringValue(text)
    {
      match this
      case ChoiceAnswer(i) => IntValue(i)
      case MultipleChoiceAnswer(l) => IntListValue(l)
      case BoolAnswer(b) => BoolValue(b)
      case TextEntryAnswer(s) => StringValue(s)
    }
  }

  /** Two answers with equal values are equal answers: the value determines
      both the variant and its payload. */
  lemma ValueInjective(a: Answer, b: Answer)
    requires a.Value() == b.Value()
    ensures a == b
  {
  }
}
