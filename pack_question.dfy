/** The domain form of pack questions, and packs after loading
    (internal/pack/question.go, plus the `Info` record `Raw.ToDomain`
    fills in internal/pack/raw.go). */
module PackDomain {
  import opened Wrappers
  import opened Game
  import Questions

  /** `pack.Type`: an `int` enum starting at 0. */
  type PackType = int

  const TypeChoice: PackType := 0
  const TypeMulti: PackType := 1
  const TypeBool: PackType := 2
  const TypeText: PackType := 3

  predicate IsPackType(t: PackType) {
    TypeChoice <= t <= TypeText
  }

  /** `Type.String`: a name per type, "" for any other value. */
  function TypeString(t: PackType): (s: string)
    ensures s == "" <==> !IsPackType(t)
  {
    if t == TypeChoice then "choice"
    else if t == TypeMulti then "multi"
    else if t == TypeBool then "bool"
    else if t == TypeText then "text"
    else ""
  }

  /** The four names are pairwise distinct. */
  lemma TypeNamesDistinct(t: PackType, u: PackType)
    requires IsPackType(t) && IsPackType(u) && t != u
    ensures TypeString(t) != TypeString(u)
  {
  }

  /** The engine tag a pack type stands for. */
  function EngineTag(t: PackType): (et: QuestionType)
    requires IsPackType(t)
  {
    if t == TypeChoice then Choice
    else if t == TypeMulti then MultipleChoice
    else if t == TypeBool then TrueFalse
    else TextEntry
  }

  /** `FromEngineType`: each of the four engine tags to its pack type, and
      any other tag to TypeChoice. It undoes `EngineTag`. */
  function FromEngineType(et: QuestionType): (t: PackType)
    ensures IsPackType(t)
    ensures Choice <= et <= TrueFalse ==> EngineTag(t) == et
    ensures !(Choice <= et <= TrueFalse) ==> t == TypeChoice
  {
    if et == Choice then TypeChoice
    else if et == MultipleChoice then TypeMulti
    else if et == TrueFalse then TypeBool
    else if et == TextEntry then TypeText
    else TypeChoice
  }

  /** Converting a pack type to its engine tag and back is the identity. */
  lemma EngineTagRoundTrip(t: PackType)
    requires IsPackType(t)
    ensures FromEngineType(EngineTag(t)) == t
  {
  }

  /** `FromEngineTypes`: converts element by element, keeping length and
      order. */
  method FromEngineTypes(engineTypes: seq<QuestionType>) returns (packTypes: seq<PackType>)
    ensures |packTypes| == |engineTypes|
    ensures forall i :: 0 <= i < |engineTypes| ==> packTypes[i] == FromEngineType(engineTypes[i])
  {
    packTypes := [];
    for i := 0 to |engineTypes|
      invariant |packTypes| == i
      invariant forall j :: 0 <= j < i ==> packTypes[j] == FromEngineType(engineTypes[j])
    {
      packTypes := packTypes + [FromEngineType(engineTypes[i])];
    }
  }

  /** The four answer records of a domain question. */
  datatype PackAnswer =
    | ChoiceAnswer(options: seq<string>, correct: int)
    | MultiAnswer(options: seq<string>, correctList: seq<int>)
    | BoolAnswer(truth: bool)
    | TextAnswer(expected: string, keywords: seq<string>)

  /** A domain question; a nil `Answer` is `None`. */
  datatype Question = Question(
    id: string,
    difficulty: Difficulty,
    category: string,
    qtype: PackType,
    prompt: string,
    answer: Option<PackAnswer>)

  /** `Question.Validate`: the first failing check in the order ID,
      prompt, difficulty, answer, each with its own message. */
  function Validate(q: Question): (err: Option<string>)
    ensures err.None? <==> q.id != "" && q.prompt != "" && IsValidDifficulty(q.difficulty) && q.answer.Some?
    ensures q.id == "" ==> err == Some("question missing ID")
    ensures q.id != "" && q.prompt == "" ==> err == Some("question " + q.id + " missing prompt")
    ensures q.id != "" && q.prompt != "" && !IsValidDifficulty(q.difficulty) ==>
      err == Some("question " + q.id + " has invalid difficulty")
    ensures q.id != "" && q.prompt != "" && IsValidDifficulty(q.difficulty) && q.answer.None? ==>
      err == Some("question " + q.id + " missing answer")
  {
    if q.id == "" then Some("question missing ID")
    else if q.prompt == "" then Some("question " + q.id + " missing prompt")
    else if !IsValidDifficulty(q.difficulty) then Some("question " + q.id + " has invalid difficulty")
    else if q.answer.None? then Some("question " + q.id + " missing answer")
    else None
  }

  /** `ToEngine` asserts the answer to the record of the question's type;
      any mismatch, a nil answer included, panics. */
  predicate AnswerFitsType(q: Question) {
    (q.qtype == TypeChoice ==> q.answer.Some? && q.answer.value.ChoiceAnswer?)
    && (q.qtype == TypeMulti ==> q.answer.Some? && q.answer.value.MultiAnswer?)
    && (q.qtype == TypeBool ==> q.answer.Some? && q.answer.value.BoolAnswer?)
    && (q.qtype == TypeText ==> q.answer.Some? && q.answer.value.TextAnswer?)
  }

  /** `Question.ToEngine`: nil for an unknown type; otherwise the engine
      question of the matching variant, carrying the prompt and the answer
      record's fields. */
  function ToEngine(q: Question): (r: Option<Questions.Question>)
    requires AnswerFitsType(q)
    ensures r.None? <==> !IsPackType(q.qtype)
    ensures r.Some? ==> r.value.Type() == EngineTag(q.qtype) && FromEngineType(r.value.Type()) == q.qtype
    ensures r.Some? ==> r.value.prompt == q.prompt
    ensures r.Some? && q.qtype == TypeChoice ==>
      r.value.options == q.answer.value.options && r.value.correct == q.answer.value.correct
    ensures r.Some? && q.qtype == TypeMulti ==>
      r.value.options == q.answer.value.options && r.value.correctList == q.answer.value.correctList
    ensures r.Some? && q.qtype == TypeBool ==> r.value.truth == q.answer.value.truth
    ensures r.Some? && q.qtype == TypeText ==>
      r.value.expectedAnswer == q.answer.value.expected && r.value.keywords == q.answer.value.keywords
  {
    if q.qtype == TypeChoice then
      Some(Questions.ChoiceQuestion(q.prompt, q.answer.value.options, q.answer.value.correct))
    else if q.qtype == TypeMulti then
      Some(Questions.MultipleChoiceQuestion(q.prompt, q.answer.value.options, q.answer.value.correctList))
    else if q.qtype == TypeBool then
      Some(Questions.TrueFalseQuestion(q.prompt, q.answer.value.truth))
    else if q.qtype == TypeText then
      Some(Questions.TextEntryQuestion(q.prompt, q.answer.value.expected, q.answer.value.keywords))
    else None
  }

  /** `Questions.ToEngine`: one engine question (or nil) per question, in
      order. */
  method QuestionsToEngine(qs: seq<Question>) returns (result: seq<Option<Questions.Question>>)
    requires forall i :: 0 <= i < |qs| ==> AnswerFitsType(qs[i])
    ensures |result| == |qs|
    ensures forall i :: 0 <= i < |qs| ==> result[i] == ToEngine(qs[i])
  {
    result := seq(|qs|, _ => None);
    for i := 0 to |qs|
      invariant |result| == |qs|
      invariant forall j :: 0 <= j < i ==> result[j] == ToEngine(qs[j])
    {
      result := result[i := ToEngine(qs[i])];
    }
  }

  /** The `Filter` test: the type is requested (or no types are), and the
      difficulty is the one asked for (or none is). */
  predicate Matches(q: Question, types: seq<PackType>, difficulty: Difficulty) {
    (|types| == 0 || q.qtype in types) && (difficulty == 0 || q.difficulty == difficulty)
  }

  /** The questions that match, in their original order. */
  function Filtered(qs: seq<Question>, types: seq<PackType>, difficulty: Difficulty): (r: seq<Question>)
    ensures |r| <= |qs|
    ensures forall q :: q in r ==> q in qs && Matches(q, types, difficulty)
  {
    if qs == [] then []
    else
      var init := Filtered(qs[..|qs| - 1], types, difficulty);
      var last := qs[|qs| - 1];
      if Matches(last, types, difficulty) then init + [last] else init
  }

  /** `Questions.Filter`: the requested types go into a set first, then
      each matching question is appended in turn. */
  method Filter(qs: seq<Question>, types: seq<PackType>, difficulty: Difficulty) returns (filtered: seq<Question>)
    ensures filtered == Filtered(qs, types, difficulty)
  {
    var typeSet: set<PackType> := {};
    for i := 0 to |types|
      invariant typeSet == set j | 0 <= j < i :: types[j]
    {
      typeSet := typeSet + {types[i]};
    }
    assert forall t :: t in typeSet <==> t in types;

    filtered := [];
    for i := 0 to |qs|
      invariant filtered == Filtered(qs[..i], types, difficulty)
    {
      assert qs[..i + 1][..i] == qs[..i];
      var typeMatch := |types| == 0 || qs[i].qtype in typeSet;
      var difficultyMatch := difficulty == 0 || qs[i].difficulty == difficulty;
      if typeMatch && difficultyMatch {
        filtered := filtered + [qs[i]];
      }
    }
    assert qs[..|qs|] == qs;
  }

  /** Every matching question is kept. */
  lemma {:induction false} FilteredComplete(qs: seq<Question>, types: seq<PackType>, difficulty: Difficulty)
    ensures forall i :: 0 <= i < |qs| && Matches(qs[i], types, difficulty) ==> qs[i] in Filtered(qs, types, difficulty)
  {
    if qs != [] {
      var init := qs[..|qs| - 1];
      FilteredComplete(init, types, difficulty);
      assert forall i :: 0 <= i < |init| ==> init[i] == qs[i];
    }
  }

  /** `sub` is `s` with some elements dropped, order kept. */
  predicate IsSubsequence<T(==)>(sub: seq<T>, s: seq<T>)
    decreases |s|
  {
    sub == [] ||
    (s != [] &&
     ((sub[|sub| - 1] == s[|s| - 1] && IsSubsequence(sub[..|sub| - 1], s[..|s| - 1]))
      || IsSubsequence(sub, s[..|s| - 1])))
  }

  /** The result is an order-preserving subsequence of the input. */
  lemma {:induction false} FilteredIsSubsequence(qs: seq<Question>, types: seq<PackType>, difficulty: Difficulty)
    ensures IsSubsequence(Filtered(qs, types, difficulty), qs)
  {
    if qs != [] {
      var init := qs[..|qs| - 1];
      FilteredIsSubsequence(init, types, difficulty);
      var r := Filtered(qs, types, difficulty);
      if Matches(qs[|qs| - 1], types, difficulty) {
        assert r[..|r| - 1] == Filtered(init, types, difficulty);
      }
    }
  }

  /** With no types and no difficulty, Filter keeps everything. */
  lemma {:induction false} FilterNothing(qs: seq<Question>)
    ensures Filtered(qs, [], 0) == qs
  {
    if qs != [] {
      FilterNothing(qs[..|qs| - 1]);
      assert qs[..|qs| - 1] + [qs[|qs| - 1]] == qs;
    }
  }

  /** The pack summary `ToDomain` builds and `Metadata` indexes. */
  datatype Info = Info(
    id: string,
    name: string,
    role: string,
    categories: seq<string>,
    version: string,
    creator: string,
    path: string,
    count: int)

  /** A loaded pack: its summary and its questions. */
  datatype Pack = Pack(info: Info, questions: seq<Question>)
}
