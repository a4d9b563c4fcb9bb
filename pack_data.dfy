/** The loader's question records and their checks (internal/pack/pack.go).
    `Validate` shares the caller's set of seen IDs and records each ID it
    gets far enough to look up; `Repair` fills in an empty ID. */
module PackData {
  import opened Wrappers
  import opened Text
  import opened Game

  /** The loader's error values (internal/pack/loader.go), plus the
      duplicate-ID error pack.go returns. */
  datatype PackError =
    | ErrNotFound
    | ErrInvalidJSON
    | ErrMissingFields
    | ErrNoQuestions
    | ErrInvalidData
    | ErrDuplicateID

  /** `isValidDifficulty`: the string is the printed name of one of the
      four difficulties. */
  function IsValidDifficultyName(difficulty: string): (b: bool)
    ensures b <==> exists d :: IsValidDifficulty(d) && DifficultyString(d) == difficulty
  {
    var d := ParseDifficulty(difficulty);
    assert d != 0 ==> IsValidDifficulty(d) && DifficultyString(d) == difficulty;
    d != 0
  }

  /** The caller's `seenIDs` map. Only keys mapped to true are ever read,
      so it is the set of those keys. */
  class SeenIDs {
    var ids: set<string>

    constructor ()
      ensures ids == {}
    {
      ids := {};
    }
  }

  /** The checks every kind starts with: a missing ID or prompt, then an ID
      seen before, then a difficulty that is not a name. */
  function CommonCheck(id: string, prompt: string, difficulty: string, seen: set<string>): (err: Option<PackError>)
    ensures id == "" || prompt == "" ==> err == Some(ErrMissingFields)
    ensures id != "" && prompt != "" && id in seen ==> err == Some(ErrDuplicateID)
    ensures id != "" && prompt != "" && id !in seen ==>
      (err.None? <==> IsValidDifficultyName(difficulty)) && (err.Some? ==> err == Some(ErrInvalidData))
  {
    if id == "" || prompt == "" then Some(ErrMissingFields)
    else if id in seen then Some(ErrDuplicateID)
    else if !IsValidDifficultyName(difficulty) then Some(ErrInvalidData)
    else None
  }

  /** The seen set after a `Validate`: the ID is added as soon as the
      duplicate test is passed, whatever the later checks say. */
  function SeenAfter(id: string, prompt: string, seen: set<string>): (after: set<string>)
    ensures seen <= after && after - seen <= {id}
    ensures id in after <==> id in seen || (id != "" && prompt != "")
  {
    if id == "" || prompt == "" then seen else seen + {id}
  }

  /** A choice question is valid with an answer index inside the options. */
  function ChoiceCheck(id: string, prompt: string, difficulty: string, options: seq<string>, answer: int,
                       seen: set<string>): (err: Option<PackError>)
    ensures err.None? <==> id != "" && prompt != "" && id !in seen && IsValidDifficultyName(difficulty)
                           && 0 <= answer < |options|
    ensures CommonCheck(id, prompt, difficulty, seen).Some? ==> err == CommonCheck(id, prompt, difficulty, seen)
    ensures err.Some? && CommonCheck(id, prompt, difficulty, seen).None? ==> err == Some(ErrInvalidData)
  {
    var common := CommonCheck(id, prompt, difficulty, seen);
    if common.Some? then common
    else if answer < 0 || answer >= |options| then Some(ErrInvalidData)
    else None
  }

  /** A multiple-choice question needs one to `|options|` answers and at
      least one option; the answer indices themselves are not checked. */
  function MultiCheck(id: string, prompt: string, difficulty: string, options: seq<string>, answer: seq<int>,
                      seen: set<string>): (err: Option<PackError>)
    ensures err.None? <==> id != "" && prompt != "" && id !in seen && IsValidDifficultyName(difficulty)
                           && 1 <= |answer| <= |options|
    ensures CommonCheck(id, prompt, difficulty, seen).Some? ==> err == CommonCheck(id, prompt, difficulty, seen)
    ensures err.Some? && CommonCheck(id, prompt, difficulty, seen).None? ==> err == Some(ErrInvalidData)
  {
    var common := CommonCheck(id, prompt, difficulty, seen);
    if common.Some? then common
    else if |answer| < 1 || |answer| > |options| || |options| < 1 then Some(ErrInvalidData)
    else None
  }

  /** A text question needs an expected answer of three or more bytes and
      at least one keyword. */
  function TextCheck(id: string, prompt: string, difficulty: string, keywords: seq<string>, expected: string,
                     seen: set<string>): (err: Option<PackError>)
    ensures err.None? <==> id != "" && prompt != "" && id !in seen && IsValidDifficultyName(difficulty)
                           && |expected| >= 3 && |keywords| >= 1
    ensures CommonCheck(id, prompt, difficulty, seen).Some? ==> err == CommonCheck(id, prompt, difficulty, seen)
    ensures err.Some? && CommonCheck(id, prompt, difficulty, seen).None? ==> err == Some(ErrInvalidData)
  {
    var common := CommonCheck(id, prompt, difficulty, seen);
    if common.Some? then common
    else if |expected| < 3 || |keywords| < 1 then Some(ErrInvalidData)
    else None
  }

  /** The ID `Repair` writes: "<category>-<kind>-<index>" for an empty ID,
      the ID itself otherwise. */
  function RepairedID(id: string, category: string, kind: string, index: int): (r: string)
    ensures r != ""
    ensures id != "" ==> r == id
  {
    if id == "" then category + "-" + kind + "-" + IntToString(index) else id
  }

  /** Repairing twice is repairing once. */
  lemma RepairIdempotent(id: string, category: string, kind: string, index: int)
    ensures RepairedID(RepairedID(id, category, kind, index), category, kind, index) == RepairedID(id, category, kind, index)
  {
  }

  /** Within one category and kind, repaired IDs at different positions
      differ. */
  lemma RepairedIDsDistinct(category: string, kind: string, i: nat, j: nat)
    requires i != j
    ensures RepairedID("", category, kind, i) != RepairedID("", category, kind, j)
  {
    var prefix := category + "-" + kind + "-";
    var a, b := RepairedID("", category, kind, i), RepairedID("", category, kind, j);
    assert a == prefix + NatToString(i) && b == prefix + NatToString(j);
    if a == b {
      assert a[|prefix|..] == NatToString(i);
      assert b[|prefix|..] == NatToString(j);
      NatToStringInjective(i, j);
    }
  }

  /** Validating a question with the seen set its own `Validate` left
      behind reports a duplicate, once ID and prompt are present. */
  lemma RevalidateIsDuplicate(id: string, prompt: string, difficulty: string, seen: set<string>)
    requires id != "" && prompt != ""
    ensures CommonCheck(id, prompt, difficulty, SeenAfter(id, prompt, seen)) == Some(ErrDuplicateID)
  {
  }

  /** `ChoiceQuestionData`. */
  class ChoiceQuestionData {
    var id: string
    const difficulty: string
    const prompt: string
    const options: seq<string>
    const answer: int

    constructor (id: string, difficulty: string, prompt: string, options: seq<string>, answer: int)
      ensures this.id == id && this.difficulty == difficulty && this.prompt == prompt
      ensures this.options == options && this.answer == answer
    {
      this.id := id;
      this.difficulty := difficulty;
      this.prompt := prompt;
      this.options := options;
      this.answer := answer;
    }

    /** `ChoiceQuestionData.Validate`. */
    method Validate(seen: SeenIDs) returns (err: Option<PackError>)
      modifies seen
      ensures err == ChoiceCheck(id, prompt, difficulty, options, answer, old(seen.ids))
      ensures seen.ids == SeenAfter(id, prompt, old(seen.ids))
    {
      err := ValidateCommon(id, prompt, difficulty, seen);
      if err.Some? {
        return;
      }
      if answer < 0 || answer >= |options| {
        return Some(ErrInvalidData);
      }
    }

    /** `ChoiceQuestionData.Repair`. */
    method Repair(category: string, index: int)
      modifies this
      ensures id == RepairedID(old(id), category, "choice", index)
    {
      if id == "" {
        id := category + "-choice-" + IntToString(index);
      }
    }
  }

  /** `MultipleChoiceQuestionData`. */
  class MultipleChoiceQuestionData {
    var id: string
    const difficulty: string
    const prompt: string
    const options: seq<string>
    const answer: seq<int>

    constructor (id: string, difficulty: string, prompt: string, options: seq<string>, answer: seq<int>)
      ensures this.id == id && this.difficulty == difficulty && this.prompt == prompt
      ensures this.options == options && this.answer == answer
    {
      this.id := id;
      this.difficulty := difficulty;
      this.prompt := prompt;
      this.options := options;
      this.answer := answer;
    }

    /** `MultipleChoiceQuestionData.Validate`. */
    method Validate(seen: SeenIDs) returns (err: Option<PackError>)
      modifies seen
      ensures err == MultiCheck(id, prompt, difficulty, options, answer, old(seen.ids))
      ensures seen.ids == SeenAfter(id, prompt, old(seen.ids))
    {
      err := ValidateCommon(id, prompt, difficulty, seen);
      if err.Some? {
        return;
      }
      if |answer| < 1 || |answer| > |options| || |options| < 1 {
        return Some(ErrInvalidData);
      }
    }

    /** `MultipleChoiceQuestionData.Repair`. */
    method Repair(category: string, index: int)
      modifies this
      ensures id == RepairedID(old(id), category, "multiple", index)
    {
      if id == "" {
        id := category + "-multiple-" + IntToString(index);
      }
    }
  }

  /** `TrueFalseQuestionData`. */
  class TrueFalseQuestionData {
    var id: string
    const difficulty: string
    const prompt: string
    const answer: bool

    constructor (id: string, difficulty: string, prompt: string, answer: bool)
      ensures this.id == id && this.difficulty == difficulty && this.prompt == prompt && this.answer == answer
    {
      this.id := id;
      this.difficulty := difficulty;
      this.prompt := prompt;
      this.answer := answer;
    }

    /** `TrueFalseQuestionData.Validate`: only the shared checks. */
    method Validate(seen: SeenIDs) returns (err: Option<PackError>)
      modifies seen
      ensures err == CommonCheck(id, prompt, difficulty, old(seen.ids))
      ensures seen.ids == SeenAfter(id, prompt, old(seen.ids))
    {
      err := ValidateCommon(id, prompt, difficulty, seen);
    }

    /** `TrueFalseQuestionData.Repair`. */
    method Repair(category: string, index: int)
      modifies this
      ensures id == RepairedID(old(id), category, "tf", index)
    {
      if id == "" {
        id := category + "-tf-" + IntToString(index);
      }
    }
  }

  /** `TextEntryQuestionData`. */
  class TextEntryQuestionData {
    var id: string
    const difficulty: string
    const prompt: string
    const keywords: seq<string>
    const expectedAnswer: string

    constructor (id: string, difficulty: string, prompt: string, keywords: seq<string>, expectedAnswer: string)
      ensures this.id == id && this.difficulty == difficulty && this.prompt == prompt
      ensures this.keywords == keywords && this.expectedAnswer == expectedAnswer
    {
      this.id := id;
      this.difficulty := difficulty;
      this.prompt := prompt;
      this.keywords := keywords;
      this.expectedAnswer := expectedAnswer;
    }

    /** `TextEntryQuestionData.Validate`. */
    method Validate(seen: SeenIDs) returns (err: Option<PackError>)
      modifies seen
      ensures err == TextCheck(id, prompt, difficulty, keywords, expectedAnswer, old(seen.ids))
      ensures seen.ids == SeenAfter(id, prompt, old(seen.ids))
    {
      err := ValidateCommon(id, prompt, difficulty, seen);
      if err.Some? {
        return;
      }
      if |expectedAnswer| < 3 || |keywords| < 1 {
        return Some(ErrInvalidData);
      }
    }

    /** `TextEntryQuestionData.Repair`. */
    method Repair(category: string, index: int)
      modifies this
      ensures id == RepairedID(old(id), category, "text", index)
    {
      if id == "" {
        id := category + "-text-" + IntToString(index);
      }
    }
  }

  /** The first part of every `Validate`, updating the caller's seen set. */
  method ValidateCommon(id: string, prompt: string, difficulty: string, seen: SeenIDs) returns (err: Option<PackError>)
    modifies seen
    ensures err == CommonCheck(id, prompt, difficulty, old(seen.ids))
    ensures seen.ids == SeenAfter(id, prompt, old(seen.ids))
  {
    if id == "" || prompt == "" {
      return Some(ErrMissingFields);
    }
    if id in seen.ids {
      return Some(ErrDuplicateID);
    }
    seen.ids := seen.ids + {id};
    if ParseDifficulty(difficulty) == 0 {
      return Some(ErrInvalidData);
    }
    return None;
  }
}
