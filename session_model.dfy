/** The session state machine as pure transitions over a snapshot of the
    session's mutable fields (internal/session/session.go, helper.go). The
    `Session` class in `Sessions` performs these transitions in place. */
module SessionModel {
  import opened Wrappers
  import opened Game
  import opened Rules
  import opened EngineFormat
  import opened Questions
  import opened Grades
  import opened Graders
  import opened SessionStates

  /** The four session errors. */
  datatype SessionError = ErrNotRunning | ErrAlreadyEnded | ErrNoNavigation | ErrInvalidIndex

  /** What a session is created with and never changes. */
  datatype Config = Config(format: Format, questions: seq<Question>, grader: GradePolicy)

  /** The session's mutable fields; a `None` slot is a nil answer or result.
      Durations are integer nanoseconds. */
  datatype Snapshot = Snapshot(
    state: State,
    answers: seq<Option<Answer>>,
    gradeResults: seq<Option<GradeResult>>,
    currentIndex: int,
    score: int,
    livesRemaining: int,
    timeRemaining: int)

  /** An error (with the snapshot unchanged) or success with a new snapshot. */
  datatype Outcome = Outcome(err: Option<SessionError>, next: Snapshot)

  /** `Tick`'s two return values and the new snapshot. */
  datatype TickOutcome = TickOutcome(timeExpired: bool, newState: State, next: Snapshot)

  /** A stored answer was graded by the session's grader on its question. */
  predicate SlotConsistent(c: Config, answers: seq<Option<Answer>>, results: seq<Option<GradeResult>>, i: int)
    requires 0 <= i < |c.questions| == |answers| == |results|
  {
    match answers[i]
    case None => results[i].None?
    case Some(a) =>
      CanGrade(c.grader, c.questions[i], a) && results[i] == Some(Grade(c.grader, c.questions[i], a))
  }

  /** Every slot is consistent. */
  predicate SlotsConsistent(c: Config, answers: seq<Option<Answer>>, results: seq<Option<GradeResult>>)
    requires |c.questions| == |answers| == |results|
  {
    forall i :: 0 <= i < |c.questions| ==> SlotConsistent(c, answers, results, i)
  }

  /** The session invariant: one answer and one result slot per question,
      a known state, an index inside the question list (0 when it is empty),
      every stored result the grade of its stored answer, and each end state
      backed by the condition that caused it. */
  predicate Valid(c: Config, s: Snapshot) {
    && |s.answers| == |c.questions|
    && |s.gradeResults| == |c.questions|
    && IsState(s.state)
    && 0 <= s.currentIndex
    && (s.currentIndex < |c.questions| || s.currentIndex == 0)
    && SlotsConsistent(c, s.answers, s.gradeResults)
    && (s.state == Completed ==>
          s.currentIndex == |c.questions| - 1 && s.answers[s.currentIndex].Some?)
    && (s.state == Failed ==> c.format.lives.enabled && s.livesRemaining <= 0)
    && (s.state == TimeExpired ==> c.format.time.control != Unlimited && s.timeRemaining == 0)
  }

  /** `NewSession`: empty slots, NotStarted, the format's starting lives. */
  function Initial(c: Config): (s: Snapshot)
    ensures Valid(c, s)
    ensures s.state == NotStarted && s.currentIndex == 0 && s.score == 0 && s.timeRemaining == 0
    ensures s.livesRemaining == c.format.lives.starting
    ensures |s.answers| == |c.questions| && forall i :: 0 <= i < |s.answers| ==> s.answers[i].None?
    ensures |s.gradeResults| == |c.questions| && forall i :: 0 <= i < |s.gradeResults| ==> s.gradeResults[i].None?
  {
    Snapshot(NotStarted, seq(|c.questions|, _ => None), seq(|c.questions|, _ => None),
             0, 0, c.format.lives.starting, 0)
  }

  /** The time `Begin` starts with: the whole budget under TotalTime, one
      question's time under the per-question modes, none when Unlimited;
      the switch has no default, so another value keeps the old time. */
  function SeedTime(tr: TimeRules, t: int): (r: int)
    ensures tr.control == TotalTime ==> r == tr.totalDuration
    ensures IsPerQuestionMode(tr.control) ==> r == tr.perQuestion
    ensures tr.control == Unlimited ==> r == 0
    ensures !IsTimeMode(tr.control) ==> r == t
  {
    if tr.control == TotalTime then tr.totalDuration
    else if IsPerQuestionMode(tr.control) then tr.perQuestion
    else if tr.control == Unlimited then 0
    else t
  }

  /** `Session.Begin`: only a NotStarted session starts; any other state is
      refused with ErrAlreadyEnded and nothing changes. Starting sets
      Running and seeds the timer; answers, score, lives and index stay. */
  function Begin(c: Config, s: Snapshot): (o: Outcome)
    requires Valid(c, s)
    ensures Valid(c, o.next)
    ensures o.err.Some? <==> s.state != NotStarted
    ensures o.err.Some? ==> o.err.value == ErrAlreadyEnded && o.next == s
    ensures o.err.None? ==>
      o.next == s.(state := Running, timeRemaining := SeedTime(c.format.time, s.timeRemaining))
  {
    if s.state != NotStarted then Outcome(Some(ErrAlreadyEnded), s)
    else Outcome(None, s.(state := Running, timeRemaining := SeedTime(c.format.time, s.timeRemaining)))
  }

  /** `applyTimeBonus`: only PerQuestionWithBonus gains the bonus. */
  function ApplyTimeBonus(tr: TimeRules, t: int): (r: int)
    ensures tr.control != PerQuestionWithBonus ==> r == t
    ensures tr.control == PerQuestionWithBonus ==> r - t == tr.bonus
  {
    if tr.control != PerQuestionWithBonus then t else t + tr.bonus
  }

  /** `applyTimePenalty`: only PerQuestionWithBonus loses the penalty, and
      then the time never goes below zero. */
  function ApplyTimePenalty(tr: TimeRules, t: int): (r: int)
    ensures tr.control != PerQuestionWithBonus ==> r == t
    ensures tr.control == PerQuestionWithBonus ==> r >= 0 && (r == 0 || r == t - tr.penalty)
    ensures tr.control == PerQuestionWithBonus && t - tr.penalty >= 0 ==> r == t - tr.penalty
  {
    if tr.control != PerQuestionWithBonus then t
    else if t - tr.penalty < 0 then 0
    else t - tr.penalty
  }

  /** `resetQuestionTimer`: the per-question modes restart the question's
      time; the others leave the timer alone. */
  function ResetQuestionTimer(tr: TimeRules, t: int): (r: int)
    ensures IsPerQuestionMode(tr.control) ==> r == tr.perQuestion
    ensures !IsPerQuestionMode(tr.control) ==> r == t
  {
    if IsPerQuestionMode(tr.control) then tr.perQuestion else t
  }

  /** `isLastQuestion`. */
  predicate IsLastQuestion(c: Config, s: Snapshot) {
    s.currentIndex == |c.questions| - 1
  }

  /** `checkGameOver`: out of lives (when lives are enabled) fails the
      session, and takes precedence; otherwise an answer on the last
      question completes it, whether or not earlier questions were
      answered. Only the state changes. */
  function CheckGameOver(c: Config, s: Snapshot): (r: (bool, Snapshot))
    requires |s.answers| == |c.questions| && 0 <= s.currentIndex
    ensures r.1 == s.(state := r.1.state)
    ensures c.format.lives.enabled && s.livesRemaining <= 0 ==> r.1.state == Failed
    ensures r.0 <==> (c.format.lives.enabled && s.livesRemaining <= 0)
                     || (IsLastQuestion(c, s) && s.answers[s.currentIndex].Some?)
    ensures r.0 && !(c.format.lives.enabled && s.livesRemaining <= 0) ==> r.1.state == Completed
    ensures !r.0 ==> r.1 == s
  {
    if c.format.lives.enabled && s.livesRemaining <= 0 then (true, s.(state := Failed))
    else if IsLastQuestion(c, s) && s.answers[s.currentIndex].Some? then (true, s.(state := Completed))
    else (false, s)
  }

  /** `advance`: one step forward, restarting the question timer, unless
      already on the last question; the index never passes the end. */
  function Advance(c: Config, s: Snapshot): (r: Snapshot)
    ensures s.currentIndex < |c.questions| - 1 ==>
      r == s.(currentIndex := s.currentIndex + 1,
              timeRemaining := ResetQuestionTimer(c.format.time, s.timeRemaining))
    ensures s.currentIndex >= |c.questions| - 1 ==> r == s
    ensures s.currentIndex <= |c.questions| - 1 ==> r.currentIndex <= |c.questions| - 1
  {
    if s.currentIndex < |c.questions| - 1 then
      s.(currentIndex := s.currentIndex + 1,
         timeRemaining := ResetQuestionTimer(c.format.time, s.timeRemaining))
    else s
  }

  /** What `SubmitAnswer` needs in order not to panic while Running: a
      question to index, and an answer the grade policy accepts for it. */
  predicate SubmitDefined(c: Config, s: Snapshot, a: Answer)
    requires Valid(c, s)
  {
    s.state == Running ==>
      |c.questions| > 0 && CanGrade(c.grader, c.questions[s.currentIndex], a)
  }

  /** Score and lives after grading: a correct grade adds one point and
      the bonus, an incorrect one costs a life when lives are enabled and
      lost on a wrong answer, and the penalty. */
  function Score(c: Config, s: Snapshot, correct: bool): (r: Snapshot)
    ensures r == s.(score := r.score, livesRemaining := r.livesRemaining, timeRemaining := r.timeRemaining)
    ensures r.score == s.score + (if correct then 1 else 0)
    ensures r.livesRemaining ==
      s.livesRemaining - (if !correct && c.format.lives.enabled && c.format.lives.loseOnWrong then 1 else 0)
    ensures r.timeRemaining == (if correct then ApplyTimeBonus(c.format.time, s.timeRemaining)
                                else ApplyTimePenalty(c.format.time, s.timeRemaining))
  {
    if correct then
      s.(score := s.score + 1, timeRemaining := ApplyTimeBonus(c.format.time, s.timeRemaining))
    else
      var lives := if c.format.lives.enabled && c.format.lives.loseOnWrong then s.livesRemaining - 1
                   else s.livesRemaining;
      s.(livesRemaining := lives, timeRemaining := ApplyTimePenalty(c.format.time, s.timeRemaining))
  }

  /** `Session.SubmitAnswer`. Outside Running it fails with ErrNotRunning
      and changes nothing. Otherwise it stores the answer and its grade at
      the current index (no guard against answering the same question
      again), updates score, lives and time, ends the game when lives run
      out or the last question is answered, and under Locked navigation
      moves on to the next question. */
  function Submit(c: Config, s: Snapshot, a: Answer): (o: Outcome)
    requires Valid(c, s) && SubmitDefined(c, s, a)
    ensures Valid(c, o.next)
    ensures o.err.Some? <==> s.state != Running
    ensures o.err.Some? ==> o.err.value == ErrNotRunning && o.next == s
    ensures o.err.None? ==>
      var i := s.currentIndex;
      var r := Grade(c.grader, c.questions[i], a);
      && o.next.answers == s.answers[i := Some(a)]
      && o.next.gradeResults == s.gradeResults[i := Some(r)]
      && o.next.score == s.score + (if r.IsCorrect() then 1 else 0)
      && o.next.livesRemaining == s.livesRemaining
           - (if !r.IsCorrect() && c.format.lives.enabled && c.format.lives.loseOnWrong then 1 else 0)
      && (o.next.state == Failed <==> c.format.lives.enabled && o.next.livesRemaining <= 0)
      && (o.next.state == Completed <==>
            !(c.format.lives.enabled && o.next.livesRemaining <= 0) && i == |c.questions| - 1)
      && (o.next.state == Running || o.next.state == Completed || o.next.state == Failed)
      && (o.next.state != Running || c.format.time.navigation != Locked ==> o.next.currentIndex == i)
      && (o.next.state == Running && c.format.time.navigation == Locked ==> o.next.currentIndex == i + 1)
      && o.next.timeRemaining ==
           (var t := if r.IsCorrect() then ApplyTimeBonus(c.format.time, s.timeRemaining)
                     else ApplyTimePenalty(c.format.time, s.timeRemaining);
            if o.next.state == Running && c.format.time.navigation == Locked
            then ResetQuestionTimer(c.format.time, t) else t)
  {
    if s.state != Running then Outcome(Some(ErrNotRunning), s)
    else
      var i := s.currentIndex;
      var r := Grade(c.grader, c.questions[i], a);
      var stored := s.(answers := s.answers[i := Some(a)], gradeResults := s.gradeResults[i := Some(r)]);
      var scored := Score(c, stored, r.IsCorrect());
      assert SlotsConsistent(c, scored.answers, scored.gradeResults) by {
        forall j | 0 <= j < |c.questions| ensures SlotConsistent(c, scored.answers, scored.gradeResults, j) {
          if j != i { assert SlotConsistent(c, s.answers, s.gradeResults, j); }
        }
      }
      var checked := CheckGameOver(c, scored);
      if checked.0 then Outcome(None, checked.1)
      else if c.format.time.navigation == Locked then Outcome(None, Advance(c, checked.1))
      else Outcome(None, checked.1)
  }

  /** `Session.NextQuestion`: errors in the order not running, navigation
      not Free, already on the last question; otherwise the index moves up
      by exactly one and nothing else changes. */
  function Next(c: Config, s: Snapshot): (o: Outcome)
    requires Valid(c, s)
    ensures Valid(c, o.next)
    ensures s.state != Running ==> o.err == Some(ErrNotRunning)
    ensures s.state == Running && c.format.time.navigation != Free ==> o.err == Some(ErrNoNavigation)
    ensures s.state == Running && c.format.time.navigation == Free && s.currentIndex >= |c.questions| - 1 ==>
      o.err == Some(ErrInvalidIndex)
    ensures o.err.None? <==>
      s.state == Running && c.format.time.navigation == Free && s.currentIndex < |c.questions| - 1
    ensures o.err.Some? ==> o.next == s
    ensures o.err.None? ==> o.next == s.(currentIndex := s.currentIndex + 1)
  {
    if s.state != Running then Outcome(Some(ErrNotRunning), s)
    else if c.format.time.navigation != Free then Outcome(Some(ErrNoNavigation), s)
    else if s.currentIndex >= |c.questions| - 1 then Outcome(Some(ErrInvalidIndex), s)
    else Outcome(None, s.(currentIndex := s.currentIndex + 1))
  }

  /** `Session.PrevQuestion`: the same checks, with the first question as
      the end; otherwise the index moves down by exactly one. */
  function Prev(c: Config, s: Snapshot): (o: Outcome)
    requires Valid(c, s)
    ensures Valid(c, o.next)
    ensures s.state != Running ==> o.err == Some(ErrNotRunning)
    ensures s.state == Running && c.format.time.navigation != Free ==> o.err == Some(ErrNoNavigation)
    ensures s.state == Running && c.format.time.navigation == Free && s.currentIndex <= 0 ==>
      o.err == Some(ErrInvalidIndex)
    ensures o.err.None? <==>
      s.state == Running && c.format.time.navigation == Free && 0 < s.currentIndex
    ensures o.err.Some? ==> o.next == s
    ensures o.err.None? ==> o.next == s.(currentIndex := s.currentIndex - 1)
  {
    if s.state != Running then Outcome(Some(ErrNotRunning), s)
    else if c.format.time.navigation != Free then Outcome(Some(ErrNoNavigation), s)
    else if s.currentIndex <= 0 then Outcome(Some(ErrInvalidIndex), s)
    else Outcome(None, s.(currentIndex := s.currentIndex - 1))
  }

  /** `Session.Tick`: nothing happens unless Running, nor under Unlimited;
      otherwise the elapsed time is taken off, and when none is left the
      timer is clamped to zero and the session ends as TimeExpired. */
  function Tick(c: Config, s: Snapshot, elapsed: int): (o: TickOutcome)
    requires Valid(c, s)
    ensures Valid(c, o.next)
    ensures s.state != Running ==> o == TickOutcome(false, s.state, s)
    ensures s.state == Running && c.format.time.control == Unlimited ==> o == TickOutcome(false, Running, s)
    ensures s.state == Running && c.format.time.control != Unlimited ==>
      (o.timeExpired <==> s.timeRemaining - elapsed <= 0)
      && (o.timeExpired ==> o.next == s.(state := TimeExpired, timeRemaining := 0) && o.newState == TimeExpired)
      && (!o.timeExpired ==> o.next == s.(timeRemaining := s.timeRemaining - elapsed) && o.newState == Running)
    ensures o.newState == o.next.state
  {
    if s.state != Running then TickOutcome(false, s.state, s)
    else if c.format.time.control != Unlimited then
      var t := s.timeRemaining - elapsed;
      if t <= 0 then TickOutcome(true, TimeExpired, s.(state := TimeExpired, timeRemaining := 0))
      else TickOutcome(false, Running, s.(timeRemaining := t))
    else TickOutcome(false, Running, s)
  }

  /** The number of non-nil results that are correct (`GetResults`). */
  function CountCorrect(results: seq<Option<GradeResult>>): (n: nat)
    ensures n <= |results|
  {
    if results == [] then 0
    else CountCorrect(results[..|results| - 1])
         + (if results[|results| - 1].Some? && results[|results| - 1].value.IsCorrect() then 1 else 0)
  }

  /** Filling an empty result slot adds one to the count exactly when the
      new result is correct. */
  lemma {:induction false} CountCorrectFill(results: seq<Option<GradeResult>>, i: int, r: GradeResult)
    requires 0 <= i < |results| && results[i].None?
    ensures CountCorrect(results[i := Some(r)]) == CountCorrect(results) + (if r.IsCorrect() then 1 else 0)
  {
    var last := |results| - 1;
    var updated := results[i := Some(r)];
    if i < last {
      assert updated[..last] == results[..last][i := Some(r)];
      CountCorrectFill(results[..last], i, r);
    } else {
      assert updated[..last] == results[..last];
    }
  }

  /** The session's operations, as a caller (the UI) issues them. */
  datatype Op = BeginOp | SubmitOp(answer: Answer) | NextOp | PrevOp | TickOp(elapsed: int)

  predicate StepDefined(c: Config, s: Snapshot, op: Op)
    requires Valid(c, s)
  {
    op.SubmitOp? ==> SubmitDefined(c, s, op.answer)
  }

  /** The snapshot after one operation. */
  function Step(c: Config, s: Snapshot, op: Op): (r: Snapshot)
    requires Valid(c, s) && StepDefined(c, s, op)
    ensures Valid(c, r)
  {
    match op
    case BeginOp => Begin(c, s).next
    case SubmitOp(a) => Submit(c, s, a).next
    case NextOp => Next(c, s).next
    case PrevOp => Prev(c, s).next
    case TickOp(e) => Tick(c, s, e).next
  }

  /** Every operation of a sequence can be issued without a panic. */
  predicate RunDefined(c: Config, s: Snapshot, ops: seq<Op>)
    requires Valid(c, s)
    decreases |ops|
  {
    ops == [] || (StepDefined(c, s, ops[0]) && RunDefined(c, Step(c, s, ops[0]), ops[1..]))
  }

  /** The snapshot after a sequence of operations. */
  function Run(c: Config, s: Snapshot, ops: seq<Op>): (r: Snapshot)
    requires Valid(c, s) && RunDefined(c, s, ops)
    ensures Valid(c, r)
    decreases |ops|
  {
    if ops == [] then s else Run(c, Step(c, s, ops[0]), ops[1..])
  }

  /** The number of submissions in a sequence of operations. */
  function Submissions(ops: seq<Op>): (n: nat)
    ensures n <= |ops|
  {
    if ops == [] then 0 else (if ops[0].SubmitOp? then 1 else 0) + Submissions(ops[1..])
  }

  /** One operation: the score grows by at most one and only on a
      submission, lives never grow and fall by at most one, a started
      session never goes back to NotStarted, and an ended session does not
      change at all. */
  lemma StepMonotone(c: Config, s: Snapshot, op: Op)
    requires Valid(c, s) && StepDefined(c, s, op)
    ensures s.score <= Step(c, s, op).score <= s.score + (if op.SubmitOp? then 1 else 0)
    ensures s.livesRemaining - (if op.SubmitOp? then 1 else 0) <= Step(c, s, op).livesRemaining <= s.livesRemaining
    ensures s.state != NotStarted ==> Step(c, s, op).state != NotStarted
    ensures IsTerminal(s.state) ==> Step(c, s, op) == s
  {
  }

  /** Over any sequence of operations: the score never decreases and rises
      by at most the number of submissions, lives never increase and fall
      by at most that number, and a started session never returns to
      NotStarted. */
  lemma {:induction false} RunMonotone(c: Config, s: Snapshot, ops: seq<Op>)
    requires Valid(c, s) && RunDefined(c, s, ops)
    ensures s.score <= Run(c, s, ops).score <= s.score + Submissions(ops)
    ensures s.livesRemaining - Submissions(ops) <= Run(c, s, ops).livesRemaining <= s.livesRemaining
    ensures s.state != NotStarted ==> Run(c, s, ops).state != NotStarted
    decreases |ops|
  {
    if ops != [] {
      StepMonotone(c, s, ops[0]);
      RunMonotone(c, Step(c, s, ops[0]), ops[1..]);
    }
  }

  /** Completed, Failed and TimeExpired are final: no sequence of
      operations changes an ended session. */
  lemma {:induction false} TerminalAbsorbing(c: Config, s: Snapshot, ops: seq<Op>)
    requires Valid(c, s) && RunDefined(c, s, ops) && IsTerminal(s.state)
    ensures Run(c, s, ops) == s
    decreases |ops|
  {
    if ops != [] {
      StepMonotone(c, s, ops[0]);
      TerminalAbsorbing(c, Step(c, s, ops[0]), ops[1..]);
    }
  }

  /** The bookkeeping Locked navigation keeps: before the end, exactly
      the questions before the current one are answered, and the score is
      the number of correct results. */
  predicate LockedAccounting(c: Config, s: Snapshot)
    requires Valid(c, s)
  {
    c.format.time.navigation == Locked ==>
      && s.score == CountCorrect(s.gradeResults)
      && (s.state == NotStarted || s.state == Running ==>
            forall j :: 0 <= j < |c.questions| ==> (s.answers[j].Some? <==> j < s.currentIndex))
  }

  /** One operation preserves the Locked accounting: a Locked session
      cannot revisit a question, because every answer either ends the game
      or moves on. */
  lemma LockedStep(c: Config, s: Snapshot, op: Op)
    requires Valid(c, s) && StepDefined(c, s, op) && LockedAccounting(c, s)
    ensures LockedAccounting(c, Step(c, s, op))
  {
    if c.format.time.navigation == Locked && op.SubmitOp? && s.state == Running {
      var i := s.currentIndex;
      var r := Grade(c.grader, c.questions[i], op.answer);
      assert s.answers[i].None?;
      assert s.gradeResults[i].None? by { assert SlotConsistent(c, s.answers, s.gradeResults, i); }
      CountCorrectFill(s.gradeResults, i, r);
    }
  }

  /** Under Locked navigation, from a new session, the score always equals
      the number of correct results that `GetResults` reports. */
  lemma {:induction false} LockedScoreIsCorrectCount(c: Config, s: Snapshot, ops: seq<Op>)
    requires Valid(c, s) && RunDefined(c, s, ops) && LockedAccounting(c, s)
    ensures LockedAccounting(c, Run(c, s, ops))
    ensures c.format.time.navigation == Locked ==>
      Run(c, s, ops).score == CountCorrect(Run(c, s, ops).gradeResults)
    decreases |ops|
  {
    if ops != [] {
      LockedStep(c, s, ops[0]);
      LockedScoreIsCorrectCount(c, Step(c, s, ops[0]), ops[1..]);
    }
  }

  /** A new session satisfies the Locked accounting. */
  lemma InitialLockedAccounting(c: Config)
    ensures LockedAccounting(c, Initial(c))
  {
    var s := Initial(c);
    if |s.gradeResults| > 0 {
      InitialCountZero(s.gradeResults);
    }
  }

  lemma {:induction false} InitialCountZero(results: seq<Option<GradeResult>>)
    requires forall i :: 0 <= i < |results| ==> results[i].None?
    ensures CountCorrect(results) == 0
  {
    if results != [] {
      InitialCountZero(results[..|results| - 1]);
    }
  }
}
