/** Verification reports (internal/pack/report.go). */
module Reports {
  type IssueLevel = int

  const IssueWarning: IssueLevel := 0
  const IssueError: IssueLevel := 1

  type IssueKind = int

  const IssueMissingID: IssueKind := 1
  const IssueDuplicateID: IssueKind := 2
  const IssueMissingField: IssueKind := 3
  const IssueInvalidDifficulty: IssueKind := 4
  const IssueInvalidAnswer: IssueKind := 5
  const IssueInvalidFormat: IssueKind := 6

  /** An `Issue`; its free-form `Meta` map is never set and is left out. */
  datatype Issue = Issue(message: string, level: IssueLevel, kind: IssueKind, path: string, ref: string)

  datatype Report = Report(repaired: int, warnings: seq<Issue>, errors: seq<Issue>)
  {
    /** `Report.merge`: the receiver's new value. Repair counts add up and
        the other report's warnings and errors follow the receiver's own,
        in order. */
    function Merge(other: Report): (r: Report)
      ensures r.repaired == repaired + other.repaired
      ensures |r.errors| == |errors| + |other.errors| && |r.warnings| == |warnings| + |other.warnings|
      ensures r.errors[..|errors|] == errors && r.errors[|errors|..] == other.errors
      ensures r.warnings[..|warnings|] == warnings && r.warnings[|warnings|..] == other.warnings
    {
      Report(repaired + other.repaired, warnings + other.warnings, errors + other.errors)
    }
  }

  /** The zero `Report`. */
  const EmptyReport := Report(0, [], [])

  /** Merging is associative and the empty report is neutral on both
      sides, so merging many reports does not depend on grouping. */
  lemma MergeMonoid(a: Report, b: Report, c: Report)
    ensures a.Merge(b).Merge(c) == a.Merge(b.Merge(c))
    ensures EmptyReport.Merge(a) == a && a.Merge(EmptyReport) == a
  {
    assert a.errors + b.errors + c.errors == a.errors + (b.errors + c.errors);
    assert a.warnings + b.warnings + c.warnings == a.warnings + (b.warnings + c.warnings);
    assert a.errors + [] == a.errors && a.warnings + [] == a.warnings;
  }

  /** `NewIssue`: the fields as given. */
  function NewIssue(level: IssueLevel, kind: IssueKind, message: string, path: string, ref: string): (i: Issue)
    ensures i.level == level && i.kind == kind && i.message == message && i.path == path && i.ref == ref
  {
    Issue(message, level, kind, path, ref)
  }

  /** `NewError`: an issue at error level. */
  function NewError(kind: IssueKind, message: string, path: string, ref: string): (i: Issue)
    ensures i.level == IssueError && i == NewIssue(IssueError, kind, message, path, ref)
  {
    NewIssue(IssueError, kind, message, path, ref)
  }

  /** `NewWarning`: an issue at warning level. */
  function NewWarning(kind: IssueKind, message: string, path: string, ref: string): (i: Issue)
    ensures i.level == IssueWarning && i == NewIssue(IssueWarning, kind, message, path, ref)
  {
    NewIssue(IssueWarning, kind, message, path, ref)
  }

  /** Every issue of a list is an error. */
  predicate AllErrors(issues: seq<Issue>) {
    forall i :: 0 <= i < |issues| ==> issues[i].level == IssueError
  }

  /** The number of issues of one kind. */
  function CountKind(issues: seq<Issue>, kind: IssueKind): (n: nat)
    ensures n <= |issues|
  {
    if issues == [] then 0
    else CountKind(issues[..|issues| - 1], kind) + (if issues[|issues| - 1].kind == kind then 1 else 0)
  }

  /** Counting distributes over concatenation. */
  lemma {:induction false} CountKindAppend(a: seq<Issue>, b: seq<Issue>, kind: IssueKind)
    ensures CountKind(a + b, kind) == CountKind(a, kind) + CountKind(b, kind)
    decreases |b|
  {
    if b == [] {
      assert a + b == a;
    } else {
      var b' := b[..|b| - 1];
      assert (a + b)[..|a + b| - 1] == a + b';
      CountKindAppend(a, b', kind);
    }
  }

  /** Counting over three lists run together adds up the counts. */
  lemma CountKindSplit3(a: seq<Issue>, b: seq<Issue>, c: seq<Issue>, k: IssueKind)
    ensures CountKind(a + b + c, k) == CountKind(a, k) + CountKind(b, k) + CountKind(c, k)
  {
    CountKindAppend(a, b, k);
    CountKindAppend(a + b, c, k);
  }

  /** Counting over four lists run together adds up the counts. */
  lemma CountKindSplit4(a: seq<Issue>, b: seq<Issue>, c: seq<Issue>, d: seq<Issue>, k: IssueKind)
    ensures CountKind(a + b + c + d, k) == CountKind(a, k) + CountKind(b, k) + CountKind(c, k) + CountKind(d, k)
  {
    CountKindSplit3(a, b, c, k);
    CountKindAppend(a + b + c, d, k);
  }

  /** Counting over five lists run together adds up the counts. */
  lemma CountKindSplit5(a: seq<Issue>, b: seq<Issue>, c: seq<Issue>, d: seq<Issue>, e: seq<Issue>, k: IssueKind)
    ensures CountKind(a + b + c + d + e, k)
      == CountKind(a, k) + CountKind(b, k) + CountKind(c, k) + CountKind(d, k) + CountKind(e, k)
  {
    CountKindAppend(a, b, k);
    CountKindAppend(a + b, c, k);
    CountKindAppend(a + b + c, d, k);
    CountKindAppend(a + b + c + d, e, k);
  }
}
