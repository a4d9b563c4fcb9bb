/** What the pack-level operations of internal/pack/raw.go compute, as
    functions over the categories: the report `Raw.Verify` builds, the
    categories `Raw.Repair` leaves behind and the question list
    `Raw.ToDomain` flattens them into. */
module RawSpec {
  import opened Wrappers
  import opened Text
  import opened Game
  import opened Reports
  import opened PackVerify
  import opened PackDomain
  import opened Hashing

  /** One entry of the `Categories` map. The model visits the entries in
      the order of this sequence, one of the orders Go's map iteration may
      take. */
  datatype NamedCategory = NamedCategory(name: string, category: RawCategory)

  // ---- Question IDs ----

  function ChoiceIDs(qs: seq<RawChoiceQuestion>): (ids: seq<string>)
    ensures |ids| == |qs| && forall i :: 0 <= i < |qs| ==> ids[i] == qs[i].id
  {
    seq(|qs|, i requires 0 <= i < |qs| => qs[i].id)
  }

  function MultiIDs(qs: seq<RawMultiQuestion>): (ids: seq<string>)
    ensures |ids| == |qs| && forall i :: 0 <= i < |qs| ==> ids[i] == qs[i].id
  {
    seq(|qs|, i requires 0 <= i < |qs| => qs[i].id)
  }

  function BoolIDs(qs: seq<RawBoolQuestion>): (ids: seq<string>)
    ensures |ids| == |qs| && forall i :: 0 <= i < |qs| ==> ids[i] == qs[i].id
  {
    seq(|qs|, i requires 0 <= i < |qs| => qs[i].id)
  }

  function TextIDs(qs: seq<RawTextQuestion>): (ids: seq<string>)
    ensures |ids| == |qs| && forall i :: 0 <= i < |qs| ==> ids[i] == qs[i].id
  {
    seq(|qs|, i requires 0 <= i < |qs| => qs[i].id)
  }

  /** A category's question IDs in the order the loops visit them. */
  function CategoryIDs(c: RawCategory): seq<string> {
    ChoiceIDs(c.choice) + MultiIDs(c.multipleChoice) + BoolIDs(c.boolean) + TextIDs(c.textEntry)
  }

  /** All question IDs of a pack, category after category. */
  function AllIDs(cats: seq<NamedCategory>): seq<string> {
    if cats == [] then [] else AllIDs(cats[..|cats| - 1]) + CategoryIDs(cats[|cats| - 1].category)
  }

  /** The number of empty IDs. */
  function EmptyCount(ids: seq<string>): (n: nat)
    ensures n <= |ids|
  {
    if ids == [] then 0 else EmptyCount(ids[..|ids| - 1]) + (if ids[|ids| - 1] == "" then 1 else 0)
  }

  lemma {:induction false} EmptyCountAppend(a: seq<string>, b: seq<string>)
    ensures EmptyCount(a + b) == EmptyCount(a) + EmptyCount(b)
    decreases |b|
  {
    if b == [] {
      assert a + b == a;
    } else {
      assert (a + b)[..|a + b| - 1] == a + b[..|b| - 1];
      EmptyCountAppend(a, b[..|b| - 1]);
    }
  }

  /** The number of non-empty IDs, repeats included. */
  function NonEmptyCount(ids: seq<string>): (n: nat)
    ensures n <= |ids|
  {
    if ids == [] then 0 else NonEmptyCount(ids[..|ids| - 1]) + (if ids[|ids| - 1] != "" then 1 else 0)
  }

  /** The distinct non-empty IDs. */
  function NonEmptySet(ids: seq<string>): set<string> {
    if ids == [] then {}
    else if ids[|ids| - 1] != "" then NonEmptySet(ids[..|ids| - 1]) + {ids[|ids| - 1]}
    else NonEmptySet(ids[..|ids| - 1])
  }

  /** NonEmptySet holds exactly the non-empty IDs of the list. */
  lemma {:induction false} NonEmptySetMembers(ids: seq<string>)
    ensures forall x :: x in NonEmptySet(ids) <==> x in ids && x != ""
  {
    if ids != [] {
      NonEmptySetMembers(ids[..|ids| - 1]);
      assert forall x :: x in ids <==> x in ids[..|ids| - 1] || x == ids[|ids| - 1];
    }
  }

  // ---- Verify ----

  /** One question as the duplicate scan sees it: its ID, the errors of its
      own `Verify`, and its place in the pack. */
  datatype Entry = Entry(id: string, issues: seq<Issue>, path: string)

  /** "categories.<name>.<list>[<index>]". */
  function EntryPath(category: string, list: string, i: int): string {
    "categories." + category + "." + list + "[" + IntToString(i) + "]"
  }

  /** The entries of one of a category's lists, in order: the question's
      ID, its own errors, and its path under the list's JSON name. */
  function ListEntries<Q>(name: string, list: string, qs: seq<Q>, id: Q -> string, issues: Q -> seq<Issue>)
    : (r: seq<Entry>)
    ensures |r| == |qs|
  {
    if qs == [] then []
    else
      var q := qs[|qs| - 1];
      ListEntries(name, list, qs[..|qs| - 1], id, issues) + [Entry(id(q), issues(q), EntryPath(name, list, |qs| - 1))]
  }

  function ChoiceID(q: RawChoiceQuestion): string { q.id }
  function MultiID(q: RawMultiQuestion): string { q.id }
  function BoolID(q: RawBoolQuestion): string { q.id }
  function TextID(q: RawTextQuestion): string { q.id }

  /** A bool question's own errors are the shared ones. */
  function BoolIssues(q: RawBoolQuestion): seq<Issue> {
    CommonIssues(q.id, q.prompt, q.difficulty, "bool")
  }

  function ChoiceEntries(name: string, qs: seq<RawChoiceQuestion>): seq<Entry> {
    ListEntries(name, "choice", qs, ChoiceID, ChoiceIssues)
  }

  function MultiEntries(name: string, qs: seq<RawMultiQuestion>): seq<Entry> {
    ListEntries(name, "multiple_choice", qs, MultiID, MultiIssues)
  }

  function BoolEntries(name: string, qs: seq<RawBoolQuestion>): seq<Entry> {
    ListEntries(name, "bool", qs, BoolID, BoolIssues)
  }

  function TextEntries(name: string, qs: seq<RawTextQuestion>): seq<Entry> {
    ListEntries(name, "text_entry", qs, TextID, TextIssues)
  }

  /** A category's entries in the order the loops visit them. */
  function CategoryEntries(nc: NamedCategory): seq<Entry> {
    ChoiceEntries(nc.name, nc.category.choice) + MultiEntries(nc.name, nc.category.multipleChoice)
    + BoolEntries(nc.name, nc.category.boolean) + TextEntries(nc.name, nc.category.textEntry)
  }

  /** All entries of a pack, category after category. */
  function Entries(cats: seq<NamedCategory>): seq<Entry> {
    if cats == [] then [] else Entries(cats[..|cats| - 1]) + CategoryEntries(cats[|cats| - 1])
  }

  function EntryIDs(entries: seq<Entry>): (ids: seq<string>)
    ensures |ids| == |entries| && forall j :: 0 <= j < |entries| ==> ids[j] == entries[j].id
  {
    seq(|entries|, j requires 0 <= j < |entries| => entries[j].id)
  }

  /** The DuplicateID error of an entry. */
  function DuplicateIssue(e: Entry): Issue {
    NewError(IssueDuplicateID, "Duplicate question ID: " + e.id, e.path, e.id)
  }

  /** The errors the pack-level scan has gathered after the given entries:
      each entry's own errors, then a DuplicateID error when its non-empty
      ID was met before. */
  function Scan(entries: seq<Entry>): seq<Issue> {
    if entries == [] then []
    else
      var init := entries[..|entries| - 1];
      var e := entries[|entries| - 1];
      Scan(init) + e.issues + When(e.id != "" && e.id in NonEmptySet(EntryIDs(init)), DuplicateIssue(e))
  }

  /** The pack-level checks: ID, name, role, creator, and at least one
      category. */
  function PackIssues(id: string, name: string, role: string, creator: string, categoryCount: int): (r: seq<Issue>)
    ensures AllErrors(r) && |r| <= 5
  {
    When(id == "", NewError(IssueMissingID, "Missing pack ID", "pack", ""))
    + When(name == "", NewError(IssueMissingField, "Missing pack name", "pack", id))
    + When(role == "", NewError(IssueMissingField, "Missing pack role", "pack", id))
    + When(creator == "", NewError(IssueMissingField, "Missing pack creator", "pack", id))
    + When(categoryCount == 0, NewError(IssueMissingField, "Pack has no categories", "pack", id))
  }

  /** One error per failed pack-level check, and no other kind. */
  lemma PackIssuesCount(id: string, name: string, role: string, creator: string, categoryCount: int, k: IssueKind)
    ensures CountKind(PackIssues(id, name, role, creator, categoryCount), k) ==
      (if id == "" && k == IssueMissingID then 1 else 0)
      + (if k == IssueMissingField then
           (if name == "" then 1 else 0) + (if role == "" then 1 else 0) + (if creator == "" then 1 else 0)
           + (if categoryCount == 0 then 1 else 0)
         else 0)
  {
    var a := When(id == "", NewError(IssueMissingID, "Missing pack ID", "pack", ""));
    var b := When(name == "", NewError(IssueMissingField, "Missing pack name", "pack", id));
    var c := When(role == "", NewError(IssueMissingField, "Missing pack role", "pack", id));
    var d := When(creator == "", NewError(IssueMissingField, "Missing pack creator", "pack", id));
    var e := When(categoryCount == 0, NewError(IssueMissingField, "Pack has no categories", "pack", id));
    CountKindSplit5(a, b, c, d, e, k);
    CountWhen(id == "", NewError(IssueMissingID, "Missing pack ID", "pack", ""), k);
    CountWhen(name == "", NewError(IssueMissingField, "Missing pack name", "pack", id), k);
    CountWhen(role == "", NewError(IssueMissingField, "Missing pack role", "pack", id), k);
    CountWhen(creator == "", NewError(IssueMissingField, "Missing pack creator", "pack", id), k);
    CountWhen(categoryCount == 0, NewError(IssueMissingField, "Pack has no categories", "pack", id), k);
  }

  /** No entry's own errors are DuplicateID errors. */
  predicate NoDuplicateKind(entries: seq<Entry>) {
    forall j :: 0 <= j < |entries| ==> CountKind(entries[j].issues, IssueDuplicateID) == 0
  }

  /** An entry reports MissingID exactly once when its ID is empty. */
  predicate MissingIDOnce(entries: seq<Entry>) {
    forall j :: 0 <= j < |entries| ==>
      CountKind(entries[j].issues, IssueMissingID) == if entries[j].id == "" then 1 else 0
  }

  /** The number of DuplicateID errors is the number of non-empty IDs less
      the number of distinct ones, so it does not depend on the visiting
      order, and empty IDs never count. */
  lemma {:induction false} ScanDuplicateCount(entries: seq<Entry>)
    requires NoDuplicateKind(entries)
    ensures CountKind(Scan(entries), IssueDuplicateID) + |NonEmptySet(EntryIDs(entries))|
            == NonEmptyCount(EntryIDs(entries))
  {
    if entries != [] {
      var init := entries[..|entries| - 1];
      var e := entries[|entries| - 1];
      var ids := EntryIDs(entries);
      assert EntryIDs(init) == ids[..|ids| - 1];
      ScanDuplicateCount(init);
      var seen := NonEmptySet(EntryIDs(init));
      var dup := When(e.id != "" && e.id in seen, DuplicateIssue(e));
      CountKindAppend(Scan(init), e.issues, IssueDuplicateID);
      CountKindAppend(Scan(init) + e.issues, dup, IssueDuplicateID);
      CountWhen(e.id != "" && e.id in seen, DuplicateIssue(e), IssueDuplicateID);
      if e.id != "" && e.id !in seen {
        assert NonEmptySet(ids) == seen + {e.id};
      }
    }
  }

  /** The scan reports MissingID once per empty ID. */
  lemma {:induction false} ScanMissingIDCount(entries: seq<Entry>)
    requires MissingIDOnce(entries)
    ensures CountKind(Scan(entries), IssueMissingID) == EmptyCount(EntryIDs(entries))
  {
    if entries != [] {
      var init := entries[..|entries| - 1];
      var e := entries[|entries| - 1];
      var ids := EntryIDs(entries);
      assert EntryIDs(init) == ids[..|ids| - 1];
      ScanMissingIDCount(init);
      var seen := NonEmptySet(EntryIDs(init));
      var dup := When(e.id != "" && e.id in seen, DuplicateIssue(e));
      CountKindAppend(Scan(init), e.issues, IssueMissingID);
      CountKindAppend(Scan(init) + e.issues, dup, IssueMissingID);
      CountWhen(e.id != "" && e.id in seen, DuplicateIssue(e), IssueMissingID);
    }
  }

  /** Every DuplicateID error of the scan names a non-empty ID of the pack. */
  lemma {:induction false} ScanDuplicatesNamed(entries: seq<Entry>)
    requires NoDuplicateKind(entries)
    ensures forall j :: 0 <= j < |Scan(entries)| && Scan(entries)[j].kind == IssueDuplicateID ==>
      Scan(entries)[j].ref != "" && Scan(entries)[j].ref in EntryIDs(entries)
  {
    if entries != [] {
      var init := entries[..|entries| - 1];
      var e := entries[|entries| - 1];
      ScanDuplicatesNamed(init);
      assert EntryIDs(init) == EntryIDs(entries)[..|entries| - 1];
      var seen := NonEmptySet(EntryIDs(init));
      var dup := When(e.id != "" && e.id in seen, DuplicateIssue(e));
      var s := Scan(entries);
      assert s == Scan(init) + e.issues + dup;
      forall j | 0 <= j < |s| && s[j].kind == IssueDuplicateID
        ensures s[j].ref != "" && s[j].ref in EntryIDs(entries)
      {
        if j < |Scan(init)| {
          assert s[j] == Scan(init)[j];
        } else if j < |Scan(init)| + |e.issues| {
          var k := j - |Scan(init)|;
          assert s[j] == e.issues[k];
          NoDuplicateKindMember(e.issues, k);
          assert false;
        } else {
          assert s[j] == DuplicateIssue(e);
          assert e.id == EntryIDs(entries)[|entries| - 1];
        }
      }
    }
  }

  /** An issue list with no DuplicateID issue has none at any position. */
  lemma {:induction false} NoDuplicateKindMember(issues: seq<Issue>, k: int)
    requires 0 <= k < |issues|
    ensures CountKind(issues, IssueDuplicateID) == 0 ==> issues[k].kind != IssueDuplicateID
    decreases |issues|
  {
    if k < |issues| - 1 {
      NoDuplicateKindMember(issues[..|issues| - 1], k);
    }
  }

  /** Every entry's own errors appear in the scan. */
  lemma {:induction false} ScanKeepsEntryIssues(entries: seq<Entry>, j: int)
    requires 0 <= j < |entries|
    ensures forall x :: x in entries[j].issues ==> x in Scan(entries)
  {
    var init := entries[..|entries| - 1];
    if j < |entries| - 1 {
      ScanKeepsEntryIssues(init, j);
    }
  }

  lemma EntryIDsAppend(a: seq<Entry>, b: seq<Entry>)
    ensures EntryIDs(a + b) == EntryIDs(a) + EntryIDs(b)
  {
  }

  /** Two lists that each satisfy both counting premises make one that
      does. */
  lemma WellFormedAppend(a: seq<Entry>, b: seq<Entry>)
    requires NoDuplicateKind(a) && MissingIDOnce(a) && NoDuplicateKind(b) && MissingIDOnce(b)
    ensures NoDuplicateKind(a + b) && MissingIDOnce(a + b)
  {
    forall j | 0 <= j < |a + b|
      ensures CountKind((a + b)[j].issues, IssueDuplicateID) == 0
      ensures CountKind((a + b)[j].issues, IssueMissingID) == if (a + b)[j].id == "" then 1 else 0
    {
      if j < |a| {
        assert (a + b)[j] == a[j];
      } else {
        assert (a + b)[j] == b[j - |a|];
      }
    }
  }

  /** An entry whose own errors hold no DuplicateID error and one MissingID
      error exactly when its ID is empty satisfies both counting premises
      alone. */
  lemma SingleWellFormed(e: Entry)
    requires CountKind(e.issues, IssueDuplicateID) == 0
    requires CountKind(e.issues, IssueMissingID) == if e.id == "" then 1 else 0
    ensures NoDuplicateKind([e]) && MissingIDOnce([e])
  {
  }

  /** A list's entries carry its questions' IDs, in order. */
  lemma {:induction false} ListEntriesIDs<Q>(name: string, list: string, qs: seq<Q>, id: Q -> string,
                                             issues: Q -> seq<Issue>)
    ensures forall i :: 0 <= i < |qs| ==> EntryIDs(ListEntries(name, list, qs, id, issues))[i] == id(qs[i])
  {
    if qs != [] {
      var init := qs[..|qs| - 1];
      ListEntriesIDs(name, list, init, id, issues);
      assert forall i :: 0 <= i < |init| ==> init[i] == qs[i];
    }
  }

  /** A list whose every question's errors hold no DuplicateID error and
      one MissingID error exactly when its ID is empty gives entries that
      satisfy both counting premises. */
  lemma {:induction false} ListEntriesWellFormed<Q>(name: string, list: string, qs: seq<Q>, id: Q -> string,
                                                    issues: Q -> seq<Issue>)
    requires forall q :: q in qs ==> CountKind(issues(q), IssueDuplicateID) == 0
    requires forall q :: q in qs ==> CountKind(issues(q), IssueMissingID) == if id(q) == "" then 1 else 0
    ensures NoDuplicateKind(ListEntries(name, list, qs, id, issues))
    ensures MissingIDOnce(ListEntries(name, list, qs, id, issues))
  {
    if qs != [] {
      var init := qs[..|qs| - 1];
      var q := qs[|qs| - 1];
      assert forall x :: x in init ==> x in qs;
      ListEntriesWellFormed(name, list, init, id, issues);
      var e := Entry(id(q), issues(q), EntryPath(name, list, |qs| - 1));
      SingleWellFormed(e);
      WellFormedAppend(ListEntries(name, list, init, id, issues), [e]);
    }
  }

  /** A category's four lists give entries carrying their IDs, in order. */
  lemma ListsEntriesIDs(nc: NamedCategory)
    ensures EntryIDs(ChoiceEntries(nc.name, nc.category.choice)) == ChoiceIDs(nc.category.choice)
    ensures EntryIDs(MultiEntries(nc.name, nc.category.multipleChoice)) == MultiIDs(nc.category.multipleChoice)
    ensures EntryIDs(BoolEntries(nc.name, nc.category.boolean)) == BoolIDs(nc.category.boolean)
    ensures EntryIDs(TextEntries(nc.name, nc.category.textEntry)) == TextIDs(nc.category.textEntry)
  {
    var c := nc.category;
    ListEntriesIDs(nc.name, "choice", c.choice, ChoiceID, ChoiceIssues);
    ListEntriesIDs(nc.name, "multiple_choice", c.multipleChoice, MultiID, MultiIssues);
    ListEntriesIDs(nc.name, "bool", c.boolean, BoolID, BoolIssues);
    ListEntriesIDs(nc.name, "text_entry", c.textEntry, TextID, TextIssues);
  }

  /** A category's four lists give entries that satisfy both counting
      premises. */
  lemma ListsEntriesWellFormed(nc: NamedCategory)
    ensures NoDuplicateKind(ChoiceEntries(nc.name, nc.category.choice))
    ensures MissingIDOnce(ChoiceEntries(nc.name, nc.category.choice))
    ensures NoDuplicateKind(MultiEntries(nc.name, nc.category.multipleChoice))
    ensures MissingIDOnce(MultiEntries(nc.name, nc.category.multipleChoice))
    ensures NoDuplicateKind(BoolEntries(nc.name, nc.category.boolean))
    ensures MissingIDOnce(BoolEntries(nc.name, nc.category.boolean))
    ensures NoDuplicateKind(TextEntries(nc.name, nc.category.textEntry))
    ensures MissingIDOnce(TextEntries(nc.name, nc.category.textEntry))
  {
    var c := nc.category;
    forall q | q in c.choice
      ensures CountKind(ChoiceIssues(q), IssueDuplicateID) == 0
      ensures CountKind(ChoiceIssues(q), IssueMissingID) == if ChoiceID(q) == "" then 1 else 0
    {
      ChoiceIssuesCount(q, IssueDuplicateID);
      ChoiceIssuesCount(q, IssueMissingID);
    }
    ListEntriesWellFormed(nc.name, "choice", c.choice, ChoiceID, ChoiceIssues);
    forall q | q in c.multipleChoice
      ensures CountKind(MultiIssues(q), IssueDuplicateID) == 0
      ensures CountKind(MultiIssues(q), IssueMissingID) == if MultiID(q) == "" then 1 else 0
    {
      MultiIssuesCount(q, IssueDuplicateID);
      MultiIssuesCount(q, IssueMissingID);
    }
    ListEntriesWellFormed(nc.name, "multiple_choice", c.multipleChoice, MultiID, MultiIssues);
    forall q | q in c.boolean
      ensures CountKind(BoolIssues(q), IssueDuplicateID) == 0
      ensures CountKind(BoolIssues(q), IssueMissingID) == if BoolID(q) == "" then 1 else 0
    {
      CommonIssuesCount(q.id, q.prompt, q.difficulty, "bool", IssueDuplicateID);
      CommonIssuesCount(q.id, q.prompt, q.difficulty, "bool", IssueMissingID);
    }
    ListEntriesWellFormed(nc.name, "bool", c.boolean, BoolID, BoolIssues);
    forall q | q in c.textEntry
      ensures CountKind(TextIssues(q), IssueDuplicateID) == 0
      ensures CountKind(TextIssues(q), IssueMissingID) == if TextID(q) == "" then 1 else 0
    {
      TextIssuesCount(q, IssueDuplicateID);
      TextIssuesCount(q, IssueMissingID);
    }
    ListEntriesWellFormed(nc.name, "text_entry", c.textEntry, TextID, TextIssues);
  }

  /** A category's entries carry its IDs in order and satisfy both
      counting premises. */
  lemma CategoryEntriesFacts(nc: NamedCategory)
    ensures EntryIDs(CategoryEntries(nc)) == CategoryIDs(nc.category)
    ensures NoDuplicateKind(CategoryEntries(nc)) && MissingIDOnce(CategoryEntries(nc))
  {
    var c := nc.category;
    var e1, e2 := ChoiceEntries(nc.name, c.choice), MultiEntries(nc.name, c.multipleChoice);
    var e3, e4 := BoolEntries(nc.name, c.boolean), TextEntries(nc.name, c.textEntry);
    ListsEntriesIDs(nc);
    ListsEntriesWellFormed(nc);
    WellFormedAppend(e1, e2);
    WellFormedAppend(e1 + e2, e3);
    WellFormedAppend(e1 + e2 + e3, e4);
    EntryIDsAppend(e1, e2);
    EntryIDsAppend(e1 + e2, e3);
    EntryIDsAppend(e1 + e2 + e3, e4);
  }

  /** The entries of a whole pack carry exactly its question IDs, in
      order, and satisfy both counting premises. */
  lemma {:induction false} EntriesFacts(cats: seq<NamedCategory>)
    ensures EntryIDs(Entries(cats)) == AllIDs(cats)
    ensures NoDuplicateKind(Entries(cats)) && MissingIDOnce(Entries(cats))
  {
    if cats != [] {
      var init := cats[..|cats| - 1];
      EntriesFacts(init);
      CategoryEntriesFacts(cats[|cats| - 1]);
      WellFormedAppend(Entries(init), CategoryEntries(cats[|cats| - 1]));
      EntryIDsAppend(Entries(init), CategoryEntries(cats[|cats| - 1]));
    }
  }

  /** The errors `Raw.Verify` reports for a pack. */
  function VerifyIssues(id: string, name: string, role: string, creator: string, cats: seq<NamedCategory>): seq<Issue> {
    PackIssues(id, name, role, creator, |cats|) + Scan(Entries(cats))
  }

  /** DuplicateID errors: the non-empty question IDs less the distinct
      ones; MissingID errors: one for an empty pack ID and one per empty
      question ID. */
  lemma VerifyCounts(id: string, name: string, role: string, creator: string, cats: seq<NamedCategory>)
    ensures CountKind(VerifyIssues(id, name, role, creator, cats), IssueDuplicateID) + |NonEmptySet(AllIDs(cats))|
            == NonEmptyCount(AllIDs(cats))
    ensures CountKind(VerifyIssues(id, name, role, creator, cats), IssueMissingID)
            == (if id == "" then 1 else 0) + EmptyCount(AllIDs(cats))
  {
    var pack := PackIssues(id, name, role, creator, |cats|);
    EntriesFacts(cats);
    ScanDuplicateCount(Entries(cats));
    ScanMissingIDCount(Entries(cats));
    CountKindAppend(pack, Scan(Entries(cats)), IssueDuplicateID);
    CountKindAppend(pack, Scan(Entries(cats)), IssueMissingID);
    PackIssuesCount(id, name, role, creator, |cats|, IssueDuplicateID);
    PackIssuesCount(id, name, role, creator, |cats|, IssueMissingID);
  }

  // ---- Repair ----

  /** The six-character hash of a question with these fields is defined. */
  predicate QuestionHashable(prompt: string, difficulty: string, category: string) {
    HashDefined(Sum3(prompt, difficulty, category))
  }

  /** Every question with an empty ID can be given a hashed one. */
  predicate CategoryHashable(nc: NamedCategory) {
    (forall i :: 0 <= i < |nc.category.choice| && nc.category.choice[i].id == "" ==>
       QuestionHashable(nc.category.choice[i].prompt, nc.category.choice[i].difficulty, nc.name))
    && (forall i :: 0 <= i < |nc.category.multipleChoice| && nc.category.multipleChoice[i].id == "" ==>
       QuestionHashable(nc.category.multipleChoice[i].prompt, nc.category.multipleChoice[i].difficulty, nc.name))
    && (forall i :: 0 <= i < |nc.category.boolean| && nc.category.boolean[i].id == "" ==>
       QuestionHashable(nc.category.boolean[i].prompt, nc.category.boolean[i].difficulty, nc.name))
    && (forall i :: 0 <= i < |nc.category.textEntry| && nc.category.textEntry[i].id == "" ==>
       QuestionHashable(nc.category.textEntry[i].prompt, nc.category.textEntry[i].difficulty, nc.name))
  }

  predicate Hashable(cats: seq<NamedCategory>) {
    forall k :: 0 <= k < |cats| ==> CategoryHashable(cats[k])
  }

  /** The ID a question gets: `QuestionHash.ID` of its pack ID, prompt,
      difficulty, type, category and position in its list. */
  function HashedID(packID: string, prompt: string, difficulty: string, qtype: PackType, category: string, i: int): (id: string)
    requires QuestionHashable(prompt, difficulty, category)
    ensures id != ""
  {
    QuestionHash(packID, prompt, difficulty, qtype, category, i).ID()
  }

  /** A choice question after `Repair`: its hashed ID if it had none. */
  function RepairChoice(packID: string, name: string, q: RawChoiceQuestion, i: int): (r: RawChoiceQuestion)
    requires q.id == "" ==> QuestionHashable(q.prompt, q.difficulty, name)
    ensures r.id != "" && (q.id != "" ==> r == q) && r == q.(id := r.id)
  {
    if q.id == "" then q.(id := HashedID(packID, q.prompt, q.difficulty, TypeChoice, name, i)) else q
  }

  function RepairChoices(packID: string, name: string, qs: seq<RawChoiceQuestion>): (r: seq<RawChoiceQuestion>)
    requires forall i :: 0 <= i < |qs| && qs[i].id == "" ==> QuestionHashable(qs[i].prompt, qs[i].difficulty, name)
    ensures |r| == |qs|
    ensures forall i :: 0 <= i < |qs| ==> r[i] == RepairChoice(packID, name, qs[i], i)
  {
    seq(|qs|, i requires 0 <= i < |qs| => RepairChoice(packID, name, qs[i], i))
  }

  /** A multi question after `Repair`: its hashed ID if it had none. */
  function RepairMulti(packID: string, name: string, q: RawMultiQuestion, i: int): (r: RawMultiQuestion)
    requires q.id == "" ==> QuestionHashable(q.prompt, q.difficulty, name)
    ensures r.id != "" && (q.id != "" ==> r == q) && r == q.(id := r.id)
  {
    if q.id == "" then q.(id := HashedID(packID, q.prompt, q.difficulty, TypeMulti, name, i)) else q
  }

  function RepairMultis(packID: string, name: string, qs: seq<RawMultiQuestion>): (r: seq<RawMultiQuestion>)
    requires forall i :: 0 <= i < |qs| && qs[i].id == "" ==> QuestionHashable(qs[i].prompt, qs[i].difficulty, name)
    ensures |r| == |qs|
    ensures forall i :: 0 <= i < |qs| ==> r[i] == RepairMulti(packID, name, qs[i], i)
  {
    seq(|qs|, i requires 0 <= i < |qs| => RepairMulti(packID, name, qs[i], i))
  }

  /** A bool question after `Repair`: its hashed ID if it had none. */
  function RepairBool(packID: string, name: string, q: RawBoolQuestion, i: int): (r: RawBoolQuestion)
    requires q.id == "" ==> QuestionHashable(q.prompt, q.difficulty, name)
    ensures r.id != "" && (q.id != "" ==> r == q) && r == q.(id := r.id)
  {
    if q.id == "" then q.(id := HashedID(packID, q.prompt, q.difficulty, TypeBool, name, i)) else q
  }

  function RepairBools(packID: string, name: string, qs: seq<RawBoolQuestion>): (r: seq<RawBoolQuestion>)
    requires forall i :: 0 <= i < |qs| && qs[i].id == "" ==> QuestionHashable(qs[i].prompt, qs[i].difficulty, name)
    ensures |r| == |qs|
    ensures forall i :: 0 <= i < |qs| ==> r[i] == RepairBool(packID, name, qs[i], i)
  {
    seq(|qs|, i requires 0 <= i < |qs| => RepairBool(packID, name, qs[i], i))
  }

  /** A text question after `Repair`: its hashed ID if it had none. */
  function RepairText(packID: string, name: string, q: RawTextQuestion, i: int): (r: RawTextQuestion)
    requires q.id == "" ==> QuestionHashable(q.prompt, q.difficulty, name)
    ensures r.id != "" && (q.id != "" ==> r == q) && r == q.(id := r.id)
  {
    if q.id == "" then q.(id := HashedID(packID, q.prompt, q.difficulty, TypeText, name, i)) else q
  }

  function RepairTexts(packID: string, name: string, qs: seq<RawTextQuestion>): (r: seq<RawTextQuestion>)
    requires forall i :: 0 <= i < |qs| && qs[i].id == "" ==> QuestionHashable(qs[i].prompt, qs[i].difficulty, name)
    ensures |r| == |qs|
    ensures forall i :: 0 <= i < |qs| ==> r[i] == RepairText(packID, name, qs[i], i)
  {
    seq(|qs|, i requires 0 <= i < |qs| => RepairText(packID, name, qs[i], i))
  }

  /** A category after `Repair`: every list with its empty IDs filled. */
  function RepairCategory(packID: string, nc: NamedCategory): NamedCategory
    requires CategoryHashable(nc)
  {
    var c := nc.category;
    NamedCategory(nc.name, RawCategory(
      RepairChoices(packID, nc.name, c.choice),
      RepairMultis(packID, nc.name, c.multipleChoice),
      RepairBools(packID, nc.name, c.boolean),
      RepairTexts(packID, nc.name, c.textEntry)))
  }

  /** The categories after `Repair` with the (possibly new) pack ID. */
  function RepairAll(packID: string, cats: seq<NamedCategory>): (r: seq<NamedCategory>)
    requires Hashable(cats)
    ensures |r| == |cats|
    ensures forall k :: 0 <= k < |cats| ==> r[k] == RepairCategory(packID, cats[k])
  {
    seq(|cats|, k requires 0 <= k < |cats| => RepairCategory(packID, cats[k]))
  }

  /** `after` is `before` with its empty IDs filled and nothing else
      changed. */
  predicate RepairedFrom(after: seq<string>, before: seq<string>) {
    |after| == |before|
    && forall j :: 0 <= j < |before| ==> after[j] != "" && (before[j] != "" ==> after[j] == before[j])
  }

  lemma RepairedFromAppend(a': seq<string>, a: seq<string>, b': seq<string>, b: seq<string>)
    requires RepairedFrom(a', a) && RepairedFrom(b', b)
    ensures RepairedFrom(a' + b', a + b)
  {
    forall j | 0 <= j < |a + b|
      ensures (a' + b')[j] != "" && ((a + b)[j] != "" ==> (a' + b')[j] == (a + b)[j])
    {
      if j >= |a| {
        assert (a' + b')[j] == b'[j - |a|] && (a + b)[j] == b[j - |a|];
      }
    }
  }

  lemma RepairCategoryIDs(packID: string, nc: NamedCategory)
    requires CategoryHashable(nc)
    ensures RepairedFrom(CategoryIDs(RepairCategory(packID, nc).category), CategoryIDs(nc.category))
  {
    var c := nc.category;
    var r := RepairCategory(packID, nc).category;
    assert RepairedFrom(ChoiceIDs(r.choice), ChoiceIDs(c.choice));
    assert RepairedFrom(MultiIDs(r.multipleChoice), MultiIDs(c.multipleChoice));
    assert RepairedFrom(BoolIDs(r.boolean), BoolIDs(c.boolean));
    assert RepairedFrom(TextIDs(r.textEntry), TextIDs(c.textEntry));
    RepairedFromAppend(ChoiceIDs(r.choice), ChoiceIDs(c.choice), MultiIDs(r.multipleChoice), MultiIDs(c.multipleChoice));
    RepairedFromAppend(ChoiceIDs(r.choice) + MultiIDs(r.multipleChoice), ChoiceIDs(c.choice) + MultiIDs(c.multipleChoice),
                       BoolIDs(r.boolean), BoolIDs(c.boolean));
    RepairedFromAppend(ChoiceIDs(r.choice) + MultiIDs(r.multipleChoice) + BoolIDs(r.boolean),
                       ChoiceIDs(c.choice) + MultiIDs(c.multipleChoice) + BoolIDs(c.boolean),
                       TextIDs(r.textEntry), TextIDs(c.textEntry));
  }

  /** After `Repair` no question ID is empty, and every non-empty ID is
      where it was. */
  lemma {:induction false} RepairAllIDs(packID: string, cats: seq<NamedCategory>)
    requires Hashable(cats)
    ensures RepairedFrom(AllIDs(RepairAll(packID, cats)), AllIDs(cats))
  {
    if cats != [] {
      var init := cats[..|cats| - 1];
      var r := RepairAll(packID, cats);
      assert r[..|r| - 1] == RepairAll(packID, init);
      RepairAllIDs(packID, init);
      RepairCategoryIDs(packID, cats[|cats| - 1]);
      RepairedFromAppend(AllIDs(RepairAll(packID, init)), AllIDs(init),
                         CategoryIDs(r[|r| - 1].category), CategoryIDs(cats[|cats| - 1].category));
    }
  }

  /** IDs with no empty one count no empty one. */
  lemma {:induction false} NoEmptyCount(ids: seq<string>)
    requires forall j :: 0 <= j < |ids| ==> ids[j] != ""
    ensures EmptyCount(ids) == 0
  {
    if ids != [] {
      NoEmptyCount(ids[..|ids| - 1]);
    }
  }

  /** After `Repair` with a non-empty pack ID, `Verify` reports no
      MissingID error. */
  lemma RepairClearsMissingIDs(packID: string, name: string, role: string, creator: string, cats: seq<NamedCategory>)
    requires Hashable(cats) && packID != ""
    ensures CountKind(VerifyIssues(packID, name, role, creator, RepairAll(packID, cats)), IssueMissingID) == 0
  {
    RepairAllIDs(packID, cats);
    NoEmptyCount(AllIDs(RepairAll(packID, cats)));
    VerifyCounts(packID, name, role, creator, RepairAll(packID, cats));
  }

  /** A repaired pack needs no further repair: a second `Repair` changes
      nothing. */
  lemma RepairAllIdempotent(packID: string, cats: seq<NamedCategory>)
    requires Hashable(cats)
    ensures Hashable(RepairAll(packID, cats))
    ensures RepairAll(packID, RepairAll(packID, cats)) == RepairAll(packID, cats)
  {
    var r := RepairAll(packID, cats);
    forall k | 0 <= k < |r|
      ensures CategoryHashable(r[k]) && RepairCategory(packID, r[k]) == r[k]
    {
      var c := r[k].category;
      assert RepairChoices(packID, r[k].name, c.choice) == c.choice;
      assert RepairMultis(packID, r[k].name, c.multipleChoice) == c.multipleChoice;
      assert RepairBools(packID, r[k].name, c.boolean) == c.boolean;
      assert RepairTexts(packID, r[k].name, c.textEntry) == c.textEntry;
    }
  }

  // ---- ToDomain ----

  function ChoiceDomain(name: string, qs: seq<RawChoiceQuestion>): (r: seq<Question>)
    ensures |r| == |qs|
    ensures forall i :: 0 <= i < |qs| ==>
      r[i] == Question(qs[i].id, ParseDifficulty(qs[i].difficulty), name, TypeChoice, qs[i].prompt,
                       Some(ChoiceAnswer(qs[i].options, qs[i].answer)))
  {
    seq(|qs|, i requires 0 <= i < |qs| =>
      Question(qs[i].id, ParseDifficulty(qs[i].difficulty), name, TypeChoice, qs[i].prompt,
               Some(ChoiceAnswer(qs[i].options, qs[i].answer))))
  }

  function MultiDomain(name: string, qs: seq<RawMultiQuestion>): (r: seq<Question>)
    ensures |r| == |qs|
    ensures forall i :: 0 <= i < |qs| ==>
      r[i] == Question(qs[i].id, ParseDifficulty(qs[i].difficulty), name, TypeMulti, qs[i].prompt,
                       Some(MultiAnswer(qs[i].options, qs[i].answer)))
  {
    seq(|qs|, i requires 0 <= i < |qs| =>
      Question(qs[i].id, ParseDifficulty(qs[i].difficulty), name, TypeMulti, qs[i].prompt,
               Some(MultiAnswer(qs[i].options, qs[i].answer))))
  }

  function BoolDomain(name: string, qs: seq<RawBoolQuestion>): (r: seq<Question>)
    ensures |r| == |qs|
    ensures forall i :: 0 <= i < |qs| ==>
      r[i] == Question(qs[i].id, ParseDifficulty(qs[i].difficulty), name, TypeBool, qs[i].prompt,
                       Some(BoolAnswer(qs[i].answer)))
  {
    seq(|qs|, i requires 0 <= i < |qs| =>
      Question(qs[i].id, ParseDifficulty(qs[i].difficulty), name, TypeBool, qs[i].prompt,
               Some(BoolAnswer(qs[i].answer))))
  }

  function TextDomain(name: string, qs: seq<RawTextQuestion>): (r: seq<Question>)
    ensures |r| == |qs|
    ensures forall i :: 0 <= i < |qs| ==>
      r[i] == Question(qs[i].id, ParseDifficulty(qs[i].difficulty), name, TypeText, qs[i].prompt,
                       Some(TextAnswer(qs[i].expected, qs[i].keywords)))
  {
    seq(|qs|, i requires 0 <= i < |qs| =>
      Question(qs[i].id, ParseDifficulty(qs[i].difficulty), name, TypeText, qs[i].prompt,
               Some(TextAnswer(qs[i].expected, qs[i].keywords))))
  }

  /** The number of questions in a category: the four lists' lengths. */
  function CategorySize(c: RawCategory): nat {
    |c.choice| + |c.multipleChoice| + |c.boolean| + |c.textEntry|
  }

  /** A category's domain questions: its four lists in order. */
  function CategoryDomain(nc: NamedCategory): (r: seq<Question>)
    ensures |r| == CategorySize(nc.category)
  {
    ChoiceDomain(nc.name, nc.category.choice) + MultiDomain(nc.name, nc.category.multipleChoice)
    + BoolDomain(nc.name, nc.category.boolean) + TextDomain(nc.name, nc.category.textEntry)
  }

  /** Each of a category's domain questions carries the category name and
      the type of the list it came from, and its answer fits that type. */
  lemma CategoryDomainFacts(nc: NamedCategory)
    ensures forall j :: 0 <= j < |CategoryDomain(nc)| ==>
      CategoryDomain(nc)[j].category == nc.name && AnswerFitsType(CategoryDomain(nc)[j])
      && IsPackType(CategoryDomain(nc)[j].qtype)
    ensures forall j :: 0 <= j < |CategoryDomain(nc)| ==>
      CategoryDomain(nc)[j].qtype ==
        (if j < |nc.category.choice| then TypeChoice
         else if j < |nc.category.choice| + |nc.category.multipleChoice| then TypeMulti
         else if j < |nc.category.choice| + |nc.category.multipleChoice| + |nc.category.boolean| then TypeBool
         else TypeText)
  {
    var c := nc.category;
    var r := CategoryDomain(nc);
    var n1, n2, n3 := |c.choice|, |c.choice| + |c.multipleChoice|, |c.choice| + |c.multipleChoice| + |c.boolean|;
    forall j | 0 <= j < |r|
      ensures r[j].category == nc.name && AnswerFitsType(r[j]) && IsPackType(r[j].qtype)
      ensures r[j].qtype == (if j < n1 then TypeChoice else if j < n2 then TypeMulti
                             else if j < n3 then TypeBool else TypeText)
    {
      if j < n1 {
        assert r[j] == ChoiceDomain(nc.name, c.choice)[j];
      } else if j < n2 {
        assert r[j] == MultiDomain(nc.name, c.multipleChoice)[j - n1];
      } else if j < n3 {
        assert r[j] == BoolDomain(nc.name, c.boolean)[j - n2];
      } else {
        assert r[j] == TextDomain(nc.name, c.textEntry)[j - n3];
      }
    }
  }

  /** The number of questions in a pack. */
  function TotalSize(cats: seq<NamedCategory>): nat {
    if cats == [] then 0 else TotalSize(cats[..|cats| - 1]) + CategorySize(cats[|cats| - 1].category)
  }

  /** The questions `ToDomain` produces, category after category. */
  function DomainQuestions(cats: seq<NamedCategory>): (r: seq<Question>)
    ensures |r| == TotalSize(cats)
  {
    if cats == [] then [] else DomainQuestions(cats[..|cats| - 1]) + CategoryDomain(cats[|cats| - 1])
  }

  /** There is one domain question per raw question, each in one of the
      pack's categories and convertible to an engine question. */
  lemma {:induction false} DomainQuestionsFacts(cats: seq<NamedCategory>)
    ensures forall j :: 0 <= j < |DomainQuestions(cats)| ==>
      AnswerFitsType(DomainQuestions(cats)[j]) && ToEngine(DomainQuestions(cats)[j]).Some?
    ensures forall j :: 0 <= j < |DomainQuestions(cats)| ==>
      exists k :: 0 <= k < |cats| && DomainQuestions(cats)[j].category == cats[k].name
  {
    if cats != [] {
      var init := DomainQuestions(cats[..|cats| - 1]);
      var last := CategoryDomain(cats[|cats| - 1]);
      var r := DomainQuestions(cats);
      DomainQuestionsFacts(cats[..|cats| - 1]);
      CategoryDomainFacts(cats[|cats| - 1]);
      assert r == init + last;
      forall j | 0 <= j < |r|
        ensures AnswerFitsType(r[j]) && ToEngine(r[j]).Some?
        ensures exists k :: 0 <= k < |cats| && r[j].category == cats[k].name
      {
        if j < |init| {
          assert r[j] == init[j];
          var k :| 0 <= k < |cats| - 1 && init[j].category == cats[..|cats| - 1][k].name;
          assert cats[..|cats| - 1][k] == cats[k];
        } else {
          assert r[j] == last[j - |init|];
          assert AnswerFitsType(r[j]) && IsPackType(r[j].qtype);
          assert r[j].category == cats[|cats| - 1].name;
        }
      }
    } else {
      assert DomainQuestions(cats) == [];
    }
  }

  /** One category's domain questions carry its raw IDs, in order. */
  lemma CategoryDomainIDs(nc: NamedCategory)
    ensures |CategoryDomain(nc)| == |CategoryIDs(nc.category)|
    ensures forall j :: 0 <= j < |CategoryIDs(nc.category)| ==> CategoryDomain(nc)[j].id == CategoryIDs(nc.category)[j]
  {
    var c := nc.category;
    var name := nc.name;
    var d := CategoryDomain(nc);
    var ids := CategoryIDs(c);
    forall j | 0 <= j < |d|
      ensures d[j].id == ids[j]
    {
      var n1, n2, n3 := |c.choice|, |c.choice| + |c.multipleChoice|, |c.choice| + |c.multipleChoice| + |c.boolean|;
      if j < n1 {
        assert d[j] == ChoiceDomain(name, c.choice)[j];
      } else if j < n2 {
        assert d[j] == MultiDomain(name, c.multipleChoice)[j - n1];
      } else if j < n3 {
        assert d[j] == BoolDomain(name, c.boolean)[j - n2];
      } else {
        assert d[j] == TextDomain(name, c.textEntry)[j - n3];
      }
    }
  }

  /** The domain questions carry the raw IDs, in order, so a repaired pack
      yields no question without an ID. */
  lemma {:induction false} DomainIDs(cats: seq<NamedCategory>)
    ensures |DomainQuestions(cats)| == |AllIDs(cats)|
    ensures forall j :: 0 <= j < |AllIDs(cats)| ==> DomainQuestions(cats)[j].id == AllIDs(cats)[j]
  {
    if cats != [] {
      DomainIDs(cats[..|cats| - 1]);
      CategoryDomainIDs(cats[|cats| - 1]);
    }
  }
}
