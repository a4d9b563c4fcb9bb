/** A pack as read from its file (internal/pack/raw.go): `Verify` scans it
    into a report, `Repair` fills missing IDs in place, `ToDomain`
    flattens it into domain questions. */
module RawPacks {
  import opened Wrappers
  import opened Text
  import opened Game
  import opened Reports
  import opened PackVerify
  import opened PackDomain
  import opened Hashing
  import opened RawSpec

  class Raw {
    var id: string
    const name: string
    const role: string
    const version: string
    const creator: string
    var categories: seq<NamedCategory>

    constructor (id: string, name: string, role: string, version: string, creator: string,
                 categories: seq<NamedCategory>)
      ensures this.id == id && this.name == name && this.role == role
      ensures this.version == version && this.creator == creator && this.categories == categories
    {
      this.id := id;
      this.name := name;
      this.role := role;
      this.version := version;
      this.creator := creator;
      this.categories := categories;
    }

    /** `Raw.Verify`: the pack-level errors, then for every question its
        own errors followed by a DuplicateID error when its non-empty ID
        was met before. */
    method Verify() returns (report: Report)
      ensures report == Report(0, [], VerifyIssues(id, name, role, creator, categories))
    {
      report := VerifyPackFields(id, name, role, creator, |categories|);
      ghost var pack := PackIssues(id, name, role, creator, |categories|);
      assert report == Report(0, [], pack + Scan([]));

      var seen: set<string> := {};
      ghost var done: seq<Entry> := [];
      for k := 0 to |categories|
        invariant done == Entries(categories[..k])
        invariant report == Report(0, [], pack + Scan(done))
        invariant seen == NonEmptySet(EntryIDs(done))
      {
        report, seen := VerifyCategory(report, seen, categories[k], pack, done);
        assert categories[..k + 1][..k] == categories[..k];
        done := done + CategoryEntries(categories[k]);
      }
      assert categories[..|categories|] == categories;
    }

    /** `Raw.Repair`: an empty pack ID becomes "pack-" and the pack hash;
        then every question with an empty ID gets its hashed ID. The
        report counts one repair per ID filled. */
    method Repair() returns (report: Report)
      requires id == "" ==> HashDefined(PackHash(name, creator, version).Sum())
      requires Hashable(categories)
      modifies this
      ensures id == if old(id) == "" then PackHash(name, creator, version).ID() else old(id)
      ensures categories == RepairAll(id, old(categories))
      ensures report == Report((if old(id) == "" then 1 else 0) + EmptyCount(AllIDs(old(categories))), [], [])
    {
      report := EmptyReport;
      if id == "" {
        var packHash := PackHash(name, creator, version);
        id := packHash.ID();
        report := report.(repaired := report.repaired + 1);
      }
      var repaired, n := RepairCategories(id, categories);
      categories := repaired;
      report := report.(repaired := report.repaired + n);
    }

    /** `Raw.ToDomain`: the questions of every category in turn, then the
        pack summary with each category name listed once. */
    method ToDomain(filepath: string) returns (p: Pack)
      ensures p.questions == DomainQuestions(categories)
      ensures p.info.id == id && p.info.name == name && p.info.role == role
      ensures p.info.version == version && p.info.creator == creator && p.info.path == filepath
      ensures p.info.count == |p.questions| == TotalSize(categories)
      ensures forall c :: c in p.info.categories <==> exists k :: 0 <= k < |categories| && categories[k].name == c
      ensures forall a, b :: 0 <= a < b < |p.info.categories| ==> p.info.categories[a] != p.info.categories[b]
    {
      var questions: seq<Question> := [];
      for k := 0 to |categories|
        invariant questions == DomainQuestions(categories[..k])
      {
        questions := AppendCategory(questions, categories[k]);
        assert categories[..k + 1][..k] == categories[..k];
      }
      assert categories[..|categories|] == categories;
      var names := CategoryNames(categories);
      p := Pack(Info(id, name, role, names, version, creator, filepath, |questions|), questions);
    }
  }

  /** One category's four `ToDomain` loops. */
  method AppendCategory(questions: seq<Question>, nc: NamedCategory) returns (questions': seq<Question>)
    ensures questions' == questions + CategoryDomain(nc)
  {
    var categoryName := nc.name;
    var category := nc.category;
    questions' := AppendChoices(questions, categoryName, category.choice);
    questions' := AppendMultis(questions', categoryName, category.multipleChoice);
    questions' := AppendBools(questions', categoryName, category.boolean);
    questions' := AppendTexts(questions', categoryName, category.textEntry);
    assert questions' == questions + CategoryDomain(nc);
  }

  /** One question's step of the scan: its own report merged, then the
      duplicate-ID check. */
  method VerifyEntry(report: Report, seen: set<string>, qReport: Report, id: string, path: string,
                     ghost pack: seq<Issue>, ghost done: seq<Entry>, ghost e: Entry)
    returns (report': Report, seen': set<string>)
    requires e.id == id && e.path == path && qReport == Report(0, [], e.issues)
    requires report == Report(0, [], pack + Scan(done))
    requires seen == NonEmptySet(EntryIDs(done))
    ensures report' == Report(0, [], pack + Scan(done + [e]))
    ensures seen' == NonEmptySet(EntryIDs(done + [e]))
  {
    var merged := report.Merge(qReport);
    assert merged == Report(0, [], pack + Scan(done) + e.issues);
    report', seen' := RecordID(merged, seen, id, path, pack, done, e);
  }

  /** The duplicate-ID step after a question's own report is merged: a
      DuplicateID error when the non-empty ID was seen before, and the ID
      recorded. */
  method RecordID(report: Report, seen: set<string>, id: string, path: string,
                  ghost pack: seq<Issue>, ghost done: seq<Entry>, ghost e: Entry)
    returns (report': Report, seen': set<string>)
    requires e.id == id && e.path == path
    requires report == Report(0, [], pack + Scan(done) + e.issues)
    requires seen == NonEmptySet(EntryIDs(done))
    ensures report' == Report(0, [], pack + Scan(done + [e]))
    ensures seen' == NonEmptySet(EntryIDs(done + [e]))
  {
    assert (done + [e])[..|done|] == done;
    assert EntryIDs(done + [e])[..|done|] == EntryIDs(done);
    report', seen' := report, seen;
    if id != "" {
      if id in seen {
        report' := report'.(errors := report'.errors + [NewError(IssueDuplicateID, "Duplicate question ID: " + id, path, id)]);
      }
      seen' := seen' + {id};
    }
  }

  /** A category's four lists appended one by one, regrouped. */
  lemma CategoryAssoc(base: seq<Entry>, a: seq<Entry>, b: seq<Entry>, c: seq<Entry>, d: seq<Entry>)
    ensures base + a + b + c + d == base + (a + b + c + d)
  {
  }

  /** `base + xs + [e]` regrouped. */
  lemma AppendAssoc(base: seq<Entry>, xs: seq<Entry>, e: Entry)
    ensures base + xs + [e] == base + (xs + [e])
  {
  }

  /** The `Repair` loop over the categories: each category's lists with
      their empty IDs filled, and the number filled. */
  method RepairCategories(packID: string, categories: seq<NamedCategory>) returns (repaired: seq<NamedCategory>, n: nat)
    requires Hashable(categories)
    ensures repaired == RepairAll(packID, categories)
    ensures n == EmptyCount(AllIDs(categories))
  {
    repaired := categories;
    n := 0;
    for k := 0 to |categories|
      invariant |repaired| == |categories|
      invariant forall j :: 0 <= j < k ==> repaired[j] == RepairCategory(packID, categories[j])
      invariant forall j :: k <= j < |categories| ==> repaired[j] == categories[j]
      invariant n == EmptyCount(AllIDs(categories[..k]))
    {
      var categoryName := repaired[k].name;
      var category := repaired[k].category;
      assert CategoryHashable(categories[k]);
      var lists, filled := RepairCategoryLists(packID, categoryName, category);
      n := n + filled;
      assert categories[..k + 1][..k] == categories[..k];
      EmptyCountAppend(AllIDs(categories[..k]), CategoryIDs(category));
      repaired := repaired[k := NamedCategory(categoryName, lists)];
    }
    assert categories[..|categories|] == categories;
  }

  /** One category's four repair loops. */
  method RepairCategoryLists(packID: string, categoryName: string, category: RawCategory)
    returns (repaired: RawCategory, n: nat)
    requires CategoryHashable(NamedCategory(categoryName, category))
    ensures repaired == RepairCategory(packID, NamedCategory(categoryName, category)).category
    ensures n == EmptyCount(CategoryIDs(category))
  {
    var choice, c1 := RepairChoiceList(packID, categoryName, category.choice);
    var multi, c2 := RepairMultiList(packID, categoryName, category.multipleChoice);
    var boolean, c3 := RepairBoolList(packID, categoryName, category.boolean);
    var text, c4 := RepairTextList(packID, categoryName, category.textEntry);
    repaired := RawCategory(choice, multi, boolean, text);
    n := c1 + c2 + c3 + c4;
    EmptyCountAppend(ChoiceIDs(category.choice), MultiIDs(category.multipleChoice));
    EmptyCountAppend(ChoiceIDs(category.choice) + MultiIDs(category.multipleChoice), BoolIDs(category.boolean));
    EmptyCountAppend(ChoiceIDs(category.choice) + MultiIDs(category.multipleChoice) + BoolIDs(category.boolean),
                     TextIDs(category.textEntry));
  }

  /** The pack-level checks of `Raw.Verify`, in order. */
  method VerifyPackFields(id: string, name: string, role: string, creator: string, categoryCount: int)
    returns (report: Report)
    ensures report == Report(0, [], PackIssues(id, name, role, creator, categoryCount))
  {
    report := EmptyReport;
    if id == "" {
      report := report.(errors := report.errors + [NewError(IssueMissingID, "Missing pack ID", "pack", "")]);
    }
    assert report.errors == When(id == "", NewError(IssueMissingID, "Missing pack ID", "pack", ""));
    ghost var before := report.errors;
    if name == "" {
      report := report.(errors := report.errors + [NewError(IssueMissingField, "Missing pack name", "pack", id)]);
    }
    assert report.errors == before + When(name == "", NewError(IssueMissingField, "Missing pack name", "pack", id));
    before := report.errors;
    if role == "" {
      report := report.(errors := report.errors + [NewError(IssueMissingField, "Missing pack role", "pack", id)]);
    }
    assert report.errors == before + When(role == "", NewError(IssueMissingField, "Missing pack role", "pack", id));
    before := report.errors;
    if creator == "" {
      report := report.(errors := report.errors + [NewError(IssueMissingField, "Missing pack creator", "pack", id)]);
    }
    assert report.errors == before + When(creator == "", NewError(IssueMissingField, "Missing pack creator", "pack", id));
    before := report.errors;
    if categoryCount == 0 {
      report := report.(errors := report.errors + [NewError(IssueMissingField, "Pack has no categories", "pack", id)]);
    }
    assert report.errors == before + When(categoryCount == 0, NewError(IssueMissingField, "Pack has no categories", "pack", id));
  }

  /** One category's four `Verify` loops. */
  method VerifyCategory(report: Report, seen: set<string>, nc: NamedCategory,
                        ghost pack: seq<Issue>, ghost base: seq<Entry>)
    returns (report': Report, seen': set<string>)
    requires report == Report(0, [], pack + Scan(base))
    requires seen == NonEmptySet(EntryIDs(base))
    ensures report' == Report(0, [], pack + Scan(base + CategoryEntries(nc)))
    ensures seen' == NonEmptySet(EntryIDs(base + CategoryEntries(nc)))
  {
    var categoryName := nc.name;
    var category := nc.category;
    ghost var done := base;
    report', seen' := VerifyChoices(report, seen, categoryName, category.choice, pack, done);
    done := done + ChoiceEntries(categoryName, category.choice);
    report', seen' := VerifyMultis(report', seen', categoryName, category.multipleChoice, pack, done);
    done := done + MultiEntries(categoryName, category.multipleChoice);
    report', seen' := VerifyBools(report', seen', categoryName, category.boolean, pack, done);
    done := done + BoolEntries(categoryName, category.boolean);
    report', seen' := VerifyTexts(report', seen', categoryName, category.textEntry, pack, done);
    done := done + TextEntries(categoryName, category.textEntry);
    CategoryAssoc(base, ChoiceEntries(categoryName, category.choice),
                  MultiEntries(categoryName, category.multipleChoice),
                  BoolEntries(categoryName, category.boolean), TextEntries(categoryName, category.textEntry));
  }

  /** One turn of a `Verify` list loop, for any question type: question
      `i`'s own report, whose ID is `qid`, is merged and the ID checked. */
  method VerifyListAt<Q>(report: Report, seen: set<string>, qReport: Report, qid: string,
                         name: string, list: string, qs: seq<Q>, i: nat,
                         id: Q -> string, issues: Q -> seq<Issue>, ghost pack: seq<Issue>, ghost base: seq<Entry>)
    returns (report': Report, seen': set<string>)
    requires i < |qs| && qid == id(qs[i]) && qReport == Report(0, [], issues(qs[i]))
    requires report == Report(0, [], pack + Scan(base + ListEntries(name, list, qs[..i], id, issues)))
    requires seen == NonEmptySet(EntryIDs(base + ListEntries(name, list, qs[..i], id, issues)))
    ensures report' == Report(0, [], pack + Scan(base + ListEntries(name, list, qs[..i + 1], id, issues)))
    ensures seen' == NonEmptySet(EntryIDs(base + ListEntries(name, list, qs[..i + 1], id, issues)))
  {
    var path := EntryPath(name, list, i);
    ghost var e := Entry(qid, issues(qs[i]), path);
    ghost var done := ListEntries(name, list, qs[..i], id, issues);
    report', seen' := VerifyEntry(report, seen, qReport, qid, path, pack, base + done, e);
    assert qs[..i + 1][..i] == qs[..i];
    assert ListEntries(name, list, qs[..i + 1], id, issues) == done + [e];
    AppendAssoc(base, done, e);
  }

  /** The `Verify` loop over one category's choice questions. */
  method VerifyChoices(report: Report, seen: set<string>, categoryName: string, qs: seq<RawChoiceQuestion>,
                    ghost pack: seq<Issue>, ghost base: seq<Entry>)
    returns (report': Report, seen': set<string>)
    requires report == Report(0, [], pack + Scan(base))
    requires seen == NonEmptySet(EntryIDs(base))
    ensures report' == Report(0, [], pack + Scan(base + ChoiceEntries(categoryName, qs)))
    ensures seen' == NonEmptySet(EntryIDs(base + ChoiceEntries(categoryName, qs)))
  {
    report', seen' := report, seen;
    assert base + ChoiceEntries(categoryName, qs[..0]) == base;
    for i := 0 to |qs|
      invariant report' == Report(0, [], pack + Scan(base + ChoiceEntries(categoryName, qs[..i])))
      invariant seen' == NonEmptySet(EntryIDs(base + ChoiceEntries(categoryName, qs[..i])))
    {
      var qReport := qs[i].Verify();
      report', seen' := VerifyListAt(report', seen', qReport, qs[i].id, categoryName, "choice", qs, i, ChoiceID, ChoiceIssues, pack, base);
    }
    assert qs[..|qs|] == qs;
  }

  /** The `Repair` loop over one category's choice questions. */
  method RepairChoiceList(packID: string, categoryName: string, qs: seq<RawChoiceQuestion>) returns (repaired: seq<RawChoiceQuestion>, n: nat)
    requires forall i :: 0 <= i < |qs| && qs[i].id == "" ==> QuestionHashable(qs[i].prompt, qs[i].difficulty, categoryName)
    ensures repaired == RepairChoices(packID, categoryName, qs)
    ensures n == EmptyCount(ChoiceIDs(qs))
  {
    repaired := qs;
    n := 0;
    for i := 0 to |qs|
      invariant |repaired| == |qs|
      invariant forall j :: 0 <= j < i ==> repaired[j] == RepairChoice(packID, categoryName, qs[j], j)
      invariant forall j :: i <= j < |qs| ==> repaired[j] == qs[j]
      invariant n == EmptyCount(ChoiceIDs(qs)[..i])
    {
      repaired, n := RepairChoiceAt(packID, categoryName, qs, i, repaired, n);
    }
    assert ChoiceIDs(qs)[..|qs|] == ChoiceIDs(qs);
  }

  /** One turn of that loop: question `i` gets its hashed ID if it has none. */
  method RepairChoiceAt(packID: string, categoryName: string, qs: seq<RawChoiceQuestion>, i: nat, repaired: seq<RawChoiceQuestion>, n: nat)
    returns (repaired': seq<RawChoiceQuestion>, n': nat)
    requires i < |qs| == |repaired|
    requires qs[i].id == "" ==> QuestionHashable(qs[i].prompt, qs[i].difficulty, categoryName)
    requires repaired[i] == qs[i]
    requires n == EmptyCount(ChoiceIDs(qs)[..i])
    ensures |repaired'| == |qs|
    ensures repaired'[i] == RepairChoice(packID, categoryName, qs[i], i)
    ensures forall j :: 0 <= j < |qs| && j != i ==> repaired'[j] == repaired[j]
    ensures n' == EmptyCount(ChoiceIDs(qs)[..i + 1])
  {
    ghost var ids := ChoiceIDs(qs);
    assert ids[..i + 1][..i] == ids[..i] && ids[..i + 1][i] == qs[i].id;
    var q := repaired[i];
    repaired', n' := repaired, n;
    if q.id == "" {
      repaired' := repaired[i := q.(id := HashedID(packID, q.prompt, q.difficulty, TypeChoice, categoryName, i))];
      n' := n + 1;
    }
  }

  /** The `ToDomain` loop over one category's choice questions. */
  method AppendChoices(questions: seq<Question>, categoryName: string, qs: seq<RawChoiceQuestion>) returns (questions': seq<Question>)
    ensures questions' == questions + ChoiceDomain(categoryName, qs)
  {
    questions' := questions;
    for i := 0 to |qs|
      invariant questions' == questions + ChoiceDomain(categoryName, qs)[..i]
    {
      var rawQ := qs[i];
      questions' := questions' + [Question(rawQ.id, ParseDifficulty(rawQ.difficulty), categoryName, TypeChoice, rawQ.prompt, Some(ChoiceAnswer(rawQ.options, rawQ.answer)))];
      assert ChoiceDomain(categoryName, qs)[..i + 1] == ChoiceDomain(categoryName, qs)[..i] + [ChoiceDomain(categoryName, qs)[i]];
    }
    assert ChoiceDomain(categoryName, qs)[..|qs|] == ChoiceDomain(categoryName, qs);
  }

  /** The `Verify` loop over one category's multi questions. */
  method VerifyMultis(report: Report, seen: set<string>, categoryName: string, qs: seq<RawMultiQuestion>,
                    ghost pack: seq<Issue>, ghost base: seq<Entry>)
    returns (report': Report, seen': set<string>)
    requires report == Report(0, [], pack + Scan(base))
    requires seen == NonEmptySet(EntryIDs(base))
    ensures report' == Report(0, [], pack + Scan(base + MultiEntries(categoryName, qs)))
    ensures seen' == NonEmptySet(EntryIDs(base + MultiEntries(categoryName, qs)))
  {
    report', seen' := report, seen;
    assert base + MultiEntries(categoryName, qs[..0]) == base;
    for i := 0 to |qs|
      invariant report' == Report(0, [], pack + Scan(base + MultiEntries(categoryName, qs[..i])))
      invariant seen' == NonEmptySet(EntryIDs(base + MultiEntries(categoryName, qs[..i])))
    {
      var qReport := qs[i].Verify();
      report', seen' := VerifyListAt(report', seen', qReport, qs[i].id, categoryName, "multiple_choice", qs, i, MultiID, MultiIssues, pack, base);
    }
    assert qs[..|qs|] == qs;
  }

  /** The `Repair` loop over one category's multi questions. */
  method RepairMultiList(packID: string, categoryName: string, qs: seq<RawMultiQuestion>) returns (repaired: seq<RawMultiQuestion>, n: nat)
    requires forall i :: 0 <= i < |qs| && qs[i].id == "" ==> QuestionHashable(qs[i].prompt, qs[i].difficulty, categoryName)
    ensures repaired == RepairMultis(packID, categoryName, qs)
    ensures n == EmptyCount(MultiIDs(qs))
  {
    repaired := qs;
    n := 0;
    for i := 0 to |qs|
      invariant |repaired| == |qs|
      invariant forall j :: 0 <= j < i ==> repaired[j] == RepairMulti(packID, categoryName, qs[j], j)
      invariant forall j :: i <= j < |qs| ==> repaired[j] == qs[j]
      invariant n == EmptyCount(MultiIDs(qs)[..i])
    {
      repaired, n := RepairMultiAt(packID, categoryName, qs, i, repaired, n);
    }
    assert MultiIDs(qs)[..|qs|] == MultiIDs(qs);
  }

  /** One turn of that loop: question `i` gets its hashed ID if it has none. */
  method RepairMultiAt(packID: string, categoryName: string, qs: seq<RawMultiQuestion>, i: nat, repaired: seq<RawMultiQuestion>, n: nat)
    returns (repaired': seq<RawMultiQuestion>, n': nat)
    requires i < |qs| == |repaired|
    requires qs[i].id == "" ==> QuestionHashable(qs[i].prompt, qs[i].difficulty, categoryName)
    requires repaired[i] == qs[i]
    requires n == EmptyCount(MultiIDs(qs)[..i])
    ensures |repaired'| == |qs|
    ensures repaired'[i] == RepairMulti(packID, categoryName, qs[i], i)
    ensures forall j :: 0 <= j < |qs| && j != i ==> repaired'[j] == repaired[j]
    ensures n' == EmptyCount(MultiIDs(qs)[..i + 1])
  {
    ghost var ids := MultiIDs(qs);
    assert ids[..i + 1][..i] == ids[..i] && ids[..i + 1][i] == qs[i].id;
    var q := repaired[i];
    repaired', n' := repaired, n;
    if q.id == "" {
      repaired' := repaired[i := q.(id := HashedID(packID, q.prompt, q.difficulty, TypeMulti, categoryName, i))];
      n' := n + 1;
    }
  }

  /** The `ToDomain` loop over one category's multi questions. */
  method AppendMultis(questions: seq<Question>, categoryName: string, qs: seq<RawMultiQuestion>) returns (questions': seq<Question>)
    ensures questions' == questions + MultiDomain(categoryName, qs)
  {
    questions' := questions;
    for i := 0 to |qs|
      invariant questions' == questions + MultiDomain(categoryName, qs)[..i]
    {
      var rawQ := qs[i];
      questions' := questions' + [Question(rawQ.id, ParseDifficulty(rawQ.difficulty), categoryName, TypeMulti, rawQ.prompt, Some(MultiAnswer(rawQ.options, rawQ.answer)))];
      assert MultiDomain(categoryName, qs)[..i + 1] == MultiDomain(categoryName, qs)[..i] + [MultiDomain(categoryName, qs)[i]];
    }
    assert MultiDomain(categoryName, qs)[..|qs|] == MultiDomain(categoryName, qs);
  }

  /** The `Verify` loop over one category's bool questions. */
  method VerifyBools(report: Report, seen: set<string>, categoryName: string, qs: seq<RawBoolQuestion>,
                    ghost pack: seq<Issue>, ghost base: seq<Entry>)
    returns (report': Report, seen': set<string>)
    requires report == Report(0, [], pack + Scan(base))
    requires seen == NonEmptySet(EntryIDs(base))
    ensures report' == Report(0, [], pack + Scan(base + BoolEntries(categoryName, qs)))
    ensures seen' == NonEmptySet(EntryIDs(base + BoolEntries(categoryName, qs)))
  {
    report', seen' := report, seen;
    assert base + BoolEntries(categoryName, qs[..0]) == base;
    for i := 0 to |qs|
      invariant report' == Report(0, [], pack + Scan(base + BoolEntries(categoryName, qs[..i])))
      invariant seen' == NonEmptySet(EntryIDs(base + BoolEntries(categoryName, qs[..i])))
    {
      var qReport := qs[i].Verify();
      report', seen' := VerifyListAt(report', seen', qReport, qs[i].id, categoryName, "bool", qs, i, BoolID, BoolIssues, pack, base);
    }
    assert qs[..|qs|] == qs;
  }

  /** The `Repair` loop over one category's bool questions. */
  method RepairBoolList(packID: string, categoryName: string, qs: seq<RawBoolQuestion>) returns (repaired: seq<RawBoolQuestion>, n: nat)
    requires forall i :: 0 <= i < |qs| && qs[i].id == "" ==> QuestionHashable(qs[i].prompt, qs[i].difficulty, categoryName)
    ensures repaired == RepairBools(packID, categoryName, qs)
    ensures n == EmptyCount(BoolIDs(qs))
  {
    repaired := qs;
    n := 0;
    for i := 0 to |qs|
      invariant |repaired| == |qs|
      invariant forall j :: 0 <= j < i ==> repaired[j] == RepairBool(packID, categoryName, qs[j], j)
      invariant forall j :: i <= j < |qs| ==> repaired[j] == qs[j]
      invariant n == EmptyCount(BoolIDs(qs)[..i])
    {
      repaired, n := RepairBoolAt(packID, categoryName, qs, i, repaired, n);
    }
    assert BoolIDs(qs)[..|qs|] == BoolIDs(qs);
  }

  /** One turn of that loop: question `i` gets its hashed ID if it has none. */
  method RepairBoolAt(packID: string, categoryName: string, qs: seq<RawBoolQuestion>, i: nat, repaired: seq<RawBoolQuestion>, n: nat)
    returns (repaired': seq<RawBoolQuestion>, n': nat)
    requires i < |qs| == |repaired|
    requires qs[i].id == "" ==> QuestionHashable(qs[i].prompt, qs[i].difficulty, categoryName)
    requires repaired[i] == qs[i]
    requires n == EmptyCount(BoolIDs(qs)[..i])
    ensures |repaired'| == |qs|
    ensures repaired'[i] == RepairBool(packID, categoryName, qs[i], i)
    ensures forall j :: 0 <= j < |qs| && j != i ==> repaired'[j] == repaired[j]
    ensures n' == EmptyCount(BoolIDs(qs)[..i + 1])
  {
    ghost var ids := BoolIDs(qs);
    assert ids[..i + 1][..i] == ids[..i] && ids[..i + 1][i] == qs[i].id;
    var q := repaired[i];
    repaired', n' := repaired, n;
    if q.id == "" {
      repaired' := repaired[i := q.(id := HashedID(packID, q.prompt, q.difficulty, TypeBool, categoryName, i))];
      n' := n + 1;
    }
  }

  /** The `ToDomain` loop over one category's bool questions. */
  method AppendBools(questions: seq<Question>, categoryName: string, qs: seq<RawBoolQuestion>) returns (questions': seq<Question>)
    ensures questions' == questions + BoolDomain(categoryName, qs)
  {
    questions' := questions;
    for i := 0 to |qs|
      invariant questions' == questions + BoolDomain(categoryName, qs)[..i]
    {
      var rawQ := qs[i];
      questions' := questions' + [Question(rawQ.id, ParseDifficulty(rawQ.difficulty), categoryName, TypeBool, rawQ.prompt, Some(BoolAnswer(rawQ.answer)))];
      assert BoolDomain(categoryName, qs)[..i + 1] == BoolDomain(categoryName, qs)[..i] + [BoolDomain(categoryName, qs)[i]];
    }
    assert BoolDomain(categoryName, qs)[..|qs|] == BoolDomain(categoryName, qs);
  }

  /** The `Verify` loop over one category's text questions. */
  method VerifyTexts(report: Report, seen: set<string>, categoryName: string, qs: seq<RawTextQuestion>,
                    ghost pack: seq<Issue>, ghost base: seq<Entry>)
    returns (report': Report, seen': set<string>)
    requires report == Report(0, [], pack + Scan(base))
    requires seen == NonEmptySet(EntryIDs(base))
    ensures report' == Report(0, [], pack + Scan(base + TextEntries(categoryName, qs)))
    ensures seen' == NonEmptySet(EntryIDs(base + TextEntries(categoryName, qs)))
  {
    report', seen' := report, seen;
    assert base + TextEntries(categoryName, qs[..0]) == base;
    for i := 0 to |qs|
      invariant report' == Report(0, [], pack + Scan(base + TextEntries(categoryName, qs[..i])))
      invariant seen' == NonEmptySet(EntryIDs(base + TextEntries(categoryName, qs[..i])))
    {
      var qReport := qs[i].Verify();
      report', seen' := VerifyListAt(report', seen', qReport, qs[i].id, categoryName, "text_entry", qs, i, TextID, TextIssues, pack, base);
    }
    assert qs[..|qs|] == qs;
  }

  /** The `Repair` loop over one category's text questions. */
  method RepairTextList(packID: string, categoryName: string, qs: seq<RawTextQuestion>) returns (repaired: seq<RawTextQuestion>, n: nat)
    requires forall i :: 0 <= i < |qs| && qs[i].id == "" ==> QuestionHashable(qs[i].prompt, qs[i].difficulty, categoryName)
    ensures repaired == RepairTexts(packID, categoryName, qs)
    ensures n == EmptyCount(TextIDs(qs))
  {
    repaired := qs;
    n := 0;
    for i := 0 to |qs|
      invariant |repaired| == |qs|
      invariant forall j :: 0 <= j < i ==> repaired[j] == RepairText(packID, categoryName, qs[j], j)
      invariant forall j :: i <= j < |qs| ==> repaired[j] == qs[j]
      invariant n == EmptyCount(TextIDs(qs)[..i])
    {
      repaired, n := RepairTextAt(packID, categoryName, qs, i, repaired, n);
    }
    assert TextIDs(qs)[..|qs|] == TextIDs(qs);
  }

  /** One turn of that loop: question `i` gets its hashed ID if it has none. */
  method RepairTextAt(packID: string, categoryName: string, qs: seq<RawTextQuestion>, i: nat, repaired: seq<RawTextQuestion>, n: nat)
    returns (repaired': seq<RawTextQuestion>, n': nat)
    requires i < |qs| == |repaired|
    requires qs[i].id == "" ==> QuestionHashable(qs[i].prompt, qs[i].difficulty, categoryName)
    requires repaired[i] == qs[i]
    requires n == EmptyCount(TextIDs(qs)[..i])
    ensures |repaired'| == |qs|
    ensures repaired'[i] == RepairText(packID, categoryName, qs[i], i)
    ensures forall j :: 0 <= j < |qs| && j != i ==> repaired'[j] == repaired[j]
    ensures n' == EmptyCount(TextIDs(qs)[..i + 1])
  {
    ghost var ids := TextIDs(qs);
    assert ids[..i + 1][..i] == ids[..i] && ids[..i + 1][i] == qs[i].id;
    var q := repaired[i];
    repaired', n' := repaired, n;
    if q.id == "" {
      repaired' := repaired[i := q.(id := HashedID(packID, q.prompt, q.difficulty, TypeText, categoryName, i))];
      n' := n + 1;
    }
  }

  /** The `ToDomain` loop over one category's text questions. */
  method AppendTexts(questions: seq<Question>, categoryName: string, qs: seq<RawTextQuestion>) returns (questions': seq<Question>)
    ensures questions' == questions + TextDomain(categoryName, qs)
  {
    questions' := questions;
    for i := 0 to |qs|
      invariant questions' == questions + TextDomain(categoryName, qs)[..i]
    {
      var rawQ := qs[i];
      questions' := questions' + [Question(rawQ.id, ParseDifficulty(rawQ.difficulty), categoryName, TypeText, rawQ.prompt, Some(TextAnswer(rawQ.expected, rawQ.keywords)))];
      assert TextDomain(categoryName, qs)[..i + 1] == TextDomain(categoryName, qs)[..i] + [TextDomain(categoryName, qs)[i]];
    }
    assert TextDomain(categoryName, qs)[..|qs|] == TextDomain(categoryName, qs);
  }

  /** `ToDomain`'s category list: the names go into a set, then the set is
      listed in an unspecified order, each name once. */
  method CategoryNames(categories: seq<NamedCategory>) returns (names: seq<string>)
    ensures forall c :: c in names <==> exists k :: 0 <= k < |categories| && categories[k].name == c
    ensures forall a, b :: 0 <= a < b < |names| ==> names[a] != names[b]
  {
    var categorySet: set<string> := {};
    for k := 0 to |categories|
      invariant forall c :: c in categorySet <==> exists j :: 0 <= j < k && categories[j].name == c
    {
      categorySet := categorySet + {categories[k].name};
    }
    names := [];
    var remaining := categorySet;
    while remaining != {}
      invariant remaining <= categorySet
      invariant forall c :: c in categorySet <==> c in remaining || c in names
      invariant forall c :: c in names ==> c !in remaining
      invariant forall a, b :: 0 <= a < b < |names| ==> names[a] != names[b]
      decreases |remaining|
    {
      var c :| c in remaining;
      names := names + [c];
      remaining := remaining - {c};
    }
  }
}
