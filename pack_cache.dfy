/** The question caches (internal/pack/cache.go): `QuestionIndex` maps a
    question ID to its engine question, and `Lookup` files question IDs
    under difficulty, role and type. Both are rebuilt from scratch by
    `Generate` from packs that are already loaded; reading and writing the
    cache files is left out. */
module PackCache {
  import opened Wrappers
  import opened Game
  import opened PackDomain
  import opened Collections
  import Questions

  // ---- QuestionIndex ----

  /** The questions of all packs, pack by pack, in order. */
  function PackQuestions(packs: seq<Pack>): (qs: seq<Question>) {
    if packs == [] then [] else PackQuestions(packs[..|packs| - 1]) + packs[|packs| - 1].questions
  }

  /** `ToEngine` is defined on every question of every pack. */
  predicate Convertible(packs: seq<Pack>) {
    forall i :: 0 <= i < |packs| ==> forall q :: q in packs[i].questions ==> AnswerFitsType(q)
  }

  lemma {:induction false} ConvertibleAll(packs: seq<Pack>)
    requires Convertible(packs)
    ensures forall q :: q in PackQuestions(packs) ==> AnswerFitsType(q)
  {
    if packs != [] {
      var init := packs[..|packs| - 1];
      assert forall i :: 0 <= i < |init| ==> init[i] == packs[i];
      ConvertibleAll(init);
    }
  }

  /** The index after the questions are stored in order under their IDs,
      a later question overwriting an earlier one with the same ID. */
  function IndexOf(qs: seq<Question>): map<string, Option<Questions.Question>>
    requires forall q :: q in qs ==> AnswerFitsType(q)
  {
    if qs == [] then map[]
    else
      var q := qs[|qs| - 1];
      IndexOf(qs[..|qs| - 1])[q.id := ToEngine(q)]
  }

  /** The index holds exactly the questions' IDs. */
  lemma {:induction false} IndexKeys(qs: seq<Question>)
    requires forall q :: q in qs ==> AnswerFitsType(q)
    ensures forall id :: id in IndexOf(qs) <==> exists i :: 0 <= i < |qs| && qs[i].id == id
  {
    if qs != [] {
      var init := qs[..|qs| - 1];
      IndexKeys(init);
      forall id | id in IndexOf(qs)
        ensures exists i :: 0 <= i < |qs| && qs[i].id == id
      {
        if id != qs[|qs| - 1].id {
          assert id in IndexOf(init);
          var i :| 0 <= i < |init| && init[i].id == id;
          assert qs[i] == init[i];
        }
      }
      forall i | 0 <= i < |init|
        ensures init[i] == qs[i]
      {
      }
    }
  }

  /** The entry for an ID is the engine form of the last question with
      that ID. */
  lemma {:induction false} IndexLast(qs: seq<Question>, i: int)
    requires forall q :: q in qs ==> AnswerFitsType(q)
    requires 0 <= i < |qs| && forall k :: i < k < |qs| ==> qs[k].id != qs[i].id
    ensures qs[i].id in IndexOf(qs) && IndexOf(qs)[qs[i].id] == ToEngine(qs[i])
  {
    if i < |qs| - 1 {
      var init := qs[..|qs| - 1];
      assert init[i] == qs[i];
      IndexLast(init, i);
    }
  }

  /** `QuestionIndex`: question ID to engine question; a nil question is
      `None`. */
  class QuestionIndex {
    var entries: map<string, Option<Questions.Question>>

    constructor ()
      ensures entries == map[]
    {
      entries := map[];
    }

    /** `QuestionIndex.Generate`: the index is cleared, then every question
        of every pack is stored under its ID, pack by pack. */
    method Generate(packs: seq<Pack>)
      requires Convertible(packs)
      modifies this
      ensures forall q :: q in PackQuestions(packs) ==> AnswerFitsType(q)
      ensures entries == IndexOf(PackQuestions(packs))
    {
      ConvertibleAll(packs);
      entries := map[];
      for i := 0 to |packs|
        invariant forall q :: q in PackQuestions(packs[..i]) ==> AnswerFitsType(q)
        invariant entries == IndexOf(PackQuestions(packs[..i]))
      {
        assert packs[..i + 1][..i] == packs[..i];
        assert forall k :: 0 <= k < i + 1 ==> packs[..i + 1][k] == packs[k];
        ConvertibleAll(packs[..i + 1]);
        AddPackQuestions(PackQuestions(packs[..i]), packs[i].questions);
      }
      assert packs[..|packs|] == packs;
    }

    /** The inner loop of `Generate`: one pack's questions in order. */
    method AddPackQuestions(ghost before: seq<Question>, qs: seq<Question>)
      requires forall q :: q in before + qs ==> AnswerFitsType(q)
      requires entries == IndexOf(before)
      modifies this
      ensures entries == IndexOf(before + qs)
    {
      assert before + qs[..0] == before;
      for j := 0 to |qs|
        invariant entries == IndexOf(before + qs[..j])
      {
        assert (before + qs[..j + 1])[..|before| + j] == before + qs[..j];
        assert (before + qs[..j + 1])[|before| + j] == qs[j];
        entries := entries[qs[j].id := ToEngine(qs[j])];
      }
      assert qs[..|qs|] == qs;
    }

    /** `QuestionIndex.Fetch`: one entry per requested ID, in request
        order; an unknown ID gives the zero value, a nil question. */
    method Fetch(ids: seq<string>) returns (questions: seq<Option<Questions.Question>>)
      ensures |questions| == |ids|
      ensures forall i :: 0 <= i < |ids| ==>
        questions[i] == if ids[i] in entries then entries[ids[i]] else None
    {
      questions := [];
      for i := 0 to |ids|
        invariant |questions| == i
        invariant forall k :: 0 <= k < i ==> questions[k] == if ids[k] in entries then entries[ids[k]] else None
      {
        var q := if ids[i] in entries then entries[ids[i]] else None;
        questions := questions + [q];
      }
    }
  }

  // ---- Lookup ----

  /** Difficulty, then role, then type, to a list of question IDs. */
  type LookupTable = map<Difficulty, map<string, map<PackType, seq<string>>>>

  /** The bucket for a difficulty, role and type; a missing map at any
      level reads as an empty bucket. */
  function Bucket(table: LookupTable, d: Difficulty, role: string, t: PackType): seq<string> {
    if d in table && role in table[d] && t in table[d][role] then table[d][role][t] else []
  }

  /** The table with `id` appended to one bucket, the maps on the way
      created when missing. */
  function Insert(table: LookupTable, d: Difficulty, role: string, t: PackType, id: string): LookupTable {
    var roles := if d in table then table[d] else map[];
    var types := if role in roles then roles[role] else map[];
    table[d := roles[role := types[t := Bucket(table, d, role, t) + [id]]]]
  }

  /** Inserting touches exactly one bucket. */
  lemma InsertBucket(table: LookupTable, d: Difficulty, role: string, t: PackType, id: string,
                     d': Difficulty, role': string, t': PackType)
    ensures Bucket(Insert(table, d, role, t, id), d', role', t') ==
      if d' == d && role' == role && t' == t then Bucket(table, d, role, t) + [id] else Bucket(table, d', role', t')
  {
  }

  /** One pack's questions filed under its role, in order. */
  function AddQuestions(table: LookupTable, role: string, qs: seq<Question>): LookupTable {
    if qs == [] then table
    else
      var q := qs[|qs| - 1];
      Insert(AddQuestions(table, role, qs[..|qs| - 1]), q.difficulty, role, q.qtype, q.id)
  }

  /** The table `Lookup.Generate` builds: every pack's questions filed in
      order, starting from an empty table. */
  function LookupOf(packs: seq<Pack>): LookupTable {
    if packs == [] then map[]
    else
      var p := packs[|packs| - 1];
      AddQuestions(LookupOf(packs[..|packs| - 1]), p.info.role, p.questions)
  }

  /** The IDs of the questions with the given difficulty and type, in
      order. */
  function MatchingIDs(qs: seq<Question>, d: Difficulty, t: PackType): seq<string> {
    if qs == [] then []
    else
      var q := qs[|qs| - 1];
      MatchingIDs(qs[..|qs| - 1], d, t) + (if q.difficulty == d && q.qtype == t then [q.id] else [])
  }

  /** Independently of any table: the IDs of every question, over all
      packs in order, with the given difficulty and type in a pack of the
      given role. */
  function BucketOf(packs: seq<Pack>, d: Difficulty, role: string, t: PackType): seq<string> {
    if packs == [] then []
    else
      var p := packs[|packs| - 1];
      BucketOf(packs[..|packs| - 1], d, role, t) + (if p.info.role == role then MatchingIDs(p.questions, d, t) else [])
  }

  lemma {:induction false} AddQuestionsBucket(table: LookupTable, role: string, qs: seq<Question>,
                                              d: Difficulty, role': string, t: PackType)
    ensures Bucket(AddQuestions(table, role, qs), d, role', t) ==
      Bucket(table, d, role', t) + (if role == role' then MatchingIDs(qs, d, t) else [])
  {
    if qs != [] {
      var q := qs[|qs| - 1];
      var init := qs[..|qs| - 1];
      AddQuestionsBucket(table, role, init, d, role', t);
      InsertBucket(AddQuestions(table, role, init), q.difficulty, role, q.qtype, q.id, d, role', t);
    } else {
      assert Bucket(table, d, role', t) + [] == Bucket(table, d, role', t);
    }
  }

  /** Each bucket of the built table lists, in order, the IDs of exactly
      the questions filed there. */
  lemma {:induction false} LookupBuckets(packs: seq<Pack>, d: Difficulty, role: string, t: PackType)
    ensures Bucket(LookupOf(packs), d, role, t) == BucketOf(packs, d, role, t)
  {
    if packs != [] {
      var p := packs[|packs| - 1];
      LookupBuckets(packs[..|packs| - 1], d, role, t);
      AddQuestionsBucket(LookupOf(packs[..|packs| - 1]), p.info.role, p.questions, d, role, t);
    }
  }

  /** An ID is in a filtered list exactly when some question with that ID
      has the difficulty and type. */
  lemma {:induction false} MatchingIDsMembers(qs: seq<Question>, d: Difficulty, t: PackType, id: string)
    ensures id in MatchingIDs(qs, d, t) <==>
      exists j :: 0 <= j < |qs| && qs[j].id == id && qs[j].difficulty == d && qs[j].qtype == t
  {
    if qs != [] {
      var init := qs[..|qs| - 1];
      MatchingIDsMembers(init, d, t, id);
      if id in MatchingIDs(init, d, t) {
        var j :| 0 <= j < |init| && init[j].id == id && init[j].difficulty == d && init[j].qtype == t;
        assert qs[j] == init[j];
      }
      if exists j :: 0 <= j < |qs| && qs[j].id == id && qs[j].difficulty == d && qs[j].qtype == t {
        var j :| 0 <= j < |qs| && qs[j].id == id && qs[j].difficulty == d && qs[j].qtype == t;
        if j < |init| {
          assert init[j] == qs[j];
        }
      }
    }
  }

  /** An ID is in a bucket exactly when some pack of the role lists a
      question with that ID, difficulty and type. */
  lemma {:induction false} BucketOfMembers(packs: seq<Pack>, d: Difficulty, role: string, t: PackType, id: string)
    ensures id in BucketOf(packs, d, role, t) <==>
      exists i :: 0 <= i < |packs| && packs[i].info.role == role && id in MatchingIDs(packs[i].questions, d, t)
  {
    if packs != [] {
      var init := packs[..|packs| - 1];
      BucketOfMembers(init, d, role, t, id);
      if id in BucketOf(init, d, role, t) {
        var i :| 0 <= i < |init| && init[i].info.role == role && id in MatchingIDs(init[i].questions, d, t);
        assert packs[i] == init[i];
      }
      if exists i :: 0 <= i < |packs| && packs[i].info.role == role && id in MatchingIDs(packs[i].questions, d, t) {
        var i :| 0 <= i < |packs| && packs[i].info.role == role && id in MatchingIDs(packs[i].questions, d, t);
        if i < |init| {
          assert init[i] == packs[i];
        }
      }
    }
  }

  /** The concatenated buckets of the requested types, in request order. */
  function Buckets(table: LookupTable, d: Difficulty, role: string, types: seq<PackType>): seq<string> {
    if types == [] then [] else Buckets(table, d, role, types[..|types| - 1]) + Bucket(table, d, role, types[|types| - 1])
  }

  /** `GetQuestionIDs` as a function of the table: empty when the
      difficulty or the role is absent, otherwise the requested types'
      buckets in request order, a missing type adding nothing. */
  function QuestionIDsFor(table: LookupTable, d: Difficulty, role: string, types: seq<PackType>): (ids: seq<string>)
    ensures d !in table || role !in table[d] ==> ids == []
  {
    if d !in table || role !in table[d] then []
    else TypeBuckets(table[d][role], types)
  }

  function TypeBuckets(typeIndex: map<PackType, seq<string>>, types: seq<PackType>): seq<string> {
    if types == [] then []
    else
      var t := types[|types| - 1];
      TypeBuckets(typeIndex, types[..|types| - 1]) + (if t in typeIndex then typeIndex[t] else [])
  }

  /** Whatever is present, the result is the requested buckets run
      together: an absent difficulty or role has only empty buckets. */
  lemma {:induction false} QuestionIDsAreBuckets(table: LookupTable, d: Difficulty, role: string, types: seq<PackType>)
    ensures QuestionIDsFor(table, d, role, types) == Buckets(table, d, role, types)
  {
    if types != [] {
      QuestionIDsAreBuckets(table, d, role, types[..|types| - 1]);
    }
  }

  /** On a built table, `GetQuestionIDs` lists the IDs filed under each
      requested type, type by type, each in pack and question order. */
  lemma {:induction false} QuestionIDsOfBuild(packs: seq<Pack>, d: Difficulty, role: string, types: seq<PackType>)
    ensures QuestionIDsFor(LookupOf(packs), d, role, types) == BucketsOf(packs, d, role, types)
  {
    QuestionIDsAreBuckets(LookupOf(packs), d, role, types);
    BuildBuckets(packs, d, role, types);
  }

  lemma {:induction false} BuildBuckets(packs: seq<Pack>, d: Difficulty, role: string, types: seq<PackType>)
    ensures Buckets(LookupOf(packs), d, role, types) == BucketsOf(packs, d, role, types)
  {
    if types != [] {
      BuildBuckets(packs, d, role, types[..|types| - 1]);
      LookupBuckets(packs, d, role, types[|types| - 1]);
    }
  }

  /** `BucketOf` for each requested type, run together. */
  function BucketsOf(packs: seq<Pack>, d: Difficulty, role: string, types: seq<PackType>): seq<string> {
    if types == [] then []
    else BucketsOf(packs, d, role, types[..|types| - 1]) + BucketOf(packs, d, role, types[|types| - 1])
  }

  /** A role offers questions when some requested type has a non-empty
      bucket. */
  predicate HasQuestions(typeIndex: map<PackType, seq<string>>, types: seq<PackType>) {
    exists k :: 0 <= k < |types| && types[k] in typeIndex && |typeIndex[types[k]]| > 0
  }

  /** On a built table, a role is offered exactly when some pack of that
      role has a question of the difficulty and one of the types. */
  lemma AvailableRoleOfBuild(packs: seq<Pack>, d: Difficulty, role: string, types: seq<PackType>)
    ensures (d in LookupOf(packs) && role in LookupOf(packs)[d] && HasQuestions(LookupOf(packs)[d][role], types)) <==>
      exists k :: 0 <= k < |types| && BucketOf(packs, d, role, types[k]) != []
  {
    var table := LookupOf(packs);
    forall k | 0 <= k < |types|
      ensures Bucket(table, d, role, types[k]) == BucketOf(packs, d, role, types[k])
    {
      LookupBuckets(packs, d, role, types[k]);
    }
  }

  /** `Lookup`: question IDs by difficulty, role and type. */
  class Lookup {
    var table: LookupTable

    constructor ()
      ensures table == map[]
    {
      table := map[];
    }

    /** `Lookup.Generate`: the table is cleared, then each question's ID is
        appended to the bucket of its difficulty, its pack's role and its
        type, pack by pack. */
    method Generate(packs: seq<Pack>)
      modifies this
      ensures table == LookupOf(packs)
    {
      table := map[];
      for i := 0 to |packs|
        invariant table == LookupOf(packs[..i])
      {
        assert packs[..i + 1][..i] == packs[..i];
        var role := packs[i].info.role;
        var qs := packs[i].questions;
        ghost var start := table;
        for j := 0 to |qs|
          invariant table == AddQuestions(start, role, qs[..j])
        {
          assert qs[..j + 1][..j] == qs[..j];
          table := AddID(table, qs[j].difficulty, role, qs[j].qtype, qs[j].id);
        }
        assert qs[..|qs|] == qs;
      }
      assert packs[..|packs|] == packs;
    }

    /** `GetQuestionIDs`: nothing when the difficulty or role is absent;
        otherwise each requested type's bucket appended in turn. */
    method GetQuestionIDs(d: Difficulty, role: string, types: seq<PackType>) returns (ids: seq<string>)
      ensures ids == QuestionIDsFor(table, d, role, types)
    {
      ids := [];
      if d !in table {
        return;
      }
      var roleIndex := table[d];
      if role !in roleIndex {
        return;
      }
      var typeIndex := roleIndex[role];
      for i := 0 to |types|
        invariant ids == TypeBuckets(typeIndex, types[..i])
      {
        assert types[..i + 1][..i] == types[..i];
        if types[i] in typeIndex {
          ids := ids + typeIndex[types[i]];
        }
      }
      assert types[..|types|] == types;
    }

    /** `GetAvailableRoles`: every role, once, that has a non-empty bucket
        for some requested type at the difficulty; roles are visited in
        map order. */
    method GetAvailableRoles(d: Difficulty, types: seq<PackType>) returns (roles: seq<string>)
      ensures Distinct(roles)
      ensures forall r :: r in roles <==> d in table && r in table[d] && HasQuestions(table[d][r], types)
    {
      roles := [];
      if d !in table {
        return;
      }
      var roleIndex := table[d];
      var rest := roleIndex.Keys;
      while rest != {}
        invariant rest <= roleIndex.Keys
        invariant Distinct(roles)
        invariant forall r :: r in roles <==> r in roleIndex && r !in rest && HasQuestions(roleIndex[r], types)
        decreases |rest|
      {
        var role :| role in rest;
        var hasQuestions := TypesHaveQuestions(roleIndex[role], types);
        if hasQuestions {
          roles := roles + [role];
        }
        rest := rest - {role};
      }
    }
  }

  /** The inner loop of `GetAvailableRoles`: the first requested type with
      a non-empty bucket ends the scan. */
  method TypesHaveQuestions(typeIndex: map<PackType, seq<string>>, types: seq<PackType>) returns (hasQuestions: bool)
    ensures hasQuestions <==> HasQuestions(typeIndex, types)
  {
    hasQuestions := false;
    for k := 0 to |types|
      invariant !exists m :: 0 <= m < k && types[m] in typeIndex && |typeIndex[types[m]]| > 0
    {
      if types[k] in typeIndex && |typeIndex[types[k]]| > 0 {
        return true;
      }
    }
  }

  /** The innermost step of `Lookup.Generate`: the maps on the way are
      created when missing, then the ID is appended to the bucket. */
  method AddID(table: LookupTable, d: Difficulty, role: string, t: PackType, id: string) returns (table': LookupTable)
    ensures table' == Insert(table, d, role, t, id)
  {
    ghost var roles := if d in table then table[d] else map[];
    ghost var types := if role in roles then roles[role] else map[];
    table' := table;
    if d !in table' {
      table' := table'[d := map[]];
    }
    assert table'[d] == roles;
    if role !in table'[d] {
      table' := table'[d := table'[d][role := map[]]];
    }
    assert table'[d][role] == types;
    var bucket := if t in table'[d][role] then table'[d][role][t] else [];
    assert bucket == Bucket(table, d, role, t);
    var roleIndex := table'[d][role := table'[d][role][t := bucket + [id]]];
    assert roleIndex == roles[role := types[t := bucket + [id]]];
    table' := table'[d := roleIndex];
  }
}
