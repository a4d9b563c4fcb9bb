/** The pack catalogue (internal/pack/metadata.go): `Build` folds a list of
    loaded packs into totals, a per-role catalogue of pack IDs, an index of
    pack summaries by ID, and the distinct categories and roles. Writing
    the result to disk is left out. */
module PackMetadata {
  import opened PackDomain
  import opened Collections

  // ---- What `Build` computes, as folds over the packs in order ----

  /** The sum of the packs' question counts. */
  function TotalCount(packs: seq<Pack>): int {
    if packs == [] then 0 else TotalCount(packs[..|packs| - 1]) + packs[|packs| - 1].info.count
  }

  /** The total does not depend on how the list is split. */
  lemma {:induction false} TotalCountAppend(a: seq<Pack>, b: seq<Pack>)
    ensures TotalCount(a + b) == TotalCount(a) + TotalCount(b)
    decreases |b|
  {
    if b == [] {
      assert a + b == a;
    } else {
      assert (a + b)[..|a + b| - 1] == a + b[..|b| - 1];
      TotalCountAppend(a, b[..|b| - 1]);
    }
  }

  /** `Packs`: each pack's summary stored under its ID, later packs
      overwriting earlier ones. */
  function PacksIndexOf(packs: seq<Pack>): map<string, Info> {
    if packs == [] then map[]
    else
      var info := packs[|packs| - 1].info;
      PacksIndexOf(packs[..|packs| - 1])[info.id := info]
  }

  /** The index has exactly the packs' IDs as keys. */
  lemma {:induction false} PacksIndexKeys(packs: seq<Pack>)
    ensures forall id :: id in PacksIndexOf(packs) <==> exists j :: 0 <= j < |packs| && packs[j].info.id == id
  {
    if packs != [] {
      var init := packs[..|packs| - 1];
      PacksIndexKeys(init);
      forall id | id in PacksIndexOf(packs)
        ensures exists j :: 0 <= j < |packs| && packs[j].info.id == id
      {
        if id != packs[|packs| - 1].info.id {
          assert id in PacksIndexOf(init);
          var j :| 0 <= j < |init| && init[j].info.id == id;
          assert packs[j] == init[j];
        }
      }
      forall j | 0 <= j < |packs| - 1
        ensures packs[j] == init[j]
      {
      }
    }
  }

  /** Each entry is the summary of the last pack with that ID. */
  lemma {:induction false} PacksIndexLast(packs: seq<Pack>, j: int)
    requires 0 <= j < |packs|
    requires forall k :: j < k < |packs| ==> packs[k].info.id != packs[j].info.id
    ensures packs[j].info.id in PacksIndexOf(packs) && PacksIndexOf(packs)[packs[j].info.id] == packs[j].info
  {
    if j < |packs| - 1 {
      var init := packs[..|packs| - 1];
      assert init[j] == packs[j];
      PacksIndexLast(init, j);
    }
  }

  /** Each entry is stored under its own ID. */
  lemma {:induction false} PacksIndexSelfKeyed(packs: seq<Pack>)
    ensures forall id :: id in PacksIndexOf(packs) ==> PacksIndexOf(packs)[id].id == id
  {
    if packs != [] {
      PacksIndexSelfKeyed(packs[..|packs| - 1]);
    }
  }

  /** `Catalog`: each pack's ID appended under its role. */
  function CatalogOf(packs: seq<Pack>): map<string, seq<string>> {
    if packs == [] then map[]
    else
      var catalog := CatalogOf(packs[..|packs| - 1]);
      var info := packs[|packs| - 1].info;
      catalog[info.role := (if info.role in catalog then catalog[info.role] else []) + [info.id]]
  }

  /** The IDs of the packs with the given role, in input order. */
  function RoleIDs(packs: seq<Pack>, role: string): (ids: seq<string>)
    ensures |ids| <= |packs|
  {
    if packs == [] then []
    else
      var info := packs[|packs| - 1].info;
      RoleIDs(packs[..|packs| - 1], role) + (if info.role == role then [info.id] else [])
  }

  /** A role has a catalogue entry exactly when some pack has that role,
      and the entry lists that role's pack IDs in input order. */
  lemma {:induction false} CatalogInOrder(packs: seq<Pack>, role: string)
    ensures role in CatalogOf(packs) <==> RoleIDs(packs, role) != []
    ensures role in CatalogOf(packs) ==> CatalogOf(packs)[role] == RoleIDs(packs, role)
  {
    if packs != [] {
      CatalogInOrder(packs[..|packs| - 1], role);
    }
  }

  /** The roles of the catalogue are the packs' roles. */
  lemma {:induction false} RoleIDsMembers(packs: seq<Pack>, role: string)
    ensures forall id :: id in RoleIDs(packs, role) <==>
      exists j :: 0 <= j < |packs| && packs[j].info.role == role && packs[j].info.id == id
  {
    if packs != [] {
      var init := packs[..|packs| - 1];
      RoleIDsMembers(init, role);
      forall id | id in RoleIDs(packs, role)
        ensures exists j :: 0 <= j < |packs| && packs[j].info.role == role && packs[j].info.id == id
      {
        if id in RoleIDs(init, role) {
          var j :| 0 <= j < |init| && init[j].info.role == role && init[j].info.id == id;
          assert packs[j] == init[j];
        }
      }
      forall j | 0 <= j < |init|
        ensures init[j] == packs[j]
      {
      }
    }
  }

  /** The strings of a list, as a set. */
  function Elements(s: seq<string>): (r: set<string>)
    ensures forall x :: x in r <==> x in s
  {
    set k | 0 <= k < |s| :: s[k]
  }

  /** The categories named by any pack. */
  function CategorySet(packs: seq<Pack>): set<string> {
    if packs == [] then {}
    else CategorySet(packs[..|packs| - 1]) + Elements(packs[|packs| - 1].info.categories)
  }

  lemma {:induction false} CategorySetMembers(packs: seq<Pack>)
    ensures forall c :: c in CategorySet(packs) <==> exists j :: 0 <= j < |packs| && c in packs[j].info.categories
  {
    if packs != [] {
      var init := packs[..|packs| - 1];
      CategorySetMembers(init);
      forall j | 0 <= j < |init|
        ensures init[j] == packs[j]
      {
      }
    }
  }

  /** The roles of all packs. */
  function RoleSet(packs: seq<Pack>): set<string> {
    if packs == [] then {} else RoleSet(packs[..|packs| - 1]) + {packs[|packs| - 1].info.role}
  }

  lemma {:induction false} RoleSetMembers(packs: seq<Pack>)
    ensures forall r :: r in RoleSet(packs) <==> exists j :: 0 <= j < |packs| && packs[j].info.role == r
  {
    if packs != [] {
      var init := packs[..|packs| - 1];
      RoleSetMembers(init);
      forall j | 0 <= j < |init|
        ensures init[j] == packs[j]
      {
      }
    }
  }

  /** The pack summaries `GetPacksByRole` returns: those of the listed IDs
      that the index knows, in catalogue order. */
  function KnownInfos(ids: seq<string>, index: map<string, Info>): (infos: seq<Info>)
    ensures |infos| <= |ids|
    ensures forall info :: info in infos ==> exists id :: id in ids && id in index && index[id] == info
  {
    if ids == [] then []
    else
      var id := ids[|ids| - 1];
      KnownInfos(ids[..|ids| - 1], index) + (if id in index then [index[id]] else [])
  }

  lemma {:induction false} KnownInfosAppend(a: seq<string>, b: seq<string>, index: map<string, Info>)
    ensures KnownInfos(a + b, index) == KnownInfos(a, index) + KnownInfos(b, index)
    decreases |b|
  {
    if b == [] {
      assert a + b == a;
    } else {
      assert (a + b)[..|a + b| - 1] == a + b[..|b| - 1];
      KnownInfosAppend(a, b[..|b| - 1], index);
    }
  }

  /** Only the listed IDs are looked up. */
  lemma {:induction false} KnownInfosUpdate(ids: seq<string>, index: map<string, Info>, id: string, info: Info)
    requires id !in ids
    ensures KnownInfos(ids, index[id := info]) == KnownInfos(ids, index)
    decreases |ids|
  {
    if ids != [] {
      KnownInfosUpdate(ids[..|ids| - 1], index, id, info);
    }
  }

  /** The summaries of the packs with the given role, in input order. */
  function RoleInfos(packs: seq<Pack>, role: string): seq<Info> {
    if packs == [] then []
    else
      var info := packs[|packs| - 1].info;
      RoleInfos(packs[..|packs| - 1], role) + (if info.role == role then [info] else [])
  }

  /** Every pack has its own ID. */
  predicate DistinctIDs(packs: seq<Pack>) {
    forall i, j :: 0 <= i < j < |packs| ==> packs[i].info.id != packs[j].info.id
  }

  /** On a built catalogue whose packs have distinct IDs, `GetPacksByRole`
      returns the summaries of exactly the packs with that role, in input
      order; an unknown role gives none. */
  lemma {:induction false} PacksByRoleOfBuild(packs: seq<Pack>, role: string)
    requires DistinctIDs(packs)
    ensures PacksByRole(CatalogOf(packs), PacksIndexOf(packs), role) == RoleInfos(packs, role)
  {
    CatalogInOrder(packs, role);
    RoleInfosByIDs(packs, role);
    if role !in CatalogOf(packs) {
      RoleInfosEmpty(packs, role);
    }
  }

  lemma {:induction false} RoleInfosByIDs(packs: seq<Pack>, role: string)
    requires DistinctIDs(packs)
    ensures KnownInfos(RoleIDs(packs, role), PacksIndexOf(packs)) == RoleInfos(packs, role)
  {
    if packs != [] {
      var init := packs[..|packs| - 1];
      var info := packs[|packs| - 1].info;
      assert DistinctIDs(init);
      RoleInfosByIDs(init, role);
      RoleIDsMembers(init, role);
      assert info.id !in RoleIDs(init, role);
      KnownInfosUpdate(RoleIDs(init, role), PacksIndexOf(init), info.id, info);
      var tail := if info.role == role then [info.id] else [];
      KnownInfosAppend(RoleIDs(init, role), tail, PacksIndexOf(packs));
      if info.role == role {
        assert KnownInfos(tail, PacksIndexOf(packs)) == KnownInfos([], PacksIndexOf(packs)) + [info];
      }
    }
  }

  lemma {:induction false} RoleInfosEmpty(packs: seq<Pack>, role: string)
    requires RoleIDs(packs, role) == []
    ensures RoleInfos(packs, role) == []
  {
    if packs != [] {
      RoleInfosEmpty(packs[..|packs| - 1], role);
    }
  }

  /** `GetPacksByRole` as a function of the catalogue and the index. */
  function PacksByRole(catalog: map<string, seq<string>>, index: map<string, Info>, role: string): seq<Info> {
    if role in catalog then KnownInfos(catalog[role], index) else []
  }

  /** The aggregated catalogue of a pack list. */
  class Metadata {
    var questions: int
    var categories: seq<string>
    var roles: seq<string>
    var catalog: map<string, seq<string>>
    var packs: map<string, Info>

    /** `Build`: one pass over the packs fills the index, the total, the
        catalogue and the role and category sets; the sets are then read
        out into slices. */
    constructor Build(input: seq<Pack>)
      ensures questions == TotalCount(input)
      ensures packs == PacksIndexOf(input)
      ensures catalog == CatalogOf(input)
      ensures Distinct(categories) && forall c :: c in categories <==> c in CategorySet(input)
      ensures Distinct(roles) && forall r :: r in roles <==> r in RoleSet(input)
    {
      var total := 0;
      var index: map<string, Info> := map[];
      var cat: map<string, seq<string>> := map[];
      var categorySet: set<string> := {};
      var roleSet: set<string> := {};
      for i := 0 to |input|
        invariant total == TotalCount(input[..i])
        invariant index == PacksIndexOf(input[..i])
        invariant cat == CatalogOf(input[..i])
        invariant categorySet == CategorySet(input[..i])
        invariant roleSet == RoleSet(input[..i])
      {
        assert input[..i + 1][..i] == input[..i];
        var info := input[i].info;
        index := index[info.id := info];
        total := total + info.count;
        roleSet := roleSet + {info.role};
        cat := cat[info.role := (if info.role in cat then cat[info.role] else []) + [info.id]];
        categorySet := AddCategories(categorySet, info.categories);
      }
      assert input[..|input|] == input;
      var categoryList := SetToSeq(categorySet);
      var roleList := SetToSeq(roleSet);
      questions := total;
      categories := categoryList;
      roles := roleList;
      catalog := cat;
      packs := index;
    }

    /** `GetPacksByRole`: an unknown role gives no summaries; otherwise the
        catalogue's IDs that the index knows are looked up in order. */
    method GetPacksByRole(role: string) returns (infos: seq<Info>)
      ensures infos == PacksByRole(catalog, packs, role)
    {
      if role !in catalog {
        return [];
      }
      var packIDs := catalog[role];
      infos := [];
      for i := 0 to |packIDs|
        invariant infos == KnownInfos(packIDs[..i], packs)
      {
        assert packIDs[..i + 1][..i] == packIDs[..i];
        if packIDs[i] in packs {
          infos := infos + [packs[packIDs[i]]];
        }
      }
      assert packIDs[..|packIDs|] == packIDs;
    }

    /** `GetCategoriesByRole`: every category of the role's packs, once. */
    method GetCategoriesByRole(role: string) returns (result: seq<string>)
      ensures Distinct(result)
      ensures forall c :: c in result <==>
        exists info :: info in PacksByRole(catalog, packs, role) && c in info.categories
    {
      var infos := GetPacksByRole(role);
      var categorySet: set<string> := {};
      for i := 0 to |infos|
        invariant forall c :: c in categorySet <==> exists k :: 0 <= k < i && c in infos[k].categories
      {
        categorySet := AddCategories(categorySet, infos[i].categories);
      }
      result := SetToSeq(categorySet);
      forall c | c in result
        ensures exists info :: info in infos && c in info.categories
      {
        var k :| 0 <= k < |infos| && c in infos[k].categories;
        assert infos[k] in infos;
      }
    }

    /** `PackIDs`: the ID field of every summary in the index, once per
        entry. */
    method PackIDs() returns (ids: seq<string>)
      ensures |ids| == |packs|
      ensures forall x :: x in ids <==> exists k :: k in packs && packs[k].id == x
    {
      ids := [];
      var rest := packs.Keys;
      ghost var done: set<string> := {};
      while rest != {}
        invariant rest !! done && rest + done == packs.Keys
        invariant |ids| == |done|
        invariant forall x :: x in ids <==> exists k :: k in done && packs[k].id == x
        decreases |rest|
      {
        var k :| k in rest;
        ids := ids + [packs[k].id];
        rest := rest - {k};
        done := done + {k};
      }
    }
  }

  /** The inner category loop of `Build`: each category added to the set. */
  method AddCategories(categorySet: set<string>, cats: seq<string>) returns (result: set<string>)
    ensures result == categorySet + Elements(cats)
  {
    result := categorySet;
    for j := 0 to |cats|
      invariant result == categorySet + set k | 0 <= k < j :: cats[k]
    {
      result := result + {cats[j]};
    }
  }
}
