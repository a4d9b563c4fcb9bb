/** The application context's pack switches (internal/ui/context/context.go):
    one flag per known pack ID, saying whether the pack is active. */
module Contexts {
  import opened Collections
  import opened PackDomain

  /** The IDs carried by the entries of the metadata's pack index. */
  ghost function IndexIDs(index: map<string, Info>): set<string> {
    set k | k in index :: index[k].id
  }

  /** The switches after `TogglePack(id)`: a known ID's flag is negated and
      every other flag stays; an unknown ID is not added. */
  function FlipKnown(packs: map<string, bool>, id: string): (r: map<string, bool>)
    ensures r.Keys == packs.Keys
    ensures id in packs ==> r[id] == !packs[id]
    ensures forall other :: other in packs && other != id ==> r[other] == packs[other]
    ensures id !in packs ==> r == packs
  {
    if id in packs then packs[id := !packs[id]] else packs
  }

  /** Toggling the same ID twice restores every switch. */
  lemma FlipKnownTwice(packs: map<string, bool>, id: string)
    ensures FlipKnown(FlipKnown(packs, id), id) == packs
  {
  }

  /** Toggling two different IDs gives the same switches in either order. */
  lemma FlipKnownCommutes(packs: map<string, bool>, a: string, b: string)
    ensures FlipKnown(FlipKnown(packs, a), b) == FlipKnown(FlipKnown(packs, b), a)
  {
  }

  class Context {
    /** `Packs`: pack ID to whether it is active. */
    var packs: map<string, bool>

    /** The switch set-up of `NewContext`: every pack of the metadata index
        starts inactive, then each ID of the saved settings that names a
        known pack is switched on; unknown saved IDs are ignored. */
    constructor (index: map<string, Info>, activePacks: seq<string>)
      ensures packs.Keys == IndexIDs(index)
      ensures forall id :: id in packs ==> (packs[id] <==> id in activePacks)
    {
      var m: map<string, bool> := map[];
      var rest := index.Keys;
      while rest != {}
        invariant rest <= index.Keys
        invariant m.Keys == set k | k in index.Keys - rest :: index[k].id
        invariant forall id :: id in m ==> !m[id]
        decreases |rest|
      {
        var k :| k in rest;
        m := m[index[k].id := false];
        rest := rest - {k};
      }
      for i := 0 to |activePacks|
        invariant m.Keys == IndexIDs(index)
        invariant forall id :: id in m ==> (m[id] <==> id in activePacks[..i])
      {
        var id := activePacks[i];
        if id in m {
          m := m[id := true];
        }
        assert activePacks[..i + 1] == activePacks[..i] + [id];
      }
      assert activePacks[..|activePacks|] == activePacks;
      packs := m;
    }

    /** `IsPackActive`: the stored flag, and false for an ID that is not a
        known pack (Go's zero value for a missing key). */
    function IsPackActive(id: string): (b: bool)
      reads this
      ensures b ==> id in packs
      ensures id in packs ==> (b <==> packs[id])
    {
      id in packs && packs[id]
    }

    /** `GetActivePacks`: every active ID once, in map order (which the
        source leaves unspecified). */
    method GetActivePacks() returns (active: seq<string>)
      ensures Distinct(active)
      ensures forall id :: id in active <==> IsPackActive(id)
    {
      active := [];
      var rest := packs.Keys;
      while rest != {}
        invariant rest <= packs.Keys
        invariant Distinct(active)
        invariant forall id :: id in active <==> id in packs.Keys - rest && packs[id]
        decreases |rest|
      {
        var id :| id in rest;
        rest := rest - {id};
        if packs[id] {
          active := active + [id];
        }
      }
    }

    /** `TogglePack`: flips a known pack's flag; an unknown ID changes
        nothing. */
    method TogglePack(id: string)
      modifies this
      ensures packs == FlipKnown(old(packs), id)
      ensures IsPackActive(id) <==> id in old(packs) && !old(packs)[id]
    {
      if id in packs {
        packs := packs[id := !packs[id]];
      }
    }
  }
}
