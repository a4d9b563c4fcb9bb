/** The selection policies of a widget (internal/ui/widgets/selection.go).
    Only `Multi` changes state; its `Selected` map lives in a class so that
    the controller toggles it in place. A Go map may be nil: `None` here,
    read as an empty map and replaced by one on the first write. */
module Selections {
  import opened Wrappers
  import opened WidgetGraph

  /** Reading a Go `map[K]bool`: a missing key, or a nil map, reads false. */
  function Get<K>(m: Option<map<K, bool>>, k: K): (b: bool)
    ensures b <==> m.Some? && k in m.value && m.value[k]
  {
    match m
    case None => false
    case Some(mm) => k in mm && mm[k]
  }

  /** The map after `Selected[c] = !Selected[c]`, a nil map being made
      first. */
  function Flipped(m: Option<map<Cursor, bool>>, c: Cursor): (r: map<Cursor, bool>)
    ensures c in r && r[c] == !Get(m, c)
    ensures forall x :: x != c ==> Get(Some(r), x) == Get(m, x)
    ensures m.Some? ==> r.Keys == m.value.Keys + {c}
    ensures m.None? ==> r.Keys == {c}
  {
    var base := if m.None? then map[] else m.value;
    base[c := !Get(m, c)]
  }

  /** Toggling the same cursor twice restores what every cursor reads. */
  lemma FlippedTwice(m: Option<map<Cursor, bool>>, c: Cursor)
    ensures forall x :: Get(Some(Flipped(Some(Flipped(m, c)), c)), x) == Get(m, x)
  {
    var once := Some(Flipped(m, c));
    var twice := Some(Flipped(once, c));
    forall x
      ensures Get(twice, x) == Get(m, x)
    {
      if x == c {
        assert Get(twice, c) == !Get(once, c);
      } else {
        assert Get(twice, x) == Get(once, x);
      }
    }
  }

  /** `Multi`: a checkbox set. */
  class MultiSelection {
    var selected: Option<map<Cursor, bool>>

    /** `&Multi{Selected: s}`. */
    constructor (selected: Option<map<Cursor, bool>>)
      ensures this.selected == selected
    {
      this.selected := selected;
    }

    /** `Multi.Toggle`: a nil map is created, then exactly the entry for
        `c` is flipped. */
    method Toggle(c: Cursor)
      modifies this
      ensures selected == Some(Flipped(old(selected), c))
      ensures IsSelected(c) == !old(IsSelected(c))
      ensures forall x :: x != c ==> IsSelected(x) == old(IsSelected(x))
    {
      var m: map<Cursor, bool>;
      if selected.None? {
        m := map[];
      } else {
        m := selected.value;
      }
      m := m[c := !Get(selected, c)];
      selected := Some(m);
    }

    /** `Multi.Select` is `Toggle`. */
    method Select(c: Cursor)
      modifies this
      ensures selected == Some(Flipped(old(selected), c))
    {
      Toggle(c);
    }

    /** `Multi.IsSelected`: the entry, false when missing. */
    function IsSelected(c: Cursor): (b: bool)
      reads this
      ensures b <==> selected.Some? && c in selected.value && selected.value[c]
    {
      Get(selected, c)
    }
  }

  /** The four implementations of the `Selection` interface. `ColumnBased`
      is never written by its own methods, so it is a value. */
  datatype Selection =
    | Single
    | Multi(multi: MultiSelection)
    | ColumnBased(left: Option<map<int, bool>>, right: Option<map<int, bool>>, activeCol: int)
    | NoSelection

  /** The objects a selection's methods may write. */
  function Objects(s: Selection): set<object> {
    if s.Multi? then {s.multi} else {}
  }

  /** `IsSelectable`: true for `Single` and `Multi`, false for
      `ColumnBased` and `NoSelection`, wherever the cursor is. */
  function IsSelectable(s: Selection, c: Cursor): (b: bool)
    ensures b <==> s.Single? || s.Multi?
  {
    match s
    case Single => true
    case Multi(_) => true
    case ColumnBased(_, _, _) => false
    case NoSelection => false
  }

  /** `IsSelected`: `Single` and `NoSelection` never select; `Multi` reads
      its map; `ColumnBased` reads `Left` in column 0, `Right` in column 1
      and nothing in any other column. */
  function IsSelected(s: Selection, c: Cursor): (b: bool)
    reads Objects(s)
    ensures s.Single? || s.NoSelection? ==> !b
    ensures s.Multi? ==> b == s.multi.IsSelected(c)
    ensures s.ColumnBased? ==> (b <==> (c.col == 0 && Get(s.left, c.row)) || (c.col == 1 && Get(s.right, c.row)))
  {
    match s
    case Single => false
    case Multi(m) => m.IsSelected(c)
    case ColumnBased(left, right, _) =>
      if c.col == 0 then Get(left, c.row)
      else if c.col == 1 then Get(right, c.row)
      else false
    case NoSelection => false
  }
}
