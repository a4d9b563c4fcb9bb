/** Widgets and their factories (internal/ui/widgets/widget.go). A widget
    is its embedded controller; the renderer it also carries only draws
    and is not part of this model. */
module Widgets {
  import opened Wrappers
  import opened Collections
  import opened WidgetGraph
  import opened Selections
  import opened Controllers
  import opened Wiring

  type Widget = Controller

  /** `NewList`: one column of items, single selection, cursor on the first
      cell. */
  method NewList(items: seq<Item>) returns (w: Widget)
    ensures fresh(w) && w.graph != null && fresh(w.graph)
    ensures IsLine(w.graph.nodes, items, Vertical, 0)
    ensures w.cursor == Cursor(0, 0) && w.selection == Single
  {
    var g := BuildLine(items, Vertical);
    w := new Controller(Cursor(0, 0), Single, g);
  }

  /** `NewCheckboxList`: one column of items with an empty, non-nil
      checkbox map. */
  method NewCheckboxList(items: seq<Item>) returns (w: Widget)
    ensures fresh(w) && w.graph != null && fresh(w.graph)
    ensures IsLine(w.graph.nodes, items, Vertical, 0)
    ensures w.cursor == Cursor(0, 0)
    ensures w.selection.Multi? && fresh(w.selection.multi) && w.selection.multi.selected == Some(map[])
  {
    var g := BuildLine(items, Vertical);
    var m := new MultiSelection(Some(map[]));
    w := new Controller(Cursor(0, 0), Multi(m), g);
  }

  /** `NewBar`: one row of items, single selection. */
  method NewBar(items: seq<Item>) returns (w: Widget)
    ensures fresh(w) && w.graph != null && fresh(w.graph)
    ensures IsLine(w.graph.nodes, items, Horizontal, 0)
    ensures w.cursor == Cursor(0, 0) && w.selection == Single
  {
    var g := BuildLine(items, Horizontal);
    w := new Controller(Cursor(0, 0), Single, g);
  }

  /** `NewGrid`: items[r][c] at (r, c), linked right and down; `cols` only
      reaches the renderer. */
  method NewGrid(items: seq<seq<Item>>, cols: int) returns (w: Widget)
    ensures fresh(w) && w.graph != null && fresh(w.graph)
    ensures IsGrid(w.graph.nodes, items)
    ensures w.cursor == Cursor(0, 0) && w.selection == Single
  {
    var g := BuildGrid(items);
    w := new Controller(Cursor(0, 0), Single, g);
  }

  /** `NewChoiceWidget`: the single-choice question, a column. */
  method NewChoiceWidget(items: seq<Item>) returns (w: Widget)
    ensures fresh(w) && w.graph != null && fresh(w.graph)
    ensures IsLine(w.graph.nodes, items, Vertical, 0)
    ensures w.cursor == Cursor(0, 0) && w.selection == Single
  {
    var g := BuildLine(items, Vertical);
    w := new Controller(Cursor(0, 0), Single, g);
  }

  /** `NewMultipleChoiceWidget`: the multi-select question, a column with
      an empty checkbox map. */
  method NewMultipleChoiceWidget(items: seq<Item>) returns (w: Widget)
    ensures fresh(w) && w.graph != null && fresh(w.graph)
    ensures IsLine(w.graph.nodes, items, Vertical, 0)
    ensures w.cursor == Cursor(0, 0)
    ensures w.selection.Multi? && fresh(w.selection.multi) && w.selection.multi.selected == Some(map[])
  {
    var g := BuildLine(items, Vertical);
    var m := new MultiSelection(Some(map[]));
    w := new Controller(Cursor(0, 0), Multi(m), g);
  }

  /** The two answers of a true/false question. */
  const BoolItems := [Item("True", NoAction), Item("False", NoAction)]

  /** `NewBoolWidget`: "True" at (0, 0) above "False" at (1, 0), linked
      both ways; the graph is the same as a two-item list's. */
  method NewBoolWidget() returns (w: Widget)
    ensures fresh(w) && w.graph != null && fresh(w.graph)
    ensures IsLine(w.graph.nodes, BoolItems, Vertical, 0)
    ensures w.cursor == Cursor(0, 0) && w.selection == Single
  {
    var g := new Graph();
    g.AddNode(Cursor(0, 0), Meta(Item("True", NoAction)));
    g.AddNode(Cursor(1, 0), Meta(Item("False", NoAction)));
    g.BiEdge(Cursor(0, 0), Down, Cursor(1, 0));
    forall c
      ensures c in g.nodes <==> OnLine(c, Vertical, 0, |BoolItems|)
    {
      assert c == Cursor(c.row, c.col);
    }
    assert At(Vertical, 0, 0) == Cursor(0, 0) && At(Vertical, 0, 1) == Cursor(1, 0);
    assert LineEdges(map[], Vertical, 0, 0, 1) == map[Down := Cursor(1, 0)];
    assert LineEdges(map[], Vertical, 0, 1, 1) == map[Top := Cursor(0, 0)];
    w := new Controller(Cursor(0, 0), Single, g);
  }

  /** `GetItem`: the item under the cursor, or `Item{}` and false when no
      node is there. The graph must be set (the source dereferences it). */
  function GetItem(w: Widget): (r: (Item, bool))
    requires w.graph != null
    reads w, w.graph
    ensures r.1 <==> w.cursor in w.graph.nodes
    ensures r.1 ==> r.0 == w.graph.nodes[w.cursor].meta.item
    ensures !r.1 ==> r.0 == EmptyItem
  {
    if w.cursor in w.graph.nodes then (w.graph.nodes[w.cursor].meta.item, true)
    else (EmptyItem, false)
  }

  /** The cursors whose checkbox reads true. */
  predicate Checked(w: Widget, c: Cursor)
    reads w, Objects(w.selection)
  {
    w.selection.Multi? && Get(w.selection.multi.selected, c)
  }

  /** `GetSelectedItems`: for a `Multi` selection, the item of every
      checked cursor that has a node, each once, in map order (which the
      source leaves unspecified; `cursors` records the order taken);
      nothing for any other selection. A checked cursor with no graph
      would dereference nil in the source. */
  method GetSelectedItems(w: Widget) returns (items: seq<Item>, ghost cursors: seq<Cursor>)
    requires w.graph == null ==> forall c :: !Checked(w, c)
    ensures !w.selection.Multi? ==> items == []
    ensures |items| == |cursors| && Distinct(cursors)
    ensures forall c :: c in cursors <==> Checked(w, c) && w.graph != null && c in w.graph.nodes
    ensures w.graph != null ==> forall i :: 0 <= i < |items| ==>
      cursors[i] in w.graph.nodes && items[i] == w.graph.nodes[cursors[i]].meta.item
  {
    items, cursors := [], [];
    if !w.selection.Multi? || w.selection.multi.selected.None? {
      return;
    }
    var selected := w.selection.multi.selected.value;
    var rest := selected.Keys;
    while rest != {}
      invariant rest <= selected.Keys
      invariant |items| == |cursors| && Distinct(cursors)
      invariant forall c :: c in cursors <==> c in selected.Keys - rest && Checked(w, c) && w.graph != null && c in w.graph.nodes
      invariant w.graph != null ==> forall i :: 0 <= i < |items| ==>
        cursors[i] in w.graph.nodes && items[i] == w.graph.nodes[cursors[i]].meta.item
      decreases |rest|
    {
      var c :| c in rest;
      rest := rest - {c};
      if !selected[c] {
        continue;
      }
      assert Checked(w, c);
      if c in w.graph.nodes {
        items := items + [w.graph.nodes[c].meta.item];
        cursors := cursors + [c];
      }
    }
  }
}
