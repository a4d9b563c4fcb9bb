/** The two-column "available / chosen" widget
    (internal/ui/widgets/dual_column.go): two columns of items, each linked
    up and down, with rows that exist in both columns linked across. An
    item moves to the end of the other column and leaves a blank in its
    old place; the graph is then rebuilt from the two lists. */
module DualColumn {
  import opened Wrappers
  import opened WidgetGraph
  import opened Selections
  import opened Controllers
  import opened Widgets
  import opened Wiring

  /** The graph of a dual column: cell (j, 0) holds `left[j]`, cell (j, 1)
      holds `right[j]`, each column is a vertical line, and row j is linked
      across when both columns have it. */
  ghost predicate IsDualColumn(nodes: Nodes, left: seq<Item>, right: seq<Item>) {
    AcrossState(nodes, left, right, |left|)
  }

  /** The graph once the rows before `i` are linked across. */
  ghost predicate AcrossState(nodes: Nodes, left: seq<Item>, right: seq<Item>, i: int) {
    (forall c :: c in nodes <==> OnLine(c, Vertical, 0, |left|) || OnLine(c, Vertical, 1, |right|))
    && ColumnAcross(nodes, left, 0, |right|, i)
    && ColumnAcross(nodes, right, 1, |left|, i)
  }

  /** Column `col` holds `items` as a vertical line, and its row j has the
      edge across to the other column, which has `other` rows, when j is
      before `i` and the other column has row j. */
  ghost predicate ColumnAcross(nodes: Nodes, items: seq<Item>, col: int, other: int, i: int) {
    forall j :: 0 <= j < |items| ==>
      Cursor(j, col) in nodes &&
      nodes[Cursor(j, col)] == Node(Cursor(j, col),
        AddEdgeIf(LineEdges(map[], Vertical, col, j, |items| - 1), j < i && j < other, AcrossDir(col), Cursor(j, 1 - col)),
        Meta(items[j]))
  }

  /** Column 0 links Right, column 1 links Left. */
  function AcrossDir(col: int): Direction {
    if col == 0 then Right else Left
  }

  /** `newDualColumnBase`: both columns of nodes, then the links down each
      column, then the links across; the cursor starts at (0, 0) and the
      selection is column based with empty maps. */
  method NewDualColumnBase(left: seq<Item>, right: seq<Item>) returns (w: Widget)
    ensures fresh(w) && w.graph != null && fresh(w.graph)
    ensures IsDualColumn(w.graph.nodes, left, right)
    ensures w.cursor == Cursor(0, 0) && w.selection == ColumnBased(Some(map[]), Some(map[]), 0)
  {
    var g := BuildColumns(left, right);
    LinkAcross(g, left, right);
    w := new Controller(Cursor(0, 0), ColumnBased(Some(map[]), Some(map[]), 0), g);
  }

  /** The node loops and the two vertical linking loops. */
  method BuildColumns(left: seq<Item>, right: seq<Item>) returns (g: Graph)
    ensures fresh(g)
    ensures AcrossState(g.nodes, left, right, 0)
  {
    g := new Graph();
    AddLine(g, left, Vertical, 0);
    AddLine(g, right, Vertical, 1);
    LinkLine(g, |left|, Vertical, 0);
    LinkLine(g, |right|, Vertical, 1);
    forall j | 0 <= j < |left|
      ensures Cursor(j, 0) in g.nodes
      ensures g.nodes[Cursor(j, 0)] == Node(Cursor(j, 0), LineEdges(map[], Vertical, 0, j, |left| - 1), Meta(left[j]))
    {
      assert Cursor(j, 0) == At(Vertical, 0, j);
    }
    forall j | 0 <= j < |right|
      ensures Cursor(j, 1) in g.nodes
      ensures g.nodes[Cursor(j, 1)] == Node(Cursor(j, 1), LineEdges(map[], Vertical, 1, j, |right| - 1), Meta(right[j]))
    {
      assert Cursor(j, 1) == At(Vertical, 1, j);
    }
  }

  /** The horizontal loop: row i is linked across when both columns have
      it, for every row up to the longer column's length. */
  method LinkAcross(g: Graph, left: seq<Item>, right: seq<Item>)
    requires AcrossState(g.nodes, left, right, 0)
    modifies g
    ensures IsDualColumn(g.nodes, left, right)
  {
    var maxRows := |left|;
    if |right| > maxRows {
      maxRows := |right|;
    }
    var i := 0;
    while i < maxRows
      invariant 0 <= i <= maxRows
      invariant AcrossState(g.nodes, left, right, i)
    {
      LinkRowAcross(g, left, right, i);
      i := i + 1;
    }
    AcrossDone(g.nodes, left, right, i);
  }

  /** One pass of the horizontal loop: row i is linked across when both
      columns have it. */
  method LinkRowAcross(g: Graph, left: seq<Item>, right: seq<Item>, i: int)
    requires 0 <= i
    requires AcrossState(g.nodes, left, right, i)
    modifies g
    ensures AcrossState(g.nodes, left, right, i + 1)
  {
    if i < |left| && i < |right| {
      ghost var before := g.nodes;
      g.BiEdge(Cursor(i, 0), Right, Cursor(i, 1));
      AcrossStep(before, g.nodes, left, right, i);
    } else {
      AcrossStep(g.nodes, g.nodes, left, right, i);
    }
  }

  /** The pass for row i takes the graph from row i to row i + 1. */
  lemma AcrossStep(before: Nodes, after: Nodes, left: seq<Item>, right: seq<Item>, i: int)
    requires 0 <= i
    requires AcrossState(before, left, right, i)
    requires after == if i < |left| && i < |right| then BiLinked(before, Cursor(i, 0), Right, Cursor(i, 1)) else before
    ensures AcrossState(after, left, right, i + 1)
  {
    ColumnStep(before, after, left, 0, |right|, i);
    ColumnStep(before, after, right, 1, |left|, i);
  }

  /** The same pass seen from one column. */
  lemma ColumnStep(before: Nodes, after: Nodes, items: seq<Item>, col: int, other: int, i: int)
    requires 0 <= i && (col == 0 || col == 1)
    requires ColumnAcross(before, items, col, other, i)
    requires after == if i < |items| && i < other then BiLinked(before, Cursor(i, 0), Right, Cursor(i, 1)) else before
    ensures after.Keys == before.Keys
    ensures ColumnAcross(after, items, col, other, i + 1)
  {
    forall j | 0 <= j < |items|
      ensures after[Cursor(j, col)] == Node(Cursor(j, col),
        AddEdgeIf(LineEdges(map[], Vertical, col, j, |items| - 1), j < i + 1 && j < other, AcrossDir(col), Cursor(j, 1 - col)),
        Meta(items[j]))
    {
      var x := Cursor(j, col);
      AcrossCell(before[x], after[x], x, LineEdges(map[], Vertical, col, j, |items| - 1),
        Meta(items[j]), j, i, other, AcrossDir(col), Cursor(j, 1 - col));
    }
  }

  /** The pass for row i seen from the cell of row j in one column: it
      gains its edge across when j is i and the other column has row i,
      and is unchanged otherwise. */
  lemma AcrossCell(b: Node, a: Node, x: Cursor, e: map<Direction, Cursor>, m: NodeMeta,
                   j: int, i: int, n: int, d: Direction, to: Cursor)
    requires b == Node(x, AddEdgeIf(e, j < i && j < n, d, to), m)
    requires j == i && i < n ==> a == b.(edges := b.edges[d := to])
    requires !(j == i && i < n) ==> a == b
    ensures a == Node(x, AddEdgeIf(e, j < i + 1 && j < n, d, to), m)
  {
  }

  /** Past the longer column, every row is linked across. */
  lemma AcrossDone(nodes: Nodes, left: seq<Item>, right: seq<Item>, i: int)
    requires |left| <= i && |right| <= i
    requires AcrossState(nodes, left, right, i)
    ensures IsDualColumn(nodes, left, right)
  {
    forall j | 0 <= j < |right|
      ensures nodes[Cursor(j, 1)] == Node(Cursor(j, 1),
        AddEdgeIf(LineEdges(map[], Vertical, 1, j, |right| - 1), j < |left| && j < |left|, Left, Cursor(j, 0)),
        Meta(right[j]))
    {
      assert j < i;
    }
  }

  /** The last cell of each non-empty column holds that column's last
      item. */
  lemma LastCells(nodes: Nodes, left: seq<Item>, right: seq<Item>)
    requires IsDualColumn(nodes, left, right)
    ensures |left| > 0 ==> Cursor(|left| - 1, 0) in nodes && nodes[Cursor(|left| - 1, 0)].meta.item == left[|left| - 1]
    ensures |right| > 0 ==> Cursor(|right| - 1, 1) in nodes && nodes[Cursor(|right| - 1, 1)].meta.item == right[|right| - 1]
  {
  }

  /** The items of a column whose label is not blank, in order. */
  function Filled(s: seq<Item>): (r: seq<Item>)
    ensures |r| <= |s|
  {
    if s == [] then []
    else Filled(s[..|s| - 1]) + (if s[|s| - 1].text != "" then [s[|s| - 1]] else [])
  }

  /** The labels of a list of items. */
  function Labels(s: seq<Item>): (r: seq<string>)
    ensures |r| == |s| && forall i :: 0 <= i < |s| ==> r[i] == s[i].text
  {
    if s == [] then [] else Labels(s[..|s| - 1]) + [s[|s| - 1].text]
  }

  /** `Filled` keeps exactly the items with a label. */
  lemma {:induction false} FilledMembers(s: seq<Item>)
    ensures forall x :: x in Filled(s) <==> x in s && x.text != ""
  {
    if s != [] {
      FilledMembers(s[..|s| - 1]);
      assert s == s[..|s| - 1] + [s[|s| - 1]];
    }
  }

  /** Appending a labelled item appends it to `Filled`. */
  lemma FilledAppend(s: seq<Item>, x: Item)
    ensures Filled(s + [x]) == Filled(s) + (if x.text != "" then [x] else [])
  {
    assert (s + [x])[..|s|] == s;
  }

  /** Blanking a labelled item removes exactly that one occurrence from
      the multiset of labelled items. */
  lemma FilledBlank(s: seq<Item>, i: int)
    requires 0 <= i < |s| && s[i].text != ""
    ensures multiset(Filled(s[i := EmptyItem])) == multiset(Filled(s)) - multiset{s[i]}
  {
    var pre, post := s[..i], s[i + 1..];
    assert s == pre + [s[i]] + post;
    assert s[i := EmptyItem] == pre + [EmptyItem] + post;
    FilledConcat(pre + [s[i]], post);
    FilledConcat(pre + [EmptyItem], post);
    FilledAppend(pre, s[i]);
    FilledAppend(pre, EmptyItem);
  }

  /** `Filled` distributes over concatenation. */
  lemma {:induction false} FilledConcat(a: seq<Item>, b: seq<Item>)
    ensures Filled(a + b) == Filled(a) + Filled(b)
  {
    if b == [] {
      assert a + b == a;
    } else {
      var init := b[..|b| - 1];
      FilledConcat(a, init);
      assert (a + b)[..|a + b| - 1] == a + init;
    }
  }

  /** Moving the labelled item at `row` from one column to the end of the
      other keeps the multiset of labelled items over both columns, and
      the other column's labelled items gain it at the end. */
  lemma MoveKeepsItems(from: seq<Item>, to: seq<Item>, row: int)
    requires 0 <= row < |from| && from[row].text != ""
    ensures multiset(Filled(from[row := EmptyItem])) + multiset(Filled(to + [from[row]]))
         == multiset(Filled(from)) + multiset(Filled(to))
    ensures multiset(Filled(to + [from[row]])) + multiset(Filled(from[row := EmptyItem]))
         == multiset(Filled(to)) + multiset(Filled(from))
    ensures Filled(to + [from[row]]) == Filled(to) + [from[row]]
  {
    var x := from[row];
    FilledBlank(from, row);
    FilledAppend(to, x);
    FilledMembers(from);
    assert x in multiset(Filled(from));
    Shift(multiset(Filled(from)), multiset(Filled(to)),
          multiset(Filled(from[row := EmptyItem])), multiset(Filled(to + [x])), x);
  }

  /** Taking one x out of f and adding it to t keeps the union. */
  lemma Shift<T>(f: multiset<T>, t: multiset<T>, f': multiset<T>, t': multiset<T>, x: T)
    requires x in f && f' == f - multiset{x} && t' == t + multiset{x}
    ensures f' + t' == f + t && t' + f' == t + f
  {
  }

  class DualColumnWidget {
    const widget: Widget
    var leftItems: seq<Item>
    var rightItems: seq<Item>

    /** The widget's graph is the one built from the two lists. */
    ghost predicate Valid()
      reads this, widget, widget.graph
    {
      widget.graph != null && IsDualColumn(widget.graph.nodes, leftItems, rightItems)
    }

    /** `NewDualColumn`. */
    constructor (left: seq<Item>, right: seq<Item>)
      ensures leftItems == left && rightItems == right
      ensures fresh(widget) && fresh(widget.graph) && Valid()
      ensures widget.cursor == Cursor(0, 0) && widget.selection == ColumnBased(Some(map[]), Some(map[]), 0)
    {
      var w := NewDualColumnBase(left, right);
      widget := w;
      leftItems := left;
      rightItems := right;
    }

    /** `MoveItem`: the labelled item under the cursor goes to the end of
        the other column, a blank takes its place, the cursor follows it
        and the graph is rebuilt; a blank item, a row past the column's
        end or a column other than 0 and 1 moves nothing. A negative row
        inside a column's length would index out of range in the source. */
    method MoveItem() returns (moved: bool)
      requires widget.cursor.col == 0 && widget.cursor.row < |leftItems| ==> 0 <= widget.cursor.row
      requires widget.cursor.col == 1 && widget.cursor.row < |rightItems| ==> 0 <= widget.cursor.row
      modifies this, widget
      ensures widget.selection == old(widget.selection)
      ensures moved <==>
        (old(widget.cursor.col) == 0 && old(widget.cursor.row) < |old(leftItems)| && old(leftItems)[old(widget.cursor.row)].text != "") ||
        (old(widget.cursor.col) == 1 && old(widget.cursor.row) < |old(rightItems)| && old(rightItems)[old(widget.cursor.row)].text != "")
      ensures !moved ==> (leftItems == old(leftItems) && rightItems == old(rightItems)
                          && widget.cursor == old(widget.cursor) && widget.graph == old(widget.graph))
      ensures moved && old(widget.cursor.col) == 0 ==>
        leftItems == old(leftItems)[old(widget.cursor.row) := EmptyItem]
        && rightItems == old(rightItems) + [old(leftItems)[old(widget.cursor.row)]]
        && widget.cursor == Cursor(|rightItems| - 1, 1)
      ensures moved && old(widget.cursor.col) == 1 ==>
        rightItems == old(rightItems)[old(widget.cursor.row) := EmptyItem]
        && leftItems == old(leftItems) + [old(rightItems)[old(widget.cursor.row)]]
        && widget.cursor == Cursor(|leftItems| - 1, 0)
      ensures moved ==> fresh(widget.graph) && Valid()
      ensures multiset(Filled(leftItems)) + multiset(Filled(rightItems))
           == multiset(Filled(old(leftItems))) + multiset(Filled(old(rightItems)))
      ensures moved ==> (widget.cursor in widget.graph.nodes
        && widget.graph.nodes[widget.cursor].meta.item ==
           (if old(widget.cursor.col) == 0 then old(leftItems) else old(rightItems))[old(widget.cursor.row)])
    {
      var row := widget.cursor.row;
      var col := widget.cursor.col;
      if col == 0 && row < |leftItems| {
        var item := leftItems[row];
        if item.text == "" {
          return false;
        }
        MoveKeepsItems(leftItems, rightItems, row);
        rightItems := rightItems + [item];
        leftItems := leftItems[row := EmptyItem];
        widget.cursor := Cursor(|rightItems| - 1, 1);
        Rebuild();
        LastCells(widget.graph.nodes, leftItems, rightItems);
        return true;
      }
      if col == 1 && row < |rightItems| {
        var item := rightItems[row];
        if item.text == "" {
          return false;
        }
        MoveKeepsItems(rightItems, leftItems, row);
        leftItems := leftItems + [item];
        rightItems := rightItems[row := EmptyItem];
        widget.cursor := Cursor(|leftItems| - 1, 0);
        Rebuild();
        LastCells(widget.graph.nodes, leftItems, rightItems);
        return true;
      }
      return false;
    }

    /** `rebuild`: a graph built afresh from the current lists replaces
        the old one; the cursor and the selection stay. */
    method Rebuild()
      modifies widget
      ensures widget.cursor == old(widget.cursor) && widget.selection == old(widget.selection)
      ensures fresh(widget.graph) && Valid()
    {
      var rebuilt := NewDualColumnBase(leftItems, rightItems);
      widget.graph := rebuilt.graph;
    }

    /** `GetLeftItems`: the labelled items of the left column. */
    method GetLeftItems() returns (items: seq<Item>)
      ensures items == Filled(leftItems)
    {
      items := CollectFilled(leftItems);
    }

    /** `GetRightItems`: the labelled items of the right column. */
    method GetRightItems() returns (items: seq<Item>)
      ensures items == Filled(rightItems)
    {
      items := CollectFilled(rightItems);
    }

    /** `GetLeftItemLabels`: the labels of the left column's labelled
        items. */
    method GetLeftItemLabels() returns (labels: seq<string>)
      ensures labels == Labels(Filled(leftItems))
    {
      labels := CollectLabels(leftItems);
    }

    /** `GetRightItemLabels`: the labels of the right column's labelled
        items. */
    method GetRightItemLabels() returns (labels: seq<string>)
      ensures labels == Labels(Filled(rightItems))
    {
      labels := CollectLabels(rightItems);
    }
  }

  /** The loop the item getters share: skip blank labels, append the
      rest. */
  method CollectFilled(s: seq<Item>) returns (items: seq<Item>)
    ensures items == Filled(s)
    ensures forall x :: x in items <==> x in s && x.text != ""
  {
    items := [];
    var i := 0;
    while i < |s|
      invariant 0 <= i <= |s|
      invariant items == Filled(s[..i])
    {
      assert s[..i + 1][..i] == s[..i];
      if s[i].text != "" {
        items := items + [s[i]];
      }
      i := i + 1;
    }
    assert s[..i] == s;
    FilledMembers(s);
  }

  /** The loop the label getters share. */
  method CollectLabels(s: seq<Item>) returns (labels: seq<string>)
    ensures labels == Labels(Filled(s))
    ensures forall l :: l in labels <==> exists x :: x in s && x.text != "" && x.text == l
  {
    labels := [];
    ghost var items: seq<Item> := [];
    var i := 0;
    while i < |s|
      invariant 0 <= i <= |s|
      invariant items == Filled(s[..i]) && labels == Labels(items)
    {
      assert s[..i + 1][..i] == s[..i];
      if s[i].text != "" {
        assert (items + [s[i]])[..|items|] == items;
        items := items + [s[i]];
        labels := labels + [s[i].text];
      }
      i := i + 1;
    }
    assert s[..i] == s;
    FilledLabels(s);
  }

  /** The labels of the labelled items are exactly the non-blank labels
      of the column. */
  lemma FilledLabels(s: seq<Item>)
    ensures forall l :: l in Labels(Filled(s)) <==> exists x :: x in s && x.text != "" && x.text == l
  {
    var items := Filled(s);
    var labels := Labels(items);
    FilledMembers(s);
    forall l | l in labels
      ensures exists x :: x in s && x.text != "" && x.text == l
    {
      var k :| 0 <= k < |labels| && labels[k] == l;
      assert items[k] in items;
    }
    forall l | exists x :: x in s && x.text != "" && x.text == l
      ensures l in labels
    {
      var x :| x in s && x.text != "" && x.text == l;
      assert x in items;
      var k :| 0 <= k < |items| && items[k] == x;
      assert labels[k] == l;
    }
  }
}
