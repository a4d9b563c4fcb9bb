/** How the widget factories wire their graphs (internal/ui/widgets/widget.go
    and dual_column.go): a node per item, then two-way edges between
    neighbours. Lists, bars and the question widgets run the same two loops
    along one line of cells; a grid runs the node loop once per row and
    then links every cell to its right neighbour and to the cell below.

    Each node's expected edge map is written as the chain of updates the
    loops perform on it, in the order they perform them. */
module Wiring {
  import opened WidgetGraph

  /** The metadata every factory gives its nodes. */
  function Meta(item: Item): NodeMeta {
    NodeMeta(item, true, false, [])
  }

  /** `m` with edge `d` set to `to` when `cond` holds. */
  function AddEdgeIf(m: map<Direction, Cursor>, cond: bool, d: Direction, to: Cursor): map<Direction, Cursor> {
    if cond then m[d := to] else m
  }

  // ---------------------------------------------------------------------
  // Lines of cells
  // ---------------------------------------------------------------------

  /** A column (cells (i, line)) or a row (cells (line, i)). */
  datatype Axis = Vertical | Horizontal

  /** The i-th cell of a line. */
  function At(axis: Axis, line: int, i: int): (c: Cursor)
    ensures Pos(axis, c) == i && Across(axis, c) == line
  {
    if axis == Vertical then Cursor(i, line) else Cursor(line, i)
  }

  /** A cell's index along the line. */
  function Pos(axis: Axis, c: Cursor): int {
    if axis == Vertical then c.row else c.col
  }

  /** Which line a cell lies on. */
  function Across(axis: Axis, c: Cursor): int {
    if axis == Vertical then c.col else c.row
  }

  /** The cell is one of the first n of the line. */
  predicate OnLine(c: Cursor, axis: Axis, line: int, n: int) {
    Across(axis, c) == line && 0 <= Pos(axis, c) < n
  }

  /** The first i + 1 cells are the first i and cell i. */
  lemma OnLineNext(x: Cursor, axis: Axis, line: int, i: int)
    requires 0 <= i
    ensures OnLine(x, axis, line, i + 1) <==> OnLine(x, axis, line, i) || x == At(axis, line, i)
  {
    assert x == Cursor(x.row, x.col);
    if axis == Vertical {
      assert At(axis, line, i) == Cursor(i, line);
    } else {
      assert At(axis, line, i) == Cursor(line, i);
    }
  }

  /** Down a column, Right along a row. */
  function Forward(axis: Axis): (d: Direction)
    ensures d != Invert(d)
  {
    if axis == Vertical then Down else Right
  }

  /** The edges of cell i, starting from `e`, once the pairs (0, 1) ..
      (k - 1, k) are linked: first back to i - 1, then on to i + 1, where
      those pairs are done. */
  function LineEdges(e: map<Direction, Cursor>, axis: Axis, line: int, i: int, k: int): map<Direction, Cursor> {
    var back := AddEdgeIf(e, 0 < i <= k, Invert(Forward(axis)), At(axis, line, i - 1));
    AddEdgeIf(back, i < k, Forward(axis), At(axis, line, i + 1))
  }

  /** The node map of a finished line of `items`: cell i holds `items[i]`
      and is linked back to cell i - 1 and on to cell i + 1 where those
      exist; there are no other nodes. */
  ghost predicate IsLine(nodes: Nodes, items: seq<Item>, axis: Axis, line: int) {
    (forall c :: c in nodes <==> OnLine(c, axis, line, |items|))
    && forall i :: 0 <= i < |items| ==>
      nodes[At(axis, line, i)] == Node(At(axis, line, i), LineEdges(map[], axis, line, i, |items| - 1), Meta(items[i]))
  }

  /** The node-adding loop: cell i of the line gets `items[i]` and no
      edges; every other node is kept. */
  method AddLine(g: Graph, items: seq<Item>, axis: Axis, line: int)
    modifies g
    ensures forall c :: c in g.nodes <==> c in old(g.nodes) || OnLine(c, axis, line, |items|)
    ensures forall c :: c in old(g.nodes) && !OnLine(c, axis, line, |items|) ==> g.nodes[c] == old(g.nodes)[c]
    ensures forall i :: 0 <= i < |items| ==>
      At(axis, line, i) in g.nodes && g.nodes[At(axis, line, i)] == Node(At(axis, line, i), map[], Meta(items[i]))
  {
    var i := 0;
    while i < |items|
      invariant 0 <= i <= |items|
      invariant forall c :: c in g.nodes <==> c in old(g.nodes) || OnLine(c, axis, line, i)
      invariant forall c :: c in old(g.nodes) && !OnLine(c, axis, line, i) ==> g.nodes[c] == old(g.nodes)[c]
      invariant forall j :: 0 <= j < i ==>
        At(axis, line, j) in g.nodes && g.nodes[At(axis, line, j)] == Node(At(axis, line, j), map[], Meta(items[j]))
    {
      var c := At(axis, line, i);
      g.AddNode(c, Meta(items[i]));
      forall x {
        OnLineNext(x, axis, line, i);
      }
      i := i + 1;
    }
  }

  /** The linking loop: each neighbouring pair of the first n cells is
      joined by a two-way edge; edges already there in other directions
      are kept and no other node changes. */
  method LinkLine(g: Graph, n: int, axis: Axis, line: int)
    requires forall i :: 0 <= i < n ==> At(axis, line, i) in g.nodes
    modifies g
    ensures g.nodes.Keys == old(g.nodes).Keys
    ensures forall c :: c in g.nodes && !OnLine(c, axis, line, n) ==> g.nodes[c] == old(g.nodes)[c]
    ensures forall i :: 0 <= i < n ==>
      g.nodes[At(axis, line, i)] == old(g.nodes)[At(axis, line, i)].(edges := LineEdges(old(g.nodes)[At(axis, line, i)].edges, axis, line, i, n - 1))
  {
    var k := 0;
    while k + 1 < n
      invariant 0 <= k && (k < n || n <= 0)
      invariant g.nodes.Keys == old(g.nodes).Keys
      invariant forall c :: c in g.nodes && !OnLine(c, axis, line, n) ==> g.nodes[c] == old(g.nodes)[c]
      invariant forall i :: 0 <= i < n ==>
        g.nodes[At(axis, line, i)] == old(g.nodes)[At(axis, line, i)].(edges := LineEdges(old(g.nodes)[At(axis, line, i)].edges, axis, line, i, k))
    {
      ghost var before := g.nodes;
      g.BiEdge(At(axis, line, k), Forward(axis), At(axis, line, k + 1));
      LinkStep(old(g.nodes), before, g.nodes, n, axis, line, k);
      k := k + 1;
    }
  }

  /** One pass of the linking loop moves every cell from `k` to `k + 1`
      linked pairs. */
  lemma LinkStep(start: Nodes, before: Nodes, after: Nodes, n: int, axis: Axis, line: int, k: int)
    requires 0 <= k && k + 1 < n
    requires forall i :: 0 <= i < n ==> At(axis, line, i) in start
    requires before.Keys == start.Keys
    requires forall i :: 0 <= i < n ==>
      before[At(axis, line, i)] == start[At(axis, line, i)].(edges := LineEdges(start[At(axis, line, i)].edges, axis, line, i, k))
    requires after == BiLinked(before, At(axis, line, k), Forward(axis), At(axis, line, k + 1))
    ensures forall i :: 0 <= i < n ==>
      after[At(axis, line, i)] == start[At(axis, line, i)].(edges := LineEdges(start[At(axis, line, i)].edges, axis, line, i, k + 1))
  {
    forall i | 0 <= i < n
      ensures after[At(axis, line, i)] == start[At(axis, line, i)].(edges := LineEdges(start[At(axis, line, i)].edges, axis, line, i, k + 1))
    {
      var c := At(axis, line, i);
      assert At(axis, line, k) != At(axis, line, k + 1);
      LinkCell(start[c], before[c], after[c], axis, line, i, k);
    }
  }

  /** The step for one cell: cell k gains its forward edge, cell k + 1
      its backward edge, and every other cell is as it was. */
  lemma LinkCell(s: Node, b: Node, a: Node, axis: Axis, line: int, i: int, k: int)
    requires 0 <= k
    requires b == s.(edges := LineEdges(s.edges, axis, line, i, k))
    requires i == k ==> a == b.(edges := b.edges[Forward(axis) := At(axis, line, k + 1)])
    requires i == k + 1 ==> a == b.(edges := b.edges[Invert(Forward(axis)) := At(axis, line, k)])
    requires i != k && i != k + 1 ==> a == b
    ensures a == s.(edges := LineEdges(s.edges, axis, line, i, k + 1))
  {
    if i != k && i != k + 1 {
      assert LineEdges(s.edges, axis, line, i, k) == LineEdges(s.edges, axis, line, i, k + 1);
    }
  }

  /** A line of cells as a fresh graph. */
  method BuildLine(items: seq<Item>, axis: Axis) returns (g: Graph)
    ensures fresh(g)
    ensures IsLine(g.nodes, items, axis, 0)
  {
    g := new Graph();
    AddLine(g, items, axis, 0);
    LinkLine(g, |items|, axis, 0);
  }

  /** Moving inside a line: forward to the next cell and backward to the
      previous one where they exist; any other move stays put. */
  lemma LineMoves(nodes: Nodes, items: seq<Item>, axis: Axis, line: int, i: int, d: Direction)
    requires IsLine(nodes, items, axis, line) && 0 <= i < |items|
    ensures d == Forward(axis) && i + 1 < |items| ==> Move(nodes, At(axis, line, i), d) == (At(axis, line, i + 1), true)
    ensures d == Invert(Forward(axis)) && 0 < i ==> Move(nodes, At(axis, line, i), d) == (At(axis, line, i - 1), true)
    ensures !(d == Forward(axis) && i + 1 < |items|) && !(d == Invert(Forward(axis)) && 0 < i) ==>
      Move(nodes, At(axis, line, i), d) == (At(axis, line, i), false)
  {
    var c := At(axis, line, i);
    var e := LineEdges(map[], axis, line, i, |items| - 1);
    assert nodes[c].edges == e;
    if d == Forward(axis) && i + 1 < |items| {
      assert e[d] == At(axis, line, i + 1);
      assert OnLine(At(axis, line, i + 1), axis, line, |items|);
    } else if d == Invert(Forward(axis)) && 0 < i {
      assert e[d] == At(axis, line, i - 1);
      assert OnLine(At(axis, line, i - 1), axis, line, |items|);
    } else {
      assert d !in e;
    }
  }

  // ---------------------------------------------------------------------
  // Grids
  // ---------------------------------------------------------------------

  /** Cell c holds one of the grid's items. */
  predicate InGrid(items: seq<seq<Item>>, c: Cursor) {
    0 <= c.row < |items| && 0 <= c.col < |items[c.row]|
  }

  /** Cell c comes before cell (r, k) in row-major order. */
  predicate Before(c: Cursor, r: int, k: int) {
    c.row < r || (c.row == r && c.col < k)
  }

  /** Cell c has been linked to its right neighbour once the loops reach
      cell (r, k) with `p` of its two links done. */
  predicate RightDone(c: Cursor, r: int, k: int, p: int) {
    Before(c, r, k) || (c == Cursor(r, k) && p >= 1)
  }

  /** The edges of a cell once the loops have reached cell (r, k) and done
      `p` of its two links (right, then down), in the order the links
      reach it: from above, from the left, then its own right and down. */
  function GridEdgesUpTo(items: seq<seq<Item>>, c: Cursor, r: int, k: int, p: int): map<Direction, Cursor>
    requires InGrid(items, c)
  {
    var up := Cursor(c.row - 1, c.col);
    var left := Cursor(c.row, c.col - 1);
    var e1 := AddEdgeIf(map[], c.row > 0 && c.col < |items[c.row - 1]| && Before(up, r, k), Top, up);
    var e2 := AddEdgeIf(e1, c.col > 0 && RightDone(left, r, k, p), Left, left);
    var e3 := AddEdgeIf(e2, c.col + 1 < |items[c.row]| && RightDone(c, r, k, p), Right, Cursor(c.row, c.col + 1));
    AddEdgeIf(e3, c.row + 1 < |items| && c.col < |items[c.row + 1]| && Before(c, r, k), Down, Cursor(c.row + 1, c.col))
  }

  /** The edges of a finished grid cell: Top only when the row above has
      this column, Left and Right within its row, Down only when the row
      below has this column. */
  function GridEdges(items: seq<seq<Item>>, c: Cursor): map<Direction, Cursor>
    requires InGrid(items, c)
  {
    var e1 := AddEdgeIf(map[], c.row > 0 && c.col < |items[c.row - 1]|, Top, Cursor(c.row - 1, c.col));
    var e2 := AddEdgeIf(e1, c.col > 0, Left, Cursor(c.row, c.col - 1));
    var e3 := AddEdgeIf(e2, c.col + 1 < |items[c.row]|, Right, Cursor(c.row, c.col + 1));
    AddEdgeIf(e3, c.row + 1 < |items| && c.col < |items[c.row + 1]|, Down, Cursor(c.row + 1, c.col))
  }

  /** The grid's node map when the loops have reached cell (r, k) and
      done `p` of its links. */
  ghost predicate GridState(nodes: Nodes, items: seq<seq<Item>>, r: int, k: int, p: int) {
    (forall c :: c in nodes <==> InGrid(items, c))
    && forall c :: InGrid(items, c) ==> nodes[c] == Node(c, GridEdgesUpTo(items, c, r, k, p), Meta(items[c.row][c.col]))
  }

  /** The node map of a finished grid: a node per item at (row, column),
      with the edges of `GridEdges`, and no other nodes. */
  ghost predicate IsGrid(nodes: Nodes, items: seq<seq<Item>>) {
    (forall c :: c in nodes <==> InGrid(items, c))
    && forall c :: InGrid(items, c) ==> nodes[c] == Node(c, GridEdges(items, c), Meta(items[c.row][c.col]))
  }

  /** The graph of `NewGrid`: every item's node, then the links. */
  method BuildGrid(items: seq<seq<Item>>) returns (g: Graph)
    ensures fresh(g)
    ensures IsGrid(g.nodes, items)
  {
    g := new Graph();
    AddGridNodes(g, items);
    GridUnlinked(g.nodes, items);
    LinkGrid(g, items);
  }

  /** The node loop of `NewGrid`: row r is added as a line of cells
      (r, c), each without edges. */
  method AddGridNodes(g: Graph, items: seq<seq<Item>>)
    requires g.nodes == map[]
    modifies g
    ensures forall c :: c in g.nodes <==> InGrid(items, c)
    ensures forall c :: InGrid(items, c) ==> g.nodes[c] == Node(c, map[], Meta(items[c.row][c.col]))
  {
    var r := 0;
    while r < |items|
      invariant 0 <= r <= |items|
      invariant forall c :: c in g.nodes <==> InGrid(items, c) && c.row < r
      invariant forall c :: InGrid(items, c) && c.row < r ==> g.nodes[c] == Node(c, map[], Meta(items[c.row][c.col]))
    {
      AddLine(g, items[r], Horizontal, r);
      forall c | InGrid(items, c) && c.row == r
        ensures g.nodes[c] == Node(c, map[], Meta(items[c.row][c.col]))
      {
        assert c == At(Horizontal, r, c.col);
      }
      r := r + 1;
    }
  }

  /** Before any linking, every grid cell has no edges. */
  lemma GridUnlinked(nodes: Nodes, items: seq<seq<Item>>)
    requires forall c :: c in nodes <==> InGrid(items, c)
    requires forall c :: InGrid(items, c) ==> nodes[c] == Node(c, map[], Meta(items[c.row][c.col]))
    ensures GridState(nodes, items, 0, 0, 0)
  {
    forall c | InGrid(items, c)
      ensures nodes[c] == Node(c, GridEdgesUpTo(items, c, 0, 0, 0), Meta(items[c.row][c.col]))
    {
      NothingBefore(items, c);
    }
  }

  lemma NothingBefore(items: seq<seq<Item>>, c: Cursor)
    requires InGrid(items, c)
    ensures GridEdgesUpTo(items, c, 0, 0, 0) == map[]
  {
  }

  /** The linking loop of `NewGrid`: row by row, cell by cell. */
  method LinkGrid(g: Graph, items: seq<seq<Item>>)
    requires GridState(g.nodes, items, 0, 0, 0)
    modifies g
    ensures IsGrid(g.nodes, items)
  {
    var r := 0;
    while r < |items|
      invariant 0 <= r <= |items|
      invariant GridState(g.nodes, items, r, 0, 0)
    {
      LinkGridRow(g, items, r);
      r := r + 1;
    }
    GridDone(g.nodes, items);
  }

  /** One pass of the outer linking loop: every cell of row r in turn. */
  method LinkGridRow(g: Graph, items: seq<seq<Item>>, r: int)
    requires 0 <= r < |items|
    requires GridState(g.nodes, items, r, 0, 0)
    modifies g
    ensures GridState(g.nodes, items, r + 1, 0, 0)
  {
    var k := 0;
    while k < |items[r]|
      invariant 0 <= k <= |items[r]|
      invariant GridState(g.nodes, items, r, k, 0)
    {
      LinkGridCell(g, items, r, k);
      k := k + 1;
    }
    GridRowDone(g.nodes, items, r);
  }

  /** Finishing row r is starting row r + 1. */
  lemma GridRowDone(nodes: Nodes, items: seq<seq<Item>>, r: int)
    requires 0 <= r < |items|
    requires GridState(nodes, items, r, |items[r]|, 0)
    ensures GridState(nodes, items, r + 1, 0, 0)
  {
    forall c | InGrid(items, c)
      ensures nodes[c] == Node(c, GridEdgesUpTo(items, c, r + 1, 0, 0), Meta(items[c.row][c.col]))
    {
      RowDoneCell(items, c, r);
    }
  }

  lemma RowDoneCell(items: seq<seq<Item>>, c: Cursor, r: int)
    requires 0 <= r < |items| && InGrid(items, c)
    ensures GridEdgesUpTo(items, c, r, |items[r]|, 0) == GridEdgesUpTo(items, c, r + 1, 0, 0)
  {
    var up := Cursor(c.row - 1, c.col);
    var left := Cursor(c.row, c.col - 1);
    assert c.row > 0 && c.col < |items[c.row - 1]| ==> (Before(up, r, |items[r]|) <==> Before(up, r + 1, 0));
    assert c.col > 0 ==> (RightDone(left, r, |items[r]|, 0) <==> RightDone(left, r + 1, 0, 0));
    assert RightDone(c, r, |items[r]|, 0) <==> RightDone(c, r + 1, 0, 0);
    assert Before(c, r, |items[r]|) <==> Before(c, r + 1, 0);
  }

  /** Once every row is linked, the edges are those of `GridEdges`. */
  lemma GridDone(nodes: Nodes, items: seq<seq<Item>>)
    requires GridState(nodes, items, |items|, 0, 0)
    ensures IsGrid(nodes, items)
  {
    forall c | InGrid(items, c)
      ensures nodes[c] == Node(c, GridEdges(items, c), Meta(items[c.row][c.col]))
    {
      DoneCell(items, c);
    }
  }

  lemma DoneCell(items: seq<seq<Item>>, c: Cursor)
    requires InGrid(items, c)
    ensures GridEdgesUpTo(items, c, |items|, 0, 0) == GridEdges(items, c)
  {
  }

  /** One pass of the inner linking loop: cell (r, k) is joined to its
      right neighbour and then to the cell below, when they exist. */
  method LinkGridCell(g: Graph, items: seq<seq<Item>>, r: int, k: int)
    requires 0 <= r < |items| && 0 <= k < |items[r]|
    requires GridState(g.nodes, items, r, k, 0)
    modifies g
    ensures GridState(g.nodes, items, r, k + 1, 0)
  {
    var c := Cursor(r, k);
    ghost var before := g.nodes;
    if k < |items[r]| - 1 {
      g.BiEdge(c, Right, Cursor(r, k + 1));
    }
    RightStep(before, g.nodes, items, r, k);
    before := g.nodes;
    if r < |items| - 1 && k < |items[r + 1]| {
      g.BiEdge(c, Down, Cursor(r + 1, k));
    }
    DownStep(before, g.nodes, items, r, k);
  }

  /** The link to the right neighbour of cell (r, k), when there is one. */
  lemma RightStep(before: Nodes, after: Nodes, items: seq<seq<Item>>, r: int, k: int)
    requires 0 <= r < |items| && 0 <= k < |items[r]|
    requires GridState(before, items, r, k, 0)
    requires k < |items[r]| - 1 ==> after == BiLinked(before, Cursor(r, k), Right, Cursor(r, k + 1))
    requires k >= |items[r]| - 1 ==> after == before
    ensures GridState(after, items, r, k, 1)
  {
    forall x | InGrid(items, x)
      ensures after[x] == Node(x, GridEdgesUpTo(items, x, r, k, 1), Meta(items[x.row][x.col]))
    {
      RightCell(before[x], after[x], items, x, r, k);
    }
  }

  /** The right link of cell (r, k) seen from one cell: the cell itself
      gains Right, its right neighbour gains Left, no other cell changes. */
  lemma RightCell(b: Node, a: Node, items: seq<seq<Item>>, x: Cursor, r: int, k: int)
    requires 0 <= r < |items| && 0 <= k < |items[r]| && InGrid(items, x)
    requires b == Node(x, GridEdgesUpTo(items, x, r, k, 0), Meta(items[x.row][x.col]))
    requires k < |items[r]| - 1 && x == Cursor(r, k) ==> a == b.(edges := b.edges[Right := Cursor(r, k + 1)])
    requires k < |items[r]| - 1 && x == Cursor(r, k + 1) ==> a == b.(edges := b.edges[Left := Cursor(r, k)])
    requires !(k < |items[r]| - 1 && (x == Cursor(r, k) || x == Cursor(r, k + 1))) ==> a == b
    ensures a == Node(x, GridEdgesUpTo(items, x, r, k, 1), Meta(items[x.row][x.col]))
  {
    var left := Cursor(x.row, x.col - 1);
    assert RightDone(left, r, k, 1) <==> RightDone(left, r, k, 0) || left == Cursor(r, k);
    assert RightDone(x, r, k, 1) <==> RightDone(x, r, k, 0) || x == Cursor(r, k);
  }

  /** The link to the cell below (r, k), when there is one. */
  lemma DownStep(before: Nodes, after: Nodes, items: seq<seq<Item>>, r: int, k: int)
    requires 0 <= r < |items| && 0 <= k < |items[r]|
    requires GridState(before, items, r, k, 1)
    requires r < |items| - 1 && k < |items[r + 1]| ==> after == BiLinked(before, Cursor(r, k), Down, Cursor(r + 1, k))
    requires !(r < |items| - 1 && k < |items[r + 1]|) ==> after == before
    ensures GridState(after, items, r, k + 1, 0)
  {
    forall x | InGrid(items, x)
      ensures after[x] == Node(x, GridEdgesUpTo(items, x, r, k + 1, 0), Meta(items[x.row][x.col]))
    {
      DownCell(before[x], after[x], items, x, r, k);
    }
  }

  /** The down link of cell (r, k) seen from one cell: the cell itself
      gains Down, the cell below gains Top, no other cell changes. */
  lemma DownCell(b: Node, a: Node, items: seq<seq<Item>>, x: Cursor, r: int, k: int)
    requires 0 <= r < |items| && 0 <= k < |items[r]| && InGrid(items, x)
    requires b == Node(x, GridEdgesUpTo(items, x, r, k, 1), Meta(items[x.row][x.col]))
    requires r < |items| - 1 && k < |items[r + 1]| && x == Cursor(r, k) ==> a == b.(edges := b.edges[Down := Cursor(r + 1, k)])
    requires r < |items| - 1 && k < |items[r + 1]| && x == Cursor(r + 1, k) ==> a == b.(edges := b.edges[Top := Cursor(r, k)])
    requires !(r < |items| - 1 && k < |items[r + 1]| && (x == Cursor(r, k) || x == Cursor(r + 1, k))) ==> a == b
    ensures a == Node(x, GridEdgesUpTo(items, x, r, k + 1, 0), Meta(items[x.row][x.col]))
  {
    var up := Cursor(x.row - 1, x.col);
    var left := Cursor(x.row, x.col - 1);
    assert Before(up, r, k + 1) <==> Before(up, r, k) || up == Cursor(r, k);
    assert RightDone(left, r, k + 1, 0) <==> RightDone(left, r, k, 1);
    assert RightDone(x, r, k + 1, 0) <==> RightDone(x, r, k, 1);
    assert Before(x, r, k + 1) <==> Before(x, r, k) || x == Cursor(r, k);
  }

  /** Moving down in a finished grid reaches the same column of the next
      row, only when that row has the column. */
  lemma GridMoveDown(nodes: Nodes, items: seq<seq<Item>>, c: Cursor)
    requires IsGrid(nodes, items) && InGrid(items, c)
    ensures Move(nodes, c, Down) ==
      (if c.row + 1 < |items| && c.col < |items[c.row + 1]| then (Cursor(c.row + 1, c.col), true) else (c, false))
  {
    var e := nodes[c].edges;
    assert e == GridEdges(items, c);
    if c.row + 1 < |items| && c.col < |items[c.row + 1]| {
      var next := Cursor(c.row + 1, c.col);
      assert e[Down] == next;
      assert InGrid(items, next) && nodes[next].meta == Meta(items[next.row][next.col]);
    } else {
      assert Down !in e;
    }
  }

  /** Moving up reaches the same column of the previous row, only when
      that row has the column. */
  lemma GridMoveUp(nodes: Nodes, items: seq<seq<Item>>, c: Cursor)
    requires IsGrid(nodes, items) && InGrid(items, c)
    ensures Move(nodes, c, Top) ==
      (if c.row > 0 && c.col < |items[c.row - 1]| then (Cursor(c.row - 1, c.col), true) else (c, false))
  {
    var e := nodes[c].edges;
    assert e == GridEdges(items, c);
    if c.row > 0 && c.col < |items[c.row - 1]| {
      var next := Cursor(c.row - 1, c.col);
      assert e[Top] == next;
      assert InGrid(items, next) && nodes[next].meta == Meta(items[next.row][next.col]);
    } else {
      assert Top !in e;
    }
  }

  /** Moving right stays within the row. */
  lemma GridMoveRight(nodes: Nodes, items: seq<seq<Item>>, c: Cursor)
    requires IsGrid(nodes, items) && InGrid(items, c)
    ensures Move(nodes, c, Right) ==
      (if c.col + 1 < |items[c.row]| then (Cursor(c.row, c.col + 1), true) else (c, false))
  {
    var e := nodes[c].edges;
    assert e == GridEdges(items, c);
    if c.col + 1 < |items[c.row]| {
      var next := Cursor(c.row, c.col + 1);
      assert e[Right] == next;
      assert InGrid(items, next) && nodes[next].meta == Meta(items[next.row][next.col]);
    } else {
      assert Right !in e;
    }
  }

  /** Moving left stays within the row. */
  lemma GridMoveLeft(nodes: Nodes, items: seq<seq<Item>>, c: Cursor)
    requires IsGrid(nodes, items) && InGrid(items, c)
    ensures Move(nodes, c, Left) ==
      (if c.col > 0 then (Cursor(c.row, c.col - 1), true) else (c, false))
  {
    var e := nodes[c].edges;
    assert e == GridEdges(items, c);
    if c.col > 0 {
      var next := Cursor(c.row, c.col - 1);
      assert e[Left] == next;
      assert InGrid(items, next) && nodes[next].meta == Meta(items[next.row][next.col]);
    } else {
      assert Left !in e;
    }
  }
}
