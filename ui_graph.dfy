/** The cursor graph behind every widget (internal/ui/widgets/graph.go,
    types.go, item.go): nodes keyed by grid position, each with a map from
    direction to neighbour. A node is owned by exactly one graph, so the
    `*Node` pointers of the source become `Node` values that the graph's
    methods replace in its map. */
module WidgetGraph {
  /** A position; `Row` and `Col` are plain ints. */
  datatype Cursor = Cursor(row: int, col: int)

  /** A movement as a (row, column) vector. */
  datatype Direction = Direction(dr: int, dc: int)

  const Top := Direction(-1, 0)
  const Down := Direction(1, 0)
  const Left := Direction(0, -1)
  const Right := Direction(0, 1)

  /** What an item does when activated; a button's closure is not modelled. */
  datatype Action = NoAction | Link(target: string) | Button

  /** `Label` is spelled `text` here (`label` is a Dafny keyword). */
  datatype Item = Item(text: string, action: Action)

  /** `Item{}` and the blank `Item{Label: ""}`. */
  const EmptyItem := Item("", NoAction)

  datatype NodeMeta = NodeMeta(item: Item, enabled: bool, empty: bool, tags: seq<string>)

  datatype Node = Node(cursor: Cursor, edges: map<Direction, Cursor>, meta: NodeMeta)

  type Nodes = map<Cursor, Node>

  /** The four named directions. */
  predicate IsUnit(d: Direction) {
    d == Top || d == Down || d == Left || d == Right
  }

  /** `invert`: a named direction becomes the opposite vector; any other
      vector is returned as it is. */
  function Invert(d: Direction): (r: Direction)
    ensures IsUnit(d) ==> r == Direction(-d.dr, -d.dc) && IsUnit(r)
    ensures !IsUnit(d) ==> r == d
  {
    if d == Left then Right
    else if d == Right then Left
    else if d == Top then Down
    else if d == Down then Top
    else d
  }

  /** Inverting twice gives the direction back, named or not. */
  lemma InvertInvolution(d: Direction)
    ensures Invert(Invert(d)) == d
  {
  }

  /** `Graph.Move`: the neighbour in direction `dir` when the source exists
      and is enabled, has that edge, and the edge leads to an enabled,
      non-empty node; otherwise the cursor stays where it is. */
  function Move(nodes: Nodes, from: Cursor, dir: Direction): (r: (Cursor, bool))
    ensures r.1 ==> from in nodes && nodes[from].meta.enabled && dir in nodes[from].edges
    ensures r.1 ==> r.0 == nodes[from].edges[dir] && r.0 in nodes && nodes[r.0].meta.enabled && !nodes[r.0].meta.empty
    ensures !r.1 ==> r.0 == from
    ensures !r.1 ==> !(from in nodes && nodes[from].meta.enabled && dir in nodes[from].edges
                       && var next := nodes[from].edges[dir];
                          next in nodes && nodes[next].meta.enabled && !nodes[next].meta.empty)
  {
    if from !in nodes || !nodes[from].meta.enabled then (from, false)
    else if dir !in nodes[from].edges then (from, false)
    else
      var next := nodes[from].edges[dir];
      if next !in nodes || !nodes[next].meta.enabled || nodes[next].meta.empty then (from, false)
      else (next, true)
  }

  /** The node map after `Connect(from, dir, to)`. */
  function Connected(nodes: Nodes, from: Cursor, dir: Direction, to: Cursor): (r: Nodes)
    ensures r.Keys == nodes.Keys
    ensures forall c :: c in r && (c != from || from == to) ==> r[c] == nodes[c]
    ensures from != to && from in nodes ==> r[from] == nodes[from].(edges := nodes[from].edges[dir := to])
  {
    if from == to || from !in nodes then nodes
    else nodes[from := nodes[from].(edges := nodes[from].edges[dir := to])]
  }

  /** The node map after `BiEdge(a, dir, b)`: `a` gets edge `dir` to `b`
      and `b` gets the inverse edge back to `a`, each only when that node
      exists and the two differ; no other node changes. */
  function BiLinked(nodes: Nodes, a: Cursor, dir: Direction, b: Cursor): (r: Nodes)
    ensures r.Keys == nodes.Keys
    ensures forall c :: c in r && c != a && c != b ==> r[c] == nodes[c]
    ensures a != b && a in nodes ==> r[a] == nodes[a].(edges := nodes[a].edges[dir := b])
    ensures a != b && b in nodes ==> r[b] == nodes[b].(edges := nodes[b].edges[Invert(dir) := a])
    ensures a == b ==> r == nodes
  {
    Connected(Connected(nodes, a, dir, b), b, Invert(dir), a)
  }

  /** Two nodes linked both ways by `BiEdge` reach each other by `Move`
      when both are enabled and non-empty. */
  lemma BiEdgeNavigable(nodes: Nodes, a: Cursor, dir: Direction, b: Cursor)
    requires a != b && a in nodes && b in nodes
    requires nodes[a].meta.enabled && !nodes[a].meta.empty
    requires nodes[b].meta.enabled && !nodes[b].meta.empty
    ensures Move(BiLinked(nodes, a, dir, b), a, dir) == (b, true)
    ensures Move(BiLinked(nodes, a, dir, b), b, Invert(dir)) == (a, true)
  {
    var r := BiLinked(nodes, a, dir, b);
    assert r[a].edges[dir] == b;
    assert r[b].edges[Invert(dir)] == a;
  }

  class Graph {
    var nodes: Nodes

    /** `NewGraph`: no nodes. */
    constructor ()
      ensures nodes == map[]
    {
      nodes := map[];
    }

    /** `AddNode`: (re)creates the node at `c` with the given metadata and
        no edges, dropping any edges it had before. */
    method AddNode(c: Cursor, meta: NodeMeta)
      modifies this
      ensures nodes == old(nodes)[c := Node(c, map[], meta)]
    {
      nodes := nodes[c := Node(c, map[], meta)];
    }

    /** `Connect`: sets or overwrites the edge `dir` of `from` to `to`;
        nothing happens for a self-loop or a missing `from`. */
    method Connect(from: Cursor, dir: Direction, to: Cursor)
      modifies this
      ensures nodes == Connected(old(nodes), from, dir, to)
    {
      if from == to {
        return;
      }
      if from !in nodes {
        return;
      }
      var node := nodes[from];
      nodes := nodes[from := node.(edges := node.edges[dir := to])];
    }

    /** `GraphBuilder.BiEdge`: `Connect(a, dir, b)` and then
        `Connect(b, invert(dir), a)`. */
    method BiEdge(a: Cursor, dir: Direction, b: Cursor)
      modifies this
      ensures nodes == BiLinked(old(nodes), a, dir, b)
    {
      Connect(a, dir, b);
      Connect(b, Invert(dir), a);
    }
  }
}
