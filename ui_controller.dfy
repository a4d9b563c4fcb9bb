/** A widget's navigation state (internal/ui/widgets/controller.go): the
    cursor, the selection policy and the cursor graph, which may be nil. */
module Controllers {
  import opened Wrappers
  import opened WidgetGraph
  import opened Selections

  class Controller {
    var cursor: Cursor
    var selection: Selection
    var graph: Graph?

    constructor (cursor: Cursor, selection: Selection, graph: Graph?)
      ensures this.cursor == cursor && this.selection == selection && this.graph == graph
    {
      this.cursor := cursor;
      this.selection := selection;
      this.graph := graph;
    }

    /** `Controller.Move`: with no graph nothing happens; otherwise the
        cursor takes the graph's answer when the move succeeds and stays
        put when it fails. The graph and the selection are untouched. */
    method Move(dir: Direction)
      modifies this
      ensures selection == old(selection) && graph == old(graph)
      ensures graph == null ==> cursor == old(cursor)
      ensures graph != null ==> var (next, ok) := WidgetGraph.Move(graph.nodes, old(cursor), dir);
        (ok ==> cursor == next) && (!ok ==> cursor == old(cursor))
      ensures graph != null ==> cursor in graph.nodes || cursor == old(cursor)
    {
      if graph == null {
        return;
      }
      var (next, ok) := WidgetGraph.Move(graph.nodes, cursor, dir);
      if ok {
        cursor := next;
      }
    }

    /** `Controller.Toggle`: delegates to the selection only where the
        cursor is selectable, so only a `Multi` selection changes, and only
        at the cursor. */
    method Toggle()
      modifies Objects(selection)
      ensures selection.Multi? ==> selection.multi.selected == Some(Flipped(old(selection.multi.selected), cursor))
      ensures !IsSelectable(selection, cursor) ==> unchanged(Objects(selection))
    {
      if IsSelectable(selection, cursor) {
        match selection
        case Single =>
        case Multi(m) => m.Toggle(cursor);
      }
    }

    /** `Controller.Select`: the same delegation for `Select`. */
    method Select()
      modifies Objects(selection)
      ensures selection.Multi? ==> selection.multi.selected == Some(Flipped(old(selection.multi.selected), cursor))
      ensures !IsSelectable(selection, cursor) ==> unchanged(Objects(selection))
    {
      if IsSelectable(selection, cursor) {
        match selection
        case Single =>
        case Multi(m) => m.Select(cursor);
      }
    }
  }
}
