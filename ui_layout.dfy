/** Shapes, containers and layouts (internal/ui/widgets/shape.go and
    layout.go): a container stacks shapes under per-shape rules, reports
    the dimensions of the stack, and a layout turns its header, body and
    footer containers into blocks. */
module Layouts {
  import opened Wrappers
  import WidgetGraph

  type ShapeType = int

  const Grid: ShapeType := 0
  const Bar: ShapeType := 1
  const Column: ShapeType := 2

  datatype Shape = Shape(shapeType: ShapeType, cols: int, rows: int)

  /** `Shape{}`: a 0 x 0 grid. */
  const ZeroShape := Shape(Grid, 0, 0)

  /** The three implementations of `ShapeRule`. */
  datatype ShapeRule = GridRule | BarRule | ColumnRule

  function Type(rule: ShapeRule): (t: ShapeType)
    ensures Grid <= t <= Column
  {
    match rule
    case GridRule => Grid
    case BarRule => Bar
    case ColumnRule => Column
  }

  /** Each rule has its own shape type. */
  lemma TypeInjective(a: ShapeRule, b: ShapeRule)
    ensures Type(a) == Type(b) ==> a == b
  {
  }

  /** Only a grid stands alone. */
  function AllowMultiple(rule: ShapeRule): (b: bool)
    ensures b <==> !rule.GridRule?
  {
    match rule
    case GridRule => false
    case BarRule => true
    case ColumnRule => true
  }

  /** A rule attaches only next to shapes of its own type, and only when
      it stacks at all. */
  function CanAttach(rule: ShapeRule, other: ShapeType): (b: bool)
    ensures b <==> AllowMultiple(rule) && other == Type(rule)
  {
    match rule
    case GridRule => false
    case BarRule => other == Bar
    case ColumnRule => other == Column
  }

  /** A bar is one row high, a column one column wide, a grid keeps its
      size. */
  function Normalize(rule: ShapeRule, rows: int, cols: int): (r: (int, int))
    ensures rule.BarRule? ==> r == (1, cols)
    ensures rule.ColumnRule? ==> r == (rows, 1)
    ensures rule.GridRule? ==> r == (rows, cols)
  {
    match rule
    case GridRule => (rows, cols)
    case BarRule => (1, cols)
    case ColumnRule => (rows, 1)
  }

  /** Normalizing twice is normalizing once. */
  lemma NormalizeIdempotent(rule: ShapeRule, rows: int, cols: int)
    ensures var (r, c) := Normalize(rule, rows, cols); Normalize(rule, r, c) == (r, c)
  {
  }

  /** `NewShape`: a zero size gives `Shape{}` (the warning the source
      prints is not modelled); any other size gives a shape of the rule's
      type with the normalized size. */
  function NewShape(rule: ShapeRule, rows: int, cols: int): (s: Shape)
    ensures rows == 0 || cols == 0 ==> s == ZeroShape
    ensures rows != 0 && cols != 0 ==> s.shapeType == Type(rule) && (s.rows, s.cols) == Normalize(rule, rows, cols)
  {
    if rows == 0 || cols == 0 then ZeroShape
    else
      var (r, c) := Normalize(rule, rows, cols);
      Shape(Type(rule), c, r)
  }

  /** A new shape is already normal for its rule. */
  lemma NewShapeNormal(rule: ShapeRule, rows: int, cols: int)
    requires rows != 0 && cols != 0
    ensures var s := NewShape(rule, rows, cols); Normalize(rule, s.rows, s.cols) == (s.rows, s.cols)
  {
    NormalizeIdempotent(rule, rows, cols);
  }

  /** The errors of this file; `InvalidSize` is only raised by the
      corrected `AttachedChecked`. */
  datatype LayoutError =
    | CannotCombine(shape: ShapeType)
    | CannotAttach(shape: ShapeType, onto: ShapeType)
    | NoShapes
    | UnknownShape
    | NoContainers
    | InvalidSize

  /** The type of the first shape the rule cannot attach to, if any. */
  function FirstClash(rule: ShapeRule, shapes: seq<Shape>): (r: Option<ShapeType>)
    ensures r.None? <==> forall i :: 0 <= i < |shapes| ==> CanAttach(rule, shapes[i].shapeType)
    ensures r.Some? ==> exists i :: (0 <= i < |shapes| && shapes[i].shapeType == r.value && !CanAttach(rule, r.value)
                                     && forall j :: 0 <= j < i ==> CanAttach(rule, shapes[j].shapeType))
  {
    if shapes == [] then None
    else if !CanAttach(rule, shapes[0].shapeType) then Some(shapes[0].shapeType)
    else
      var rest := FirstClash(rule, shapes[1..]);
      assert forall i :: 1 <= i < |shapes| ==> shapes[i] == shapes[1..][i - 1];
      if rest.Some? then
        ghost var i :| 0 <= i < |shapes[1..]| && shapes[1..][i].shapeType == rest.value && !CanAttach(rule, rest.value)
                       && forall j :: 0 <= j < i ==> CanAttach(rule, shapes[1..][j].shapeType);
        assert shapes[i + 1].shapeType == rest.value;
        rest
      else rest
  }

  /** The shapes after `Attach`, or its error: a grid refuses any
      company, every existing shape must accept the rule, and then the new
      shape is appended. */
  function Attached(rule: ShapeRule, shapes: seq<Shape>, rows: int, cols: int): (r: Result<seq<Shape>, LayoutError>)
    ensures r.Success? <==> (AllowMultiple(rule) || shapes == []) && FirstClash(rule, shapes).None?
    ensures r.Success? ==> r.value == shapes + [NewShape(rule, rows, cols)]
  {
    if !AllowMultiple(rule) && |shapes| > 0 then Failure(CannotCombine(Type(rule)))
    else match FirstClash(rule, shapes)
      case Some(t) => Failure(CannotAttach(Type(rule), t))
      case None => Success(shapes + [NewShape(rule, rows, cols)])
  }

  /** A container's shapes are all of one type, and a grid is alone. */
  predicate SingleType(shapes: seq<Shape>) {
    (forall i :: 0 <= i < |shapes| ==> shapes[i].shapeType == shapes[0].shapeType)
    && (|shapes| > 0 && shapes[0].shapeType == Grid ==> |shapes| == 1)
  }

  /** With a non-zero size, attaching keeps a container single-typed. */
  lemma AttachedKeepsSingleType(rule: ShapeRule, shapes: seq<Shape>, rows: int, cols: int)
    requires SingleType(shapes) && rows != 0 && cols != 0
    requires Attached(rule, shapes, rows, cols).Success?
    ensures SingleType(Attached(rule, shapes, rows, cols).value)
  {
    var s := Attached(rule, shapes, rows, cols).value;
    if shapes != [] {
      assert CanAttach(rule, shapes[0].shapeType);
    }
  }

  /** As written, a zero-size bar joins a bar container as a 0 x 0 grid:
      the container is no longer single-typed, and the next bar is
      refused because it cannot attach to a grid. */
  lemma AttachZeroPoisons()
    ensures var bars := [Shape(Bar, 5, 1)];
            var after := Attached(BarRule, bars, 0, 5);
            SingleType(bars) && after == Success([Shape(Bar, 5, 1), ZeroShape]) && !SingleType(after.value)
            && Attached(BarRule, after.value, 1, 5) == Failure(CannotAttach(Bar, Grid))
  {
    var bars := [Shape(Bar, 5, 1)];
    assert FirstClash(BarRule, bars[1..]) == None;
    assert Attached(BarRule, bars, 0, 5) == Success(bars + [ZeroShape]);
    var after := [Shape(Bar, 5, 1), ZeroShape];
    assert bars + [ZeroShape] == after;
    assert after[1].shapeType != after[0].shapeType;
    assert after[1..] == [ZeroShape];
    assert FirstClash(BarRule, after[1..]) == Some(Grid);
  }

  /** `Attach` refusing a zero size instead of appending `Shape{}`. */
  function AttachedChecked(rule: ShapeRule, shapes: seq<Shape>, rows: int, cols: int): (r: Result<seq<Shape>, LayoutError>)
    ensures rows == 0 || cols == 0 ==> r == Failure(InvalidSize)
    ensures rows != 0 && cols != 0 ==> r == Attached(rule, shapes, rows, cols)
  {
    if rows == 0 || cols == 0 then Failure(InvalidSize) else Attached(rule, shapes, rows, cols)
  }

  /** With the check, every successful attach keeps a container
      single-typed. */
  lemma AttachedCheckedKeepsSingleType(rule: ShapeRule, shapes: seq<Shape>, rows: int, cols: int)
    requires SingleType(shapes)
    requires AttachedChecked(rule, shapes, rows, cols).Success?
    ensures SingleType(AttachedChecked(rule, shapes, rows, cols).value)
  {
    AttachedKeepsSingleType(rule, shapes, rows, cols);
  }

  /** The total height of a stack of shapes. */
  function SumRows(shapes: seq<Shape>): int {
    if shapes == [] then 0 else SumRows(shapes[..|shapes| - 1]) + shapes[|shapes| - 1].rows
  }

  /** `Dimensions` as a value: a grid's own size, a bar stack's count and
      first width, a column stack's total height and width 1; an empty
      container and an unknown first type are errors. */
  function Dims(shapes: seq<Shape>): (r: Result<(int, int), LayoutError>)
    ensures shapes == [] <==> r == Failure(NoShapes)
    ensures r.Failure? ==> r.error == NoShapes || r.error == UnknownShape
    ensures r.Failure? && shapes != [] ==> !(Grid <= shapes[0].shapeType <= Column)
  {
    if |shapes| == 0 then Failure(NoShapes)
    else if shapes[0].shapeType == Grid then Success((shapes[0].rows, shapes[0].cols))
    else if shapes[0].shapeType == Bar then Success((|shapes|, shapes[0].cols))
    else if shapes[0].shapeType == Column then Success((SumRows(shapes), 1))
    else Failure(UnknownShape)
  }

  /** Stacking one more column adds its height; stacking one more bar
      adds one row and keeps the width. */
  lemma AttachGrowsStack(rule: ShapeRule, shapes: seq<Shape>, rows: int, cols: int)
    requires shapes != [] && rows != 0 && cols != 0
    requires Attached(rule, shapes, rows, cols).Success?
    ensures rule.ColumnRule? ==> Dims(Attached(rule, shapes, rows, cols).value) == Success((SumRows(shapes) + rows, 1))
    ensures rule.BarRule? ==> Dims(Attached(rule, shapes, rows, cols).value) == Success((|shapes| + 1, shapes[0].cols))
  {
    var s := shapes + [NewShape(rule, rows, cols)];
    assert Attached(rule, shapes, rows, cols).value == s;
    assert s[0] == shapes[0];
    assert CanAttach(rule, shapes[0].shapeType);
    if rule.ColumnRule? {
      assert s[..|s| - 1] == shapes;
      assert SumRows(s) == SumRows(shapes) + rows;
    }
  }

  class Container {
    var shapes: seq<Shape>

    constructor ()
      ensures shapes == []
    {
      shapes := [];
    }

    /** `Attach`: the rule checks of `Attached`, in the source's order;
        the first shape the rule refuses names the error. */
    method Attach(rule: ShapeRule, rows: int, cols: int) returns (err: Option<LayoutError>)
      modifies this
      ensures err.None? ==> Attached(rule, old(shapes), rows, cols) == Success(shapes)
      ensures err.Some? ==> Attached(rule, old(shapes), rows, cols) == Failure(err.value) && shapes == old(shapes)
    {
      if !AllowMultiple(rule) && |shapes| > 0 {
        return Some(CannotCombine(Type(rule)));
      }
      var i := 0;
      while i < |shapes|
        invariant 0 <= i <= |shapes|
        invariant FirstClash(rule, shapes) == FirstClash(rule, shapes[i..])
      {
        if !CanAttach(rule, shapes[i].shapeType) {
          return Some(CannotAttach(Type(rule), shapes[i].shapeType));
        }
        assert shapes[i..][1..] == shapes[i + 1..];
        i := i + 1;
      }
      shapes := shapes + [NewShape(rule, rows, cols)];
      return None;
    }

    /** `Dimensions`, with the column heights summed by a loop. */
    method Dimensions() returns (rows: int, cols: int, err: Option<LayoutError>)
      ensures err.None? ==> Dims(shapes) == Success((rows, cols))
      ensures err.Some? ==> Dims(shapes) == Failure(err.value) && rows == 0 && cols == 0
    {
      if |shapes| == 0 {
        return 0, 0, Some(NoShapes);
      }
      var first := shapes[0].shapeType;
      if first == Grid {
        return shapes[0].rows, shapes[0].cols, None;
      } else if first == Bar {
        return |shapes|, shapes[0].cols, None;
      } else if first == Column {
        rows := 0;
        var i := 0;
        while i < |shapes|
          invariant 0 <= i <= |shapes|
          invariant rows == SumRows(shapes[..i])
        {
          assert shapes[..i + 1][..i] == shapes[..i];
          rows := rows + shapes[i].rows;
          i := i + 1;
        }
        assert shapes[..i] == shapes;
        return rows, 1, None;
      }
      return 0, 0, Some(UnknownShape);
    }
  }

  /** A layout section's size; `Connect` never fills `Items`. */
  datatype Block = Block(items: seq<WidgetGraph.Item>, rows: int, cols: int)

  /** The blocks of the given containers' shapes in order, or the error of
      the first container whose dimensions fail. */
  function Collect(cs: seq<seq<Shape>>): Result<seq<Block>, LayoutError> {
    if cs == [] then Success([])
    else
      match Collect(cs[..|cs| - 1])
      case Failure(e) => Failure(e)
      case Success(bs) =>
        match Dims(cs[|cs| - 1])
        case Failure(e) => Failure(e)
        case Success((rows, cols)) => Success(bs + [Block([], rows, cols)])
  }

  /** `Collect` succeeds exactly when every container has dimensions, with
      one block per container in order; otherwise it reports the first
      container's error. */
  lemma {:induction false} CollectMeaning(cs: seq<seq<Shape>>)
    ensures Collect(cs).Success? <==> forall i :: 0 <= i < |cs| ==> Dims(cs[i]).Success?
    ensures Collect(cs).Success? ==> |Collect(cs).value| == |cs| && forall i :: 0 <= i < |cs| ==>
      Collect(cs).value[i] == Block([], Dims(cs[i]).value.0, Dims(cs[i]).value.1)
    ensures Collect(cs).Failure? ==> exists i :: (0 <= i < |cs| && Dims(cs[i]) == Failure(Collect(cs).error)
                                                 && forall j :: 0 <= j < i ==> Dims(cs[j]).Success?)
  {
    if cs != [] {
      var front := cs[..|cs| - 1];
      CollectMeaning(front);
      assert forall i :: 0 <= i < |front| ==> front[i] == cs[i];
    }
  }

  /** `Connect` as a value: the blocks, or the first error, or an error
      when there are no containers at all. */
  function LaidOut(cs: seq<seq<Shape>>): Result<seq<Block>, LayoutError> {
    match Collect(cs)
    case Failure(e) => Failure(e)
    case Success(bs) => if |bs| == 0 then Failure(NoContainers) else Success(bs)
  }

  /** `Connect` succeeds exactly when some section is set and every set
      section has dimensions; it then has one block per set section, and
      with no section set it reports that. */
  lemma LaidOutMeaning(cs: seq<seq<Shape>>)
    ensures LaidOut(cs).Success? <==> |cs| > 0 && forall i :: 0 <= i < |cs| ==> Dims(cs[i]).Success?
    ensures LaidOut(cs).Success? ==> LaidOut(cs) == Collect(cs) && |LaidOut(cs).value| == |cs|
    ensures cs == [] ==> LaidOut(cs) == Failure(NoContainers)
  {
    CollectMeaning(cs);
  }

  class Layout {
    var header: Container?
    var body: Container?
    var footer: Container?

    constructor (header: Container?, body: Container?, footer: Container?)
      ensures this.header == header && this.body == body && this.footer == footer
    {
      this.header := header;
      this.body := body;
      this.footer := footer;
    }

    /** The sections, header first, each with its shapes or nil. */
    function Sections(): seq<Option<seq<Shape>>>
      reads this, header, body, footer
      ensures |Sections()| == 3
    {
      [ShapesOf(header), ShapesOf(body), ShapesOf(footer)]
    }

    /** `Connect`: the sections in order, nil ones skipped, each turned
        into a block by `Dimensions`; the first error ends the loop. */
    method Connect() returns (r: Result<seq<Block>, LayoutError>)
      ensures r == LaidOut(Present(Sections()))
    {
      var containers := [header, body, footer];
      ghost var sections := Sections();
      var blocks: seq<Block> := [];
      var i := 0;
      while i < |containers|
        invariant 0 <= i <= |containers|
        invariant Collect(Present(sections[..i])) == Success(blocks)
      {
        var c := containers[i];
        ConnectStep(sections, i, blocks);
        if c == null {
          i := i + 1;
          continue;
        }
        assert sections[i] == Some(c.shapes);
        var rows, cols, err := c.Dimensions();
        if err.Some? {
          FailureStays(sections, i);
          return Failure(err.value);
        }
        blocks := blocks + [Block([], rows, cols)];
        i := i + 1;
      }
      ConnectDone(sections, blocks);
      return if |blocks| == 0 then Failure(NoContainers) else Success(blocks);
    }
  }

  /** One pass of `Connect`'s loop: a nil section adds nothing, a set one
      adds its block or ends with its error. */
  lemma ConnectStep(sections: seq<Option<seq<Shape>>>, i: int, blocks: seq<Block>)
    requires 0 <= i < |sections|
    requires Collect(Present(sections[..i])) == Success(blocks)
    ensures sections[i].None? ==> Collect(Present(sections[..i + 1])) == Success(blocks)
    ensures sections[i].Some? ==> (Collect(Present(sections[..i + 1])) ==
      match Dims(sections[i].value)
      case Failure(e) => Failure(e)
      case Success(d) => Success(blocks + [Block([], d.0, d.1)]))
  {
    PresentNext(sections, i);
    if sections[i].None? {
      assert Present(sections[..i + 1]) == Present(sections[..i]) + [];
      assert Present(sections[..i]) + [] == Present(sections[..i]);
    } else {
      CollectNext(Present(sections[..i]), sections[i].value);
    }
  }

  /** After the loop: no blocks is an error, otherwise the blocks. */
  lemma ConnectDone(sections: seq<Option<seq<Shape>>>, blocks: seq<Block>)
    requires Collect(Present(sections[..|sections|])) == Success(blocks)
    ensures LaidOut(Present(sections)) == if |blocks| == 0 then Failure(NoContainers) else Success(blocks)
  {
    assert sections[..|sections|] == sections;
  }

  /** A section: nil, or its container's shapes. */
  function ShapesOf(c: Container?): (r: Option<seq<Shape>>)
    reads c
    ensures r.None? <==> c == null
    ensures c != null ==> r.value == c.shapes
  {
    if c == null then None else Some(c.shapes)
  }

  /** The shapes of the sections that are set, in order. */
  function Present(cs: seq<Option<seq<Shape>>>): seq<seq<Shape>> {
    if cs == [] then []
    else Present(cs[..|cs| - 1]) + (if cs[|cs| - 1].Some? then [cs[|cs| - 1].value] else [])
  }

  lemma PresentNext(cs: seq<Option<seq<Shape>>>, i: int)
    requires 0 <= i < |cs|
    ensures Present(cs[..i + 1]) == Present(cs[..i]) + (if cs[i].Some? then [cs[i].value] else [])
  {
    assert cs[..i + 1][..i] == cs[..i];
  }

  lemma {:induction false} PresentSplit(cs: seq<Option<seq<Shape>>>, i: int)
    requires 0 <= i <= |cs|
    ensures Present(cs) == Present(cs[..i]) + Present(cs[i..])
    decreases |cs|
  {
    if i < |cs| {
      var n := |cs| - 1;
      PresentSplit(cs[..n], i);
      assert cs[..n][..i] == cs[..i];
      assert cs[i..][..|cs[i..]| - 1] == cs[..n][i..];
    } else {
      assert cs[..i] == cs;
    }
  }

  /** A section whose dimensions fail decides the outcome of all. */
  lemma FailureStays(cs: seq<Option<seq<Shape>>>, i: int)
    requires 0 <= i < |cs|
    requires Collect(Present(cs[..i + 1])).Failure?
    ensures LaidOut(Present(cs)) == Collect(Present(cs[..i + 1]))
  {
    PresentSplit(cs, i + 1);
    CollectFailureStays(Present(cs[..i + 1]), Present(cs[i + 1..]));
  }

  /** One more container extends the blocks or reports its error. */
  lemma CollectNext(cs: seq<seq<Shape>>, x: seq<Shape>)
    ensures Collect(cs + [x]) ==
      match Collect(cs)
      case Failure(e) => Failure(e)
      case Success(bs) =>
        match Dims(x)
        case Failure(e) => Failure(e)
        case Success(d) => Success(bs + [Block([], d.0, d.1)])
  {
    assert (cs + [x])[..|cs|] == cs;
  }

  /** Once a prefix fails, the first error stays. */
  lemma {:induction false} CollectFailureStays(a: seq<seq<Shape>>, b: seq<seq<Shape>>)
    requires Collect(a).Failure?
    ensures Collect(a + b) == Collect(a)
    decreases |b|
  {
    if b != [] {
      var n := |b| - 1;
      CollectFailureStays(a, b[..n]);
      assert (a + b)[..|a + b| - 1] == a + b[..n];
    } else {
      assert a + b == a;
    }
  }
}
