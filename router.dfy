/** Orthogonal connector routing between two anchors around rectangular obstacles
    (`routeOrthogonalPath` and its helpers, src/utils/GeometryUtils.js:153-458): the bounds of the
    scene, the grid laid over it, the blocked cells, the A* search on that grid, the fall-back elbow
    and the SVG path text of a route. */
module Router {
  import opened Options
  import opened Geometry
  import opened PathSimplify
  import opened AStar
  import opened JsString

  const DefaultGridSize: real := 14.0
  const DefaultMargin: real := 80.0
  const DefaultStubLength: real := 14.0

  // ---------------------------------------------------------------- bounds

  datatype Bounds = Bounds(minX: real, minY: real, maxX: real, maxY: real, width: real, height: real)

  /** `Math.min(...xs)` of a non-empty list. */
  function SeqMin(xs: seq<real>): (m: real)
    requires |xs| >= 1
    ensures m in xs && forall x :: x in xs ==> m <= x
    decreases |xs|
  {
    if |xs| == 1 then xs[0]
    else
      var rest := SeqMin(xs[..|xs| - 1]);
      assert xs == xs[..|xs| - 1] + [xs[|xs| - 1]];
      Min(rest, xs[|xs| - 1])
  }

  /** `Math.max(...xs)` of a non-empty list. */
  function SeqMax(xs: seq<real>): (m: real)
    requires |xs| >= 1
    ensures m in xs && forall x :: x in xs ==> m >= x
    decreases |xs|
  {
    if |xs| == 1 then xs[0]
    else
      var rest := SeqMax(xs[..|xs| - 1]);
      assert xs == xs[..|xs| - 1] + [xs[|xs| - 1]];
      Max(rest, xs[|xs| - 1])
  }

  /** Both horizontal edges of every box, in order. */
  function EdgeXs(boxes: seq<Rect>): (r: seq<real>)
    ensures forall i :: 0 <= i < |boxes| ==> boxes[i].x in r && boxes[i].x + boxes[i].width in r
    decreases |boxes|
  {
    if |boxes| == 0 then []
    else
      var n := |boxes| - 1;
      assert forall i :: 0 <= i < n ==> boxes[..n][i] == boxes[i];
      EdgeXs(boxes[..n]) + [boxes[n].x, boxes[n].x + boxes[n].width]
  }

  /** Both vertical edges of every box, in order. */
  function EdgeYs(boxes: seq<Rect>): (r: seq<real>)
    ensures forall i :: 0 <= i < |boxes| ==> boxes[i].y in r && boxes[i].y + boxes[i].height in r
    decreases |boxes|
  {
    if |boxes| == 0 then []
    else
      var n := |boxes| - 1;
      assert forall i :: 0 <= i < n ==> boxes[..n][i] == boxes[i];
      EdgeYs(boxes[..n]) + [boxes[n].y, boxes[n].y + boxes[n].height]
  }

  /** The horizontal coordinates `buildBounds` collects: every point, then both edges of every box. */
  function BoundXs(points: seq<Point>, obstacles: seq<Rect>): (xs: seq<real>)
    ensures forall i :: 0 <= i < |points| ==> points[i].x in xs
    ensures forall i :: 0 <= i < |obstacles| ==> obstacles[i].x in xs && obstacles[i].x + obstacles[i].width in xs
  {
    var px := seq(|points|, i requires 0 <= i < |points| => points[i].x);
    assert forall i :: 0 <= i < |points| ==> px[i] == points[i].x;
    px + EdgeXs(obstacles)
  }

  /** The vertical coordinates `buildBounds` collects. */
  function BoundYs(points: seq<Point>, obstacles: seq<Rect>): (ys: seq<real>)
    ensures forall i :: 0 <= i < |points| ==> points[i].y in ys
    ensures forall i :: 0 <= i < |obstacles| ==> obstacles[i].y in ys && obstacles[i].y + obstacles[i].height in ys
  {
    var py := seq(|points|, i requires 0 <= i < |points| => points[i].y);
    assert forall i :: 0 <= i < |points| ==> py[i] == points[i].y;
    py + EdgeYs(obstacles)
  }

  /** `buildBounds`: the box from the least to the greatest coordinate of the points and obstacles,
      grown by `margin` on every side. */
  function BuildBounds(points: seq<Point>, obstacles: seq<Rect>, margin: real): (b: Bounds)
    requires |points| >= 1
    ensures b.width == b.maxX - b.minX && b.height == b.maxY - b.minY
    ensures b.minX + margin == SeqMin(BoundXs(points, obstacles)) && b.maxX - margin == SeqMax(BoundXs(points, obstacles))
    ensures b.minY + margin == SeqMin(BoundYs(points, obstacles)) && b.maxY - margin == SeqMax(BoundYs(points, obstacles))
  {
    var xs, ys := BoundXs(points, obstacles), BoundYs(points, obstacles);
    var minX, maxX := SeqMin(xs) - margin, SeqMax(xs) + margin;
    var minY, maxY := SeqMin(ys) - margin, SeqMax(ys) + margin;
    Bounds(minX, minY, maxX, maxY, maxX - minX, maxY - minY)
  }

  /** Every point and every obstacle lies at least `margin` inside the bounds. */
  lemma BoundsEnclose(points: seq<Point>, obstacles: seq<Rect>, margin: real)
    requires |points| >= 1
    ensures var b := BuildBounds(points, obstacles, margin);
            (forall i :: 0 <= i < |points| ==>
               b.minX + margin <= points[i].x <= b.maxX - margin && b.minY + margin <= points[i].y <= b.maxY - margin)
            && (forall i :: 0 <= i < |obstacles| ==>
                  b.minX + margin <= obstacles[i].x && obstacles[i].x + obstacles[i].width <= b.maxX - margin
                  && b.minY + margin <= obstacles[i].y && obstacles[i].y + obstacles[i].height <= b.maxY - margin)
  {
    var xs, ys := BoundXs(points, obstacles), BoundYs(points, obstacles);
    var lx, hx, ly, hy := SeqMin(xs), SeqMax(xs), SeqMin(ys), SeqMax(ys);
    forall i | 0 <= i < |points|
      ensures lx <= points[i].x <= hx && ly <= points[i].y <= hy
    {
      assert points[i].x in xs && points[i].y in ys;
    }
    forall i | 0 <= i < |obstacles|
      ensures lx <= obstacles[i].x && obstacles[i].x + obstacles[i].width <= hx
      ensures ly <= obstacles[i].y && obstacles[i].y + obstacles[i].height <= hy
    {
      assert obstacles[i].x in xs && obstacles[i].x + obstacles[i].width in xs;
      assert obstacles[i].y in ys && obstacles[i].y + obstacles[i].height in ys;
    }
  }

  // ---------------------------------------------------------------- the grid

  /** `Math.round`: the nearest integer, halves rounded up. */
  function Round(v: real): (r: int)
    ensures r as real - 0.5 <= v < r as real + 0.5
  {
    (v + 0.5).Floor
  }

  /** `Math.ceil`. */
  function Ceil(v: real): (r: int)
    ensures v <= r as real < v + 1.0
  {
    -((-v).Floor)
  }

  /** `toCell`: the grid cell nearest to a point. */
  function ToCell(p: Point, bounds: Bounds, gridSize: real): Cell
    requires gridSize > 0.0
  {
    Cell(Round((p.x - bounds.minX) / gridSize), Round((p.y - bounds.minY) / gridSize))
  }

  /** `fromCell`: the point a grid cell stands for. */
  function FromCell(c: Cell, bounds: Bounds, gridSize: real): Point {
    Point(bounds.minX + c.cx as real * gridSize, bounds.minY + c.cy as real * gridSize)
  }

  lemma DivideBack(a: real, g: real)
    requires g > 0.0
    ensures (a * g) / g == a
  {
  }

  lemma MultiplyBack(a: real, g: real)
    requires g > 0.0
    ensures (a / g) * g == a
  {
  }

  lemma RoundExact(n: int)
    ensures Round(n as real) == n
  {
  }

  lemma SnapExact(v: real, n: int, minV: real, gridSize: real)
    requires gridSize > 0.0 && v == minV + n as real * gridSize
    ensures Round((v - minV) / gridSize) == n
  {
    assert v - minV == n as real * gridSize;
    DivideBack(n as real, gridSize);
    assert (v - minV) / gridSize == n as real;
    RoundExact(n);
  }

  /** The point of a cell lies in that cell: `toCell` undoes `fromCell`. */
  lemma ToCellOfFromCell(c: Cell, bounds: Bounds, gridSize: real)
    requires gridSize > 0.0
    ensures ToCell(FromCell(c, bounds, gridSize), bounds, gridSize) == c
  {
    var p := FromCell(c, bounds, gridSize);
    SnapExact(p.x, c.cx, bounds.minX, gridSize);
    SnapExact(p.y, c.cy, bounds.minY, gridSize);
  }

  lemma ScaleHalf(d: real, g: real)
    requires g > 0.0 && -0.5 < d <= 0.5
    ensures Abs(d * g) <= g / 2.0
  {
    if d >= 0.0 {
      assert d * g <= 0.5 * g;
    } else {
      assert -d * g < 0.5 * g;
    }
  }

  lemma Distribute(r: real, q: real, g: real)
    ensures (r - q) * g == r * g - q * g
  {
  }

  lemma SnapOne(v: real, minV: real, gridSize: real, n: int)
    requires gridSize > 0.0 && n == Round((v - minV) / gridSize)
    ensures Abs(minV + n as real * gridSize - v) <= gridSize / 2.0
  {
    var q := (v - minV) / gridSize;
    var r := n as real;
    MultiplyBack(v - minV, gridSize);
    Distribute(r, q, gridSize);
    ScaleHalf(r - q, gridSize);
    assert minV + r * gridSize - v == (r - q) * gridSize;
  }

  /** Snapping a point to the grid moves each coordinate by at most half a cell. */
  lemma FromCellOfToCell(p: Point, bounds: Bounds, gridSize: real)
    requires gridSize > 0.0
    ensures var q := FromCell(ToCell(p, bounds, gridSize), bounds, gridSize);
            Abs(q.x - p.x) <= gridSize / 2.0 && Abs(q.y - p.y) <= gridSize / 2.0
  {
    var c := ToCell(p, bounds, gridSize);
    SnapOne(p.x, bounds.minX, gridSize, c.cx);
    SnapOne(p.y, bounds.minY, gridSize, c.cy);
  }

  /** The number of grid columns (or rows) over an extent: `Math.max(2, Math.ceil(extent / gridSize) + 1)`. */
  function GridSpan(extent: real, gridSize: real): (n: nat)
    requires gridSize > 0.0
    ensures n >= 2 && n >= Ceil(extent / gridSize) + 1
    ensures n == 2 || n == Ceil(extent / gridSize) + 1
  {
    if Ceil(extent / gridSize) + 1 > 2 then Ceil(extent / gridSize) + 1 else 2
  }

  lemma DivideMonotone(a: real, b: real, g: real)
    requires g > 0.0 && a <= b
    ensures a / g <= b / g
  {
    var inv := 1.0 / g;
    assert a / g == a * inv && b / g == b * inv;
    assert (b - a) * inv >= 0.0;
  }

  lemma SnapInSpan(v: real, minV: real, extent: real, gridSize: real)
    requires gridSize > 0.0 && minV <= v <= minV + extent
    ensures 0 <= Round((v - minV) / gridSize) < GridSpan(extent, gridSize)
  {
    DivideMonotone(0.0, v - minV, gridSize);
    DivideMonotone(v - minV, extent, gridSize);
    assert 0.0 / gridSize == 0.0;
  }

  /** A point inside the bounds snaps to a cell of the grid. */
  lemma CellInGrid(p: Point, bounds: Bounds, gridSize: real)
    requires gridSize > 0.0
    requires bounds.width == bounds.maxX - bounds.minX && bounds.height == bounds.maxY - bounds.minY
    requires bounds.minX <= p.x <= bounds.maxX && bounds.minY <= p.y <= bounds.maxY
    ensures var c := ToCell(p, bounds, gridSize);
            InGrid(c.cx, c.cy, GridSpan(bounds.width, gridSize), GridSpan(bounds.height, gridSize))
  {
    SnapInSpan(p.x, bounds.minX, bounds.width, gridSize);
    SnapInSpan(p.y, bounds.minY, bounds.height, gridSize);
  }

  // ---------------------------------------------------------------- blocked cells and their penalty

  /** `paddedObstacles.some((obstacle) => pointInRect(point, obstacle))`. */
  function AnyContains(rects: seq<Rect>, p: Point): (r: bool)
    ensures r <==> exists i :: 0 <= i < |rects| && PointInRect(p, rects[i])
    decreases |rects|
  {
    if |rects| == 0 then false
    else
      var rest := AnyContains(rects[..|rects| - 1], p);
      assert forall i :: 0 <= i < |rects| - 1 ==> rects[..|rects| - 1][i] == rects[i];
      rest || PointInRect(p, rects[|rects| - 1])
  }

  /** The loop of `routeOrthogonalPath` that marks every grid cell whose point lies in a padded obstacle. */
  method BlockedCells(padded: seq<Rect>, bounds: Bounds, gridSize: real, columns: nat, rows: nat)
    returns (blocked: set<Cell>)
    ensures forall c :: c in blocked <==>
              InGrid(c.cx, c.cy, columns, rows) && AnyContains(padded, FromCell(c, bounds, gridSize))
  {
    blocked := {};
    for cx := 0 to columns
      invariant forall c :: c in blocked <==>
                  InGrid(c.cx, c.cy, columns, rows) && c.cx < cx && AnyContains(padded, FromCell(c, bounds, gridSize))
    {
      for cy := 0 to rows
        invariant forall c :: c in blocked <==>
                    InGrid(c.cx, c.cy, columns, rows) && (c.cx < cx || (c.cx == cx && c.cy < cy))
                    && AnyContains(padded, FromCell(c, bounds, gridSize))
      {
        var point := FromCell(Cell(cx, cy), bounds, gridSize);
        if AnyContains(padded, point) {
          blocked := blocked + {Cell(cx, cy)};
        }
      }
    }
  }

  /** What one blocked neighbour adds to the cost of entering a cell. */
  const NeighbourPenalty: real := 0.14

  /** Cell `(x, y)` is a blocked grid cell around `(cx, cy)` other than `(cx, cy)` itself. */
  predicate CountsAt(blocked: set<Cell>, columns: int, rows: int, cx: int, cy: int, x: int, y: int) {
    !(x < 0 || y < 0 || x >= columns || y >= rows || (x == cx && y == cy)) && Cell(x, y) in blocked
  }

  /** Blocked neighbours in column `x`, rows `cy - 1` up to (not including) `yEnd`. */
  function ColumnCount(blocked: set<Cell>, columns: int, rows: int, cx: int, cy: int, x: int, yEnd: int): nat
    requires cy - 1 <= yEnd
    decreases yEnd - cy
  {
    if yEnd == cy - 1 then 0
    else ColumnCount(blocked, columns, rows, cx, cy, x, yEnd - 1) + (if CountsAt(blocked, columns, rows, cx, cy, x, yEnd - 1) then 1 else 0)
  }

  /** Blocked neighbours in columns `cx - 1` up to (not including) `xEnd`. */
  function AreaCount(blocked: set<Cell>, columns: int, rows: int, cx: int, cy: int, xEnd: int): nat
    requires cx - 1 <= xEnd
    decreases xEnd - cx
  {
    if xEnd == cx - 1 then 0
    else AreaCount(blocked, columns, rows, cx, cy, xEnd - 1) + ColumnCount(blocked, columns, rows, cx, cy, xEnd - 1, cy + 2)
  }

  lemma {:induction false} ColumnBound(blocked: set<Cell>, columns: int, rows: int, cx: int, cy: int, x: int)
    ensures ColumnCount(blocked, columns, rows, cx, cy, x, cy + 2) <= if x == cx then 2 else 3
  {
    assert ColumnCount(blocked, columns, rows, cx, cy, x, cy - 1) == 0;
    assert ColumnCount(blocked, columns, rows, cx, cy, x, cy) <= 1;
    assert !CountsAt(blocked, columns, rows, cx, cy, cx, cy);
    assert ColumnCount(blocked, columns, rows, cx, cy, x, cy + 1) <= if x == cx then 1 else 2;
  }

  /** At most the eight neighbours count. */
  lemma {:induction false} NeighbourBound(blocked: set<Cell>, columns: int, rows: int, cx: int, cy: int)
    ensures AreaCount(blocked, columns, rows, cx, cy, cx + 2) <= 8
  {
    ColumnBound(blocked, columns, rows, cx, cy, cx - 1);
    ColumnBound(blocked, columns, rows, cx, cy, cx);
    ColumnBound(blocked, columns, rows, cx, cy, cx + 1);
    assert AreaCount(blocked, columns, rows, cx, cy, cx) == ColumnCount(blocked, columns, rows, cx, cy, cx - 1, cy + 2);
    assert AreaCount(blocked, columns, rows, cx, cy, cx + 1)
        == AreaCount(blocked, columns, rows, cx, cy, cx) + ColumnCount(blocked, columns, rows, cx, cy, cx, cy + 2);
  }

  /** The cost `createCellPenaltyGetter` adds for entering `(cx, cy)`: 0.14 per blocked neighbour in the
      grid, so between 0 and 8 × 0.14. */
  function CellPenalty(blocked: set<Cell>, columns: int, rows: int, cx: int, cy: int): (p: real)
    ensures 0.0 <= p <= 8.0 * NeighbourPenalty
  {
    NeighbourBound(blocked, columns, rows, cx, cy);
    NeighbourPenalty * AreaCount(blocked, columns, rows, cx, cy, cx + 2) as real
  }

  /** The getter `createCellPenaltyGetter` returns, with its two loops over the 3 × 3 neighbourhood. */
  method CellPenaltyAt(blocked: set<Cell>, columns: int, rows: int, cx: int, cy: int) returns (penalty: real)
    ensures penalty == CellPenalty(blocked, columns, rows, cx, cy)
  {
    penalty := 0.0;
    var x := cx - 1;
    while x <= cx + 1
      invariant cx - 1 <= x <= cx + 2
      invariant penalty == NeighbourPenalty * AreaCount(blocked, columns, rows, cx, cy, x) as real
    {
      var y := cy - 1;
      while y <= cy + 1
        invariant cy - 1 <= y <= cy + 2
        invariant penalty == NeighbourPenalty * (AreaCount(blocked, columns, rows, cx, cy, x) + ColumnCount(blocked, columns, rows, cx, cy, x, y)) as real
      {
        if x < 0 || y < 0 || x >= columns || y >= rows || (x == cx && y == cy) {
        } else if Cell(x, y) in blocked {
          penalty := penalty + NeighbourPenalty;
        }
        y := y + 1;
      }
      x := x + 1;
    }
  }

  // ---------------------------------------------------------------- stubs

  function Position(a: Anchor): Point {
    Point(a.x, a.y)
  }

  /** `buildStubPoint`: the anchor moved `length` units along its normal; none for a bare point. */
  function BuildStubPoint(anchor: Anchor, length: real): (r: Option<Anchor>)
    ensures r.None? <==> anchor.side.None? || anchor.normal.None?
    ensures r.Some? ==> r.value.side == anchor.side && r.value.normal == anchor.normal
  {
    if anchor.side.None? || anchor.normal.None? then None
    else
      var n := anchor.normal.value;
      Some(Anchor(anchor.x + n.x * length, anchor.y + n.y * length, anchor.side, anchor.normal))
  }

  /** On a side anchor the stub lies `length` units straight out from the box. */
  lemma StubLeavesOutward(anchor: Anchor, length: real)
    requires anchor.side.Some? && anchor.normal == Some(SideNormal(anchor.side.value)) && length >= 0.0
    ensures var s := BuildStubPoint(anchor, length).value;
            var n := anchor.normal.value;
            Abs(s.x - anchor.x) + Abs(s.y - anchor.y) == length
            && (s.x - anchor.x) * n.x + (s.y - anchor.y) * n.y == length
  {
  }

  // ---------------------------------------------------------------- the route

  /** Everything `routeOrthogonalPath` derives from its arguments before searching. */
  datatype Frame = Frame(startStub: Option<Anchor>, endStub: Option<Anchor>,
                         routingStart: Point, routingEnd: Point,
                         padded: seq<Rect>, bounds: Bounds, columns: nat, rows: nat,
                         startCell: Cell, endCell: Cell)

  function RoutingPoint(a: Anchor, stub: Option<Anchor>): Point {
    if stub.Some? then Position(stub.value) else Position(a)
  }

  function MakeFrame(start: Anchor, end: Anchor, obstacles: seq<Rect>, gridSize: real,
                     obstaclePadding: real, stubLength: real): Frame
    requires gridSize > 0.0
  {
    var startStub := BuildStubPoint(start, stubLength);
    var endStub := BuildStubPoint(end, stubLength);
    var routingStart := RoutingPoint(start, startStub);
    var routingEnd := RoutingPoint(end, endStub);
    var padded := seq(|obstacles|, i requires 0 <= i < |obstacles| => InflateRect(obstacles[i], obstaclePadding));
    var bounds := BuildBounds([Position(start), Position(end), routingStart, routingEnd], padded, DefaultMargin);
    Frame(startStub, endStub, routingStart, routingEnd, padded, bounds,
          GridSpan(bounds.width, gridSize), GridSpan(bounds.height, gridSize),
          ToCell(routingStart, bounds, gridSize), ToCell(routingEnd, bounds, gridSize))
  }

  /** The grid holds at least 2 × 2 cells, both routing end points snap into it, and every padded
      obstacle lies inside the bounds. */
  lemma FrameFacts(start: Anchor, end: Anchor, obstacles: seq<Rect>, gridSize: real,
                   obstaclePadding: real, stubLength: real)
    requires gridSize > 0.0
    ensures var fr := MakeFrame(start, end, obstacles, gridSize, obstaclePadding, stubLength);
            fr.columns >= 2 && fr.rows >= 2
            && InGrid(fr.startCell.cx, fr.startCell.cy, fr.columns, fr.rows)
            && InGrid(fr.endCell.cx, fr.endCell.cy, fr.columns, fr.rows)
            && forall i :: 0 <= i < |fr.padded| ==>
                 fr.bounds.minX <= fr.padded[i].x && fr.padded[i].x + fr.padded[i].width <= fr.bounds.maxX
                 && fr.bounds.minY <= fr.padded[i].y && fr.padded[i].y + fr.padded[i].height <= fr.bounds.maxY
  {
    var fr := MakeFrame(start, end, obstacles, gridSize, obstaclePadding, stubLength);
    var pts := [Position(start), Position(end), fr.routingStart, fr.routingEnd];
    assert pts[2] == fr.routingStart && pts[3] == fr.routingEnd;
    BoundsEnclose(pts, fr.padded, DefaultMargin);
    CellInGrid(fr.routingStart, fr.bounds, gridSize);
    CellInGrid(fr.routingEnd, fr.bounds, gridSize);
  }

  /** The list `routeOrthogonalPath` simplifies: the start, its stub, the interior points, the end's stub
      and the end. */
  function Assemble(start: Anchor, end: Anchor, fr: Frame, interior: seq<Point>): seq<Point> {
    [Position(start)] + (if fr.startStub.Some? then [fr.routingStart] else []) + interior
    + (if fr.endStub.Some? then [fr.routingEnd] else []) + [Position(end)]
  }

  /** `slice(1, -1)`. */
  function Interior(s: seq<Point>): (r: seq<Point>)
    ensures |s| >= 2 ==> |r| == |s| - 2 && forall i :: 0 <= i < |r| ==> r[i] == s[i + 1]
    ensures |s| < 2 ==> r == []
  {
    if |s| >= 2 then s[1..|s| - 1] else []
  }

  /** The interior of the elbow used when the search finds nothing. */
  function FallbackInterior(fr: Frame): seq<Point> {
    Interior(Simplify([fr.routingStart, Point(fr.routingStart.x, fr.routingEnd.y), fr.routingEnd]))
  }

  function FallbackRoute(start: Anchor, end: Anchor, fr: Frame): seq<Point> {
    Simplify(Assemble(start, end, fr, FallbackInterior(fr)))
  }

  /** The elbow turns at `(routingStart.x, routingEnd.y)` exactly when the routing points are not aligned;
      otherwise it is a straight segment. */
  lemma FallbackElbow(fr: Frame)
    ensures var s, e := fr.routingStart, fr.routingEnd;
            FallbackInterior(fr) == if s.x != e.x && s.y != e.y then [Point(s.x, e.y)] else []
  {
    var s, e := fr.routingStart, fr.routingEnd;
    var corner := Point(s.x, e.y);
    var ps := [s, corner, e];
    assert ps[..2][..1] == [s];
    assert ps[..2] == [s, corner];
    if s.x != e.x && s.y != e.y {
      assert Compact(ps) == ps;
      assert Bend(s, corner, e);
    } else if corner == e {
      assert Compact(ps[..2]) == (if s != e then [s, e] else [s]);
    } else {
      assert corner == s;
      assert Compact(ps[..2]) == [s];
    }
  }

  /** A point of a found route other than the end points and their stubs: the point of a grid cell that
      no padded obstacle covers, or of the start or end cell. */
  predicate ClearGridPoint(fr: Frame, gridSize: real, p: Point)
    requires gridSize > 0.0
  {
    var c := ToCell(p, fr.bounds, gridSize);
    p == FromCell(c, fr.bounds, gridSize) && InGrid(c.cx, c.cy, fr.columns, fr.rows)
    && (c == fr.startCell || c == fr.endCell || !AnyContains(fr.padded, p))
  }

  predicate OnRoute(start: Anchor, end: Anchor, fr: Frame, gridSize: real, p: Point)
    requires gridSize > 0.0
  {
    p == Position(start) || p == Position(end)
    || (fr.startStub.Some? && p == fr.routingStart) || (fr.endStub.Some? && p == fr.routingEnd)
    || ClearGridPoint(fr, gridSize, p)
  }

  /** An upper bound on the expansions of the search: the number of search states on the grid. */
  function SearchFuel(columns: nat, rows: nat): nat {
    5 * columns * rows
  }

  lemma AssembledFacts(start: Anchor, end: Anchor, fr: Frame, interior: seq<Point>)
    ensures var r := Simplify(Assemble(start, end, fr, interior));
            |r| >= 2 && r[0] == Position(start) && r[|r| - 1] == Position(end)
            && forall p :: p in r ==> p in Assemble(start, end, fr, interior)
  {
    var list := Assemble(start, end, fr, interior);
    var r := Simplify(list);
    SimplifyFacts(list);
    forall p | p in r
      ensures p in list
    {
      SubseqMembers(r, list, p);
    }
  }

  /** The points of a found path of cells, with its first and last replaced by the routing points. */
  function PathPoints(cells: seq<Cell>, fr: Frame, gridSize: real): (points: seq<Point>)
    requires |cells| >= 1
    ensures |points| == |cells|
    ensures forall i :: 0 < i < |cells| - 1 ==> points[i] == FromCell(cells[i], fr.bounds, gridSize)
  {
    var points := seq(|cells|, i requires 0 <= i < |cells| => FromCell(cells[i], fr.bounds, gridSize));
    points[0 := fr.routingStart][|points| - 1 := fr.routingEnd]
  }

  /** The interior points of a path that avoids the blocked cells are clear grid points. */
  lemma InteriorClear(fr: Frame, gridSize: real, cells: seq<Cell>, blocked: set<Cell>)
    requires gridSize > 0.0 && |cells| >= 1
    requires forall c :: c in blocked <==>
               InGrid(c.cx, c.cy, fr.columns, fr.rows) && AnyContains(fr.padded, FromCell(c, fr.bounds, gridSize))
               && c != fr.startCell && c != fr.endCell
    requires forall i :: 1 <= i < |cells| ==>
               InGrid(cells[i].cx, cells[i].cy, fr.columns, fr.rows) && Cell(cells[i].cx, cells[i].cy) !in blocked
    ensures forall p :: p in Interior(PathPoints(cells, fr, gridSize)) ==> ClearGridPoint(fr, gridSize, p)
  {
    var interior := Interior(PathPoints(cells, fr, gridSize));
    forall p | p in interior
      ensures ClearGridPoint(fr, gridSize, p)
    {
      var k :| 0 <= k < |interior| && interior[k] == p;
      var c := cells[k + 1];
      assert c == Cell(c.cx, c.cy);
      assert p == FromCell(c, fr.bounds, gridSize);
      ToCellOfFromCell(c, fr.bounds, gridSize);
    }
  }

  lemma AssembledOnRoute(start: Anchor, end: Anchor, fr: Frame, gridSize: real, interior: seq<Point>)
    requires gridSize > 0.0
    requires forall p :: p in interior ==> ClearGridPoint(fr, gridSize, p)
    ensures forall p :: p in Assemble(start, end, fr, interior) ==> OnRoute(start, end, fr, gridSize, p)
  {
  }

  /** A route of at least two points from `a` to `b`. */
  predicate RunsBetween(route: seq<Point>, a: Point, b: Point) {
    |route| >= 2 && route[0] == a && route[|route| - 1] == b
  }

  /** `routeOrthogonalPath`. The route runs from `start` to `end`; unless it is the fall-back elbow, each
      of its points is an end point, a stub, or the point of a grid cell clear of the padded obstacles. */
  method RouteOrthogonalPath(start: Anchor, end: Anchor, obstacles: seq<Rect>, gridSize: real,
                             obstaclePadding: real, stubLength: real)
    returns (route: seq<Point>)
    requires gridSize > 0.0
    ensures RunsBetween(route, Position(start), Position(end))
    ensures var fr := MakeFrame(start, end, obstacles, gridSize, obstaclePadding, stubLength);
            route == FallbackRoute(start, end, fr)
            || forall p :: p in route ==> OnRoute(start, end, fr, gridSize, p)
  {
    var fr := MakeFrame(start, end, obstacles, gridSize, obstaclePadding, stubLength);
    FrameFacts(start, end, obstacles, gridSize, obstaclePadding, stubLength);
    var blocked := BlockedCells(fr.padded, fr.bounds, gridSize, fr.columns, fr.rows);
    blocked := blocked - {fr.startCell} - {fr.endCell};
    var preferred := if start.side.Some? then DirectionIndex(start.side.value) else -1;
    var isBlocked := (x: int, y: int) => Cell(x, y) in blocked;
    var penalty := (x: int, y: int) => CellPenalty(blocked, fr.columns, fr.rows, x, y);
    var pathCells := RouteAStar(fr.startCell, fr.endCell, isBlocked, penalty, fr.columns, fr.rows, preferred,
                                SearchFuel(fr.columns, fr.rows));
    if pathCells.None? {
      route := RouteElbow(start, end, fr);
    } else {
      route := RouteAlongCells(start, end, fr, gridSize, pathCells.value, blocked);
    }
  }

  /** The tail of `routeOrthogonalPath` when the search finds nothing: an elbow through
      `(routingStart.x, routingEnd.y)` between the stubs. */
  method RouteElbow(start: Anchor, end: Anchor, fr: Frame) returns (route: seq<Point>)
    ensures route == FallbackRoute(start, end, fr)
    ensures RunsBetween(route, Position(start), Position(end))
  {
    var rs, re := fr.routingStart, fr.routingEnd;
    var fallback := SimplifyOrthogonalPoints([rs, Point(rs.x, re.y), re]);
    route := SimplifyOrthogonalPoints(Assemble(start, end, fr, Interior(fallback)));
    AssembledFacts(start, end, fr, Interior(fallback));
  }

  /** The tail of `routeOrthogonalPath` once a path of cells is found: the cells become points, the first
      and last replaced by the routing points, and the whole list is simplified. */
  method RouteAlongCells(start: Anchor, end: Anchor, fr: Frame, gridSize: real, cells: seq<Cell>, blocked: set<Cell>)
    returns (route: seq<Point>)
    requires gridSize > 0.0 && |cells| >= 1
    requires forall c :: c in blocked <==>
               InGrid(c.cx, c.cy, fr.columns, fr.rows) && AnyContains(fr.padded, FromCell(c, fr.bounds, gridSize))
               && c != fr.startCell && c != fr.endCell
    requires forall i :: 1 <= i < |cells| ==>
               InGrid(cells[i].cx, cells[i].cy, fr.columns, fr.rows) && Cell(cells[i].cx, cells[i].cy) !in blocked
    ensures RunsBetween(route, Position(start), Position(end))
    ensures forall p :: p in route ==> OnRoute(start, end, fr, gridSize, p)
  {
    var points := seq(|cells|, i requires 0 <= i < |cells| => FromCell(cells[i], fr.bounds, gridSize));
    points := points[0 := fr.routingStart];
    points := points[|points| - 1 := fr.routingEnd];
    assert points == PathPoints(cells, fr, gridSize);
    var interior := Interior(points);
    InteriorClear(fr, gridSize, cells, blocked);
    route := SimplifyOrthogonalPoints(Assemble(start, end, fr, interior));
    AssembledFacts(start, end, fr, interior);
    AssembledOnRoute(start, end, fr, gridSize, interior);
  }

  // ---------------------------------------------------------------- SVG path text

  /** The drawing commands of `pointsToSvgPath`; `fmt` is the conversion of a number to text. */
  function SvgCommands(points: seq<Point>, fmt: real -> string): (cmds: seq<string>)
    ensures |cmds| == |points|
  {
    seq(|points|, i requires 0 <= i < |points| =>
          (if i == 0 then "M " else "L ") + fmt(points[i].x) + " " + fmt(points[i].y))
  }

  /** `pointsToSvgPath`: the commands joined by single spaces; empty for no points. */
  function PointsToSvgPath(points: seq<Point>, fmt: real -> string): string {
    if |points| == 0 then "" else Join(SvgCommands(points, fmt), ' ')
  }

  /** A one-point route is a single move command. */
  lemma SvgPathSingle(p: Point, fmt: real -> string)
    ensures PointsToSvgPath([p], fmt) == "M " + fmt(p.x) + " " + fmt(p.y)
  {
  }

  /** Each further point appends a line command. */
  lemma SvgPathSnoc(points: seq<Point>, p: Point, fmt: real -> string)
    requires |points| >= 1
    ensures PointsToSvgPath(points + [p], fmt) == PointsToSvgPath(points, fmt) + " L " + fmt(p.x) + " " + fmt(p.y)
  {
    var line := "L " + fmt(p.x) + " " + fmt(p.y);
    assert SvgCommands(points + [p], fmt) == SvgCommands(points, fmt) + [line];
    JoinSnoc(SvgCommands(points, fmt), line, ' ');
  }
}
