/** What `StateRenderer` draws (src/renderers/StateRenderer.jsx:8-58, 181-332): the states on a
    square grid, a start and an end pseudo-state when a transition uses `*`, the canvas, and for
    each transition whose two ends exist an anchor pair pushed onto its lane, a route around the
    other nodes and the routes drawn before it, and a label placement. */
module StateScene {
  import opened Options
  import opened DiagramModel
  import opened Geometry
  import opened Router
  import opened SceneCommon
  import opened StateLabel
  import ClassGrid

  // ---------------------------------------------------------------- buildStateLayout

  datatype PseudoKind = Start | End

  /** A node of the state diagram: a laid-out state, or a start or end circle. */
  datatype StateNode =
    | StateBox(id: string, rect: Rect)
    | Pseudo(id: string, kind: PseudoKind, x: real, y: real, radius: real)

  /** `Math.max(1, Math.ceil(Math.sqrt(Math.max(count, 1))))`. */
  function StateColumns(count: nat): (columns: nat)
    ensures columns >= 1
  {
    ClassGrid.Columns(if count >= 1 then count else 1)
  }

  /** The box of the state at `index`: cells 230 wide and 150 high from (150, 140), each box 140 × 60. */
  function StateBoxAt(id: string, index: nat, columns: nat): StateNode
    requires columns >= 1
  {
    StateBox(id, Rect(150.0 + (index % columns) as real * 230.0, 140.0 + (index / columns) as real * 150.0, 140.0, 60.0))
  }

  /** `buildStateLayout`. */
  function BuildStateLayout(states: seq<string>): (layout: seq<StateNode>)
    ensures |layout| == |states|
    ensures forall i :: 0 <= i < |states| ==>
              && layout[i].StateBox? && layout[i].id == states[i]
              && layout[i].rect.width == 140.0 && layout[i].rect.height == 60.0
              && layout[i].rect.x >= 150.0 && layout[i].rect.y >= 140.0
  {
    var columns := StateColumns(|states|);
    seq(|states|, i requires 0 <= i < |states| => StateBoxAt(states[i], i, columns))
  }

  /** Two different states never overlap: their boxes are at least 90 apart across or down. */
  lemma LayoutApart(states: seq<string>, i: nat, j: nat)
    requires i < |states| && j < |states| && i != j
    ensures var a, b := BuildStateLayout(states)[i].rect, BuildStateLayout(states)[j].rect;
            a.x + a.width + 90.0 <= b.x || b.x + b.width + 90.0 <= a.x
            || a.y + a.height + 90.0 <= b.y || b.y + b.height + 90.0 <= a.y
    ensures !RectsIntersect(BuildStateLayout(states)[i].rect, BuildStateLayout(states)[j].rect)
  {
    var c := StateColumns(|states|);
    if i % c == j % c {
      assert i / c != j / c by {
        assert i == c * (i / c) + i % c && j == c * (j / c) + j % c;
      }
    }
  }

  // ---------------------------------------------------------------- pseudoNodeToRect, getNodeCenter, offsetAnchor

  /** `pseudoNodeToRect`: the square around a circle; a state's own box. */
  function Box(n: StateNode): Rect {
    match n
    case StateBox(_, rect) => rect
    case Pseudo(_, _, x, y, radius) => Rect(x - radius, y - radius, radius * 2.0, radius * 2.0)
  }

  /** `getNodeCenter`. */
  function NodeCenter(n: StateNode): Point {
    match n
    case StateBox(_, rect) => Point(rect.x + rect.width / 2.0, rect.y + rect.height / 2.0)
    case Pseudo(_, _, x, y, _) => Point(x, y)
  }

  /** The centre of a node is the centre of its box, for circles as for states. */
  lemma CenterOfBox(n: StateNode)
    ensures NodeCenter(n) == RectCenter(Box(n))
  {
  }

  /** The `x` of a node. */
  function NodeX(n: StateNode): real {
    match n
    case StateBox(_, rect) => rect.x
    case Pseudo(_, _, x, _, _) => x
  }

  /** `offsetAnchor`: the anchor moved by (`dx`, `dy`), keeping its side and normal. */
  function OffsetAnchor(a: Anchor, dx: real, dy: real): (r: Anchor)
    ensures r.side == a.side && r.normal == a.normal
    ensures r.x - a.x == dx && r.y - a.y == dy
  {
    Anchor(a.x + dx, a.y + dy, a.side, a.normal)
  }

  // ---------------------------------------------------------------- the node map

  const StartNode: StateNode := Pseudo("__start", Start, 70.0, 150.0, 10.0)

  function EndNode(rightMost: real): StateNode {
    Pseudo("__end", End, rightMost + 120.0, 150.0, 12.0)
  }

  function StateId(n: StateNode): string {
    n.id
  }

  function Rights(layout: seq<StateNode>): seq<real> {
    seq(|layout|, i requires 0 <= i < |layout| => Box(layout[i]).x + Box(layout[i]).width)
  }

  /** `transitions.some((item) => item.from === '*')`. */
  predicate HasStart(transitions: seq<StateTransition>) {
    exists i :: 0 <= i < |transitions| && transitions[i].from == "*"
  }

  /** `transitions.some((item) => item.to === '*')`. */
  predicate HasEnd(transitions: seq<StateTransition>) {
    exists i :: 0 <= i < |transitions| && transitions[i].to == "*"
  }

  /** `nodeMap`: the states by identifier, then `__start` and `__end` set over whatever is there. */
  function NodeMapOf(layout: seq<StateNode>, hasStart: bool, hasEnd: bool): map<string, StateNode> {
    var states := LastBy(layout, StateId);
    var withStart := if hasStart then states["__start" := StartNode] else states;
    if hasEnd then withStart["__end" := EndNode(MaxFrom(620.0, Rights(layout)))] else withStart
  }

  /** Which identifiers the node map holds and what: the two pseudo-states when asked for, and
      otherwise the last state of each identifier. */
  lemma {:induction false} NodeMapEntries(layout: seq<StateNode>, hasStart: bool, hasEnd: bool, id: string)
    ensures var m := NodeMapOf(layout, hasStart, hasEnd);
            id in m <==> (hasStart && id == "__start") || (hasEnd && id == "__end")
                         || exists i :: 0 <= i < |layout| && layout[i].id == id
    ensures hasStart && id == "__start" ==> NodeMapOf(layout, hasStart, hasEnd)[id] == StartNode
    ensures hasEnd && id == "__end" ==> NodeMapOf(layout, hasStart, hasEnd)[id] == EndNode(MaxFrom(620.0, Rights(layout)))
    ensures !(hasStart && id == "__start") && !(hasEnd && id == "__end") && id in NodeMapOf(layout, hasStart, hasEnd) ==>
              exists i :: 0 <= i < |layout| && NodeMapOf(layout, hasStart, hasEnd)[id] == layout[i] && layout[i].id == id
                          && forall j :: i < j < |layout| ==> layout[j].id != id
  {
    if id in LastBy(layout, StateId) {
      LastByValue(layout, StateId, id);
    }
  }

  // ---------------------------------------------------------------- canvas and obstacles

  /** Each state's right edge plus 140, then the end circle's `x` plus 120 (or 0). */
  function WidthCandidates(layout: seq<StateNode>, nodeMap: map<string, StateNode>): (xs: seq<real>)
    ensures |xs| == |layout| + 1
    ensures forall i :: 0 <= i < |layout| ==> xs[i] == Box(layout[i]).x + Box(layout[i]).width + 140.0
    ensures xs[|layout|] == if "__end" in nodeMap then NodeX(nodeMap["__end"]) + 120.0 else 0.0
  {
    seq(|layout|, i requires 0 <= i < |layout| => Box(layout[i]).x + Box(layout[i]).width + 140.0)
    + [if "__end" in nodeMap then NodeX(nodeMap["__end"]) + 120.0 else 0.0]
  }

  /** Each state's bottom edge plus 120. */
  function HeightCandidates(layout: seq<StateNode>): (ys: seq<real>)
    ensures |ys| == |layout|
    ensures forall i :: 0 <= i < |layout| ==> ys[i] == Box(layout[i]).y + Box(layout[i]).height + 120.0
  {
    seq(|layout|, i requires 0 <= i < |layout| => Box(layout[i]).y + Box(layout[i]).height + 120.0)
  }

  /** `Math.max(900, ...rights + 140, end ? end.x + 120 : 0)`. */
  function CanvasWidth(layout: seq<StateNode>, nodeMap: map<string, StateNode>): real {
    MaxFrom(900.0, WidthCandidates(layout, nodeMap))
  }

  /** `Math.max(460, ...bottoms + 120)`. */
  function CanvasHeight(layout: seq<StateNode>): real {
    MaxFrom(460.0, HeightCandidates(layout))
  }

  /** The canvas is at least 900 × 460, leaves 140 right of and 120 below every state, and 120 right
      of the centre of the end circle. */
  lemma CanvasHolds(layout: seq<StateNode>, nodeMap: map<string, StateNode>)
    ensures CanvasWidth(layout, nodeMap) >= 900.0 && CanvasHeight(layout) >= 460.0
    ensures forall i :: 0 <= i < |layout| ==>
              Box(layout[i]).x + Box(layout[i]).width + 140.0 <= CanvasWidth(layout, nodeMap)
              && Box(layout[i]).y + Box(layout[i]).height + 120.0 <= CanvasHeight(layout)
    ensures "__end" in nodeMap ==> NodeX(nodeMap["__end"]) + 120.0 <= CanvasWidth(layout, nodeMap)
  {
  }

  /** The states' boxes, then the start and the end box when the node map holds them. */
  function Obstacles(layout: seq<StateNode>, nodeMap: map<string, StateNode>): (items: seq<Item>)
    ensures |items| >= |layout|
    ensures forall i :: 0 <= i < |layout| ==> items[i] == Item(layout[i].id, Box(layout[i]))
  {
    seq(|layout|, i requires 0 <= i < |layout| => Item(layout[i].id, Box(layout[i])))
    + (if "__start" in nodeMap then [Item("__start", Box(nodeMap["__start"]))] else [])
    + (if "__end" in nodeMap then [Item("__end", Box(nodeMap["__end"]))] else [])
  }

  /** `transition.from === '*' ? nodeMap.__start : resolveNode(transition.from)`, and the same with
      `__end` for the target. */
  function Resolve(nodeMap: map<string, StateNode>, id: string, pseudo: string): (n: Option<StateNode>)
    ensures n.Some? <==> (if id == "*" then pseudo else id) in nodeMap
  {
    var key := if id == "*" then pseudo else id;
    if key in nodeMap then Some(nodeMap[key]) else None
  }

  // ---------------------------------------------------------------- lanes

  /** The key `${fromId}->${toId}`. */
  function LaneKey(fromId: string, toId: string): string {
    fromId + "->" + toId
  }

  /** A drawn transition. */
  datatype TransitionView = TransitionView(transition: StateTransition, fromId: string, toId: string, lane: nat,
                                           sign: int, start: Anchor, end: Anchor, path: seq<Point>,
                                           labelPlacement: Option<Placement>)

  function KeyOf(v: TransitionView): string {
    LaneKey(v.fromId, v.toId)
  }

  function ReverseOf(v: TransitionView): string {
    LaneKey(v.toId, v.fromId)
  }

  /** How many of `views` have lane key `key`. */
  function LaneCount(views: seq<TransitionView>, key: string): (n: nat)
    ensures n <= |views|
    decreases |views|
  {
    if |views| == 0 then 0
    else LaneCount(views[..|views| - 1], key) + (if KeyOf(views[|views| - 1]) == key then 1 else 0)
  }

  /** The sign of the first of `views` with lane key `key`, if any. */
  function SignOf(views: seq<TransitionView>, key: string): (s: Option<int>)
    ensures s.Some? ==> exists i :: 0 <= i < |views| && KeyOf(views[i]) == key && views[i].sign == s.value
    decreases |views|
  {
    if |views| == 0 then None
    else
      var init := views[..|views| - 1];
      assert forall i :: 0 <= i < |init| ==> init[i] == views[i];
      var s := SignOf(init, key);
      if s.Some? then s else if KeyOf(views[|views| - 1]) == key then Some(views[|views| - 1].sign) else None
  }

  /** The sign a transition with lane key `key` gets after `views`: the sign already given to that
      key; else the opposite of the sign of the reverse key; else 1. */
  function NextSign(views: seq<TransitionView>, key: string, reverse: string): int {
    match SignOf(views, key)
    case Some(s) => s
    case None => match SignOf(views, reverse) case Some(r) => -r case None => 1
  }

  /** `directedCounts` after `views`: one more under the key of each. */
  function CountsOf(views: seq<TransitionView>): map<string, nat>
    decreases |views|
  {
    if |views| == 0 then map[]
    else
      var init := views[..|views| - 1];
      var key := KeyOf(views[|views| - 1]);
      CountsOf(init)[key := LaneCount(init, key) + 1]
  }

  /** `directionSigns` after `views`: each key keeps the sign it was first given. */
  function SignsOf(views: seq<TransitionView>): map<string, int>
    decreases |views|
  {
    if |views| == 0 then map[]
    else
      var m := SignsOf(views[..|views| - 1]);
      var key := KeyOf(views[|views| - 1]);
      m[key := if key in m then m[key] else views[|views| - 1].sign]
  }

  /** The count map holds exactly the keys already used, each with how often. */
  lemma {:induction false} CountsOfLookup(views: seq<TransitionView>, key: string)
    ensures key in CountsOf(views) <==> LaneCount(views, key) > 0
    ensures key in CountsOf(views) ==> CountsOf(views)[key] == LaneCount(views, key)
    decreases |views|
  {
    if |views| > 0 {
      CountsOfLookup(views[..|views| - 1], key);
    }
  }

  /** The sign map holds exactly the keys already used, each with the sign of the first. */
  lemma {:induction false} SignsOfLookup(views: seq<TransitionView>, key: string)
    ensures key in SignsOf(views) <==> SignOf(views, key).Some?
    ensures key in SignsOf(views) ==> SignsOf(views)[key] == SignOf(views, key).value
    decreases |views|
  {
    if |views| > 0 {
      SignsOfLookup(views[..|views| - 1], key);
    }
  }

  /** The two maps of the renderer after `views`. */
  ghost predicate LanesMatch(views: seq<TransitionView>, counts: map<string, nat>, signs: map<string, int>) {
    counts == CountsOf(views) && signs == SignsOf(views)
  }

  /** Recording one more transition keeps the two maps in step. */
  lemma LanesMatchSnoc(views: seq<TransitionView>, counts: map<string, nat>, signs: map<string, int>, v: TransitionView)
    requires LanesMatch(views, counts, signs)
    requires v.lane == LaneCount(views, KeyOf(v)) && v.sign == NextSign(views, KeyOf(v), ReverseOf(v))
    ensures LanesMatch(views + [v], counts[KeyOf(v) := v.lane + 1], signs[KeyOf(v) := v.sign])
  {
    var next, key := views + [v], KeyOf(v);
    SnocParts(views, v, next);
    SignsOfLookup(views, key);
    assert CountsOf(next) == CountsOf(views)[key := LaneCount(views, key) + 1];
    assert SignsOf(next) == SignsOf(views)[key := if key in SignsOf(views) then SignsOf(views)[key] else v.sign];
  }

  lemma SnocParts(views: seq<TransitionView>, v: TransitionView, next: seq<TransitionView>)
    requires next == views + [v]
    ensures |next| == |views| + 1 && next[..|views|] == views && next[|views|] == v
  {
  }

  /** The lane bookkeeping of one transition: its index among the transitions with the same key, and
      its sign, set the first time the key is seen. */
  method AssignLane(ghost views: seq<TransitionView>, counts: map<string, nat>, signs: map<string, int>,
                    fromId: string, toId: string)
    returns (laneIndex: nat, sign: int, counts': map<string, nat>, signs': map<string, int>)
    requires LanesMatch(views, counts, signs)
    ensures laneIndex == LaneCount(views, LaneKey(fromId, toId))
    ensures sign == NextSign(views, LaneKey(fromId, toId), LaneKey(toId, fromId))
    ensures counts' == counts[LaneKey(fromId, toId) := laneIndex + 1]
    ensures signs' == signs[LaneKey(fromId, toId) := sign]
  {
    var directedKey := fromId + "->" + toId;
    var reverseKey := toId + "->" + fromId;
    CountsOfLookup(views, directedKey);
    SignsOfLookup(views, directedKey);
    SignsOfLookup(views, reverseKey);
    laneIndex := if directedKey in counts then counts[directedKey] else 0;
    counts' := counts[directedKey := laneIndex + 1];
    signs' := signs;
    if directedKey in signs' {
      sign := signs'[directedKey];
    } else {
      sign := if reverseKey in signs' then -signs'[reverseKey] else 1;
    }
    signs' := signs'[directedKey := sign];
  }

  /** `sign * (12 + laneIndex * 10)`. */
  function LaneOffset(sign: int, lane: nat): real {
    sign as real * (12.0 + lane as real * 10.0)
  }

  /** `Math.abs(dx) >= Math.abs(dy)` between the two centres. */
  predicate MainlyHorizontal(from: StateNode, to: StateNode) {
    Abs(NodeCenter(to).x - NodeCenter(from).x) >= Abs(NodeCenter(to).y - NodeCenter(from).y)
  }

  /** The anchor moved across the main direction: down for a mainly horizontal pair, right otherwise. */
  function Shift(a: Anchor, horizontal: bool, offset: real): Anchor {
    if horizontal then OffsetAnchor(a, 0.0, offset) else OffsetAnchor(a, offset, 0.0)
  }

  // ---------------------------------------------------------------- what was drawn before

  /** The padded boxes of the first `n` segments of a route. */
  function SegmentsPrefix(path: seq<Point>, n: nat): (rs: seq<Rect>)
    requires n == 0 || n < |path|
    ensures |rs| == n
  {
    if n == 0 then [] else SegmentsPrefix(path, n - 1) + [SegmentToRect(path[n - 1], path[n], 4.0)]
  }

  /** The segment boxes of a route, padded by 4. */
  function SegmentRects(path: seq<Point>): (rs: seq<Rect>)
    ensures |rs| == if |path| < 2 then 0 else |path| - 1
  {
    if |path| < 2 then [] else SegmentsPrefix(path, |path| - 1)
  }

  /** `usedPathRects` after `views`. */
  function PathRects(views: seq<TransitionView>): seq<Rect>
    decreases |views|
  {
    if |views| == 0 then [] else PathRects(views[..|views| - 1]) + SegmentRects(views[|views| - 1].path)
  }

  /** `usedLabelRects` after `views`. */
  function LabelRects(views: seq<TransitionView>): (rs: seq<Rect>)
    ensures |rs| <= |views|
    decreases |views|
  {
    if |views| == 0 then []
    else
      var last := views[|views| - 1];
      LabelRects(views[..|views| - 1]) + (if last.labelPlacement.Some? then [last.labelPlacement.value.rect] else [])
  }

  /** The inner loop: push the padded box of every segment of the route. */
  method PushSegments(usedPathRects: seq<Rect>, routed: seq<Point>) returns (rects: seq<Rect>)
    ensures rects == usedPathRects + SegmentRects(routed)
  {
    rects := usedPathRects;
    var count := if |routed| < 2 then 0 else |routed| - 1;
    for segmentIndex := 0 to count
      invariant rects == usedPathRects + SegmentsPrefix(routed, segmentIndex)
    {
      rects := rects + [SegmentToRect(routed[segmentIndex], routed[segmentIndex + 1], 4.0)];
    }
  }

  // ---------------------------------------------------------------- one transition

  /** The anchors of a transition: the closest pair between the two boxes, each shifted by the lane
      offset across the main direction. */
  ghost predicate Anchored(from: StateNode, to: StateNode, offset: real, start: Anchor, end: Anchor) {
    exists rawStart, rawEnd :: Closest(Box(from), Box(to), 0.0, rawStart, rawEnd)
      && start == Shift(rawStart, MainlyHorizontal(from, to), offset)
      && end == Shift(rawEnd, MainlyHorizontal(from, to), offset)
  }

  /** The lane index and sign of `v` after `prior`. */
  ghost predicate LaneRule(prior: seq<TransitionView>, v: TransitionView) {
    v.lane == LaneCount(prior, KeyOf(v)) && v.sign == NextSign(prior, KeyOf(v), ReverseOf(v))
  }

  /** The route of `v`: around every node other than its ends and every segment drawn before. */
  ghost predicate RouteRule(obstacles: seq<Item>, prior: seq<TransitionView>, v: TransitionView) {
    Routed(v.start, v.end, Others(obstacles, v.fromId, v.toId) + PathRects(prior), 12.0, 10.0, 12.0, v.path)
  }

  /** The label of `v`: placed clear of the nodes and of the labels and segments drawn before. */
  ghost predicate LabelRule(obstacles: seq<Item>, prior: seq<TransitionView>, v: TransitionView) {
    LabelChosen(LabelRequest(v.transition.labelText, v.path, Rects(obstacles), LabelRects(prior), PathRects(prior)),
                v.labelPlacement)
  }

  /** How a transition between two resolved nodes is drawn after `prior`. */
  ghost predicate ViewDrawn(obstacles: seq<Item>, prior: seq<TransitionView>, t: StateTransition, from: StateNode,
                            to: StateNode, v: TransitionView) {
    && v.transition == t && v.fromId == from.id && v.toId == to.id
    && LaneRule(prior, v)
    && Anchored(from, to, LaneOffset(v.sign, v.lane), v.start, v.end)
    && RouteRule(obstacles, prior, v)
    && LabelRule(obstacles, prior, v)
  }

  /** The body of `transitions.map`: nothing when an end does not resolve, otherwise the view. */
  ghost predicate TransitionDrawn(nodeMap: map<string, StateNode>, obstacles: seq<Item>, prior: seq<TransitionView>,
                                  t: StateTransition, out: Option<TransitionView>) {
    var from := Resolve(nodeMap, t.from, "__start");
    var to := Resolve(nodeMap, t.to, "__end");
    if from.None? || to.None? then out.None?
    else out.Some? && ViewDrawn(obstacles, prior, t, from.value, to.value, out.value)
  }

  /** The drawn views followed by `out`, if it is one. */
  function Then(views: seq<TransitionView>, out: Option<TransitionView>): seq<TransitionView> {
    if out.Some? then views + [out.value] else views
  }

  /** The accumulators after `views`. */
  ghost predicate Accumulated(views: seq<TransitionView>, counts: map<string, nat>, signs: map<string, int>,
                              usedLabelRects: seq<Rect>, usedPathRects: seq<Rect>) {
    LanesMatch(views, counts, signs) && usedLabelRects == LabelRects(views) && usedPathRects == PathRects(views)
  }

  /** Recording one more transition moves the label and segment lists on by exactly its own. */
  lemma RectsSnoc(views: seq<TransitionView>, v: TransitionView)
    ensures LabelRects(views + [v])
            == LabelRects(views) + (if v.labelPlacement.Some? then [v.labelPlacement.value.rect] else [])
    ensures PathRects(views + [v]) == PathRects(views) + SegmentRects(v.path)
  {
    assert (views + [v])[..|views|] == views;
  }

  /** The closest anchor pair between the two boxes, shifted onto the lane. */
  method AnchorsFor(from: StateNode, to: StateNode, laneOffset: real) returns (start: Anchor, end: Anchor)
    ensures Anchored(from, to, laneOffset, start, end)
  {
    var rawStart, rawEnd := ClosestAnchors(Box(from), Box(to));
    var horizontal := MainlyHorizontal(from, to);
    start := Shift(rawStart, horizontal, laneOffset);
    end := Shift(rawEnd, horizontal, laneOffset);
  }

  /** `routeOrthogonalPath(start, end, [...otherNodes, ...usedPathRects], { gridSize: 12, obstaclePadding: 10, stubLength: 12 })`. */
  method RouteFor(obstacles: seq<Item>, ghost prior: seq<TransitionView>, usedPathRects: seq<Rect>, fromId: string,
                  toId: string, start: Anchor, end: Anchor)
    returns (routed: seq<Point>)
    requires usedPathRects == PathRects(prior)
    ensures Routed(start, end, Others(obstacles, fromId, toId) + PathRects(prior), 12.0, 10.0, 12.0, routed)
  {
    routed := RouteOrthogonalPath(start, end, Others(obstacles, fromId, toId) + usedPathRects, 12.0, 10.0, 12.0);
  }

  /** Anchor, route and label one transition between `from` and `to` on the lane already taken. */
  method ViewBetween(obstacles: seq<Item>, nodeObstacles: seq<Rect>, ghost prior: seq<TransitionView>,
                     usedLabelRects: seq<Rect>, usedPathRects: seq<Rect>, t: StateTransition, from: StateNode,
                     to: StateNode, laneIndex: nat, sign: int)
    returns (v: TransitionView)
    requires nodeObstacles == Rects(obstacles)
    requires usedLabelRects == LabelRects(prior) && usedPathRects == PathRects(prior)
    requires laneIndex == LaneCount(prior, LaneKey(from.id, to.id))
    requires sign == NextSign(prior, LaneKey(from.id, to.id), LaneKey(to.id, from.id))
    ensures v.transition == t && v.fromId == from.id && v.toId == to.id && v.lane == laneIndex && v.sign == sign
    ensures ViewDrawn(obstacles, prior, t, from, to, v)
  {
    var start, end := AnchorsFor(from, to, LaneOffset(sign, laneIndex));
    var routed := RouteFor(obstacles, prior, usedPathRects, from.id, to.id, start, end);
    var labelPlacement := ChooseLabelPlacement(LabelRequest(t.labelText, routed, nodeObstacles, usedLabelRects, usedPathRects));
    v := TransitionView(t, from.id, to.id, laneIndex, sign, start, end, routed, labelPlacement);
  }

  /** Push the label box, if any, and the segment boxes of a drawn transition. */
  method Record(ghost prior: seq<TransitionView>, usedLabelRects: seq<Rect>, usedPathRects: seq<Rect>,
                v: TransitionView)
    returns (usedLabelRects': seq<Rect>, usedPathRects': seq<Rect>)
    requires usedLabelRects == LabelRects(prior) && usedPathRects == PathRects(prior)
    ensures usedLabelRects' == LabelRects(prior + [v]) && usedPathRects' == PathRects(prior + [v])
    ensures |usedLabelRects'| == |usedLabelRects| + (if v.labelPlacement.Some? then 1 else 0)
    ensures |usedPathRects'| == |usedPathRects| + (if |v.path| < 2 then 0 else |v.path| - 1)
  {
    usedLabelRects' := usedLabelRects;
    if v.labelPlacement.Some? {
      usedLabelRects' := usedLabelRects' + [v.labelPlacement.value.rect];
    }
    usedPathRects' := PushSegments(usedPathRects, v.path);
    RectsSnoc(prior, v);
  }

  /** Push the label box and the segment boxes of a drawn transition whose lane was taken with
      `AssignLane`, keeping every accumulator in step with the drawn transitions. */
  method Advance(ghost prior: seq<TransitionView>, ghost counts: map<string, nat>, ghost signs: map<string, int>,
                 counts': map<string, nat>, signs': map<string, int>, usedLabelRects: seq<Rect>,
                 usedPathRects: seq<Rect>, fromId: string, toId: string, laneIndex: nat, sign: int,
                 v: TransitionView)
    returns (usedLabelRects': seq<Rect>, usedPathRects': seq<Rect>)
    requires Accumulated(prior, counts, signs, usedLabelRects, usedPathRects)
    requires v.fromId == fromId && v.toId == toId && v.lane == laneIndex && v.sign == sign
    requires laneIndex == LaneCount(prior, LaneKey(fromId, toId))
    requires sign == NextSign(prior, LaneKey(fromId, toId), LaneKey(toId, fromId))
    requires counts' == counts[LaneKey(fromId, toId) := laneIndex + 1]
    requires signs' == signs[LaneKey(fromId, toId) := sign]
    ensures Accumulated(prior + [v], counts', signs', usedLabelRects', usedPathRects')
  {
    usedLabelRects', usedPathRects' := Record(prior, usedLabelRects, usedPathRects, v);
    LanesMatchSnoc(prior, counts, signs, v);
  }

  /** One iteration of `transitions.map`: resolve the ends, take a lane, anchor, route, place the
      label, and record what was drawn. */
  method DrawTransition(nodeMap: map<string, StateNode>, obstacles: seq<Item>, nodeObstacles: seq<Rect>,
                        ghost prior: seq<TransitionView>, counts: map<string, nat>, signs: map<string, int>,
                        usedLabelRects: seq<Rect>, usedPathRects: seq<Rect>, t: StateTransition)
    returns (out: Option<TransitionView>, counts': map<string, nat>, signs': map<string, int>,
             usedLabelRects': seq<Rect>, usedPathRects': seq<Rect>)
    requires nodeObstacles == Rects(obstacles)
    requires Accumulated(prior, counts, signs, usedLabelRects, usedPathRects)
    ensures TransitionDrawn(nodeMap, obstacles, prior, t, out)
    ensures Accumulated(Then(prior, out), counts', signs', usedLabelRects', usedPathRects')
  {
    var fromNode := Resolve(nodeMap, t.from, "__start");
    var toNode := Resolve(nodeMap, t.to, "__end");
    if fromNode.None? || toNode.None? {
      return None, counts, signs, usedLabelRects, usedPathRects;
    }
    var from, to := fromNode.value, toNode.value;
    var laneIndex, sign;
    laneIndex, sign, counts', signs' := AssignLane(prior, counts, signs, from.id, to.id);
    var v := ViewBetween(obstacles, nodeObstacles, prior, usedLabelRects, usedPathRects, t, from, to, laneIndex, sign);
    usedLabelRects', usedPathRects' := Advance(prior, counts, signs, counts', signs', usedLabelRects, usedPathRects,
                                                from.id, to.id, laneIndex, sign, v);
    out := Some(v);
  }

  // ---------------------------------------------------------------- the renderer

  /** The drawn views of a list of map results, in order (`.filter(Boolean)`). */
  function Somes(outs: seq<Option<TransitionView>>): (views: seq<TransitionView>)
    ensures |views| <= |outs|
    decreases |outs|
  {
    if |outs| == 0 then [] else Then(Somes(outs[..|outs| - 1]), outs[|outs| - 1])
  }

  /** Every transition drawn as `TransitionDrawn` says, after the ones before it. */
  ghost predicate AllDrawn(nodeMap: map<string, StateNode>, obstacles: seq<Item>, transitions: seq<StateTransition>,
                           outs: seq<Option<TransitionView>>)
    decreases |transitions|
  {
    |outs| == |transitions|
    && (|transitions| == 0
        || (var n := |transitions| - 1;
            AllDrawn(nodeMap, obstacles, transitions[..n], outs[..n])
            && TransitionDrawn(nodeMap, obstacles, Somes(outs[..n]), transitions[n], outs[n])))
  }

  /** Read off one transition: the `i`-th result is the `i`-th transition drawn after the ones before. */
  lemma {:induction false} AllDrawnAt(nodeMap: map<string, StateNode>, obstacles: seq<Item>,
                                      transitions: seq<StateTransition>, outs: seq<Option<TransitionView>>, i: nat)
    requires AllDrawn(nodeMap, obstacles, transitions, outs) && i < |transitions|
    ensures TransitionDrawn(nodeMap, obstacles, Somes(outs[..i]), transitions[i], outs[i])
    decreases |transitions|
  {
    var n := |transitions| - 1;
    if i < n {
      AllDrawnAt(nodeMap, obstacles, transitions[..n], outs[..n], i);
      assert outs[..n][..i] == outs[..i];
    }
  }

  lemma AllDrawnSnoc(nodeMap: map<string, StateNode>, obstacles: seq<Item>, transitions: seq<StateTransition>,
                     outs: seq<Option<TransitionView>>, t: StateTransition, out: Option<TransitionView>)
    requires AllDrawn(nodeMap, obstacles, transitions, outs)
    requires TransitionDrawn(nodeMap, obstacles, Somes(outs), t, out)
    ensures AllDrawn(nodeMap, obstacles, transitions + [t], outs + [out])
    ensures Somes(outs + [out]) == Then(Somes(outs), out)
  {
    assert (outs + [out])[..|outs|] == outs;
    assert (transitions + [t])[..|transitions|] == transitions;
  }

  /** Each lane index counts the earlier transitions with the same key, and each sign follows the
      first-seen rule. */
  ghost predicate LanesByRule(views: seq<TransitionView>)
    decreases |views|
  {
    |views| == 0 || (LanesByRule(views[..|views| - 1]) && LaneRule(views[..|views| - 1], views[|views| - 1]))
  }

  lemma LanesByRuleSnoc(views: seq<TransitionView>, v: TransitionView)
    requires LanesByRule(views) && LaneRule(views, v)
    ensures LanesByRule(views + [v])
  {
    assert (views + [v])[..|views|] == views;
  }

  /** Read off one transition: its lane and sign follow the rule applied to the ones before it. */
  lemma {:induction false} RuleAt(views: seq<TransitionView>, i: nat)
    requires LanesByRule(views) && i < |views|
    ensures LaneRule(views[..i], views[i])
    decreases |views|
  {
    if i < |views| - 1 {
      var prior := views[..|views| - 1];
      RuleAt(prior, i);
      assert prior[..i] == views[..i];
    }
  }

  // ---------------------------------------------------------------- what the lane rule guarantees

  /** Every sign the rule hands out is +1 or -1. */
  lemma {:induction false} SignsAreUnit(views: seq<TransitionView>)
    requires LanesByRule(views)
    ensures forall i :: 0 <= i < |views| ==> views[i].sign == 1 || views[i].sign == -1
    decreases |views|
  {
    if |views| > 0 {
      var prior, v := views[..|views| - 1], views[|views| - 1];
      SignsAreUnit(prior);
      var first := SignOf(prior, KeyOf(v));
      var partner := SignOf(prior, ReverseOf(v));
      if first.Some? {
        var m :| 0 <= m < |prior| && KeyOf(prior[m]) == KeyOf(v) && prior[m].sign == first.value;
      } else if partner.Some? {
        var m :| 0 <= m < |prior| && KeyOf(prior[m]) == ReverseOf(v) && prior[m].sign == partner.value;
      }
      assert forall i :: 0 <= i < |prior| ==> views[i] == prior[i];
    }
  }

  /** `SignOf` one step at a time. */
  lemma SignOfSnoc(views: seq<TransitionView>, v: TransitionView, key: string)
    ensures SignOf(views + [v], key)
            == if SignOf(views, key).Some? then SignOf(views, key) else if KeyOf(v) == key then Some(v.sign) else None
  {
    assert (views + [v])[..|views|] == views;
  }

  /** The sign recorded for the key of any transition is that transition's sign. */
  lemma {:induction false} SignOfEarlier(views: seq<TransitionView>)
    requires LanesByRule(views)
    ensures forall i :: 0 <= i < |views| ==> SignOf(views, KeyOf(views[i])) == Some(views[i].sign)
    decreases |views|
  {
    if |views| > 0 {
      var prior, v := views[..|views| - 1], views[|views| - 1];
      SignOfEarlier(prior);
      assert views == prior + [v];
      forall i | 0 <= i < |views|
        ensures SignOf(prior + [v], KeyOf(views[i])) == Some(views[i].sign)
      {
        SignOfSnoc(prior, v, KeyOf(views[i]));
        if i < |prior| {
          assert prior[i] == views[i];
        }
      }
    }
  }

  /** Transitions with the same lane key are pushed to the same side. */
  lemma SameKeySameSign(views: seq<TransitionView>, i: nat, j: nat)
    requires LanesByRule(views) && i < |views| && j < |views| && KeyOf(views[i]) == KeyOf(views[j])
    ensures views[i].sign == views[j].sign
  {
    SignOfEarlier(views);
  }

  /** The number of transitions with key `key` only grows along the list, and grows at each of them. */
  lemma {:induction false} LaneCountGrows(views: seq<TransitionView>, key: string, a: nat, b: nat)
    requires a < b <= |views| && KeyOf(views[a]) == key
    ensures LaneCount(views[..a], key) < LaneCount(views[..b], key)
    decreases b
  {
    assert views[..b][..b - 1] == views[..b - 1];
    if a < b - 1 {
      LaneCountGrows(views, key, a, b - 1);
    }
  }

  /** A repeated transition gets a later lane. */
  lemma LanesIncrease(views: seq<TransitionView>, i: nat, j: nat)
    requires LanesByRule(views) && i < j < |views| && KeyOf(views[i]) == KeyOf(views[j])
    ensures views[i].lane < views[j].lane
  {
    RuleAt(views, i);
    RuleAt(views, j);
    LaneCountGrows(views, KeyOf(views[i]), i, j);
  }

  /** `|sign * (12 + lane * 10)|` is `12 + lane * 10` for a unit sign. */
  lemma OffsetMagnitude(sign: int, lane: nat)
    requires sign == 1 || sign == -1
    ensures Abs(LaneOffset(sign, lane)) == 12.0 + lane as real * 10.0
  {
  }

  /** Every offset is at least 12 away from the anchor, and a repeated transition is pushed at least 10
      further out on the same side. */
  lemma RepeatedEdgesApart(views: seq<TransitionView>, i: nat, j: nat)
    requires LanesByRule(views) && i < j < |views| && KeyOf(views[i]) == KeyOf(views[j])
    ensures views[i].sign == views[j].sign
    ensures Abs(LaneOffset(views[i].sign, views[i].lane)) >= 12.0
    ensures Abs(LaneOffset(views[j].sign, views[j].lane)) >= Abs(LaneOffset(views[i].sign, views[i].lane)) + 10.0
  {
    SignsAreUnit(views);
    SameKeySameSign(views, i, j);
    LanesIncrease(views, i, j);
    OffsetMagnitude(views[i].sign, views[i].lane);
    OffsetMagnitude(views[j].sign, views[j].lane);
  }

  /** In `a->b` the first `>` is the one of the arrow when `a` holds none. */
  lemma FirstArrow(a: string, b: string)
    requires '>' !in a
    ensures LaneKey(a, b)[|a| + 1] == '>'
    ensures forall k :: 0 <= k <= |a| ==> LaneKey(a, b)[k] != '>'
  {
    var key := LaneKey(a, b);
    assert key == a + "->" + b;
    forall k | 0 <= k <= |a|
      ensures key[k] != '>'
    {
      if k < |a| {
        assert key[k] == a[k];
      }
    }
  }

  /** `a->b` names `a` and `b` when `a` holds no `>`. */
  lemma LaneKeyInjective(a: string, b: string, c: string, d: string)
    requires '>' !in a && '>' !in c && LaneKey(a, b) == LaneKey(c, d)
    ensures a == c && b == d
  {
    var key := LaneKey(a, b);
    assert key == a + "->" + b && key == c + "->" + d;
    FirstArrow(a, b);
    FirstArrow(c, d);
    assert |a| == |c|;
    assert a == key[..|a|] && c == key[..|c|];
    assert b == key[|a| + 2..] && d == key[|c| + 2..];
  }

  /** No identifier holds a `>`. */
  predicate PlainIds(views: seq<TransitionView>) {
    forall i :: 0 <= i < |views| ==> '>' !in views[i].fromId && '>' !in views[i].toId
  }

  /** Transitions between the same two nodes in opposite directions are pushed to opposite sides. */
  ghost predicate Opposed(views: seq<TransitionView>) {
    forall i, j :: 0 <= i < |views| && 0 <= j < |views| && views[j].fromId == views[i].toId
                   && views[j].toId == views[i].fromId && views[i].fromId != views[i].toId
                   ==> views[j].sign == -views[i].sign
  }

  /** The first direction between two nodes takes a side and the reverse direction takes the other,
      when no identifier holds a `>` (otherwise two different pairs can share a lane key). */
  lemma {:induction false} ReversePairsOpposed(views: seq<TransitionView>)
    requires LanesByRule(views) && PlainIds(views)
    ensures Opposed(views)
    decreases |views|
  {
    if |views| > 0 {
      var prior, v := views[..|views| - 1], views[|views| - 1];
      assert PlainIds(prior) && '>' !in v.fromId && '>' !in v.toId by {
        assert forall i :: 0 <= i < |prior| ==> views[i] == prior[i];
      }
      ReversePairsOpposed(prior);
      SignOfEarlier(prior);
      OpposedSnoc(prior, v);
      assert views == prior + [v];
    }
  }

  /** One more transition keeps opposite directions on opposite sides. */
  lemma OpposedSnoc(prior: seq<TransitionView>, v: TransitionView)
    requires LaneRule(prior, v) && PlainIds(prior) && '>' !in v.fromId && '>' !in v.toId
    requires Opposed(prior) && forall k :: 0 <= k < |prior| ==> SignOf(prior, KeyOf(prior[k])) == Some(prior[k].sign)
    ensures Opposed(prior + [v])
  {
    var views := prior + [v];
    forall i, j | 0 <= i < |views| && 0 <= j < |views| && views[j].fromId == views[i].toId
                  && views[j].toId == views[i].fromId && views[i].fromId != views[i].toId
      ensures views[j].sign == -views[i].sign
    {
      if i < |prior| && j < |prior| {
        assert prior[j].sign == -prior[i].sign;
      } else if i < |prior| {
        OppositeOfEarlier(prior, v, i);
      } else if j < |prior| {
        OppositeOfEarlier(prior, v, j);
      }
    }
  }

  /** The step of `ReversePairsOpposed`: a new transition against an earlier one in the other direction. */
  lemma OppositeOfEarlier(prior: seq<TransitionView>, v: TransitionView, i: nat)
    requires LaneRule(prior, v) && PlainIds(prior) && '>' !in v.fromId && '>' !in v.toId
    requires Opposed(prior) && forall k :: 0 <= k < |prior| ==> SignOf(prior, KeyOf(prior[k])) == Some(prior[k].sign)
    requires i < |prior| && v.fromId == prior[i].toId && v.toId == prior[i].fromId && v.fromId != v.toId
    ensures v.sign == -prior[i].sign
  {
    assert ReverseOf(v) == KeyOf(prior[i]);
    var first := SignOf(prior, KeyOf(v));
    if first.Some? {
      var m :| 0 <= m < |prior| && KeyOf(prior[m]) == KeyOf(v) && prior[m].sign == first.value;
      LaneKeyInjective(prior[m].fromId, prior[m].toId, v.fromId, v.toId);
    }
  }

  /** What the renderer draws. */
  datatype StateView = StateView(layout: seq<StateNode>, nodeMap: map<string, StateNode>, width: real, height: real,
                                 outs: seq<Option<TransitionView>>, transitions: seq<TransitionView>)

  /** The node map: the states, then `__start` and `__end` when some transition uses `*`. */
  method BuildNodeMap(layout: seq<StateNode>, transitions: seq<StateTransition>) returns (nodeMap: map<string, StateNode>)
    ensures nodeMap == NodeMapOf(layout, HasStart(transitions), HasEnd(transitions))
  {
    nodeMap := FillBy(layout, StateId);
    if HasStart(transitions) {
      nodeMap := nodeMap["__start" := StartNode];
    }
    if HasEnd(transitions) {
      var rightMost := MaxFrom(620.0, Rights(layout));
      nodeMap := nodeMap["__end" := EndNode(rightMost)];
    }
  }

  /** One more element of a prefix. */
  lemma TakeOneMore(transitions: seq<StateTransition>, i: nat)
    requires i < |transitions|
    ensures transitions[..i + 1] == transitions[..i] + [transitions[i]]
  {
  }

  /** One iteration of the drawing loop keeps its invariants. */
  lemma DrawnStep(nodeMap: map<string, StateNode>, obstacles: seq<Item>, transitions: seq<StateTransition>,
                  outs: seq<Option<TransitionView>>, drawn: seq<TransitionView>,
                  t: StateTransition, out: Option<TransitionView>)
    requires AllDrawn(nodeMap, obstacles, transitions, outs) && drawn == Somes(outs) && LanesByRule(drawn)
    requires TransitionDrawn(nodeMap, obstacles, drawn, t, out)
    ensures AllDrawn(nodeMap, obstacles, transitions + [t], outs + [out])
    ensures Then(drawn, out) == Somes(outs + [out]) && LanesByRule(Then(drawn, out))
  {
    AllDrawnSnoc(nodeMap, obstacles, transitions, outs, t, out);
    if out.Some? {
      LanesByRuleSnoc(drawn, out.value);
    }
  }

  /** `transitions.map(...).filter(Boolean)`, with the lane maps and the used boxes carried along. */
  method DrawTransitions(nodeMap: map<string, StateNode>, obstacles: seq<Item>, transitions: seq<StateTransition>)
    returns (outs: seq<Option<TransitionView>>, drawn: seq<TransitionView>)
    ensures AllDrawn(nodeMap, obstacles, transitions, outs)
    ensures drawn == Somes(outs) && LanesByRule(drawn)
  {
    var nodeObstacles := Rects(obstacles);
    var counts: map<string, nat>, signs: map<string, int> := map[], map[];
    var usedLabelRects: seq<Rect>, usedPathRects: seq<Rect> := [], [];
    outs, drawn := [], [];
    for i := 0 to |transitions|
      invariant AllDrawn(nodeMap, obstacles, transitions[..i], outs)
      invariant drawn == Somes(outs)
      invariant Accumulated(drawn, counts, signs, usedLabelRects, usedPathRects)
      invariant LanesByRule(drawn)
    {
      TakeOneMore(transitions, i);
      var out;
      out, counts, signs, usedLabelRects, usedPathRects :=
        DrawTransition(nodeMap, obstacles, nodeObstacles, drawn, counts, signs, usedLabelRects, usedPathRects,
                       transitions[i]);
      DrawnStep(nodeMap, obstacles, transitions[..i], outs, drawn, transitions[i], out);
      outs := outs + [out];
      drawn := Then(drawn, out);
    }
    assert transitions[..|transitions|] == transitions;
  }

  /** `StateRenderer`. */
  method RenderStates(d: StateDiagram) returns (view: StateView)
    ensures view.layout == BuildStateLayout(d.states)
    ensures view.nodeMap == NodeMapOf(view.layout, HasStart(d.transitions), HasEnd(d.transitions))
    ensures view.width == CanvasWidth(view.layout, view.nodeMap) && view.height == CanvasHeight(view.layout)
    ensures AllDrawn(view.nodeMap, Obstacles(view.layout, view.nodeMap), d.transitions, view.outs)
    ensures view.transitions == Somes(view.outs) && LanesByRule(view.transitions)
  {
    var layout := BuildStateLayout(d.states);
    var nodeMap := BuildNodeMap(layout, d.transitions);
    var outs, drawn := DrawTransitions(nodeMap, Obstacles(layout, nodeMap), d.transitions);
    view := StateView(layout, nodeMap, CanvasWidth(layout, nodeMap), CanvasHeight(layout), outs, drawn);
  }
}
