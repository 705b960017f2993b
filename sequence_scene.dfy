/** The layout arithmetic of `SequenceRenderer` (src/renderers/SequenceRenderer.jsx:4-184): participant
    columns 180 apart from x = 120, message rows 70 apart from y = 140, activation boxes on the
    lifelines, the canvas size, and for each message either the fixed self-loop or a connector routed
    between anchors 8 units off the two lifelines. */
module SequenceScene {
  import opened Options
  import opened DiagramModel
  import opened Geometry
  import opened Router
  import opened SceneCommon

  const ParticipantStartX: real := 120.0
  const ParticipantGap: real := 180.0
  const HeaderY: real := 44.0
  const HeaderWidth: real := 120.0
  const HeaderHeight: real := 40.0
  const MessageStartY: real := 140.0
  const MessageGap: real := 70.0

  // ---------------------------------------------------------------- participants

  /** A participant with the x of its lifeline. */
  datatype Column = Column(id: string, x: real)

  function ColumnX(index: nat): real {
    ParticipantStartX + index as real * ParticipantGap
  }

  /** The entries `participants.forEach` writes, in order. */
  function Columns(participants: seq<string>): (cs: seq<Column>)
    ensures |cs| == |participants|
  {
    seq(|participants|, i requires 0 <= i < |participants| => Column(participants[i], ColumnX(i)))
  }

  /** `participantLayout`: each identifier with the x of its last position. */
  function Layout(participants: seq<string>): map<string, Column> {
    LastBy(Columns(participants), (c: Column) => c.id)
  }

  /** Every participant has a column at 120 + 180·k, k its last position. */
  lemma {:induction false} LayoutColumn(participants: seq<string>, id: string)
    ensures id in Layout(participants) <==> id in participants
    ensures id in participants ==>
              exists k :: 0 <= k < |participants| && participants[k] == id
                          && Layout(participants)[id] == Column(id, 120.0 + 180.0 * k as real)
                          && forall j :: k < j < |participants| ==> participants[j] != id
  {
    var cs := Columns(participants);
    var key := (c: Column) => c.id;
    assert forall i :: 0 <= i < |cs| ==> key(cs[i]) == participants[i];
    if id in participants {
      var k :| 0 <= k < |participants| && participants[k] == id;
      assert key(cs[k]) == id;
      LastByValue(cs, key, id);
    }
  }

  /** Columns are 180 apart and strictly increase with the position, so with no repeated identifier
      (as the parser produces) they increase in first-seen order. */
  lemma ColumnsIncrease(i: nat, j: nat)
    requires i < j
    ensures ColumnX(i) + ParticipantGap == ColumnX(i + 1) && ColumnX(i) < ColumnX(j)
  {
  }

  // ---------------------------------------------------------------- activation boxes

  /** The box of one activation on the lifeline at `x`: 16 wide, from 18 above the row of its first
      message, at least 28 high. */
  function ActivationBox(a: ActivationInterval, x: real): Item {
    var y := MessageStartY + a.startIndex as real * MessageGap - 18.0;
    var rawHeight := (a.endIndex - a.startIndex) as real * MessageGap + 40.0;
    Item(a.id, Rect(x - 8.0, y, 16.0, Max(28.0, rawHeight)))
  }

  /** `computeActivationBoxes`: `activations.map(...).filter(Boolean)`. */
  function ActivationBoxes(activations: seq<ActivationInterval>, layout: map<string, Column>): (boxes: seq<Item>)
    ensures |boxes| <= |activations|
    decreases |activations|
  {
    if |activations| == 0 then []
    else
      var a := activations[|activations| - 1];
      ActivationBoxes(activations[..|activations| - 1], layout)
        + (if a.participant in layout then [ActivationBox(a, layout[a.participant].x)] else [])
  }

  /** Activations on an unknown participant are dropped, the others each give one box, in order. */
  lemma {:induction false} BoxesKept(activations: seq<ActivationInterval>, layout: map<string, Column>)
    ensures ActivationBoxes(activations, layout) == Kept(activations, layout)
    ensures forall b :: b in ActivationBoxes(activations, layout) <==>
              exists a :: a in activations && a.participant in layout && b == ActivationBox(a, layout[a.participant].x)
    decreases |activations|
  {
    if |activations| > 0 {
      var init := activations[..|activations| - 1];
      BoxesKept(init, layout);
      assert activations == init + [activations[|activations| - 1]];
      assert forall a :: a in activations <==> a in init || a == activations[|activations| - 1];
      KeptSnoc(init, activations[|activations| - 1], layout);
    }
  }

  /** An independent statement of the `map`/`filter` pair: filter the known activations, then box
      each one. */
  function Kept(activations: seq<ActivationInterval>, layout: map<string, Column>): seq<Item>
    decreases |activations|
  {
    if |activations| == 0 then []
    else if activations[0].participant in layout then
      [ActivationBox(activations[0], layout[activations[0].participant].x)] + Kept(activations[1..], layout)
    else Kept(activations[1..], layout)
  }

  lemma {:induction false} KeptSnoc(activations: seq<ActivationInterval>, a: ActivationInterval, layout: map<string, Column>)
    ensures Kept(activations + [a], layout)
              == Kept(activations, layout) + (if a.participant in layout then [ActivationBox(a, layout[a.participant].x)] else [])
    decreases |activations|
  {
    if |activations| > 0 {
      assert (activations + [a])[1..] == activations[1..] + [a];
      KeptSnoc(activations[1..], a, layout);
    }
  }

  /** A box sits centred on its lifeline and spans from 18 above the row of its first message to at
      least 22 below the row of its last. */
  lemma BoxSpansRows(a: ActivationInterval, x: real)
    requires a.startIndex <= a.endIndex
    ensures var r := ActivationBox(a, x).rect;
            && r.x + r.width / 2.0 == x && r.width == 16.0 && r.height >= 28.0
            && r.y == MessageY(a.startIndex) - 18.0
            && r.y + r.height >= MessageY(a.endIndex) + 22.0
  {
  }

  // ---------------------------------------------------------------- canvas

  function MessageY(index: nat): real {
    MessageStartY + index as real * MessageGap
  }

  function CanvasWidth(participantCount: nat): real {
    Max(900.0, ParticipantStartX + participantCount as real * ParticipantGap + 180.0)
  }

  function CanvasHeight(messageCount: nat): real {
    Max(420.0, MessageStartY + messageCount as real * MessageGap + 120.0)
  }

  /** The canvas is at least 900 × 420, leaves 240 right of the last lifeline and 190 below the last
      message row. */
  lemma CanvasHolds(participantCount: nat, messageCount: nat)
    ensures CanvasWidth(participantCount) >= 900.0 && CanvasHeight(messageCount) >= 420.0
    ensures forall k :: 0 <= k < participantCount ==> ColumnX(k) + 240.0 <= CanvasWidth(participantCount)
    ensures forall i :: 0 <= i < messageCount ==> MessageY(i) + 190.0 <= CanvasHeight(messageCount)
  {
  }

  // ---------------------------------------------------------------- messages

  /** A message to its own sender: a loop out to 62 right of the lifeline and 30 down. */
  function SelfLoop(x: real, y: real): (path: seq<Point>)
    ensures |path| == 4 && path[0] == Point(x + 8.0, y) && path[3] == Point(x + 8.0, y + 30.0)
    ensures forall i :: 0 <= i < 3 ==> path[i].x == path[i + 1].x || path[i].y == path[i + 1].y
  {
    [Point(x + 8.0, y), Point(x + 62.0, y), Point(x + 62.0, y + 30.0), Point(x + 8.0, y + 30.0)]
  }

  /** The anchors of a message between two lifelines, both at the message's row. */
  function MessageAnchors(sourceX: real, targetX: real, y: real): (pair: (Anchor, Anchor))
  {
    var isRight := sourceX < targetX;
    (Anchor(sourceX + (if isRight then 8.0 else -8.0), y, Some(if isRight then Right else Left),
            Some(Vector(if isRight then 1.0 else -1.0, 0.0))),
     Anchor(targetX + (if isRight then -8.0 else 8.0), y, Some(if isRight then Left else Right),
            Some(Vector(if isRight then -1.0 else 1.0, 0.0))))
  }

  /** The start leaves on the right iff the target lies to the right; the end enters on the opposite
      side; each anchor is 8 units off its lifeline on the side facing the other, with that side's
      normal, so the two normals point toward each other. */
  lemma AnchorsFaceEachOther(sourceX: real, targetX: real, y: real)
    ensures var (s, e) := MessageAnchors(sourceX, targetX, y);
            && s.y == y && e.y == y
            && s.side.Some? && e.side.Some? && e.side.value == Opposite(s.side.value)
            && (s.side.value == Right <==> sourceX < targetX)
            && s.normal == Some(SideNormal(s.side.value)) && e.normal == Some(SideNormal(e.side.value))
            && Abs(s.x - sourceX) == 8.0 && Abs(e.x - targetX) == 8.0
            && (sourceX < targetX ==> s.x > sourceX && e.x < targetX)
            && (sourceX >= targetX ==> s.x < sourceX && e.x > targetX)
  {
  }

  /** `headerObstacles`: the header box of each entry of `participantLayout`. */
  function Headers(participants: seq<string>): (rs: seq<Rect>)
  {
    var columns := Values(Columns(participants), (c: Column) => c.id);
    seq(|columns|, i requires 0 <= i < |columns| =>
      Rect(columns[i].x - HeaderWidth / 2.0, HeaderY, HeaderWidth, HeaderHeight))
  }

  /** How a message is drawn. */
  datatype Drawing = SelfMessage(path: seq<Point>) | Connector(edge: Edge, labelAt: Point)

  /** Nothing when either end is no participant; the loop for a message to its sender; otherwise a
      route between the facing anchors at the message's row, around the header boxes, labelled at its
      middle point. */
  ghost predicate Drawn(participants: seq<string>, m: SequenceMessage, index: nat, d: Option<Drawing>) {
    var layout := Layout(participants);
    if m.from !in layout || m.to !in layout then d.None?
    else if m.from == m.to then d == Some(SelfMessage(SelfLoop(layout[m.from].x, MessageY(index))))
    else
      && d.Some? && d.value.Connector?
      && (d.value.edge.start, d.value.edge.end) == MessageAnchors(layout[m.from].x, layout[m.to].x, MessageY(index))
      && Routed(d.value.edge.start, d.value.edge.end, Headers(participants), 12.0, 6.0, 10.0, d.value.edge.route)
      && d.value.labelAt == d.value.edge.route[|d.value.edge.route| / 2]
  }

  /** The body of `messages.map`. */
  method DrawMessage(participants: seq<string>, layout: map<string, Column>, headers: seq<Rect>,
                     m: SequenceMessage, index: nat)
    returns (d: Option<Drawing>)
    requires layout == Layout(participants) && headers == Headers(participants)
    ensures Drawn(participants, m, index, d)
  {
    if m.from !in layout || m.to !in layout {
      return None;
    }
    var source, target := layout[m.from], layout[m.to];
    var y := MessageStartY + index as real * MessageGap;
    if m.from == m.to {
      return Some(SelfMessage(SelfLoop(source.x, y)));
    }
    var (start, end) := MessageAnchors(source.x, target.x, y);
    var routed := RouteOrthogonalPath(start, end, headers, 12.0, 6.0, 10.0);
    var labelAnchor := routed[|routed| / 2];
    d := Some(Connector(Edge(start, end, routed), labelAnchor));
  }

  /** What the renderer draws. */
  datatype SequenceView = SequenceView(columns: seq<Column>, boxes: seq<Item>, width: real, height: real,
                                       drawings: seq<Option<Drawing>>)

  /** `messages.map(...)`, one drawing per message. */
  method DrawMessages(participants: seq<string>, messages: seq<SequenceMessage>) returns (drawings: seq<Option<Drawing>>)
    ensures |drawings| == |messages|
    ensures forall i :: 0 <= i < |messages| ==> Drawn(participants, messages[i], i, drawings[i])
  {
    var layout := FillBy(Columns(participants), (c: Column) => c.id);
    var headers := Headers(participants);
    drawings := [];
    for i := 0 to |messages|
      invariant |drawings| == i
      invariant DrawnSoFar(participants, messages, drawings)
    {
      var drawing := DrawMessage(participants, layout, headers, messages[i], i);
      DrawnSnoc(participants, messages, drawings, drawing);
      drawings := drawings + [drawing];
    }
  }

  /** The drawings made so far, one per message from the first. */
  ghost predicate DrawnSoFar(participants: seq<string>, messages: seq<SequenceMessage>, drawings: seq<Option<Drawing>>) {
    && |drawings| <= |messages|
    && forall k :: 0 <= k < |drawings| ==> Drawn(participants, messages[k], k, drawings[k])
  }

  lemma DrawnSnoc(participants: seq<string>, messages: seq<SequenceMessage>, drawings: seq<Option<Drawing>>,
                  d: Option<Drawing>)
    requires DrawnSoFar(participants, messages, drawings) && |drawings| < |messages|
    requires Drawn(participants, messages[|drawings|], |drawings|, d)
    ensures DrawnSoFar(participants, messages, drawings + [d])
  {
    var longer := drawings + [d];
    forall k | 0 <= k < |longer|
      ensures Drawn(participants, messages[k], k, longer[k])
    {
      if k < |drawings| {
        assert longer[k] == drawings[k];
        assert Drawn(participants, messages[k], k, drawings[k]);
      } else {
        assert k == |drawings| && longer[k] == d;
      }
    }
  }

  /** `SequenceRenderer`: the columns, the activation boxes, the canvas and one drawing per message. */
  method RenderSequence(d: SequenceDiagram) returns (view: SequenceView)
    ensures view.columns == Values(Columns(d.participants), (c: Column) => c.id)
    ensures view.boxes == ActivationBoxes(d.activations, Layout(d.participants))
    ensures view.width == CanvasWidth(|d.participants|) && view.height == CanvasHeight(|d.messages|)
    ensures |view.drawings| == |d.messages|
    ensures forall i :: 0 <= i < |d.messages| ==> Drawn(d.participants, d.messages[i], i, view.drawings[i])
  {
    var layout := FillBy(Columns(d.participants), (c: Column) => c.id);
    var boxes := ActivationBoxes(d.activations, layout);
    var drawings := DrawMessages(d.participants, d.messages);
    view := SequenceView(Values(Columns(d.participants), (c: Column) => c.id), boxes,
                         CanvasWidth(|d.participants|), CanvasHeight(|d.messages|), drawings);
  }
}
