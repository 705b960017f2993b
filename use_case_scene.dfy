/** The layout arithmetic of `UseCaseRenderer` (src/renderers/UseCaseRenderer.jsx:8-91): actors in a
    column at x = 120, use cases in a column at x = 440, an identifier map in which a use case replaces
    an actor of the same name, the canvas size, and one routed connector per association whose two
    ends are known. */
module UseCaseScene {
  import opened Options
  import opened DiagramModel
  import opened Geometry
  import opened Router
  import opened SceneCommon

  /** The box of the actor at `index`: 48 × 92, centred on x = 120, its centre 130 below the last. */
  function ActorRect(index: nat): Rect
  {
    Rect(120.0 - 24.0, 120.0 + index as real * 130.0 - 46.0, 48.0, 92.0)
  }

  /** The box of the use case at `index`: 180 × 60, centred on x = 440, its centre 110 below the last. */
  function UseCaseRect(index: nat): Rect
  {
    Rect(440.0 - 90.0, 110.0 + index as real * 110.0 - 30.0, 180.0, 60.0)
  }

  /** `actors.map((actor, index) => ({ ...actor, x, y, width, height }))`. */
  function ActorItems(actors: seq<string>): (items: seq<Item>)
    ensures |items| == |actors|
  {
    seq(|actors|, i requires 0 <= i < |actors| => Item(actors[i], ActorRect(i)))
  }

  /** `useCases.map((useCase, index) => ({ ...useCase, x, y, width, height }))`. */
  function UseCaseItems(useCases: seq<string>): (items: seq<Item>)
    ensures |items| == |useCases|
  {
    seq(|useCases|, i requires 0 <= i < |useCases| => Item(useCases[i], UseCaseRect(i)))
  }

  /** Two boxes share no point: one lies strictly to the left of or strictly above the other. */
  predicate Disjoint(a: Rect, b: Rect) {
    a.x + a.width < b.x || b.x + b.width < a.x || a.y + a.height < b.y || b.y + b.height < a.y
  }

  /** Boxes of one column never overlap (130 > 92 and 110 > 60), and no actor box meets a use-case
      box: the actor column [96, 144] lies left of the use-case column [350, 530]. */
  lemma ColumnsApart(i: nat, j: nat)
    ensures i != j ==> Disjoint(ActorRect(i), ActorRect(j)) && Disjoint(UseCaseRect(i), UseCaseRect(j))
    ensures Disjoint(ActorRect(i), UseCaseRect(j))
  {
  }

  /** `nodeMap`: the actors first, then the use cases, a later entry replacing an earlier one. */
  function NodeMap(actors: seq<string>, useCases: seq<string>): map<string, Item> {
    LastBy(ActorItems(actors) + UseCaseItems(useCases), (item: Item) => item.id)
  }

  /** A use case replaces an actor of the same name; an actor keeps its box only when no use case
      has its name. Either way the entry is the box of the last element of that name. */
  lemma {:induction false} NodeMapEntry(actors: seq<string>, useCases: seq<string>, id: string)
    ensures id in NodeMap(actors, useCases) <==> id in actors || id in useCases
    ensures id in useCases ==>
              exists k :: 0 <= k < |useCases| && useCases[k] == id && NodeMap(actors, useCases)[id] == Item(id, UseCaseRect(k))
    ensures id in actors && id !in useCases ==>
              exists k :: 0 <= k < |actors| && actors[k] == id && NodeMap(actors, useCases)[id] == Item(id, ActorRect(k))
  {
    var items := ActorItems(actors) + UseCaseItems(useCases);
    var key := (item: Item) => item.id;
    assert forall i :: 0 <= i < |actors| ==> items[i] == Item(actors[i], ActorRect(i));
    assert forall i :: |actors| <= i < |items| ==> items[i] == Item(useCases[i - |actors|], UseCaseRect(i - |actors|));
    if id in actors {
      var k :| 0 <= k < |actors| && actors[k] == id;
      assert key(items[k]) == id;
    }
    if id in useCases {
      var k :| 0 <= k < |useCases| && useCases[k] == id;
      assert key(items[|actors| + k]) == id;
    }
    if id in NodeMap(actors, useCases) {
      LastByValue(items, key, id);
      var i :| 0 <= i < |items| && NodeMap(actors, useCases)[id] == items[i] && key(items[i]) == id
                && forall j :: i < j < |items| ==> key(items[j]) != id;
      if i < |actors| {
        forall k | 0 <= k < |useCases|
          ensures useCases[k] != id
        {
          assert key(items[|actors| + k]) == useCases[k];
        }
      } else {
        assert useCases[i - |actors|] == id;
      }
    }
  }

  /** `Math.max(120 + 130·#actors, 110 + 110·#useCases, 360) + 80`. */
  function CanvasHeight(actors: seq<string>, useCases: seq<string>): real {
    Max(Max(120.0 + |actors| as real * 130.0, 110.0 + |useCases| as real * 110.0), 360.0) + 80.0
  }

  /** The canvas is at least 440 high and leaves at least 80 below every box; its width, 860, leaves
      330 right of the use-case column. */
  lemma CanvasHolds(actors: seq<string>, useCases: seq<string>)
    ensures CanvasHeight(actors, useCases) >= 440.0
    ensures forall i :: 0 <= i < |actors| ==> ActorRect(i).y + ActorRect(i).height + 80.0 <= CanvasHeight(actors, useCases)
    ensures forall i :: 0 <= i < |useCases| ==> UseCaseRect(i).y + UseCaseRect(i).height + 80.0 <= CanvasHeight(actors, useCases)
  {
  }

  /** How an association is drawn: not at all when either end is missing from `nodeMap`; otherwise
      from the closest anchor pair of the two boxes, routed around every other box. */
  ghost predicate Drawn(nodeMap: map<string, Item>, items: seq<Item>, a: UseCaseAssociation, edge: Option<Edge>) {
    if a.actorId in nodeMap && a.useCaseId in nodeMap then
      && edge.Some?
      && Closest(nodeMap[a.actorId].rect, nodeMap[a.useCaseId].rect, 0.0, edge.value.start, edge.value.end)
      && Routed(edge.value.start, edge.value.end, Others(items, a.actorId, a.useCaseId), 14.0, 12.0, 12.0, edge.value.route)
    else
      edge.None?
  }

  /** The body of `associations.map`. */
  method DrawAssociation(nodeMap: map<string, Item>, items: seq<Item>, a: UseCaseAssociation)
    returns (edge: Option<Edge>)
    requires forall k :: k in nodeMap ==> nodeMap[k].id == k
    ensures Drawn(nodeMap, items, a, edge)
  {
    if a.actorId !in nodeMap || a.useCaseId !in nodeMap {
      return None;
    }
    var actorNode, useCaseNode := nodeMap[a.actorId], nodeMap[a.useCaseId];
    var start, end := ClosestAnchors(actorNode.rect, useCaseNode.rect);
    var obstacles := Others(items, actorNode.id, useCaseNode.id);
    var path := RouteOrthogonalPath(start, end, obstacles, 14.0, 12.0, 12.0);
    edge := Some(Edge(start, end, path));
  }

  /** What the renderer draws: the two columns of boxes, the canvas and the connectors. */
  datatype UseCaseView = UseCaseView(actorRects: seq<Item>, useCaseRects: seq<Item>, width: real, height: real,
                                     edges: seq<Option<Edge>>)

  /** `UseCaseRenderer`: one entry of `edges` per association, in order. */
  method RenderUseCases(d: UseCaseDiagram) returns (view: UseCaseView)
    ensures view.actorRects == ActorItems(d.actors) && view.useCaseRects == UseCaseItems(d.useCases)
    ensures view.width == 860.0 && view.height == CanvasHeight(d.actors, d.useCases)
    ensures |view.edges| == |d.associations|
    ensures forall i :: 0 <= i < |d.associations| ==>
              Drawn(NodeMap(d.actors, d.useCases), view.actorRects + view.useCaseRects, d.associations[i], view.edges[i])
  {
    var actorRects := ActorItems(d.actors);
    var useCaseRects := UseCaseItems(d.useCases);
    var nodeMap := FillBy(actorRects + useCaseRects, (item: Item) => item.id);
    LastByKeys(actorRects + useCaseRects);
    var edges := [];
    for i := 0 to |d.associations|
      invariant |edges| == i
      invariant forall k :: 0 <= k < i ==> Drawn(nodeMap, actorRects + useCaseRects, d.associations[k], edges[k])
    {
      var edge := DrawAssociation(nodeMap, actorRects + useCaseRects, d.associations[i]);
      edges := edges + [edge];
    }
    view := UseCaseView(actorRects, useCaseRects, 860.0, CanvasHeight(d.actors, d.useCases), edges);
  }

  /** Every entry of an identifier map sits under its own identifier. */
  lemma LastByKeys(items: seq<Item>)
    ensures var m := LastBy(items, (item: Item) => item.id);
            forall k :: k in m ==> m[k].id == k
  {
    var m := LastBy(items, (item: Item) => item.id);
    forall k | k in m
      ensures m[k].id == k
    {
      LastByValue(items, (item: Item) => item.id, k);
    }
  }
}
