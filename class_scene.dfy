/** The geometry `ClassRenderer` draws around the layout (src/renderers/ClassRenderer.jsx:278-431): the
    x at which a member line starts, side anchors at a ratio along a side, the sibling rank of each
    inheritance edge among the edges into the same parent, the canvas, and one routed connector per
    relation whose two ends are laid out. */
module ClassScene {
  import opened Options
  import opened DiagramModel
  import opened Geometry
  import opened Router
  import opened TextUtils
  import opened ClassLayout
  import opened ClassLevels
  import opened ClassGrid
  import opened ClassBuild
  import opened SceneCommon
  import Sorting
  import ClassHierarchy

  /** The box of a laid-out class. */
  function Box(p: Placed): Rect {
    Rect(p.x, p.y, p.width as real, p.height as real)
  }

  // ---------------------------------------------------------------- getLineX

  /** `getLineX`: a member line starts 12 inside the edge its text reads from, the right edge for
      right-to-left text and the left edge otherwise. */
  function LineX(p: Placed, text: string): (x: real)
    ensures SvgTextDirection(text) == Rtl ==> x == p.x + p.width as real - 12.0
    ensures SvgTextDirection(text) == Ltr ==> x == p.x + 12.0
    ensures p.width >= 24 ==> p.x + 12.0 <= x <= p.x + p.width as real - 12.0
  {
    if ContainsPersian(text) then p.x + p.width as real - 12.0 else p.x + 12.0
  }

  // ---------------------------------------------------------------- createSideAnchor

  /** `createSideAnchor`: the point at `ratio` along the named side, with that side's outward normal. */
  function CreateSideAnchor(rect: Rect, side: Side, ratio: real): (a: Anchor)
    ensures a.side == Some(side) && a.normal == Some(SideNormal(side))
  {
    if side == Top || side == Bottom then
      Anchor(Along(rect.x, rect.width, ratio), if side == Top then rect.y else rect.y + rect.height, Some(side),
             Some(SideNormal(side)))
    else
      Anchor(if side == Left then rect.x else rect.x + rect.width, Along(rect.y, rect.height, ratio), Some(side),
             Some(SideNormal(side)))
  }

  /** `p` lies on `side` of `rect`, strictly between its two corners. */
  predicate InsideSide(rect: Rect, side: Side, p: Point) {
    match side
    case Top => p.y == rect.y && rect.x < p.x < rect.x + rect.width
    case Bottom => p.y == rect.y + rect.height && rect.x < p.x < rect.x + rect.width
    case Left => p.x == rect.x && rect.y < p.y < rect.y + rect.height
    case Right => p.x == rect.x + rect.width && rect.y < p.y < rect.y + rect.height
  }

  /** On a box of positive size, a ratio strictly between 0 and 1 puts the anchor on the named side
      strictly between its corners, hence on the box. */
  lemma SideAnchorInside(rect: Rect, side: Side, ratio: real)
    requires rect.width > 0.0 && rect.height > 0.0 && 0.0 < ratio < 1.0
    ensures InsideSide(rect, side, Position(CreateSideAnchor(rect, side, ratio)))
    ensures PointInRect(Position(CreateSideAnchor(rect, side, ratio)), rect)
  {
    var p := Position(CreateSideAnchor(rect, side, ratio));
    match side
    case Top =>
      assert p == Point(Along(rect.x, rect.width, ratio), rect.y);
      AlongInside(rect.x, rect.width, ratio);
    case Bottom =>
      assert p == Point(Along(rect.x, rect.width, ratio), rect.y + rect.height);
      AlongInside(rect.x, rect.width, ratio);
    case Left =>
      assert p == Point(rect.x, Along(rect.y, rect.height, ratio));
      AlongInside(rect.y, rect.height, ratio);
    case Right =>
      assert p == Point(rect.x + rect.width, Along(rect.y, rect.height, ratio));
      AlongInside(rect.y, rect.height, ratio);
  }

  /** The point `ratio` of the way along a segment that starts at `origin`. */
  function Along(origin: real, length: real, ratio: real): real {
    origin + length * ratio
  }

  lemma AlongInside(origin: real, length: real, ratio: real)
    requires length > 0.0 && 0.0 < ratio < 1.0
    ensures origin < Along(origin, length, ratio) < origin + length
  {
    ScaledInside(length, ratio);
    var part := length * ratio;
    assert part < length;
    assert Along(origin, length, ratio) == origin + part;
  }

  lemma ScaledInside(length: real, ratio: real)
    requires length > 0.0 && 0.0 < ratio < 1.0
    ensures 0.0 < length * ratio < length
  {
    var part := length * ratio;
    assert length - part == length * (1.0 - ratio);
    assert 0.0 < length * (1.0 - ratio);
  }

  // ---------------------------------------------------------------- nodeMap

  function PlacedId(p: Placed): string {
    p.node.id
  }

  /** `nodeMap`: each class identifier with its laid-out box. */
  function NodeMap(layout: seq<Placed>): map<string, Placed> {
    LastBy(layout, PlacedId)
  }

  lemma NodeMapKeys(layout: seq<Placed>)
    ensures forall k :: k in NodeMap(layout) ==> NodeMap(layout)[k].node.id == k
  {
    forall k | k in NodeMap(layout)
      ensures NodeMap(layout)[k].node.id == k
    {
      LastByValue(layout, PlacedId, k);
    }
  }

  // ---------------------------------------------------------------- groupedInheritanceByParent

  /** The inheritance relations into `parent`, in order. */
  function IntoParent(inh: seq<ClassRelation>, parent: string): (rs: seq<ClassRelation>)
    ensures forall r :: r in rs <==> r in inh && r.to == parent
    ensures (forall r :: r in inh ==> r.to != parent) ==> rs == []
    decreases |inh|
  {
    if |inh| == 0 then []
    else
      var init := inh[..|inh| - 1];
      var last := inh[|inh| - 1];
      assert forall r :: r in inh <==> r in init || r == last;
      IntoParent(init, parent) + (if last.to == parent then [last] else [])
  }

  /** The targets of a list of relations, in order. */
  function Targets(inh: seq<ClassRelation>): (ts: seq<string>)
    ensures |ts| == |inh| && forall i :: 0 <= i < |inh| ==> ts[i] == inh[i].to
  {
    seq(|inh|, i requires 0 <= i < |inh| => inh[i].to)
  }

  /** The grouping of the inheritance relations by parent that the renderer builds. */
  ghost predicate GroupedByParent(inh: seq<ClassRelation>, groups: map<string, seq<ClassRelation>>, parents: seq<string>) {
    && parents == FirstSeen(Targets(inh))
    && (forall p :: p in groups <==> p in parents)
    && (forall p :: p in groups ==> groups[p] == IntoParent(inh, p))
  }

  /** `relations.filter(inheritance).forEach(...)`: push each relation onto its parent's group, opening
      the group the first time its parent is seen. */
  method GroupByParent(relations: seq<ClassRelation>) returns (groups: map<string, seq<ClassRelation>>, parents: seq<string>)
    ensures GroupedByParent(InheritanceOf(relations), groups, parents)
  {
    var inh := InheritanceOf(relations);
    groups, parents := map[], [];
    for i := 0 to |inh|
      invariant GroupedByParent(inh[..i], groups, parents)
    {
      groups, parents := PushOntoParent(inh[..i], inh[i], groups, parents);
      assert inh[..i + 1] == inh[..i] + [inh[i]];
    }
    assert inh[..|inh|] == inh;
  }

  /** One step of the `forEach`. */
  method PushOntoParent(inh: seq<ClassRelation>, r: ClassRelation, groups: map<string, seq<ClassRelation>>,
                        parents: seq<string>)
    returns (groups': map<string, seq<ClassRelation>>, parents': seq<string>)
    requires GroupedByParent(inh, groups, parents)
    ensures GroupedByParent(inh + [r], groups', parents')
  {
    var parent := r.to;
    PushGrouped(inh, r, groups, parents);
    groups', parents' := groups, parents;
    if parent !in groups' {
      groups' := groups'[parent := []];
      parents' := parents' + [parent];
      ClassHierarchy.UpdateTwice(groups, parent, [], [] + [r]);
    }
    groups' := groups'[parent := groups'[parent] + [r]];
  }

  /** The grouping after one more relation: its parent's group grows by it, opened empty the first
      time the parent is seen. */
  lemma PushGrouped(inh: seq<ClassRelation>, r: ClassRelation, groups: map<string, seq<ClassRelation>>, parents: seq<string>)
    requires GroupedByParent(inh, groups, parents)
    ensures var bucket := if r.to in groups then groups[r.to] else [];
            GroupedByParent(inh + [r], groups[r.to := bucket + [r]],
                            if r.to in groups then parents else parents + [r.to])
  {
    ParentsSnoc(inh, r, parents);
    GroupsSnoc(inh, r, groups, parents);
  }

  lemma ParentsSnoc(inh: seq<ClassRelation>, r: ClassRelation, parents: seq<string>)
    requires parents == FirstSeen(Targets(inh))
    ensures FirstSeen(Targets(inh + [r])) == if r.to in parents then parents else parents + [r.to]
  {
    assert Targets(inh + [r])[..|inh|] == Targets(inh);
  }

  lemma GroupsSnoc(inh: seq<ClassRelation>, r: ClassRelation, groups: map<string, seq<ClassRelation>>, parents: seq<string>)
    requires GroupedByParent(inh, groups, parents)
    ensures var bucket := if r.to in groups then groups[r.to] else [];
            forall p :: p in groups[r.to := bucket + [r]] ==> groups[r.to := bucket + [r]][p] == IntoParent(inh + [r], p)
  {
    if r.to !in groups {
      NoGroupYet(inh, r.to);
    }
    var bucket := if r.to in groups then groups[r.to] else [];
    var groups' := groups[r.to := bucket + [r]];
    forall p | p in groups'
      ensures groups'[p] == IntoParent(inh + [r], p)
    {
      IntoParentSnoc(inh, r, p);
      if p != r.to {
        assert groups'[p] == groups[p] == IntoParent(inh, p);
      } else {
        assert groups'[p] == bucket + [r] && bucket == IntoParent(inh, p);
      }
    }
  }

  lemma IntoParentSnoc(inh: seq<ClassRelation>, r: ClassRelation, p: string)
    ensures IntoParent(inh + [r], p) == IntoParent(inh, p) + (if r.to == p then [r] else [])
  {
    assert (inh + [r])[..|inh|] == inh;
  }

  /** A parent no relation points to has an empty group. */
  lemma NoGroupYet(inh: seq<ClassRelation>, parent: string)
    requires parent !in Targets(inh)
    ensures IntoParent(inh, parent) == []
  {
    forall q | q in inh
      ensures q.to != parent
    {
      var k :| 0 <= k < |inh| && inh[k] == q;
      assert Targets(inh)[k] == q.to;
    }
  }

  // ---------------------------------------------------------------- inheritanceSiblingMeta

  /** A relation's rank among the relations into the same parent, and how many there are. */
  datatype SiblingInfo = SiblingInfo(index: nat, total: nat)

  /** The centre x of a class box, with 0 for a missing x or width. */
  function CentreX(nodeMap: map<string, Placed>, id: string): real {
    (if id in nodeMap then nodeMap[id].x else 0.0) + (if id in nodeMap then nodeMap[id].width as real else 0.0) / 2.0
  }

  /** The comparator `leftX - rightX`: strictly before when the child's centre lies further left. */
  function LeftOf(nodeMap: map<string, Placed>): (ClassRelation, ClassRelation) -> bool {
    (a: ClassRelation, b: ClassRelation) => CentreX(nodeMap, a.from) < CentreX(nodeMap, b.from)
  }

  /** Comparing centres is a consistent comparator, so each group comes out ordered left to right. */
  lemma LeftOfConsistent(nodeMap: map<string, Placed>)
    ensures Sorting.Consistent(LeftOf(nodeMap))
  {
  }

  /** `info` records that `id` is at `info.index` of `sorted`, which has `info.total` relations. */
  predicate RankedAt(sorted: seq<ClassRelation>, id: string, info: SiblingInfo) {
    info.total == |sorted| && info.index < |sorted| && sorted[info.index].id == id
  }

  /** The group of `parent` as the renderer sorts it: by the centre x of each child, left to right. */
  function SortedGroup(nodeMap: map<string, Placed>, groups: map<string, seq<ClassRelation>>, parent: string)
    : (sorted: seq<ClassRelation>)
    requires parent in groups
    ensures multiset(sorted) == multiset(groups[parent])
    ensures Sorting.SortedBy(sorted, LeftOf(nodeMap))
  {
    LeftOfConsistent(nodeMap);
    Sorting.SortSorted(groups[parent], LeftOf(nodeMap));
    Sorting.Sort(groups[parent], LeftOf(nodeMap))
  }

  /** `info` ranks `id` within the sorted group of one of the first `done` parents. */
  ghost predicate RankedIn(nodeMap: map<string, Placed>, groups: map<string, seq<ClassRelation>>, parents: seq<string>,
                           done: nat, id: string, info: SiblingInfo)
    requires done <= |parents| && forall p :: p in parents ==> p in groups
  {
    exists j :: 0 <= j < done && RankedAt(SortedGroup(nodeMap, groups, parents[j]), id, info)
  }

  /** The sibling table after `done` groups: each entry ranks its relation within the sorted group of
      some parent, and every relation of those groups has an entry. */
  ghost predicate SiblingTable(nodeMap: map<string, Placed>, groups: map<string, seq<ClassRelation>>, parents: seq<string>,
                               done: nat, meta: map<string, SiblingInfo>)
    requires done <= |parents| && forall p :: p in parents ==> p in groups
  {
    && (forall id :: id in meta ==> RankedIn(nodeMap, groups, parents, done, id, meta[id]))
    && (forall j, r :: 0 <= j < done && r in groups[parents[j]] ==> r.id in meta)
  }

  /** `Object.values(groupedInheritanceByParent).forEach(...)`: sort each group by the centre x of the
      children, then record each relation's rank and the group's size. */
  method SiblingMeta(nodeMap: map<string, Placed>, groups: map<string, seq<ClassRelation>>, parents: seq<string>)
    returns (meta: map<string, SiblingInfo>)
    requires forall p :: p in parents ==> p in groups
    ensures SiblingTable(nodeMap, groups, parents, |parents|, meta)
  {
    meta := map[];
    for i := 0 to |parents|
      invariant SiblingTable(nodeMap, groups, parents, i, meta)
    {
      var sorted := Sorting.SortInPlace(groups[parents[i]], LeftOf(nodeMap));
      meta := RankGroup(nodeMap, groups, parents, i, sorted, meta);
    }
  }

  /** `group.forEach((relation, index) => { meta[relation.id] = { index, total } })` for the group of
      `parents[i]`. */
  method RankGroup(nodeMap: map<string, Placed>, groups: map<string, seq<ClassRelation>>, parents: seq<string>,
                   i: nat, sorted: seq<ClassRelation>, meta: map<string, SiblingInfo>)
    returns (meta': map<string, SiblingInfo>)
    requires i < |parents| && forall p :: p in parents ==> p in groups
    requires sorted == Sorting.Sort(groups[parents[i]], LeftOf(nodeMap))
    requires SiblingTable(nodeMap, groups, parents, i, meta)
    ensures SiblingTable(nodeMap, groups, parents, i + 1, meta')
  {
    assert sorted == SortedGroup(nodeMap, groups, parents[i]);
    RankedWider(nodeMap, groups, parents, i, meta);
    meta' := meta;
    for index := 0 to |sorted|
      invariant Ranking(nodeMap, groups, parents, i, meta', sorted, index)
    {
      RankNext(nodeMap, groups, parents, i, meta', sorted, index);
      meta' := meta'[sorted[index].id := SiblingInfo(index, |sorted|)];
    }
    forall r | r in groups[parents[i]]
      ensures r.id in meta'
    {
      assert r in multiset(sorted);
    }
  }

  /** Part way through the group of `parents[i]`: every entry ranked within the first `i + 1` groups,
      the first `i` groups and the first `done` relations of `sorted` all covered. */
  ghost predicate Ranking(nodeMap: map<string, Placed>, groups: map<string, seq<ClassRelation>>, parents: seq<string>,
                          i: nat, meta: map<string, SiblingInfo>, sorted: seq<ClassRelation>, done: nat)
    requires i < |parents| && forall p :: p in parents ==> p in groups
  {
    && (forall id :: id in meta ==> RankedIn(nodeMap, groups, parents, i + 1, id, meta[id]))
    && (forall j, r :: 0 <= j < i && r in groups[parents[j]] ==> r.id in meta)
    && (forall k :: 0 <= k < done && k < |sorted| ==> sorted[k].id in meta)
  }

  lemma RankNext(nodeMap: map<string, Placed>, groups: map<string, seq<ClassRelation>>, parents: seq<string>,
                 i: nat, meta: map<string, SiblingInfo>, sorted: seq<ClassRelation>, index: nat)
    requires i < |parents| && forall p :: p in parents ==> p in groups
    requires sorted == SortedGroup(nodeMap, groups, parents[i]) && index < |sorted|
    requires Ranking(nodeMap, groups, parents, i, meta, sorted, index)
    ensures Ranking(nodeMap, groups, parents, i, meta[sorted[index].id := SiblingInfo(index, |sorted|)], sorted, index + 1)
  {
    var id, info := sorted[index].id, SiblingInfo(index, |sorted|);
    var meta' := meta[id := info];
    forall k | k in meta'
      ensures RankedIn(nodeMap, groups, parents, i + 1, k, meta'[k])
    {
      if k == id {
        assert RankedAt(SortedGroup(nodeMap, groups, parents[i]), k, meta'[k]);
      }
    }
  }

  /** An entry ranked within the first `done` groups is ranked within the first `done + 1`. */
  lemma RankedWider(nodeMap: map<string, Placed>, groups: map<string, seq<ClassRelation>>, parents: seq<string>,
                    done: nat, meta: map<string, SiblingInfo>)
    requires done < |parents| && forall p :: p in parents ==> p in groups
    requires forall id :: id in meta ==> RankedIn(nodeMap, groups, parents, done, id, meta[id])
    ensures forall id :: id in meta ==> RankedIn(nodeMap, groups, parents, done + 1, id, meta[id])
  {
    forall id | id in meta
      ensures RankedIn(nodeMap, groups, parents, done + 1, id, meta[id])
    {
      var j :| 0 <= j < done && RankedAt(SortedGroup(nodeMap, groups, parents[j]), id, meta[id]);
    }
  }

  /** `(index + 1) / (total + 1)`, with `{ index: 0, total: 1 }` for a relation without an entry. */
  function Ratio(meta: map<string, SiblingInfo>, id: string): real {
    Fraction(if id in meta then meta[id] else SiblingInfo(0, 1))
  }

  function Fraction(info: SiblingInfo): real {
    (info.index + 1) as real / (info.total + 1) as real
  }

  /** Every ratio lies strictly between 0 and 1. */
  lemma RatioInside(nodeMap: map<string, Placed>, groups: map<string, seq<ClassRelation>>, parents: seq<string>,
                    meta: map<string, SiblingInfo>, id: string)
    requires forall p :: p in parents ==> p in groups
    requires SiblingTable(nodeMap, groups, parents, |parents|, meta)
    ensures 0.0 < Ratio(meta, id) < 1.0
  {
    if id in meta {
      var j :| 0 <= j < |parents| && RankedAt(SortedGroup(nodeMap, groups, parents[j]), id, meta[id]);
      FractionInside(meta[id]);
    } else {
      FractionInside(SiblingInfo(0, 1));
    }
  }

  lemma FractionInside(info: SiblingInfo)
    requires info.index < info.total
    ensures 0.0 < Fraction(info) < 1.0
  {
    var a, b := (info.index + 1) as real, (info.total + 1) as real;
    assert a / b * b == a;
  }

  // ---------------------------------------------------------------- relations

  /** The anchors of an inheritance edge: from the middle of the child's top to the parent's bottom
      when the parent lies wholly above, and from the child's bottom to the parent's top otherwise. */
  function InheritanceAnchors(source: Rect, target: Rect, ratio: real): (Anchor, Anchor) {
    if target.y + target.height <= source.y then
      (CreateSideAnchor(source, Top, 0.5), CreateSideAnchor(target, Bottom, ratio))
    else
      (CreateSideAnchor(source, Bottom, 0.5), CreateSideAnchor(target, Top, ratio))
  }

  /** The two anchors sit on facing sides, each strictly inside its side; the end anchor is `ratio`
      along the parent's side; when the parent is wholly above, the edge climbs. */
  lemma InheritanceAnchorsFace(source: Rect, target: Rect, ratio: real)
    requires source.width > 0.0 && source.height > 0.0 && target.width > 0.0 && target.height > 0.0
    requires 0.0 < ratio < 1.0
    ensures var (s, e) := InheritanceAnchors(source, target, ratio);
            && s.side.Some? && e.side.Some? && e.side.value == Opposite(s.side.value)
            && (s.side == Some(Top) <==> target.y + target.height <= source.y)
            && InsideSide(source, s.side.value, Position(s)) && InsideSide(target, e.side.value, Position(e))
            && s.x == source.x + source.width / 2.0 && e.x == Along(target.x, target.width, ratio)
            && (s.side == Some(Top) ==> e.y <= s.y)
  {
    if target.y + target.height <= source.y {
      SideAnchorInside(source, Top, 0.5);
      SideAnchorInside(target, Bottom, ratio);
    } else {
      SideAnchorInside(source, Bottom, 0.5);
      SideAnchorInside(target, Top, ratio);
    }
  }

  /** The boxes of the layout, each with its class identifier. */
  function Items(layout: seq<Placed>): (items: seq<Item>)
    ensures |items| == |layout|
  {
    seq(|layout|, i requires 0 <= i < |layout| => Item(layout[i].node.id, Box(layout[i])))
  }

  /** How a relation is drawn: not at all when either end is missing; otherwise from the inheritance
      anchors or the closest anchor pair, routed around every other class box. */
  ghost predicate RelationDrawn(layout: seq<Placed>, meta: map<string, SiblingInfo>, r: ClassRelation, edge: Option<Edge>) {
    var nodeMap := NodeMap(layout);
    if r.from !in nodeMap || r.to !in nodeMap then edge.None?
    else
      var source, target := Box(nodeMap[r.from]), Box(nodeMap[r.to]);
      && edge.Some?
      && (if r.relationType == Inheritance
          then (edge.value.start, edge.value.end) == InheritanceAnchors(source, target, Ratio(meta, r.id))
          else Closest(source, target, 0.0, edge.value.start, edge.value.end))
      && Routed(edge.value.start, edge.value.end, Others(Items(layout), r.from, r.to), 14.0, 10.0, 14.0, edge.value.route)
  }

  /** The body of `relations.map`. */
  method DrawRelation(layout: seq<Placed>, nodeMap: map<string, Placed>, meta: map<string, SiblingInfo>, r: ClassRelation)
    returns (edge: Option<Edge>)
    requires nodeMap == NodeMap(layout)
    ensures RelationDrawn(layout, meta, r, edge)
  {
    if r.from !in nodeMap || r.to !in nodeMap {
      return None;
    }
    LastByValue(layout, PlacedId, r.from);
    LastByValue(layout, PlacedId, r.to);
    var source, target := nodeMap[r.from], nodeMap[r.to];
    var start, end := ClosestAnchors(Box(source), Box(target));
    if r.relationType == Inheritance {
      var siblingInfo := if r.id in meta then meta[r.id] else SiblingInfo(0, 1);
      var ratio := Fraction(siblingInfo);
      if target.y + target.height as real <= source.y {
        start, end := CreateSideAnchor(Box(source), Top, 0.5), CreateSideAnchor(Box(target), Bottom, ratio);
      } else {
        start, end := CreateSideAnchor(Box(source), Bottom, 0.5), CreateSideAnchor(Box(target), Top, ratio);
      }
    }
    var obstacles := Others(Items(layout), source.node.id, target.node.id);
    var routed := RouteOrthogonalPath(start, end, obstacles, 14.0, 10.0, 14.0);
    edge := Some(Edge(start, end, routed));
  }

  /** One connector per relation, each drawn as `RelationDrawn` says. */
  ghost predicate AllDrawn(layout: seq<Placed>, meta: map<string, SiblingInfo>, relations: seq<ClassRelation>,
                           edges: seq<Option<Edge>>) {
    |edges| == |relations| && forall i :: 0 <= i < |relations| ==> RelationDrawn(layout, meta, relations[i], edges[i])
  }

  /** The connectors drawn so far, one per relation from the first. */
  ghost predicate DrawnSoFar(layout: seq<Placed>, meta: map<string, SiblingInfo>, relations: seq<ClassRelation>,
                             edges: seq<Option<Edge>>) {
    |edges| <= |relations| && forall i :: 0 <= i < |edges| ==> RelationDrawn(layout, meta, relations[i], edges[i])
  }

  lemma DrawnSoFarSnoc(layout: seq<Placed>, meta: map<string, SiblingInfo>, relations: seq<ClassRelation>,
                       edges: seq<Option<Edge>>, edge: Option<Edge>)
    requires DrawnSoFar(layout, meta, relations, edges) && |edges| < |relations|
    requires RelationDrawn(layout, meta, relations[|edges|], edge)
    ensures DrawnSoFar(layout, meta, relations, edges + [edge])
  {
    var longer := edges + [edge];
    forall i | 0 <= i < |longer|
      ensures RelationDrawn(layout, meta, relations[i], longer[i])
    {
      if i < |edges| {
        assert longer[i] == edges[i];
        assert RelationDrawn(layout, meta, relations[i], edges[i]);
      } else {
        assert i == |edges| && longer[i] == edge;
      }
    }
  }

  /** `relations.map(...)`. */
  method DrawRelations(layout: seq<Placed>, meta: map<string, SiblingInfo>, relations: seq<ClassRelation>)
    returns (edges: seq<Option<Edge>>)
    ensures AllDrawn(layout, meta, relations, edges)
  {
    var nodeMap := FillBy(layout, PlacedId);
    edges := [];
    for i := 0 to |relations|
      invariant |edges| == i
      invariant DrawnSoFar(layout, meta, relations, edges)
    {
      var edge := DrawRelation(layout, nodeMap, meta, relations[i]);
      DrawnSoFarSnoc(layout, meta, relations, edges, edge);
      edges := edges + [edge];
    }
  }

  // ---------------------------------------------------------------- canvas

  function Rights(layout: seq<Placed>): seq<real> {
    seq(|layout|, i requires 0 <= i < |layout| => layout[i].x + layout[i].width as real)
  }

  function Bottoms(layout: seq<Placed>): seq<real> {
    seq(|layout|, i requires 0 <= i < |layout| => layout[i].y + layout[i].height as real)
  }

  /** The canvas is at least 980 × 540 and leaves at least 120 right of and below every box. */
  lemma CanvasHolds(layout: seq<Placed>)
    ensures MaxFrom(860.0, Rights(layout)) + 120.0 >= 980.0 && MaxFrom(420.0, Bottoms(layout)) + 120.0 >= 540.0
    ensures forall i :: 0 <= i < |layout| ==>
              Box(layout[i]).x + Box(layout[i]).width + 120.0 <= MaxFrom(860.0, Rights(layout)) + 120.0
              && Box(layout[i]).y + Box(layout[i]).height + 120.0 <= MaxFrom(420.0, Bottoms(layout)) + 120.0
  {
    assert forall i :: 0 <= i < |layout| ==> Rights(layout)[i] == Box(layout[i]).x + Box(layout[i]).width;
    assert forall i :: 0 <= i < |layout| ==> Bottoms(layout)[i] == Box(layout[i]).y + Box(layout[i]).height;
  }

  // ---------------------------------------------------------------- the renderer

  /** What the renderer draws. */
  datatype ClassView = ClassView(layout: seq<Placed>, siblings: map<string, SiblingInfo>, width: real, height: real,
                                 edges: seq<Option<Edge>>)

  /** `ClassRenderer`: the layout, the sibling table of the inheritance edges, the canvas and one
      connector per relation. */
  method RenderClasses(classes: seq<ClassNode>, relations: seq<ClassRelation>, collate: (string, string) -> int,
                       ghost rank: map<string, nat>)
    returns (view: ClassView)
    requires Ranked(ClassIds(classes), InheritanceOf(relations), rank)
    ensures BuiltLayout(classes, relations, collate, view.layout) && LaidOut(classes, view.layout)
    ensures exists groups, parents :: GroupedByParent(InheritanceOf(relations), groups, parents)
              && SiblingTable(NodeMap(view.layout), groups, parents, |parents|, view.siblings)
    ensures view.width == MaxFrom(860.0, Rights(view.layout)) + 120.0
    ensures view.height == MaxFrom(420.0, Bottoms(view.layout)) + 120.0
    ensures AllDrawn(view.layout, view.siblings, relations, view.edges)
  {
    var layout, info, reached := BuildLayout(classes, relations, collate, rank);
    assert BuiltLayout(classes, relations, collate, layout);
    var nodeMap := FillBy(layout, PlacedId);
    var groups, parents := GroupByParent(relations);
    var meta := SiblingMeta(nodeMap, groups, parents);
    assert nodeMap == NodeMap(layout);
    assert GroupedByParent(InheritanceOf(relations), groups, parents)
        && SiblingTable(NodeMap(layout), groups, parents, |parents|, meta);
    var edges := DrawRelations(layout, meta, relations);
    view := ClassView(layout, meta, MaxFrom(860.0, Rights(layout)) + 120.0, MaxFrom(420.0, Bottoms(layout)) + 120.0, edges);
  }
}
