/** Rectangles, side anchors and the choice of the closest anchor pair between two boxes
    (src/utils/GeometryUtils.js:31-151). Coordinates are exact reals. */
module Geometry {
  import opened Options

  datatype Point = Point(x: real, y: real)

  /** An axis-aligned box given by its top-left corner and its size (y grows downwards, as in SVG). */
  datatype Rect = Rect(x: real, y: real, width: real, height: real)

  datatype Side = Left | Right | Top | Bottom

  datatype Vector = Vector(x: real, y: real)

  /** A connector end point. Anchors built on a box side carry that side and its outward normal;
      a bare point carries neither. */
  datatype Anchor = Anchor(x: real, y: real, side: Option<Side>, normal: Option<Vector>)

  function Abs(v: real): (r: real)
    ensures r >= 0.0 && (r == v || r == -v)
  {
    if v < 0.0 then -v else v
  }

  function Min(a: real, b: real): (r: real)
    ensures r <= a && r <= b && (r == a || r == b)
  {
    if a <= b then a else b
  }

  function Max(a: real, b: real): (r: real)
    ensures r >= a && r >= b && (r == a || r == b)
  {
    if a >= b then a else b
  }

  /** `clamp`: `Math.max(min, Math.min(max, value))`. */
  function Clamp(value: real, min: real, max: real): (r: real)
    ensures r >= min
    ensures min <= max ==> min <= r <= max
    ensures min <= value <= max ==> r == value
    ensures min <= max && value < min ==> r == min
    ensures min <= max && value > max ==> r == max
  {
    Max(min, Min(max, value))
  }

  function RectCenter(rect: Rect): (c: Point)
    ensures c.x - rect.x == rect.x + rect.width - c.x
    ensures c.y - rect.y == rect.y + rect.height - c.y
  {
    Point(rect.x + rect.width / 2.0, rect.y + rect.height / 2.0)
  }

  /** The padding `inflateRect` uses when none is given. */
  const DefaultObstaclePadding: real := 14.0

  /** `inflateRect`: the box grown by `padding` on every side. */
  function InflateRect(rect: Rect, padding: real): (r: Rect)
    ensures r.width == rect.width + 2.0 * padding && r.height == rect.height + 2.0 * padding
    ensures RectCenter(r) == RectCenter(rect)
  {
    Rect(rect.x - padding, rect.y - padding, rect.width + padding * 2.0, rect.height + padding * 2.0)
  }

  /** `pointInRect`: inclusive on all four edges. */
  predicate PointInRect(p: Point, rect: Rect) {
    p.x >= rect.x && p.x <= rect.x + rect.width && p.y >= rect.y && p.y <= rect.y + rect.height
  }

  /** With a non-negative padding the inflated box contains the original one. */
  lemma InflateContains(rect: Rect, padding: real, p: Point)
    requires padding >= 0.0 && PointInRect(p, rect)
    ensures PointInRect(p, InflateRect(rect, padding))
  {
  }

  /** The four corners of a box with non-negative size are inside it: the test is inclusive. */
  lemma CornersInside(rect: Rect)
    requires rect.width >= 0.0 && rect.height >= 0.0
    ensures PointInRect(Point(rect.x, rect.y), rect)
    ensures PointInRect(Point(rect.x + rect.width, rect.y + rect.height), rect)
    ensures PointInRect(Point(rect.x, rect.y + rect.height), rect)
    ensures PointInRect(Point(rect.x + rect.width, rect.y), rect)
  {
  }

  /** The outward unit normal of a side (`SIDE_VECTORS`). */
  function SideNormal(side: Side): (n: Vector)
    ensures Abs(n.x) + Abs(n.y) == 1.0
    ensures side.Left? || side.Right? <==> n.y == 0.0
    ensures side.Right? || side.Bottom? <==> n.x + n.y > 0.0
  {
    match side
    case Top => Vector(0.0, -1.0)
    case Right => Vector(1.0, 0.0)
    case Bottom => Vector(0.0, 1.0)
    case Left => Vector(-1.0, 0.0)
  }

  function Opposite(side: Side): Side {
    match side
    case Top => Bottom
    case Bottom => Top
    case Left => Right
    case Right => Left
  }

  /** Opposite sides have opposite normals. */
  lemma OppositeNormals(side: Side)
    ensures SideNormal(Opposite(side)) == Vector(-SideNormal(side).x, -SideNormal(side).y)
  {
  }

  /** How far side anchors stay away from the box corners. */
  const AnchorInset: real := 12.0

  /** `buildSideAnchor`: a point on `side` of `rect`, sliding along that side towards `toward` but kept
      12 units from the corners, then moved `offset` units outwards. */
  function BuildSideAnchor(rect: Rect, side: Side, toward: Point, offset: real): (a: Anchor)
    ensures a.side == Some(side) && a.normal == Some(SideNormal(side))
    ensures side == Left ==> a.x == rect.x - offset && a.y == Clamp(toward.y, rect.y + AnchorInset, rect.y + rect.height - AnchorInset)
    ensures side == Right ==> a.x == rect.x + rect.width + offset && a.y == Clamp(toward.y, rect.y + AnchorInset, rect.y + rect.height - AnchorInset)
    ensures side == Top ==> a.y == rect.y - offset && a.x == Clamp(toward.x, rect.x + AnchorInset, rect.x + rect.width - AnchorInset)
    ensures side == Bottom ==> a.y == rect.y + rect.height + offset && a.x == Clamp(toward.x, rect.x + AnchorInset, rect.x + rect.width - AnchorInset)
  {
    var normal := SideNormal(side);
    var minX := rect.x + AnchorInset;
    var maxX := rect.x + rect.width - AnchorInset;
    var minY := rect.y + AnchorInset;
    var maxY := rect.y + rect.height - AnchorInset;
    if side == Left || side == Right then
      var y := Clamp(toward.y, minY, maxY);
      var x := if side == Left then rect.x else rect.x + rect.width;
      Anchor(x + normal.x * offset, y + normal.y * offset, Some(side), Some(normal))
    else
      var x := Clamp(toward.x, minX, maxX);
      var y := if side == Top then rect.y else rect.y + rect.height;
      Anchor(x + normal.x * offset, y + normal.y * offset, Some(side), Some(normal))
  }

  /** Without offset, on a box at least 24 units in each direction, a side anchor lies on the box
      outline, at least 12 units from each corner along its side. */
  lemma SideAnchorOnOutline(rect: Rect, side: Side, toward: Point)
    requires rect.width >= 2.0 * AnchorInset && rect.height >= 2.0 * AnchorInset
    ensures var a := BuildSideAnchor(rect, side, toward, 0.0);
            PointInRect(Point(a.x, a.y), rect)
            && (side.Left? || side.Right? ==> rect.y + AnchorInset <= a.y <= rect.y + rect.height - AnchorInset)
            && (side.Top? || side.Bottom? ==> rect.x + AnchorInset <= a.x <= rect.x + rect.width - AnchorInset)
  {
  }

  /** `scoreAnchorPair`: the Manhattan distance between the two anchors, plus 180 for each anchor whose
      normal faces away from the other one, plus 28 when both leave from the same side. */
  function ScoreAnchorPair(start: Anchor, end: Anchor): (score: real)
    requires start.normal.Some? && end.normal.Some?
    ensures score >= Abs(end.x - start.x) + Abs(end.y - start.y)
  {
    var dx := end.x - start.x;
    var dy := end.y - start.y;
    var manhattan := Abs(dx) + Abs(dy);
    var startFacing := start.normal.value.x * dx + start.normal.value.y * dy;
    var endFacing := end.normal.value.x * -dx + end.normal.value.y * -dy;
    manhattan
    + (if startFacing < 0.0 then 180.0 else 0.0)
    + (if endFacing < 0.0 then 180.0 else 0.0)
    + (if start.side == end.side then 28.0 else 0.0)
  }

  /** Two anchors facing each other on different sides cost exactly their Manhattan distance; every
      anchor facing away or a shared side costs at least 28 more. */
  lemma ScorePenalties(start: Anchor, end: Anchor)
    requires start.normal.Some? && end.normal.Some?
    ensures var dx := end.x - start.x;
            var dy := end.y - start.y;
            var extra := ScoreAnchorPair(start, end) - (Abs(dx) + Abs(dy));
            (extra == 0.0 <==>
               start.normal.value.x * dx + start.normal.value.y * dy >= 0.0
               && end.normal.value.x * -dx + end.normal.value.y * -dy >= 0.0
               && start.side != end.side)
            && (extra != 0.0 ==> extra >= 28.0)
  {
  }

  /** `getAnchorPoint`: the anchor on the side of `rect` that faces `target` most directly; a horizontal
      side wins only when the vertical offset is strictly larger. */
  function AnchorPoint(rect: Rect, target: Point, offset: real): (a: Anchor)
    ensures var c := RectCenter(rect);
            var dx := target.x - c.x;
            var dy := target.y - c.y;
            a.side.Some?
            && a == BuildSideAnchor(rect, a.side.value, target, offset)
            && (a.side == Some(Right) <==> Abs(dx) >= Abs(dy) && dx >= 0.0)
            && (a.side == Some(Left) <==> Abs(dx) >= Abs(dy) && dx < 0.0)
            && (a.side == Some(Bottom) <==> Abs(dx) < Abs(dy) && dy >= 0.0)
            && (a.side == Some(Top) <==> Abs(dx) < Abs(dy) && dy < 0.0)
  {
    var center := RectCenter(rect);
    var dx := target.x - center.x;
    var dy := target.y - center.y;
    var side := if Abs(dx) >= Abs(dy) then (if dx >= 0.0 then Right else Left)
                else (if dy >= 0.0 then Bottom else Top);
    BuildSideAnchor(rect, side, target, offset)
  }

  /** The order in which `getClosestAnchors` tries the sides. */
  const TrySides: seq<Side> := [Left, Right, Top, Bottom]

  /** Candidate `(i, j)` of the sixteen tried by `getClosestAnchors`: source side `TrySides[i]` (outer
      loop), target side `TrySides[j]` (inner loop), each anchor aimed at the other box's centre. */
  function Candidate(source: Rect, target: Rect, offset: real, i: nat, j: nat): (pair: (Anchor, Anchor))
    requires i < 4 && j < 4
    ensures pair.0.normal.Some? && pair.1.normal.Some?
  {
    (BuildSideAnchor(source, TrySides[i], RectCenter(target), offset),
     BuildSideAnchor(target, TrySides[j], RectCenter(source), offset))
  }

  function CandidateScore(source: Rect, target: Rect, offset: real, i: nat, j: nat): real
    requires i < 4 && j < 4
  {
    var pair := Candidate(source, target, offset, i, j);
    ScoreAnchorPair(pair.0, pair.1)
  }

  /** Candidate `(i2, j2)` is tried before candidate `(i, j)`. */
  predicate TriedBefore(i2: nat, j2: nat, i: nat, j: nat) {
    i2 < i || (i2 == i && j2 < j)
  }

  /** Under `score`, candidate `(i, j)` has least score among the candidates of a 4-by-4 table tried
      before `(ui, uj)`, and strictly less than every candidate tried before it. */
  predicate BestSoFar(score: (nat, nat) -> real, i: nat, j: nat, ui: nat, uj: nat) {
    (forall i2: nat, j2: nat :: i2 < 4 && j2 < 4 && TriedBefore(i2, j2, ui, uj) ==> score(i, j) <= score(i2, j2))
    && (forall i2: nat, j2: nat :: i2 < 4 && j2 < 4 && TriedBefore(i2, j2, i, j) ==> score(i, j) < score(i2, j2))
  }

  /** One step of the search: keeping the best so far or replacing it by a strictly better candidate. */
  lemma BestSoFarNext(score: (nat, nat) -> real, bi: nat, bj: nat, i: nat, j: nat)
    requires i < 4 && j < 4 && TriedBefore(bi, bj, i, j) && BestSoFar(score, bi, bj, i, j)
    ensures score(i, j) < score(bi, bj) ==> BestSoFar(score, i, j, i, j + 1)
    ensures score(bi, bj) <= score(i, j) ==> BestSoFar(score, bi, bj, i, j + 1)
  {
  }

  /** The scores of the sixteen candidates (zero outside the table). */
  ghost function Scores(source: Rect, target: Rect, offset: real): (nat, nat) -> real {
    (i: nat, j: nat) => if i < 4 && j < 4 then CandidateScore(source, target, offset, i, j) else 0.0
  }

  lemma BestOfScores(source: Rect, target: Rect, offset: real, i: nat, j: nat)
    requires i < 4 && j < 4 && BestSoFar(Scores(source, target, offset), i, j, 4, 0)
    ensures forall i2: nat, j2: nat :: i2 < 4 && j2 < 4 ==>
              CandidateScore(source, target, offset, i, j) <= CandidateScore(source, target, offset, i2, j2)
    ensures forall i2: nat, j2: nat :: i2 < 4 && j2 < 4 && TriedBefore(i2, j2, i, j) ==>
              CandidateScore(source, target, offset, i, j) < CandidateScore(source, target, offset, i2, j2)
  {
    var score := Scores(source, target, offset);
    forall i2: nat, j2: nat | i2 < 4 && j2 < 4
      ensures score(i2, j2) == CandidateScore(source, target, offset, i2, j2)
    {
    }
  }

  /** The state of the search once the candidates before `(i, j)` have been tried: `best` holds the
      score and the anchors of candidate `(bi, bj)`, the best so far. */
  ghost predicate Searched(source: Rect, target: Rect, offset: real, best: Option<(real, Anchor, Anchor)>,
                           bi: nat, bj: nat, i: nat, j: nat)
  {
    best.Some? ==>
      bi < 4 && bj < 4 && TriedBefore(bi, bj, i, j)
      && best.value == (CandidateScore(source, target, offset, bi, bj), Candidate(source, target, offset, bi, bj).0,
                        Candidate(source, target, offset, bi, bj).1)
      && BestSoFar(Scores(source, target, offset), bi, bj, i, j)
  }

  /** The body of the inner loop of `getClosestAnchors`: scores candidate `(i, j)` and keeps it when it
      is the first or strictly better than the best so far. */
  method Consider(source: Rect, target: Rect, offset: real, sourceCenter: Point, i: nat, j: nat, s: Anchor,
                  best: Option<(real, Anchor, Anchor)>, ghost bi: nat, ghost bj: nat)
    returns (next: Option<(real, Anchor, Anchor)>, ghost ni: nat, ghost nj: nat)
    requires i < 4 && j < 4 && sourceCenter == RectCenter(source) && s == Candidate(source, target, offset, i, j).0
    requires best.None? ==> i == 0 && j == 0
    requires Searched(source, target, offset, best, bi, bj, i, j)
    ensures next.Some? && Searched(source, target, offset, next, ni, nj, i, j + 1)
  {
    var e := BuildSideAnchor(target, TrySides[j], sourceCenter, offset);
    var sc := ScoreAnchorPair(s, e);
    assert (s, e) == Candidate(source, target, offset, i, j);
    if best.None? || sc < best.value.0 {
      next, ni, nj := Some((sc, s, e)), i, j;
      TakeCandidate(source, target, offset, best, bi, bj, i, j);
    } else {
      next, ni, nj := best, bi, bj;
      KeepBest(source, target, offset, best, bi, bj, i, j);
    }
  }

  /** A candidate that is the first, or strictly better than the best so far, becomes the best. */
  lemma TakeCandidate(source: Rect, target: Rect, offset: real, best: Option<(real, Anchor, Anchor)>,
                      bi: nat, bj: nat, i: nat, j: nat)
    requires i < 4 && j < 4 && Searched(source, target, offset, best, bi, bj, i, j)
    requires best.None? ==> i == 0 && j == 0
    requires best.Some? ==> CandidateScore(source, target, offset, i, j) < best.value.0
    ensures var pair := Candidate(source, target, offset, i, j);
            Searched(source, target, offset, Some((CandidateScore(source, target, offset, i, j), pair.0, pair.1)),
                     i, j, i, j + 1)
  {
    var score := Scores(source, target, offset);
    assert score(i, j) == CandidateScore(source, target, offset, i, j);
    if best.Some? {
      assert score(bi, bj) == CandidateScore(source, target, offset, bi, bj);
      BestSoFarNext(score, bi, bj, i, j);
    }
  }

  /** A candidate no better than the best so far leaves the best in place. */
  lemma KeepBest(source: Rect, target: Rect, offset: real, best: Option<(real, Anchor, Anchor)>,
                 bi: nat, bj: nat, i: nat, j: nat)
    requires i < 4 && j < 4 && Searched(source, target, offset, best, bi, bj, i, j)
    requires best.Some? && best.value.0 <= CandidateScore(source, target, offset, i, j)
    ensures Searched(source, target, offset, best, bi, bj, i, j + 1)
  {
    var score := Scores(source, target, offset);
    assert score(i, j) == CandidateScore(source, target, offset, i, j);
    assert score(bi, bj) == CandidateScore(source, target, offset, bi, bj);
    BestSoFarNext(score, bi, bj, i, j);
  }

  /** `getClosestAnchors`: tries all sixteen (source side, target side) pairs and keeps the first one
      of least score. */
  method GetClosestAnchors(source: Rect, target: Rect, offset: real) returns (start: Anchor, end: Anchor)
    ensures exists i: nat, j: nat :: i < 4 && j < 4 && (start, end) == Candidate(source, target, offset, i, j)
              && (forall i2: nat, j2: nat :: i2 < 4 && j2 < 4 ==>
                    CandidateScore(source, target, offset, i, j) <= CandidateScore(source, target, offset, i2, j2))
              && (forall i2: nat, j2: nat :: i2 < 4 && j2 < 4 && TriedBefore(i2, j2, i, j) ==>
                    CandidateScore(source, target, offset, i, j) < CandidateScore(source, target, offset, i2, j2))
  {
    var sourceCenter := RectCenter(source);
    var targetCenter := RectCenter(target);
    var best: Option<(real, Anchor, Anchor)> := None;
    ghost var bi: nat, bj: nat := 0, 0;
    for i := 0 to 4
      invariant i == 0 <==> best.None?
      invariant Searched(source, target, offset, best, bi, bj, i, 0)
    {
      var s := BuildSideAnchor(source, TrySides[i], targetCenter, offset);
      for j := 0 to 4
        invariant i == 0 && j == 0 <==> best.None?
        invariant Searched(source, target, offset, best, bi, bj, i, j)
      {
        best, bi, bj := Consider(source, target, offset, sourceCenter, i, j, s, best, bi, bj);
      }
    }
    start, end := best.value.1, best.value.2;
    BestOfScores(source, target, offset, bi, bj);
  }
}
