/** Where `StateRenderer` puts the text of a transition (src/renderers/StateRenderer.jsx:60-179): the
    estimated text box, the box tests, the candidate points beside each segment and beside the
    middle point of the route, their de-duplication on rounded coordinates, and the choice of the
    first candidate of least score. */
module StateLabel {
  import opened Options
  import opened Geometry
  import Router

  // ---------------------------------------------------------------- estimateLabelBox

  /** The estimated text width: 8.8 per code point above U+00FF, 7.2 for the others, summed left to right. */
  function TextWidth(text: string): (w: real)
    ensures 7.2 * |text| as real <= w <= 8.8 * |text| as real
    ensures (forall k :: 0 <= k < |text| ==> text[k] as int <= 255) ==> w == 7.2 * |text| as real
    decreases |text|
  {
    if |text| == 0 then 0.0
    else
      var init := text[..|text| - 1];
      assert forall k :: 0 <= k < |init| ==> init[k] == text[k];
      TextWidth(init) + (if text[|text| - 1] as int > 255 then 8.8 else 7.2)
  }

  /** `estimateLabelBox`: an 18-high box, 12 wider than the text, centred on the given point. */
  function EstimateLabelBox(text: string, centerX: real, centerY: real): (r: Rect)
    ensures RectCenter(r) == Point(centerX, centerY)
    ensures r.height == 18.0 && r.width == TextWidth(text) + 12.0
    ensures 12.0 + 7.2 * |text| as real <= r.width <= 12.0 + 8.8 * |text| as real
  {
    var width := TextWidth(text) + 12.0;
    Rect(centerX - width / 2.0, centerY - 18.0 / 2.0, width, 18.0)
  }

  // ---------------------------------------------------------------- rectsIntersect, segmentToRect

  /** `rectsIntersect`: the two boxes overlap with positive area; touching edges do not count. */
  predicate RectsIntersect(a: Rect, b: Rect) {
    a.x < b.x + b.width && a.x + a.width > b.x && a.y < b.y + b.height && a.y + a.height > b.y
  }

  predicate StrictlyInside(p: Point, r: Rect) {
    r.x < p.x < r.x + r.width && r.y < p.y < r.y + r.height
  }

  /** Two boxes of positive size intersect exactly when some point lies strictly inside both; hence
      the test is symmetric. */
  lemma IntersectIffCommonPoint(a: Rect, b: Rect)
    requires a.width > 0.0 && a.height > 0.0 && b.width > 0.0 && b.height > 0.0
    ensures RectsIntersect(a, b) <==> exists p :: StrictlyInside(p, a) && StrictlyInside(p, b)
    ensures RectsIntersect(a, b) <==> RectsIntersect(b, a)
  {
    if RectsIntersect(a, b) {
      var p := Point((Max(a.x, b.x) + Min(a.x + a.width, b.x + b.width)) / 2.0,
                     (Max(a.y, b.y) + Min(a.y + a.height, b.y + b.height)) / 2.0);
      assert StrictlyInside(p, a) && StrictlyInside(p, b);
    }
  }

  /** `segmentToRect`: the box spanned by two points, at least 1 wide and 1 high, grown by `padding`. */
  function SegmentToRect(a: Point, b: Point, padding: real): (r: Rect)
    ensures r.width >= 1.0 + 2.0 * padding && r.height >= 1.0 + 2.0 * padding
    ensures padding >= 0.0 ==> PointInRect(a, r) && PointInRect(b, r)
  {
    InflateRect(Rect(Min(a.x, b.x), Min(a.y, b.y), Max(1.0, Abs(a.x - b.x)), Max(1.0, Abs(a.y - b.y))), padding)
  }

  // ---------------------------------------------------------------- dedupeCandidates

  /** The key `${Math.round(x)}:${Math.round(y)}`, as the pair of rounded coordinates it spells. */
  function CandidateKey(p: Point): (int, int) {
    (Router.Round(p.x), Router.Round(p.y))
  }

  /** No earlier point has the key of `points[i]`. */
  predicate FirstOfKey(points: seq<Point>, i: nat)
    requires i < |points|
  {
    forall j :: 0 <= j < i ==> CandidateKey(points[j]) != CandidateKey(points[i])
  }

  /** The points that come first with their key, in order. */
  function Firsts(points: seq<Point>): (r: seq<Point>)
    ensures |r| <= |points| && forall u :: u in r ==> u in points
    decreases |points|
  {
    if |points| == 0 then []
    else Firsts(points[..|points| - 1]) + (if FirstOfKey(points, |points| - 1) then [points[|points| - 1]] else [])
  }

  /** The kept points have pairwise different keys. */
  lemma {:induction false} FirstsDistinct(points: seq<Point>)
    ensures forall i, j :: 0 <= i < j < |Firsts(points)| ==> CandidateKey(Firsts(points)[i]) != CandidateKey(Firsts(points)[j])
    decreases |points|
  {
    if |points| > 0 {
      var init := points[..|points| - 1];
      var last := points[|points| - 1];
      FirstsDistinct(init);
      if FirstOfKey(points, |points| - 1) {
        forall u | u in Firsts(init)
          ensures CandidateKey(u) != CandidateKey(last)
        {
          var j :| 0 <= j < |init| && init[j] == u;
          assert init[j] == points[j];
        }
        assert Firsts(points) == Firsts(init) + [last];
      }
    }
  }

  /** The keys of a list of points. */
  function KeysOf(points: seq<Point>): set<(int, int)> {
    set p | p in points :: CandidateKey(p)
  }

  /** Every point's key is the key of a kept point. */
  lemma {:induction false} FirstsCover(points: seq<Point>)
    ensures KeysOf(Firsts(points)) == KeysOf(points)
    decreases |points|
  {
    if |points| > 0 {
      var init := points[..|points| - 1];
      var last := points[|points| - 1];
      FirstsCover(init);
      assert points == init + [last];
      assert KeysOf(points) == KeysOf(init) + {CandidateKey(last)};
      if FirstOfKey(points, |points| - 1) {
        assert KeysOf(Firsts(points)) == KeysOf(Firsts(init) + [last]) == KeysOf(Firsts(init)) + {CandidateKey(last)};
      } else {
        var j :| 0 <= j < |points| - 1 && CandidateKey(points[j]) == CandidateKey(last);
        assert points[j] in init;
      }
    }
  }

  /** `dedupeCandidates`: one pass with a set of the keys seen so far. */
  method DedupeCandidates(points: seq<Point>) returns (unique: seq<Point>)
    ensures unique == Firsts(points)
  {
    var seen: set<(int, int)> := {};
    unique := [];
    for i := 0 to |points|
      invariant unique == Firsts(points[..i]) && seen == KeysOf(points[..i])
    {
      var prefix := points[..i + 1];
      assert prefix[..i] == points[..i] && prefix[i] == points[i];
      assert forall j :: 0 <= j < i ==> prefix[j] == points[..i][j];
      var key := CandidateKey(points[i]);
      assert key in seen <==> !FirstOfKey(prefix, i);
      if key !in seen {
        seen := seen + {key};
        unique := unique + [points[i]];
      }
      assert KeysOf(prefix) == KeysOf(points[..i]) + {key};
    }
    assert points[..|points|] == points;
  }

  // ---------------------------------------------------------------- candidates

  /** The two candidates beside one segment: above and below a horizontal one, left and right of any
      other, level with its middle. */
  function SegmentCandidates(start: Point, end: Point): (c: seq<Point>)
    ensures |c| == 2
  {
    var mid := Point((start.x + end.x) / 2.0, (start.y + end.y) / 2.0);
    if start.y == end.y then [Point(mid.x, start.y - 14.0), Point(mid.x, start.y + 18.0)]
    else [Point(start.x - 14.0, mid.y), Point(start.x + 14.0, mid.y)]
  }

  /** The candidates of every segment of `path`, segment by segment. */
  function SegmentsCandidates(path: seq<Point>): (c: seq<Point>)
    ensures |c| == if |path| < 2 then 0 else 2 * (|path| - 1)
    decreases |path|
  {
    if |path| < 2 then []
    else SegmentsCandidates(path[..|path| - 1]) + SegmentCandidates(path[|path| - 2], path[|path| - 1])
  }

  /** Segment `k` contributes the two candidates at `2 * k` and `2 * k + 1`, in path order. */
  lemma {:induction false} SegmentsInOrder(path: seq<Point>)
    ensures forall k :: 0 <= k < |path| - 1 ==>
      SegmentsCandidates(path)[2 * k..2 * k + 2] == SegmentCandidates(path[k], path[k + 1])
    decreases |path|
  {
    if |path| >= 2 {
      var init := path[..|path| - 1];
      SegmentsInOrder(init);
      var c, rest := SegmentsCandidates(path), SegmentsCandidates(init);
      forall k | 0 <= k < |path| - 1
        ensures c[2 * k..2 * k + 2] == SegmentCandidates(path[k], path[k + 1])
      {
        if k < |init| - 1 {
          assert init[k] == path[k] && init[k + 1] == path[k + 1];
          assert c[2 * k] == rest[2 * k] && c[2 * k + 1] == rest[2 * k + 1];
          assert c[2 * k..2 * k + 2] == rest[2 * k..2 * k + 2];
        }
      }
    }
  }

  /** `path[Math.floor(path.length / 2)]`. */
  function Midpoint(path: seq<Point>): Point
    requires |path| >= 1
  {
    path[|path| / 2]
  }

  /** The two candidates 18 above and 18 below the middle point. */
  function MidpointCandidates(midpoint: Point): seq<Point> {
    [Point(midpoint.x, midpoint.y - 18.0), Point(midpoint.x, midpoint.y + 18.0)]
  }

  /** The loop over the segments, then the two midpoint candidates. */
  method CollectCandidates(path: seq<Point>) returns (candidates: seq<Point>)
    requires |path| >= 2
    ensures candidates == SegmentsCandidates(path) + MidpointCandidates(Midpoint(path))
    ensures |candidates| == 2 * |path|
  {
    candidates := [];
    for index := 0 to |path| - 1
      invariant candidates == SegmentsCandidates(path[..index + 1])
    {
      var start, end := path[index], path[index + 1];
      var mid := Point((start.x + end.x) / 2.0, (start.y + end.y) / 2.0);
      ghost var before := candidates;
      if start.y == end.y {
        candidates := candidates + [Point(mid.x, start.y - 14.0)];
        candidates := candidates + [Point(mid.x, start.y + 18.0)];
      } else {
        candidates := candidates + [Point(start.x - 14.0, mid.y)];
        candidates := candidates + [Point(start.x + 14.0, mid.y)];
      }
      assert candidates == before + SegmentCandidates(start, end);
      SegmentsSnoc(path, index + 2);
    }
    assert path[..|path|] == path;
    var midpoint := Midpoint(path);
    candidates := candidates + [Point(midpoint.x, midpoint.y - 18.0)];
    candidates := candidates + [Point(midpoint.x, midpoint.y + 18.0)];
  }

  lemma SegmentsSnoc(path: seq<Point>, n: nat)
    requires 2 <= n <= |path|
    ensures SegmentsCandidates(path[..n]) == SegmentsCandidates(path[..n - 1]) + SegmentCandidates(path[n - 2], path[n - 1])
  {
    assert path[..n][..n - 1] == path[..n - 1];
  }

  // ---------------------------------------------------------------- scores

  /** How many of `rects` the box `r` intersects. */
  function Hits(r: Rect, rects: seq<Rect>): (n: nat)
    ensures n <= |rects|
    ensures n == 0 <==> forall i :: 0 <= i < |rects| ==> !RectsIntersect(r, rects[i])
    decreases |rects|
  {
    if |rects| == 0 then 0
    else
      var init := rects[..|rects| - 1];
      assert forall i :: 0 <= i < |init| ==> init[i] == rects[i];
      Hits(r, init) + (if RectsIntersect(r, rects[|rects| - 1]) then 1 else 0)
  }

  /** One of the `for (const ... of ...)` loops: count the boxes the padded label box runs into. */
  method CountHits(r: Rect, rects: seq<Rect>) returns (n: nat)
    ensures n == Hits(r, rects)
  {
    n := 0;
    for i := 0 to |rects|
      invariant n == Hits(r, rects[..i])
    {
      assert rects[..i + 1][..i] == rects[..i];
      if RectsIntersect(r, rects[i]) {
        n := n + 1;
      }
    }
    assert rects[..|rects|] == rects;
  }

  /** The argument object of `chooseLabelPlacement`. */
  datatype LabelRequest = LabelRequest(labelText: string, path: seq<Point>, nodeObstacles: seq<Rect>,
                                       usedLabelRects: seq<Rect>, usedPathRects: seq<Rect>)

  /** A chosen place: its score, the candidate point and the text box around it. */
  datatype Placement = Placement(score: real, center: Point, rect: Rect)

  /** The score of a candidate: 900 per node box, 700 per placed label and 280 per route segment that
      its text box, grown by 4, 3 and 2, runs into, plus 0.08 times its Manhattan distance from the
      middle point of the route. */
  function Score(req: LabelRequest, midpoint: Point, c: Point): real {
    var rect := EstimateLabelBox(req.labelText, c.x, c.y);
    900.0 * Hits(InflateRect(rect, 4.0), req.nodeObstacles) as real
    + 700.0 * Hits(InflateRect(rect, 3.0), req.usedLabelRects) as real
    + 280.0 * Hits(InflateRect(rect, 2.0), req.usedPathRects) as real
    + (Abs(c.x - midpoint.x) + Abs(c.y - midpoint.y)) * 0.08
  }

  /** A score below 280 means the text box, with its padding, runs into nothing; it is never negative. */
  lemma LowScoreIsClear(req: LabelRequest, midpoint: Point, c: Point)
    ensures Score(req, midpoint, c) >= 0.0
    ensures Score(req, midpoint, c) < 280.0 ==>
              var rect := EstimateLabelBox(req.labelText, c.x, c.y);
              && Hits(InflateRect(rect, 4.0), req.nodeObstacles) == 0
              && Hits(InflateRect(rect, 3.0), req.usedLabelRects) == 0
              && Hits(InflateRect(rect, 2.0), req.usedPathRects) == 0
  {
  }

  method ScoreCandidate(req: LabelRequest, midpoint: Point, c: Point) returns (score: real)
    ensures score == Score(req, midpoint, c)
  {
    var rect := EstimateLabelBox(req.labelText, c.x, c.y);
    score := 0.0;
    var nodeHits := CountHits(InflateRect(rect, 4.0), req.nodeObstacles);
    score := score + 900.0 * nodeHits as real;
    var labelHits := CountHits(InflateRect(rect, 3.0), req.usedLabelRects);
    score := score + 700.0 * labelHits as real;
    var pathHits := CountHits(InflateRect(rect, 2.0), req.usedPathRects);
    score := score + 280.0 * pathHits as real;
    score := score + (Abs(c.x - midpoint.x) + Abs(c.y - midpoint.y)) * 0.08;
  }

  // ---------------------------------------------------------------- the choice

  /** `scores[k]` is the first least of the first `n` scores. */
  predicate LeastUpTo(scores: seq<real>, n: nat, k: nat) {
    && k < n <= |scores|
    && (forall j :: 0 <= j < n ==> scores[k] <= scores[j])
    && (forall j :: 0 <= j < k ==> scores[k] < scores[j])
  }

  /** The score of every candidate. */
  function Scores(req: LabelRequest, midpoint: Point, candidates: seq<Point>): (scores: seq<real>)
    ensures |scores| == |candidates|
  {
    seq(|candidates|, j requires 0 <= j < |candidates| => Score(req, midpoint, candidates[j]))
  }

  /** `candidates[k]` is the first candidate of least score, and `p` its placement. */
  ghost predicate FirstLeast(req: LabelRequest, midpoint: Point, candidates: seq<Point>, k: nat, p: Placement) {
    && k < |candidates|
    && p == Placement(Score(req, midpoint, candidates[k]), candidates[k],
                      EstimateLabelBox(req.labelText, candidates[k].x, candidates[k].y))
    && LeastUpTo(Scores(req, midpoint, candidates), |candidates|, k)
  }

  /** The loop `if (!best || score < best.score) best = ...`. */
  method ChooseBest(req: LabelRequest, midpoint: Point, candidates: seq<Point>) returns (best: Option<Placement>)
    ensures best.None? <==> |candidates| == 0
    ensures best.Some? ==> exists k :: FirstLeast(req, midpoint, candidates, k, best.value)
  {
    ghost var scores := Scores(req, midpoint, candidates);
    best := None;
    ghost var at: nat := 0;
    for i := 0 to |candidates|
      invariant best.None? <==> i == 0
      invariant best.Some? ==> at < |candidates| && LeastUpTo(scores, i, at)
                               && best.value == Placement(scores[at], candidates[at],
                                                          EstimateLabelBox(req.labelText, candidates[at].x, candidates[at].y))
    {
      var candidate := candidates[i];
      var rect := EstimateLabelBox(req.labelText, candidate.x, candidate.y);
      var score := ScoreCandidate(req, midpoint, candidate);
      assert score == scores[i];
      if best.None? || score < best.value.score {
        TakeLeast(scores, i, at, best.None?);
        best := Some(Placement(score, candidate, rect));
        at := i;
      } else {
        KeepLeast(scores, i, at);
      }
    }
    if best.Some? {
      assert FirstLeast(req, midpoint, candidates, at, best.value);
    }
  }

  lemma TakeLeast(scores: seq<real>, i: nat, at: nat, first: bool)
    requires i < |scores|
    requires first <==> i == 0
    requires !first ==> LeastUpTo(scores, i, at) && scores[i] < scores[at]
    ensures LeastUpTo(scores, i + 1, i)
  {
  }

  lemma KeepLeast(scores: seq<real>, i: nat, at: nat)
    requires i < |scores|
    requires LeastUpTo(scores, i, at) && !(scores[i] < scores[at])
    ensures LeastUpTo(scores, i + 1, at)
  {
  }

  /** What `chooseLabelPlacement` returns: nothing for an empty label or a route of fewer than two
      points; otherwise the first least-scored of the de-duplicated candidates. */
  ghost predicate LabelChosen(req: LabelRequest, placement: Option<Placement>) {
    if req.labelText == "" || |req.path| < 2 then placement.None?
    else
      && placement.Some?
      && exists k :: FirstLeast(req, Midpoint(req.path),
                                Firsts(SegmentsCandidates(req.path) + MidpointCandidates(Midpoint(req.path))), k, placement.value)
  }

  /** `chooseLabelPlacement`. */
  method ChooseLabelPlacement(req: LabelRequest) returns (placement: Option<Placement>)
    ensures LabelChosen(req, placement)
    ensures placement.None? <==> req.labelText == "" || |req.path| < 2
  {
    if req.labelText == "" || |req.path| < 2 {
      return None;
    }
    var midpoint := Midpoint(req.path);
    var candidates := CollectCandidates(req.path);
    var unique := DedupeCandidates(candidates);
    assert candidates[0] in candidates;
    assert |unique| > 0 by {
      assert FirstOfKey(candidates, 0);
      assert Firsts(candidates[..1]) == [candidates[0]];
      FirstsPrefix(candidates, 1);
    }
    placement := ChooseBest(req, midpoint, unique);
  }

  /** The kept points of a prefix are a prefix of the kept points. */
  lemma {:induction false} FirstsPrefix(points: seq<Point>, n: nat)
    requires n <= |points|
    ensures |Firsts(points[..n])| <= |Firsts(points)|
    decreases |points|
  {
    if n < |points| {
      var init := points[..|points| - 1];
      assert init[..n] == points[..n];
      FirstsPrefix(init, n);
    } else {
      assert points[..n] == points;
    }
  }
}
