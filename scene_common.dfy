/** What the four renderers share: boxes that carry an identifier, the identifier-keyed dictionaries
    their `forEach` loops fill (a later entry replacing an earlier one), the obstacle filter that
    leaves out the two ends of an edge, `Math.max` folded over a list, and what a call to
    `getClosestAnchors` or `routeOrthogonalPath` is known to return. */
module SceneCommon {
  import opened Geometry
  import opened Router

  /** A box together with the identifier of what it draws (`{ ...rect, id }`). */
  datatype Item = Item(id: string, rect: Rect)

  /** A drawn connector: the two anchors handed to the router and the route it returned. */
  datatype Edge = Edge(start: Anchor, end: Anchor, route: seq<Point>)

  // ---------------------------------------------------------------- dictionaries filled by forEach

  /** `xs.forEach((x) => { dict[key(x)] = x })`: every key present, holding its last entry. */
  function LastBy<T>(xs: seq<T>, key: T -> string): (m: map<string, T>)
    ensures forall k :: k in m <==> exists i :: 0 <= i < |xs| && key(xs[i]) == k
    decreases |xs|
  {
    if |xs| == 0 then map[]
    else
      var m0 := LastBy(xs[..|xs| - 1], key);
      assert forall i :: 0 <= i < |xs| - 1 ==> xs[..|xs| - 1][i] == xs[i];
      m0[key(xs[|xs| - 1]) := xs[|xs| - 1]]
  }

  /** The entry under a key is the last element with that key. */
  lemma {:induction false} LastByValue<T>(xs: seq<T>, key: T -> string, k: string)
    requires k in LastBy(xs, key)
    ensures exists i :: 0 <= i < |xs| && LastBy(xs, key)[k] == xs[i] && key(xs[i]) == k
                        && forall j :: i < j < |xs| ==> key(xs[j]) != k
    decreases |xs|
  {
    var last, init := xs[|xs| - 1], xs[..|xs| - 1];
    assert LastBy(xs, key) == LastBy(init, key)[key(last) := last];
    if key(last) == k {
      assert LastBy(xs, key)[k] == xs[|xs| - 1];
    } else {
      LastByValue(init, key, k);
      var i :| 0 <= i < |init| && LastBy(init, key)[k] == init[i] && key(init[i]) == k
                && forall j :: i < j < |init| ==> key(init[j]) != k;
      assert init[i] == xs[i] && LastBy(xs, key)[k] == xs[i];
      forall j | i < j < |xs|
        ensures key(xs[j]) != k
      {
        if j < |init| {
          assert xs[j] == init[j];
        }
      }
    }
  }

  /** The `forEach` itself, one assignment at a time. */
  method FillBy<T>(xs: seq<T>, key: T -> string) returns (m: map<string, T>)
    ensures m == LastBy(xs, key)
  {
    m := map[];
    for i := 0 to |xs|
      invariant m == LastBy(xs[..i], key)
    {
      assert xs[..i + 1][..i] == xs[..i];
      m := m[key(xs[i]) := xs[i]];
    }
    assert xs[..|xs|] == xs;
  }

  /** The keys of such a dictionary in `Object.values` order: each key where it was first set. */
  function FirstSeen(keys: seq<string>): (r: seq<string>)
    ensures forall k :: k in r <==> k in keys
    ensures forall i, j :: 0 <= i < j < |r| ==> r[i] != r[j]
    decreases |keys|
  {
    if |keys| == 0 then []
    else
      var init := FirstSeen(keys[..|keys| - 1]);
      assert forall k :: k in keys <==> k in keys[..|keys| - 1] || k == keys[|keys| - 1];
      if keys[|keys| - 1] in init then init else init + [keys[|keys| - 1]]
  }

  /** `Object.values(dict)` for the dictionary `xs.forEach` fills: one entry per key, in the order
      the keys were first set, each holding the last element with that key. */
  function Values<T>(xs: seq<T>, key: T -> string): (vs: seq<T>)
    ensures var keys := FirstSeen(seq(|xs|, i requires 0 <= i < |xs| => key(xs[i])));
            |vs| == |keys| && forall i :: 0 <= i < |vs| ==> keys[i] in LastBy(xs, key) && vs[i] == LastBy(xs, key)[keys[i]]
  {
    var all := seq(|xs|, i requires 0 <= i < |xs| => key(xs[i]));
    var keys := FirstSeen(all);
    var m := LastBy(xs, key);
    assert forall i :: 0 <= i < |keys| ==> keys[i] in m by {
      forall i | 0 <= i < |keys|
        ensures keys[i] in m
      {
        assert keys[i] in all;
        var j :| 0 <= j < |all| && all[j] == keys[i];
        assert key(xs[j]) == keys[i];
      }
    }
    seq(|keys|, i requires 0 <= i < |keys| => m[keys[i]])
  }

  // ---------------------------------------------------------------- obstacles

  /** `items.filter((item) => item.id !== a && item.id !== b)`, as boxes. */
  function Others(items: seq<Item>, a: string, b: string): (r: seq<Rect>)
    ensures |r| <= |items|
    decreases |items|
  {
    if |items| == 0 then []
    else
      var last := items[|items| - 1];
      Others(items[..|items| - 1], a, b) + (if last.id != a && last.id != b then [last.rect] else [])
  }

  /** The obstacles are exactly the boxes of the items named neither `a` nor `b`. */
  lemma {:induction false} OthersMembers(items: seq<Item>, a: string, b: string)
    ensures forall r :: r in Others(items, a, b) <==>
              exists i :: 0 <= i < |items| && items[i].id != a && items[i].id != b && items[i].rect == r
    decreases |items|
  {
    if |items| > 0 {
      var init := items[..|items| - 1];
      OthersMembers(init, a, b);
      assert forall i :: 0 <= i < |init| ==> init[i] == items[i];
    }
  }

  /** The boxes of a list of items. */
  function Rects(items: seq<Item>): (r: seq<Rect>)
    ensures |r| == |items| && forall i :: 0 <= i < |items| ==> r[i] == items[i].rect
  {
    seq(|items|, i requires 0 <= i < |items| => items[i].rect)
  }

  // ---------------------------------------------------------------- Math.max folded over a list

  /** `xs.reduce((acc, x) => Math.max(acc, x), init)`, which is also `Math.max(init, ...xs)`. */
  function MaxFrom(init: real, xs: seq<real>): (m: real)
    ensures m >= init && forall i :: 0 <= i < |xs| ==> xs[i] <= m
    ensures m == init || exists i :: 0 <= i < |xs| && xs[i] == m
    decreases |xs|
  {
    if |xs| == 0 then init
    else
      var rest := MaxFrom(init, xs[..|xs| - 1]);
      assert forall i :: 0 <= i < |xs| - 1 ==> xs[..|xs| - 1][i] == xs[i];
      Max(rest, xs[|xs| - 1])
  }

  // ---------------------------------------------------------------- calls into the geometry

  /** What `getClosestAnchors(source, target, offset)` returns: the first least-scored of the sixteen
      side pairs. */
  ghost predicate Closest(source: Rect, target: Rect, offset: real, start: Anchor, end: Anchor) {
    exists i: nat, j: nat :: i < 4 && j < 4 && (start, end) == Candidate(source, target, offset, i, j)
      && (forall i2: nat, j2: nat :: i2 < 4 && j2 < 4 ==>
            CandidateScore(source, target, offset, i, j) <= CandidateScore(source, target, offset, i2, j2))
      && (forall i2: nat, j2: nat :: i2 < 4 && j2 < 4 && TriedBefore(i2, j2, i, j) ==>
            CandidateScore(source, target, offset, i, j) < CandidateScore(source, target, offset, i2, j2))
  }

  /** What `routeOrthogonalPath` returns for these arguments: a route from `start` to `end` that is the
      fall-back elbow or keeps to the stubs and to grid points clear of the padded obstacles. */
  ghost predicate Routed(start: Anchor, end: Anchor, obstacles: seq<Rect>, gridSize: real, padding: real,
                         stubLength: real, route: seq<Point>)
    requires gridSize > 0.0
  {
    var fr := MakeFrame(start, end, obstacles, gridSize, padding, stubLength);
    && RunsBetween(route, Position(start), Position(end))
    && (route == FallbackRoute(start, end, fr) || forall p :: p in route ==> OnRoute(start, end, fr, gridSize, p))
  }

  /** `getClosestAnchors(source, target)`, with the default offset of 0. */
  method ClosestAnchors(source: Rect, target: Rect) returns (start: Anchor, end: Anchor)
    ensures Closest(source, target, 0.0, start, end)
  {
    start, end := GetClosestAnchors(source, target, 0.0);
  }
}
