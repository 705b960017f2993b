/** Removal of repeated and collinear points from an orthogonal route
    (`simplifyOrthogonalPoints`, src/utils/GeometryUtils.js:203-232). */
module PathSimplify {
  import opened Geometry

  // ---------------------------------------------------------------- subsequences

  /** `a` can be obtained from `b` by deleting elements. */
  predicate IsSubseq<T(==)>(a: seq<T>, b: seq<T>)
    decreases |b|
  {
    if a == [] then true
    else if b == [] then false
    else (a[|a| - 1] == b[|b| - 1] && IsSubseq(a[..|a| - 1], b[..|b| - 1])) || IsSubseq(a, b[..|b| - 1])
  }

  lemma {:induction false} SubseqLength<T>(a: seq<T>, b: seq<T>)
    requires IsSubseq(a, b)
    ensures |a| <= |b|
    decreases |b|
  {
    if a != [] {
      if a[|a| - 1] == b[|b| - 1] && IsSubseq(a[..|a| - 1], b[..|b| - 1]) {
        SubseqLength(a[..|a| - 1], b[..|b| - 1]);
      } else {
        SubseqLength(a, b[..|b| - 1]);
      }
    }
  }

  /** Equal last elements, and the rest a subsequence of the rest. */
  lemma SubseqLast<T>(a: seq<T>, b: seq<T>)
    requires |a| >= 1 && |b| >= 1 && a[|a| - 1] == b[|b| - 1] && IsSubseq(a[..|a| - 1], b[..|b| - 1])
    ensures IsSubseq(a, b)
  {
  }

  lemma SubseqSnoc<T>(a: seq<T>, b: seq<T>, x: T)
    requires IsSubseq(a, b)
    ensures IsSubseq(a + [x], b + [x]) && IsSubseq(a, b + [x])
  {
    assert (a + [x])[..|a|] == a && (b + [x])[..|b|] == b;
  }

  lemma {:induction false} SubseqRefl<T>(a: seq<T>)
    ensures IsSubseq(a, a)
    decreases |a|
  {
    if a != [] {
      SubseqRefl(a[..|a| - 1]);
    }
  }

  lemma {:induction false} SubseqPrefix<T>(a: seq<T>, b: seq<T>, k: nat)
    requires k <= |b| && IsSubseq(a, b[..k])
    ensures IsSubseq(a, b)
    decreases |b| - k
  {
    if k < |b| {
      assert b[..k + 1][..k] == b[..k];
      SubseqPrefix(a, b, k + 1);
    } else {
      assert b[..k] == b;
    }
  }

  lemma {:induction false} SubseqTrans<T>(a: seq<T>, b: seq<T>, c: seq<T>)
    requires IsSubseq(a, b) && IsSubseq(b, c)
    ensures IsSubseq(a, c)
    decreases |c|
  {
    if a != [] {
      SubseqLength(a, b);
      assert b != [] && c != [];
      var b', c' := b[..|b| - 1], c[..|c| - 1];
      if b[|b| - 1] == c[|c| - 1] && IsSubseq(b', c') {
        if a[|a| - 1] == b[|b| - 1] && IsSubseq(a[..|a| - 1], b') {
          SubseqTrans(a[..|a| - 1], b', c');
        } else {
          SubseqTrans(a, b', c');
        }
      } else {
        SubseqTrans(a, b, c');
      }
    }
  }

  lemma {:induction false} SubseqMembers<T>(a: seq<T>, b: seq<T>, x: T)
    requires IsSubseq(a, b) && x in a
    ensures x in b
    decreases |b|
  {
    var a', b' := a[..|a| - 1], b[..|b| - 1];
    if a[|a| - 1] == b[|b| - 1] && IsSubseq(a', b') {
      if x != a[|a| - 1] {
        assert a == a' + [a[|a| - 1]];
        SubseqMembers(a', b', x);
      }
    } else {
      SubseqMembers(a, b', x);
    }
  }

  // ---------------------------------------------------------------- the two passes

  /** The first pass: each point equal to the last one kept is dropped. */
  function Compact(points: seq<Point>): (c: seq<Point>)
    requires |points| >= 1
    ensures 1 <= |c| <= |points| && c[0] == points[0] && c[|c| - 1] == points[|points| - 1]
    decreases |points|
  {
    if |points| == 1 then points
    else
      var c := Compact(points[..|points| - 1]);
      if c[|c| - 1] != points[|points| - 1] then c + [points[|points| - 1]] else c
  }

  /** A point strictly between `prev` and `next` on one vertical or one horizontal line is dropped. */
  predicate Bend(prev: Point, curr: Point, next: Point) {
    !(prev.x == curr.x && curr.x == next.x) && !(prev.y == curr.y && curr.y == next.y)
  }

  /** The second pass over `c[1..k]`: an interior point is kept when it bends with respect to the last
      point kept and the next point of `c`. */
  function Corners(c: seq<Point>, k: nat): (s: seq<Point>)
    requires 1 <= k <= |c| && (k == 1 || k < |c|)
    ensures 1 <= |s| <= k && s[0] == c[0]
    decreases k
  {
    if k == 1 then [c[0]]
    else
      var s := Corners(c, k - 1);
      if Bend(s[|s| - 1], c[k - 1], c[k]) then s + [c[k - 1]] else s
  }

  /** What `simplifyOrthogonalPoints` returns. */
  function Simplify(points: seq<Point>): seq<Point> {
    if |points| <= 2 then points
    else
      var c := Compact(points);
      Corners(c, if |c| >= 2 then |c| - 1 else 1) + [c[|c| - 1]]
  }

  // ---------------------------------------------------------------- what the result satisfies

  /** No two neighbours are equal. */
  predicate NoRepeats(s: seq<Point>) {
    forall i :: 0 <= i < |s| - 1 ==> s[i] != s[i + 1]
  }

  lemma {:induction false} CompactNoRepeats(points: seq<Point>)
    requires |points| >= 1
    ensures NoRepeats(Compact(points))
    decreases |points|
  {
    if |points| > 1 {
      var init := points[..|points| - 1];
      var ci := Compact(init);
      CompactNoRepeats(init);
      var c := Compact(points);
      if ci[|ci| - 1] != points[|points| - 1] {
        assert c == ci + [points[|points| - 1]];
        forall i | 0 <= i < |c| - 1
          ensures c[i] != c[i + 1]
        {
          if i < |ci| - 1 {
            assert c[i] == ci[i] && c[i + 1] == ci[i + 1];
          }
        }
      }
    }
  }

  /** Everything but the last compacted point comes from before the last input point. */
  lemma {:induction false} CompactInitSubseq(points: seq<Point>)
    requires |points| >= 1
    ensures var c := Compact(points); IsSubseq(c[..|c| - 1], points[..|points| - 1])
    decreases |points|
  {
    if |points| > 1 {
      var p := points[|points| - 1];
      var init := points[..|points| - 1];
      var ci := Compact(init);
      var c := Compact(points);
      CompactInitSubseq(init);
      if ci[|ci| - 1] != p {
        SubseqLast(ci, init);
        SubseqCongruent(ci, c[..|c| - 1], init);
      } else {
        SubseqPrefix(ci[..|ci| - 1], init, |init| - 1);
        SubseqCongruent(ci[..|ci| - 1], c[..|c| - 1], init);
      }
    }
  }

  lemma SubseqCongruent<T>(a: seq<T>, a': seq<T>, b: seq<T>)
    requires IsSubseq(a, b) && a' == a
    ensures IsSubseq(a', b)
  {
  }

  /** The compacted route is obtained by deleting points. */
  lemma CompactSubseq(points: seq<Point>)
    requires |points| >= 1
    ensures var c := Compact(points); IsSubseq(c, points) && IsSubseq(c[..|c| - 1], points[..|points| - 1])
  {
    CompactInitSubseq(points);
    SubseqLast(Compact(points), points);
  }

  lemma {:induction false} CornersSubseq(c: seq<Point>, k: nat)
    requires 1 <= k <= |c| && (k == 1 || k < |c|)
    ensures IsSubseq(Corners(c, k), c[..k])
    decreases k
  {
    if k == 1 {
      assert c[..1] == [c[0]];
      SubseqRefl(c[..1]);
    } else {
      CornersSubseq(c, k - 1);
      assert c[..k] == c[..k - 1] + [c[k - 1]];
      SubseqSnoc(Corners(c, k - 1), c[..k - 1], c[k - 1]);
    }
  }

  /** Routes of at most two points come back unchanged; longer ones keep their first and last point,
      have at least two and at most as many points, and are obtained by deleting points. */
  lemma SimplifyFacts(points: seq<Point>)
    ensures var r := Simplify(points);
            (|points| <= 2 ==> r == points)
            && (|points| > 2 ==> 2 <= |r| <= |points| && r[0] == points[0] && r[|r| - 1] == points[|points| - 1])
            && IsSubseq(r, points)
  {
    if |points| <= 2 {
      SubseqRefl(points);
    } else {
      var r := Simplify(points);
      SimplifySubseq(points);
      SubseqLength(r, points);
    }
  }

  /** A route of more than two points simplifies to a subsequence of itself. */
  lemma SimplifySubseq(points: seq<Point>)
    requires |points| > 2
    ensures IsSubseq(Simplify(points), points)
  {
    SimplifyShape(points);
    CornersSubseqInit(points);
    SubseqSnocLast(points, Kept(points), Simplify(points));
  }

  /** The points the second pass keeps from the compacted route. */
  function Kept(points: seq<Point>): seq<Point>
    requires |points| > 2
  {
    var c := Compact(points);
    Corners(c, if |c| >= 2 then |c| - 1 else 1)
  }

  /** The second pass's corners followed by the last input point. */
  lemma SimplifyShape(points: seq<Point>)
    requires |points| > 2
    ensures Simplify(points) == Kept(points) + [points[|points| - 1]]
  {
  }

  lemma SubseqSnocLast<T>(b: seq<T>, a: seq<T>, r: seq<T>)
    requires |b| >= 1 && IsSubseq(a, b[..|b| - 1]) && r == a + [b[|b| - 1]]
    ensures IsSubseq(r, b)
  {
    SubseqSnoc(a, b[..|b| - 1], b[|b| - 1]);
    assert b[..|b| - 1] + [b[|b| - 1]] == b;
  }

  /** The corners kept by the second pass are obtained from all input points but the last. */
  lemma CornersSubseqInit(points: seq<Point>)
    requires |points| > 2
    ensures IsSubseq(Kept(points), points[..|points| - 1])
  {
    var c := Compact(points);
    if |c| >= 2 {
      CornersSubseqMany(points, c, Kept(points));
    } else {
      CornersSubseqOne(points, c, Kept(points));
    }
  }

  lemma CornersSubseqMany(points: seq<Point>, c: seq<Point>, s: seq<Point>)
    requires |points| > 2 && c == Compact(points) && |c| >= 2 && s == Corners(c, |c| - 1)
    ensures IsSubseq(s, points[..|points| - 1])
  {
    CornersSubseq(c, |c| - 1);
    CompactSubseq(points);
    SubseqTrans(s, c[..|c| - 1], points[..|points| - 1]);
  }

  lemma CornersSubseqOne(points: seq<Point>, c: seq<Point>, s: seq<Point>)
    requires |points| > 2 && c == Compact(points) && |c| < 2 && s == Corners(c, 1)
    ensures IsSubseq(s, points[..|points| - 1])
  {
    var init := points[..|points| - 1];
    assert s == [points[0]] == init[..1];
    SubseqRefl(s);
    SubseqPrefix(s, init, 1);
  }

  /** The route `[A, (A.x, y), A]` simplifies to `[A, A]`: a repeated point can survive. */
  lemma BackAndForthKeepsRepeat(a: Point, y: real)
    requires y != a.y
    ensures Simplify([a, Point(a.x, y), a]) == [a, a]
  {
    var ps := [a, Point(a.x, y), a];
    assert ps[..2][..1] == [a];
    assert Compact(ps[..2]) == [a, Point(a.x, y)];
    assert Compact(ps) == ps;
    assert !Bend(a, Point(a.x, y), a);
  }

  // ---------------------------------------------------------------- the imperative version

  /** `simplifyOrthogonalPoints` as written: two passes that push onto fresh arrays. */
  method SimplifyOrthogonalPoints(points: seq<Point>) returns (simplified: seq<Point>)
    ensures simplified == Simplify(points)
  {
    if |points| <= 2 {
      return points;
    }
    var compact := [points[0]];
    for index := 1 to |points|
      invariant compact == Compact(points[..index])
    {
      var previous := compact[|compact| - 1];
      var current := points[index];
      assert points[..index + 1][..index] == points[..index];
      if previous.x != current.x || previous.y != current.y {
        compact := compact + [current];
      }
    }
    assert points[..|points|] == points;
    simplified := [compact[0]];
    var index := 1;
    while index < |compact| - 1
      invariant 1 <= index <= (if |compact| >= 2 then |compact| - 1 else 1)
      invariant simplified == Corners(compact, index)
    {
      var prev := simplified[|simplified| - 1];
      var curr := compact[index];
      var next := compact[index + 1];
      var sameVertical := prev.x == curr.x && curr.x == next.x;
      var sameHorizontal := prev.y == curr.y && curr.y == next.y;
      if !sameVertical && !sameHorizontal {
        simplified := simplified + [curr];
      }
      index := index + 1;
    }
    simplified := simplified + [compact[|compact| - 1]];
  }
}
