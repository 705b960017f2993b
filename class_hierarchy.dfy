/** The grouping and ordering half of `buildHierarchicalLayout` (src/renderers/ClassRenderer.jsx:165-214):
    classes are bucketed by level, the levels are put in numeric order, the first level is sorted by
    identifier and every later level by the mean position of each class's parents. */
module ClassHierarchy {
  import opened JsString
  import opened DiagramModel
  import opened ClassLayout
  import Sorting

  predicate Distinct<T(==)>(s: seq<T>) {
    forall i, j :: 0 <= i < j < |s| ==> s[i] != s[j]
  }

  /** `levelById[id] ?? 0`. */
  function LevelOf(levelById: map<string, nat>, id: string): nat {
    if id in levelById then levelById[id] else 0
  }

  // ---------------------------------------------------------------- buckets

  /** The identifiers of `ids` at `level`, in order: one bucket of `levels`. */
  function AtLevel(levelById: map<string, nat>, ids: seq<string>, level: nat): (bucket: seq<string>)
    ensures |bucket| <= |ids|
    decreases |ids|
  {
    if |ids| == 0 then []
    else
      var init, last := ids[..|ids| - 1], ids[|ids| - 1];
      AtLevel(levelById, init, level) + (if LevelOf(levelById, last) == level then [last] else [])
  }

  /** A bucket holds exactly the identifiers of `ids` at its level. */
  lemma {:induction false} AtLevelMembers(levelById: map<string, nat>, ids: seq<string>, level: nat)
    ensures forall id :: id in AtLevel(levelById, ids, level) <==> id in ids && LevelOf(levelById, id) == level
    decreases |ids|
  {
    if |ids| > 0 {
      var init, last := ids[..|ids| - 1], ids[|ids| - 1];
      AtLevelMembers(levelById, init, level);
      assert ids == init + [last];
    }
  }

  /** A bucket holds every occurrence of the identifiers at its level and nothing else. */
  lemma {:induction false} AtLevelCount(levelById: map<string, nat>, ids: seq<string>, level: nat, x: string)
    ensures multiset(AtLevel(levelById, ids, level))[x] == if LevelOf(levelById, x) == level then multiset(ids)[x] else 0
    decreases |ids|
  {
    if |ids| > 0 {
      var init, last := ids[..|ids| - 1], ids[|ids| - 1];
      AtLevelCount(levelById, init, level, x);
      MultisetSnoc(ids);
      var tail := if LevelOf(levelById, last) == level then [last] else [];
      assert AtLevel(levelById, ids, level) == AtLevel(levelById, init, level) + tail;
      assert multiset(AtLevel(levelById, ids, level)) == multiset(AtLevel(levelById, init, level)) + multiset(tail);
    }
  }

  lemma MultisetSnoc(ids: seq<string>)
    requires |ids| > 0
    ensures multiset(ids) == multiset(ids[..|ids| - 1]) + multiset{ids[|ids| - 1]}
  {
    assert ids == ids[..|ids| - 1] + [ids[|ids| - 1]];
  }

  /** The levels met among `ids`, in order of first meeting: the keys of `levels`. */
  function LevelsSeen(levelById: map<string, nat>, ids: seq<string>): (seen: seq<nat>)
    ensures |seen| <= |ids|
    decreases |ids|
  {
    if |ids| == 0 then []
    else
      var init, last := ids[..|ids| - 1], ids[|ids| - 1];
      var seen := LevelsSeen(levelById, init);
      var level := LevelOf(levelById, last);
      if level in seen then seen else seen + [level]
  }

  /** Each occupied level is listed once, and only occupied levels are. */
  lemma {:induction false} LevelsSeenFacts(levelById: map<string, nat>, ids: seq<string>)
    ensures var seen := LevelsSeen(levelById, ids);
            Distinct(seen) && forall l :: l in seen <==> AtLevel(levelById, ids, l) != []
    decreases |ids|
  {
    if |ids| > 0 {
      LevelsSeenFacts(levelById, ids[..|ids| - 1]);
      NonEmptyAtLevel(levelById, ids);
    }
  }

  /** A level never met among `ids` has an empty bucket. */
  lemma UnseenEmpty(levelById: map<string, nat>, ids: seq<string>, level: nat)
    requires level !in LevelsSeen(levelById, ids)
    ensures AtLevel(levelById, ids, level) == []
  {
    LevelsSeenFacts(levelById, ids);
  }

  /** A bucket of `ids` is non-empty when that of all but the last identifier is, or when the last
      identifier is at its level. */
  lemma NonEmptyAtLevel(levelById: map<string, nat>, ids: seq<string>)
    requires |ids| > 0
    ensures forall l :: AtLevel(levelById, ids, l) != []
              <==> AtLevel(levelById, ids[..|ids| - 1], l) != [] || l == LevelOf(levelById, ids[|ids| - 1])
  {
    forall l
      ensures AtLevel(levelById, ids, l) != []
              <==> AtLevel(levelById, ids[..|ids| - 1], l) != [] || l == LevelOf(levelById, ids[|ids| - 1])
    {
      var tail := if LevelOf(levelById, ids[|ids| - 1]) == l then [ids[|ids| - 1]] else [];
      assert AtLevel(levelById, ids, l) == AtLevel(levelById, ids[..|ids| - 1], l) + tail;
    }
  }

  /** One more identifier: it joins the bucket of its level, which is new when not seen before. */
  lemma GroupStep(levelById: map<string, nat>, ids: seq<string>, x: string)
    ensures var level := LevelOf(levelById, x);
            LevelsSeen(levelById, ids + [x])
              == if level in LevelsSeen(levelById, ids) then LevelsSeen(levelById, ids) else LevelsSeen(levelById, ids) + [level]
    ensures forall l {:trigger AtLevel(levelById, ids + [x], l)} ::
              AtLevel(levelById, ids + [x], l) == AtLevel(levelById, ids, l) + (if LevelOf(levelById, x) == l then [x] else [])
  {
    assert (ids + [x])[..|ids|] == ids;
  }

  /** `levels` holds the bucket of every level seen in `ids`, and `keys` lists those levels in the order
      they were first seen. */
  ghost predicate Grouped(levelById: map<string, nat>, ids: seq<string>, levels: map<nat, seq<string>>, keys: seq<nat>) {
    && keys == LevelsSeen(levelById, ids)
    && (forall l :: l in levels <==> l in keys)
    && (forall l :: l in levels ==> levels[l] == AtLevel(levelById, ids, l))
  }

  /** Pushing `x` onto the bucket of its level, opened empty when the level is new, keeps the
      grouping. */
  lemma PushGrouped(levelById: map<string, nat>, ids: seq<string>, x: string,
                    levels: map<nat, seq<string>>, keys: seq<nat>)
    requires Grouped(levelById, ids, levels, keys)
    ensures var level := LevelOf(levelById, x);
            var bucket := if level in levels then levels[level] else [];
            Grouped(levelById, ids + [x], levels[level := bucket + [x]],
                    if level in levels then keys else keys + [level])
  {
    GroupStep(levelById, ids, x);
    var level := LevelOf(levelById, x);
    var bucket := if level in levels then levels[level] else [];
    var levels' := levels[level := bucket + [x]];
    forall l | l in levels'
      ensures levels'[l] == AtLevel(levelById, ids + [x], l)
    {
      if l == level {
        if level !in levels {
          UnseenEmpty(levelById, ids, level);
        }
        assert AtLevel(levelById, ids + [x], l) == AtLevel(levelById, ids, l) + [x];
      } else {
        assert AtLevel(levelById, ids + [x], l) == AtLevel(levelById, ids, l) + [];
      }
    }
  }

  /** The body of the `forEach`, for the identifier `x` after `ids`. */
  method PushOnLevel(levelById: map<string, nat>, ghost ids: seq<string>, x: string,
                     levels: map<nat, seq<string>>, keys: seq<nat>)
    returns (levels': map<nat, seq<string>>, keys': seq<nat>)
    requires Grouped(levelById, ids, levels, keys)
    ensures Grouped(levelById, ids + [x], levels', keys')
  {
    PushGrouped(levelById, ids, x, levels, keys);
    var level := LevelOf(levelById, x);
    levels', keys' := levels, keys;
    if level !in levels' {
      levels' := levels'[level := []];
      keys' := keys' + [level];
      UpdateTwice(levels, level, [], [] + [x]);
    }
    levels' := levels'[level := levels'[level] + [x]];
  }

  lemma UpdateTwice<K, V>(m: map<K, V>, k: K, a: V, b: V)
    ensures m[k := a][k := b] == m[k := b]
  {
  }

  /** The `classes.forEach` that pushes each identifier onto the bucket of its level; `done` holds the
      identifiers pushed so far. */
  method GroupByLevel(classes: seq<ClassNode>, levelById: map<string, nat>)
    returns (levels: map<nat, seq<string>>, keys: seq<nat>)
    ensures keys == LevelsSeen(levelById, ClassIds(classes))
    ensures forall l :: l in levels <==> l in keys
    ensures forall l :: l in levels ==> levels[l] == AtLevel(levelById, ClassIds(classes), l)
  {
    levels, keys := map[], [];
    ghost var ids := ClassIds(classes);
    ghost var done: seq<string> := [];
    for i := 0 to |classes|
      invariant done == ids[..i]
      invariant Grouped(levelById, done, levels, keys)
    {
      levels, keys := PushOnLevel(levelById, done, classes[i].id, levels, keys);
      done := done + [classes[i].id];
    }
    assert done == ids;
  }

  // ---------------------------------------------------------------- level order

  /** `(a, b) => a - b` as a strict order. */
  predicate Below(a: nat, b: nat) {
    a < b
  }

  lemma BelowConsistent()
    ensures Sorting.Consistent(Below)
  {
  }

  predicate Increasing(s: seq<nat>) {
    forall i, j :: 0 <= i < j < |s| ==> s[i] < s[j]
  }

  /** The first `k + 1` elements are the first `k` and the one at `k`. */
  lemma PrefixMembers<T>(s: seq<T>, k: nat, v: T)
    requires k < |s|
    ensures v in s[..k + 1] <==> v in s[..k] || v == s[k]
  {
    assert s[..k + 1] == s[..k] + [s[k]];
  }

  /** An element of a repetition-free sequence does not occur before its position. */
  lemma DistinctLast<T>(s: seq<T>, k: nat)
    requires Distinct(s) && k < |s|
    ensures s[k] !in s[..k]
  {
    forall j | 0 <= j < k
      ensures s[..k][j] != s[k]
    {
      assert s[..k][j] == s[j];
    }
  }

  /** In an increasing sequence the smaller element comes first. */
  lemma IncreasingIndex(s: seq<nat>, i: nat, j: nat)
    requires Increasing(s) && i < |s| && j < |s| && s[i] < s[j]
    ensures i < j
  {
  }

  lemma {:induction false} DistinctCount<T>(s: seq<T>, x: T)
    requires Distinct(s)
    ensures multiset(s)[x] <= 1
    decreases |s|
  {
    if |s| > 0 {
      var init := s[..|s| - 1];
      DistinctCount(init, x);
      assert s == init + [s[|s| - 1]];
      if x == s[|s| - 1] {
        assert x !in init;
      }
    }
  }

  /** A sequence with the elements of a repetition-free one is repetition-free. */
  lemma DistinctPermutation<T>(a: seq<T>, b: seq<T>)
    requires Distinct(a) && multiset(a) == multiset(b)
    ensures Distinct(b)
  {
    forall i, j | 0 <= i < j < |b|
      ensures b[i] != b[j]
    {
      DistinctCount(a, b[j]);
      assert b == b[..j] + [b[j]] + b[j + 1..];
      assert b[i] in b[..j];
    }
  }

  /** Numeric sorting of distinct levels gives them in strictly increasing order, none lost or added. */
  lemma SortedLevels(keys: seq<nat>)
    requires Distinct(keys)
    ensures Increasing(Sorting.Sort(keys, Below))
    ensures forall l :: l in Sorting.Sort(keys, Below) <==> l in keys
  {
    var ordered := Sorting.Sort(keys, Below);
    BelowConsistent();
    Sorting.SortSorted(keys, Below);
    DistinctPermutation(keys, ordered);
    assert forall l :: l in ordered <==> l in multiset(keys);
  }

  /** `Object.keys(levels).map(Number).sort((a, b) => a - b)`. */
  method OrderLevels(keys: seq<nat>) returns (ordered: seq<nat>)
    ensures ordered == Sorting.Sort(keys, Below)
  {
    ordered := Sorting.SortInPlace(keys, Below);
  }

  // ---------------------------------------------------------------- order within a level

  /** `parentsByChild[id] ?? []`. */
  function ParentsIn(parentsByChild: map<string, seq<string>>, id: string): seq<string> {
    if id in parentsByChild then parentsByChild[id] else []
  }

  /** `parents.reduce((sum, id) => sum + (orderIndexById[id] ?? 0), 0)`. */
  function IndexSum(orderIndex: map<string, nat>, parents: seq<string>): (sum: nat)
    decreases |parents|
  {
    if |parents| == 0 then 0
    else
      var last := parents[|parents| - 1];
      IndexSum(orderIndex, parents[..|parents| - 1]) + (if last in orderIndex then orderIndex[last] else 0)
  }

  /** The mean position of the parents within their levels; 0 for a class without parents. */
  function Score(parentsByChild: map<string, seq<string>>, orderIndex: map<string, nat>, id: string): (score: real)
    ensures score >= 0.0
    ensures ParentsIn(parentsByChild, id) == [] ==> score == 0.0
  {
    var parents := ParentsIn(parentsByChild, id);
    IndexSum(orderIndex, parents) as real / (if 1 < |parents| then |parents| else 1) as real
  }

  /** The comparator of the later levels: by score, and by `localeCompare` (the `collate` parameter)
      between equal scores. */
  function ByBarycenter(parentsByChild: map<string, seq<string>>, orderIndex: map<string, nat>,
                        collate: (string, string) -> int): (string, string) -> bool
  {
    (a: string, b: string) =>
      var sa, sb := Score(parentsByChild, orderIndex, a), Score(parentsByChild, orderIndex, b);
      sa < sb || (sa == sb && collate(a, b) < 0)
  }

  /** The default `sort()` order, character by character (code points; see `JsString.CodeUnitLess`). */
  lemma CodeUnitConsistent()
    ensures Sorting.Consistent(CodeUnitLess)
  {
    forall a: string, b: string
      ensures !(CodeUnitLess(a, b) && CodeUnitLess(b, a))
    {
      if CodeUnitLess(a, b) && CodeUnitLess(b, a) {
        CodeUnitLessTransitive(a, b, a);
        CodeUnitLessIrreflexive(a);
      }
    }
    forall a: string, b: string, c: string | !CodeUnitLess(b, a) && !CodeUnitLess(c, b)
      ensures !CodeUnitLess(c, a)
    {
      CodeUnitLessTotal(a, b);
      CodeUnitLessTotal(b, c);
      if CodeUnitLess(c, a) {
        if a == b {
        } else if b == c {
        } else {
          CodeUnitLessTransitive(a, b, c);
          CodeUnitLessTransitive(c, a, b);
          CodeUnitLessIrreflexive(b);
        }
      }
    }
  }

  /** With a consistent `localeCompare`, the barycentre comparator is consistent too. */
  lemma BarycenterConsistent(parentsByChild: map<string, seq<string>>, orderIndex: map<string, nat>,
                             collate: (string, string) -> int)
    requires Sorting.Consistent((a: string, b: string) => collate(a, b) < 0)
    ensures Sorting.Consistent(ByBarycenter(parentsByChild, orderIndex, collate))
  {
    var before := ByBarycenter(parentsByChild, orderIndex, collate);
    var tie := (a: string, b: string) => collate(a, b) < 0;
    forall a: string, b: string
      ensures !(before(a, b) && before(b, a))
    {
      assert !(tie(a, b) && tie(b, a));
    }
    forall a: string, b: string, c: string | !before(b, a) && !before(c, b)
      ensures !before(c, a)
    {
      assert !tie(b, a) && !tie(c, b) ==> !tie(c, a);
    }
  }

  /** `ids.forEach((id, index) => { orderIndexById[id] = index })`, as a value. */
  function Positions(orderIndex: map<string, nat>, ids: seq<string>): (m: map<string, nat>)
    ensures forall id :: id in m <==> id in orderIndex || id in ids
    decreases |ids|
  {
    if |ids| == 0 then orderIndex
    else
      var init := ids[..|ids| - 1];
      assert forall id :: id in ids <==> id in init || id == ids[|ids| - 1];
      Positions(orderIndex, init)[ids[|ids| - 1] := |ids| - 1]
  }

  /** The position a level's forEach records is where the identifier last occurs in it. */
  lemma {:induction false} PositionsAt(orderIndex: map<string, nat>, ids: seq<string>, i: nat)
    requires i < |ids| && forall j :: i < j < |ids| ==> ids[j] != ids[i]
    ensures Positions(orderIndex, ids)[ids[i]] == i
    decreases |ids|
  {
    if i < |ids| - 1 {
      PositionsAt(orderIndex, ids[..|ids| - 1], i);
    }
  }

  /** The `forEach` that records positions. */
  method RecordPositions(orderIndex: map<string, nat>, ids: seq<string>) returns (m: map<string, nat>)
    ensures m == Positions(orderIndex, ids)
  {
    m := orderIndex;
    for index := 0 to |ids|
      invariant m == Positions(orderIndex, ids[..index])
    {
      assert ids[..index + 1][..index] == ids[..index];
      m := m[ids[index] := index];
    }
    assert ids[..|ids|] == ids;
  }

  /** `orderIndexById` once the levels in `rows` have been recorded, one after the other. */
  function IndexOf(rows: seq<seq<string>>): map<string, nat>
    decreases |rows|
  {
    if |rows| == 0 then map[] else Positions(IndexOf(rows[..|rows| - 1]), rows[|rows| - 1])
  }

  /** The comparator for the level at `levelIndex`, given the rows already ordered. */
  function LevelOrder(levelIndex: nat, parentsByChild: map<string, seq<string>>, done: seq<seq<string>>,
                      collate: (string, string) -> int): (string, string) -> bool
  {
    if levelIndex == 0 then CodeUnitLess else ByBarycenter(parentsByChild, IndexOf(done), collate)
  }

  /** The buckets of the first `k` levels of `ordered`, each sorted by its comparator. */
  function Arranged(levels: map<nat, seq<string>>, ordered: seq<nat>, parentsByChild: map<string, seq<string>>,
                    collate: (string, string) -> int, k: nat): (rows: seq<seq<string>>)
    requires k <= |ordered| && forall l :: l in ordered ==> l in levels
    ensures |rows| == k
  {
    if k == 0 then []
    else
      var done := Arranged(levels, ordered, parentsByChild, collate, k - 1);
      done + [NextRow(levels, ordered, parentsByChild, collate, done)]
  }

  /** The next level of `ordered` once the levels in `done` are arranged, sorted by its comparator. */
  function NextRow(levels: map<nat, seq<string>>, ordered: seq<nat>, parentsByChild: map<string, seq<string>>,
                   collate: (string, string) -> int, done: seq<seq<string>>): seq<string>
    requires |done| < |ordered| && ordered[|done|] in levels
  {
    Sorting.Sort(levels[ordered[|done|]], LevelOrder(|done|, parentsByChild, done, collate))
  }

  /** Each row of `rows` is the next row of `ordered` given the rows before it. */
  ghost predicate Chained(levels: map<nat, seq<string>>, ordered: seq<nat>, parentsByChild: map<string, seq<string>>,
                          collate: (string, string) -> int, rows: seq<seq<string>>)
    requires forall l :: l in ordered ==> l in levels
  {
    |rows| <= |ordered|
    && forall j :: 0 <= j < |rows| ==> rows[j] == NextRow(levels, ordered, parentsByChild, collate, rows[..j])
  }

  /** Adding the next row keeps the rows chained. */
  lemma ChainedStep(levels: map<nat, seq<string>>, ordered: seq<nat>, parentsByChild: map<string, seq<string>>,
                    collate: (string, string) -> int, rows: seq<seq<string>>)
    requires forall l :: l in ordered ==> l in levels
    requires Chained(levels, ordered, parentsByChild, collate, rows) && |rows| < |ordered|
    ensures Chained(levels, ordered, parentsByChild, collate,
                    rows + [NextRow(levels, ordered, parentsByChild, collate, rows)])
  {
    var next := rows + [NextRow(levels, ordered, parentsByChild, collate, rows)];
    forall j | 0 <= j < |next|
      ensures next[j] == NextRow(levels, ordered, parentsByChild, collate, next[..j])
    {
      assert next[..j] == rows[..j];
    }
  }

  /** The arranged rows are chained: each was sorted knowing exactly the rows before it. */
  lemma {:induction false} ArrangedChained(levels: map<nat, seq<string>>, ordered: seq<nat>,
                                           parentsByChild: map<string, seq<string>>,
                                           collate: (string, string) -> int, k: nat)
    requires k <= |ordered| && forall l :: l in ordered ==> l in levels
    ensures Chained(levels, ordered, parentsByChild, collate, Arranged(levels, ordered, parentsByChild, collate, k))
  {
    if k > 0 {
      ArrangedChained(levels, ordered, parentsByChild, collate, k - 1);
      ChainedStep(levels, ordered, parentsByChild, collate, Arranged(levels, ordered, parentsByChild, collate, k - 1));
    }
  }

  /** Every arranged level holds the identifiers of its bucket, each as often. */
  lemma ArrangedRow(levels: map<nat, seq<string>>, ordered: seq<nat>, parentsByChild: map<string, seq<string>>,
                    collate: (string, string) -> int, k: nat, j: nat)
    requires k <= |ordered| && forall l :: l in ordered ==> l in levels
    requires j < k
    ensures multiset(Arranged(levels, ordered, parentsByChild, collate, k)[j]) == multiset(levels[ordered[j]])
  {
    var rows := Arranged(levels, ordered, parentsByChild, collate, k);
    ArrangedChained(levels, ordered, parentsByChild, collate, k);
    assert rows[j] == NextRow(levels, ordered, parentsByChild, collate, rows[..j]);
  }

  /** Every arranged level is in the order of its comparator: the first by identifier, each later one
      by the parents' mean position within the levels already arranged. */
  lemma ArrangedSorted(levels: map<nat, seq<string>>, ordered: seq<nat>, parentsByChild: map<string, seq<string>>,
                       collate: (string, string) -> int, k: nat, j: nat)
    requires k <= |ordered| && forall l :: l in ordered ==> l in levels
    requires Sorting.Consistent((a: string, b: string) => collate(a, b) < 0)
    requires j < k
    ensures var rows := Arranged(levels, ordered, parentsByChild, collate, k);
            Sorting.SortedBy(rows[j], LevelOrder(j, parentsByChild, rows[..j], collate))
  {
    var rows := Arranged(levels, ordered, parentsByChild, collate, k);
    ArrangedChained(levels, ordered, parentsByChild, collate, k);
    assert rows[j] == NextRow(levels, ordered, parentsByChild, collate, rows[..j]);
    if j == 0 {
      CodeUnitConsistent();
    } else {
      BarycenterConsistent(parentsByChild, IndexOf(rows[..j]), collate);
    }
    Sorting.SortSorted(levels[ordered[j]], LevelOrder(j, parentsByChild, rows[..j], collate));
  }

  /** The `orderedLevels.forEach` that sorts each level in place and records the positions. */
  method ArrangeLevels(levels: map<nat, seq<string>>, ordered: seq<nat>, parentsByChild: map<string, seq<string>>,
                       collate: (string, string) -> int)
    returns (rows: seq<seq<string>>)
    requires forall l :: l in ordered ==> l in levels
    ensures rows == Arranged(levels, ordered, parentsByChild, collate, |ordered|)
  {
    rows := [];
    var orderIndexById := map[];
    for levelIndex := 0 to |ordered|
      invariant rows == Arranged(levels, ordered, parentsByChild, collate, levelIndex)
      invariant orderIndexById == IndexOf(rows)
    {
      var ids := levels[ordered[levelIndex]];
      if levelIndex == 0 {
        ids := Sorting.SortInPlace(ids, CodeUnitLess);
      } else {
        ids := Sorting.SortInPlace(ids, ByBarycenter(parentsByChild, orderIndexById, collate));
      }
      assert ids == NextRow(levels, ordered, parentsByChild, collate, rows);
      orderIndexById := RecordPositions(orderIndexById, ids);
      assert (rows + [ids])[..|rows|] == rows;
      rows := rows + [ids];
    }
  }
}
