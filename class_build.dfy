/** `buildHierarchicalLayout` and `buildLayout` (src/renderers/ClassRenderer.jsx:165-276) put
    together: the level map, the arranged levels and their boxes, with the grid as the fallback when
    there is no level map. */
module ClassBuild {
  import opened Options
  import opened DiagramModel
  import opened ClassLayout
  import opened ClassLevels
  import opened ClassGrid
  import opened ClassHierarchy
  import opened ClassPlacement
  import Sorting

  /** The `levels` object: a bucket for each level met. */
  function LevelMap(levelById: map<string, nat>, ids: seq<string>): map<nat, seq<string>> {
    map l | l in LevelsSeen(levelById, ids) :: AtLevel(levelById, ids, l)
  }

  /** `orderedLevels`. */
  function Ordered(levelById: map<string, nat>, ids: seq<string>): seq<nat> {
    Sorting.Sort(LevelsSeen(levelById, ids), Below)
  }

  /** The arranged levels, top to bottom, each in its final order. */
  function LevelRows(classes: seq<ClassNode>, info: LevelInfo, collate: (string, string) -> int)
    : (rows: seq<seq<string>>)
    ensures |rows| == |Ordered(info.levelById, ClassIds(classes))|
  {
    var ids := ClassIds(classes);
    var ordered := Ordered(info.levelById, ids);
    LevelsSeenFacts(info.levelById, ids);
    SortedLevels(LevelsSeen(info.levelById, ids));
    Arranged(LevelMap(info.levelById, ids), ordered, info.parentsByChild, collate, |ordered|)
  }

  /** Row `r` holds the classes at the `r`-th level in increasing order, as often as they are listed. */
  lemma RowAtLevel(classes: seq<ClassNode>, info: LevelInfo, collate: (string, string) -> int, r: nat)
    requires r < |LevelRows(classes, info, collate)|
    ensures var ids := ClassIds(classes);
            multiset(LevelRows(classes, info, collate)[r])
              == multiset(AtLevel(info.levelById, ids, Ordered(info.levelById, ids)[r]))
  {
    var ids := ClassIds(classes);
    var ordered := Ordered(info.levelById, ids);
    LevelsSeenFacts(info.levelById, ids);
    SortedLevels(LevelsSeen(info.levelById, ids));
    ArrangedRow(LevelMap(info.levelById, ids), ordered, info.parentsByChild, collate, |ordered|, r);
  }

  /** Every identifier in a row names a class (and so has a size). */
  lemma RowsListed(classes: seq<ClassNode>, dims: map<string, Size>, info: LevelInfo,
                   collate: (string, string) -> int)
    requires forall id :: id in ClassIds(classes) ==> id in dims
    ensures Listed(classes, dims, LevelRows(classes, info, collate))
  {
    var rows := LevelRows(classes, info, collate);
    forall r, id | 0 <= r < |rows| && id in rows[r]
      ensures id in ClassIds(classes)
    {
      RowAtLevel(classes, info, collate, r);
      assert id in multiset(rows[r]);
      AtLevelMembers(info.levelById, ClassIds(classes), Ordered(info.levelById, ClassIds(classes))[r]);
    }
  }

  /** The boxes `buildHierarchicalLayout` returns once it has a level map. */
  function Hierarchy(classes: seq<ClassNode>, dims: map<string, Size>, info: LevelInfo,
                     collate: (string, string) -> int): seq<Placed>
    requires forall id :: id in ClassIds(classes) ==> id in dims
  {
    var rows := LevelRows(classes, info, collate);
    RowsListed(classes, dims, info, collate);
    Layout(classes, dims, rows, |rows|)
  }

  // ---------------------------------------------------------------- what the hierarchy guarantees

  /** The rows before `k` hold each identifier as often as it is listed if its level is among the
      first `k` levels, and not at all otherwise. */
  lemma {:induction false} ConcatCount(levelById: map<string, nat>, ids: seq<string>, ordered: seq<nat>,
                                       rows: seq<seq<string>>, k: nat, x: string)
    requires |rows| == |ordered| && Distinct(ordered) && k <= |rows|
    requires forall r :: 0 <= r < |rows| ==> multiset(rows[r]) == multiset(AtLevel(levelById, ids, ordered[r]))
    ensures multiset(Concat(rows, k))[x] == if LevelOf(levelById, x) in ordered[..k] then multiset(ids)[x] else 0
  {
    if k > 0 {
      var level := LevelOf(levelById, x);
      ConcatCount(levelById, ids, ordered, rows, k - 1, x);
      assert multiset(Concat(rows, k))[x] == multiset(Concat(rows, k - 1))[x] + multiset(rows[k - 1])[x];
      assert multiset(rows[k - 1])[x] == if level == ordered[k - 1] then multiset(ids)[x] else 0 by {
        AtLevelCount(levelById, ids, ordered[k - 1], x);
      }
      PrefixMembers(ordered, k - 1, level);
      DistinctLast(ordered, k - 1);
    }
  }

  /** Rows holding the buckets of distinct levels, one row for each level met, hold every identifier
      exactly as often as it is listed. */
  lemma RowsCount(levelById: map<string, nat>, ids: seq<string>, ordered: seq<nat>, rows: seq<seq<string>>)
    requires |rows| == |ordered| && Distinct(ordered)
    requires forall l :: l in ordered <==> l in LevelsSeen(levelById, ids)
    requires forall r :: 0 <= r < |rows| ==> multiset(rows[r]) == multiset(AtLevel(levelById, ids, ordered[r]))
    ensures multiset(Concat(rows, |rows|)) == multiset(ids)
  {
    forall x
      ensures multiset(Concat(rows, |rows|))[x] == multiset(ids)[x]
    {
      ConcatCount(levelById, ids, ordered, rows, |rows|, x);
      assert ordered[..|rows|] == ordered;
      if x in ids {
        AtLevelMembers(levelById, ids, LevelOf(levelById, x));
        LevelsSeenFacts(levelById, ids);
      }
    }
  }

  /** Every class gets exactly one box: the boxes name the listed classes, each as often as listed. */
  lemma HierarchyComplete(classes: seq<ClassNode>, dims: map<string, Size>, info: LevelInfo,
                          collate: (string, string) -> int)
    requires forall id :: id in ClassIds(classes) ==> id in dims
    ensures multiset(NodeIds(Hierarchy(classes, dims, info, collate))) == multiset(ClassIds(classes))
  {
    var ids := ClassIds(classes);
    var rows := LevelRows(classes, info, collate);
    var ordered := Ordered(info.levelById, ids);
    RowsListed(classes, dims, info, collate);
    assert NodeIds(Hierarchy(classes, dims, info, collate)) == Concat(rows, |rows|) by {
      LayoutIds(classes, dims, rows, |rows|);
    }
    forall r | 0 <= r < |rows|
      ensures multiset(rows[r]) == multiset(AtLevel(info.levelById, ids, ordered[r]))
    {
      RowAtLevel(classes, info, collate, r);
    }
    LevelsSeenFacts(info.levelById, ids);
    SortedLevels(LevelsSeen(info.levelById, ids));
    assert Distinct(ordered);
    RowsCount(info.levelById, ids, ordered, rows);
  }

  /** No two boxes of the hierarchy overlap. */
  lemma HierarchyApart(classes: seq<ClassNode>, dims: map<string, Size>, info: LevelInfo,
                       collate: (string, string) -> int, p: nat, q: nat)
    requires forall id :: id in ClassIds(classes) ==> id in dims
    requires NonNegative(dims)
    requires p < q < |Hierarchy(classes, dims, info, collate)|
    ensures var placed := Hierarchy(classes, dims, info, collate);
            Apart(placed[p], placed[q])
  {
    RowsListed(classes, dims, info, collate);
    LayoutApart(classes, dims, LevelRows(classes, info, collate), p, q);
  }

  /** When each row holds the classes of one level and the levels increase downwards, a class on a
      deeper level sits below a class on a shallower one, at least 120 clear of it. */
  lemma DeeperBelow(classes: seq<ClassNode>, dims: map<string, Size>, rows: seq<seq<string>>,
                    levelById: map<string, nat>, ordered: seq<nat>, p: nat, q: nat)
    requires Listed(classes, dims, rows) && |rows| == |ordered| && Increasing(ordered)
    requires forall r, id :: 0 <= r < |rows| && id in rows[r] ==> LevelOf(levelById, id) == ordered[r]
    requires p < |Layout(classes, dims, rows, |rows|)| && q < |Layout(classes, dims, rows, |rows|)|
    requires var placed := Layout(classes, dims, rows, |rows|);
             LevelOf(levelById, placed[p].node.id) < LevelOf(levelById, placed[q].node.id)
    ensures var placed := Layout(classes, dims, rows, |rows|);
            placed[p].y + placed[p].height as real + 120.0 <= placed[q].y
  {
    var placed := Layout(classes, dims, rows, |rows|);
    LayoutIds(classes, dims, rows, |rows|);
    var r, i := Locate(classes, dims, rows, |rows|, p);
    var r', i' := Locate(classes, dims, rows, |rows|, q);
    assert placed[p].node.id == rows[r][i] && placed[q].node.id == rows[r'][i'] by {
      assert NodeIds(placed)[p] == placed[p].node.id && NodeIds(placed)[q] == placed[q].node.id;
      ConcatAt(rows, |rows|, r, i);
      ConcatAt(rows, |rows|, r', i');
    }
    assert rows[r][i] in rows[r] && rows[r'][i'] in rows[r'];
    IncreasingIndex(ordered, r, r');
    RowsStacked(classes, dims, rows, r, i, r', i');
  }

  /** A class reached from the roots sits above each of its subclasses, at least 120 clear of it. */
  lemma ParentsAbove(classes: seq<ClassNode>, relations: seq<ClassRelation>, dims: map<string, Size>,
                     info: LevelInfo, reached: set<string>, collate: (string, string) -> int, p: nat, q: nat)
    requires forall id :: id in ClassIds(classes) ==> id in dims
    requires LevelMapOf(classes, relations, Some(info), reached)
    requires p < |Hierarchy(classes, dims, info, collate)| && q < |Hierarchy(classes, dims, info, collate)|
    requires var placed := Hierarchy(classes, dims, info, collate);
             && placed[p].node.id in reached
             && placed[q].node.id in ChildrenOf(ClassIds(classes), InheritanceOf(relations), placed[p].node.id)
    ensures var placed := Hierarchy(classes, dims, info, collate);
            placed[p].y + placed[p].height as real + 120.0 <= placed[q].y
  {
    var ids := ClassIds(classes);
    var rows := LevelRows(classes, info, collate);
    var ordered := Ordered(info.levelById, ids);
    var placed := Hierarchy(classes, dims, info, collate);
    RowsListed(classes, dims, info, collate);
    assert placed == Layout(classes, dims, rows, |rows|);
    RowsAtLevels(classes, info, collate);
    LevelsSeenFacts(info.levelById, ids);
    SortedLevels(LevelsSeen(info.levelById, ids));
    LevelMapChild(classes, relations, info, reached, placed[p].node.id, placed[q].node.id);
    DeeperBelow(classes, dims, rows, info.levelById, ordered, p, q);
  }

  /** Row `r` of the hierarchy holds the classes of the `r`-th level in increasing order. */
  lemma RowsAtLevels(classes: seq<ClassNode>, info: LevelInfo, collate: (string, string) -> int)
    ensures var rows := LevelRows(classes, info, collate);
            var ordered := Ordered(info.levelById, ClassIds(classes));
            |rows| == |ordered|
            && forall r, id :: 0 <= r < |rows| && id in rows[r] ==> LevelOf(info.levelById, id) == ordered[r]
  {
    var rows := LevelRows(classes, info, collate);
    var ordered := Ordered(info.levelById, ClassIds(classes));
    forall r, id | 0 <= r < |rows| && id in rows[r]
      ensures LevelOf(info.levelById, id) == ordered[r]
    {
      RowAtLevel(classes, info, collate, r);
      assert id in multiset(rows[r]);
      AtLevelMembers(info.levelById, ClassIds(classes), Ordered(info.levelById, ClassIds(classes))[r]);
    }
  }

  /** Position `i` of row `r` comes at `RowStart(rows, r) + i` in the concatenated rows. */
  lemma {:induction false} ConcatAt(rows: seq<seq<string>>, k: nat, r: nat, i: nat)
    requires r < k <= |rows| && i < |rows[r]|
    ensures RowStart(rows, r) + i < |Concat(rows, k)| && Concat(rows, k)[RowStart(rows, r) + i] == rows[r][i]
    ensures |Concat(rows, k)| == RowStart(rows, k)
  {
    if r < k - 1 {
      ConcatAt(rows, k - 1, r, i);
    } else {
      ConcatLength(rows, k - 1);
    }
  }

  lemma {:induction false} ConcatLength(rows: seq<seq<string>>, k: nat)
    requires k <= |rows|
    ensures |Concat(rows, k)| == RowStart(rows, k)
  {
    if k > 0 {
      ConcatLength(rows, k - 1);
    }
  }

  // ---------------------------------------------------------------- the methods

  /** `buildHierarchicalLayout`: `None` exactly when there is no level map. */
  method BuildHierarchicalLayout(classes: seq<ClassNode>, relations: seq<ClassRelation>, dims: map<string, Size>,
                                 collate: (string, string) -> int, ghost rank: map<string, nat>)
    returns (positioned: Option<seq<Placed>>, ghost info: Option<LevelInfo>, ghost reached: set<string>)
    requires forall id :: id in ClassIds(classes) ==> id in dims
    requires Ranked(ClassIds(classes), InheritanceOf(relations), rank)
    ensures LevelMapOf(classes, relations, info, reached)
    ensures positioned.None? <==> info.None?
    ensures info.Some? ==> positioned == Some(Hierarchy(classes, dims, info.value, collate))
  {
    var levelInfo;
    levelInfo, reached := BuildLevelMap(classes, relations, rank);
    info := levelInfo;
    if levelInfo.None? {
      return None, info, reached;
    }
    var levelById, parentsByChild := levelInfo.value.levelById, levelInfo.value.parentsByChild;
    ghost var ids := ClassIds(classes);
    var levels, keys := GroupByLevel(classes, levelById);
    LevelsSeenFacts(levelById, ids);
    assert levels == LevelMap(levelById, ids);
    var orderedLevels := OrderLevels(keys);
    SortedLevels(keys);
    assert orderedLevels == Ordered(levelById, ids);
    var rows := ArrangeLevels(levels, orderedLevels, parentsByChild, collate);
    assert rows == LevelRows(classes, levelInfo.value, collate);
    RowsListed(classes, dims, levelInfo.value, collate);
    var boxes := PlaceLevels(classes, dims, rows);
    positioned := Some(boxes);
  }

  /** `buildLayout`: measure every class, then the hierarchy when there is a level map and the grid
      otherwise. Either way every class gets one box and no two boxes overlap. */
  method BuildLayout(classes: seq<ClassNode>, relations: seq<ClassRelation>, collate: (string, string) -> int,
                     ghost rank: map<string, nat>)
    returns (placed: seq<Placed>, ghost info: Option<LevelInfo>, ghost reached: set<string>)
    requires Ranked(ClassIds(classes), InheritanceOf(relations), rank)
    ensures LevelMapOf(classes, relations, info, reached)
    ensures placed == if info.Some? then Hierarchy(classes, Dimensions(classes), info.value, collate)
                      else GridPrefix(classes, Dimensions(classes), |classes|)
    ensures LaidOut(classes, placed)
  {
    var dimensions := MeasureClasses(classes);
    var hierarchical;
    hierarchical, info, reached := BuildHierarchicalLayout(classes, relations, dimensions, collate, rank);
    if hierarchical.Some? {
      placed := hierarchical.value;
      HierarchyLaidOut(classes, dimensions, info.value, collate);
    } else {
      placed := BuildGridLayout(classes, dimensions);
      GridLaidOut(classes, dimensions);
    }
  }

  /** `placed` is what `buildLayout` returns for these classes and relations: the hierarchy of the
      level map when there is one, the grid otherwise. */
  ghost predicate BuiltLayout(classes: seq<ClassNode>, relations: seq<ClassRelation>, collate: (string, string) -> int,
                              placed: seq<Placed>) {
    exists info, reached :: LevelMapOf(classes, relations, info, reached)
      && placed == if info.Some? then Hierarchy(classes, Dimensions(classes), info.value, collate)
                   else GridPrefix(classes, Dimensions(classes), |classes|)
  }

  /** Every class has one box and no two boxes overlap. */
  ghost predicate LaidOut(classes: seq<ClassNode>, placed: seq<Placed>) {
    && multiset(NodeIds(placed)) == multiset(ClassIds(classes)) && |placed| == |classes|
    && forall p, q :: 0 <= p < q < |placed| ==> Apart(placed[p], placed[q])
  }

  lemma HierarchyLaidOut(classes: seq<ClassNode>, dims: map<string, Size>, info: LevelInfo,
                         collate: (string, string) -> int)
    requires dims == Dimensions(classes)
    ensures LaidOut(classes, Hierarchy(classes, dims, info, collate))
  {
    var placed := Hierarchy(classes, dims, info, collate);
    HierarchyComplete(classes, dims, info, collate);
    forall p, q | 0 <= p < q < |placed|
      ensures Apart(placed[p], placed[q])
    {
      HierarchyApart(classes, dims, info, collate, p, q);
    }
    assert |placed| == |multiset(NodeIds(placed))|;
  }

  lemma GridLaidOut(classes: seq<ClassNode>, dims: map<string, Size>)
    requires dims == Dimensions(classes)
    ensures LaidOut(classes, GridPrefix(classes, dims, |classes|))
  {
    var placed := GridPrefix(classes, dims, |classes|);
    assert NodeIds(placed) == ClassIds(classes);
    forall p, q | 0 <= p < q < |placed|
      ensures Apart(placed[p], placed[q])
    {
      GridDisjoint(classes, dims, p, q);
    }
  }
}
