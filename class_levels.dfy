/** `buildLevelMap` (src/renderers/ClassRenderer.jsx:79-122): inheritance depth by breadth-first
    relaxation from the classes without parents, then fresh levels for the classes never reached. */
module ClassLevels {
  import opened Options
  import opened DiagramModel
  import opened ClassLayout

  /** The classes of `candidates` without a known parent (the `filter` of `roots`). */
  function RootsAmong(ids: seq<string>, inh: seq<ClassRelation>, candidates: seq<string>): (roots: seq<string>)
    ensures forall r {:trigger r in roots} :: r in roots <==> r in candidates && ParentsOf(ids, inh, r) == []
    decreases |candidates|
  {
    if |candidates| == 0 then []
    else
      var init := candidates[..|candidates| - 1];
      var last := candidates[|candidates| - 1];
      assert forall r :: r in candidates <==> r in init || r == last;
      RootsAmong(ids, inh, init) + (if ParentsOf(ids, inh, last) == [] then [last] else [])
  }

  function Roots(ids: seq<string>, inh: seq<ClassRelation>): seq<string> {
    RootsAmong(ids, inh, ids)
  }

  /** A class that has a parent is never a root. */
  lemma {:induction false} ChildIsNoRoot(ids: seq<string>, inh: seq<ClassRelation>, parent: string, child: string)
    requires child in ChildrenOf(ids, inh, parent)
    ensures child !in Roots(ids, inh) && child in ids
  {
    ChildParentDual(ids, inh, parent, child);
  }

  /** A ranking of the classes reachable from the roots under which every inheritance edge goes up
      in rank: such a ranking exists exactly when no cycle of inheritance is reachable from a root. */
  ghost predicate Ranked(ids: seq<string>, inh: seq<ClassRelation>, rank: map<string, nat>) {
    (forall r :: r in Roots(ids, inh) ==> r in rank)
    && (forall p, c :: p in rank && c in ChildrenOf(ids, inh, p) ==> c in rank && rank[p] < rank[c])
  }

  // ---------------------------------------------------------------- the queue loop, over the maps

  /** The shape of `childrenByParent` and `roots` as the loop sees them: children are listed classes
      and never roots. */
  ghost predicate Graph(ids: seq<string>, children: map<string, seq<string>>, roots: seq<string>) {
    (forall p :: p in children ==> p in ids)
    && (forall r :: r in roots ==> r in children)
    && (forall p, c :: p in children && c in children[p] ==> c in children && c !in roots)
  }

  /** The ranking, read through the maps. */
  ghost predicate RankedBy(children: map<string, seq<string>>, roots: seq<string>, rank: map<string, nat>) {
    (forall r :: r in roots ==> r in rank)
    && (forall p, c :: p in rank && p in children && c in children[p] ==> c in rank && rank[p] < rank[c])
  }

  /** Every level assigned so far is at most the rank of its class. */
  ghost predicate Bounded(levels: map<string, nat>, rank: map<string, nat>) {
    forall v :: v in levels ==> v in rank && levels[v] <= rank[v]
  }

  /** What is left to gain: for each class, the distance from its level to its rank. */
  ghost function Potential(ids: seq<string>, levels: map<string, nat>, rank: map<string, nat>): nat
    requires Bounded(levels, rank)
    decreases |ids|
  {
    if |ids| == 0 then 0
    else
      var v := ids[|ids| - 1];
      Potential(ids[..|ids| - 1], levels, rank)
        + (if v !in rank then 0 else if v in levels then rank[v] - levels[v] else rank[v] + 1)
  }

  /** Raising one level (within its rank) lowers the potential, strictly when the class is listed. */
  lemma {:induction false} PotentialDrops(ids: seq<string>, levels: map<string, nat>, rank: map<string, nat>,
                                          c: string, n: nat)
    requires Bounded(levels, rank) && c in rank && n <= rank[c] && (c !in levels || levels[c] < n)
    ensures Bounded(levels[c := n], rank)
    ensures Potential(ids, levels[c := n], rank) <= Potential(ids, levels, rank)
    ensures c in ids ==> Potential(ids, levels[c := n], rank) < Potential(ids, levels, rank)
    decreases |ids|
  {
    if |ids| > 0 {
      var init := ids[..|ids| - 1];
      PotentialDrops(init, levels, rank, c, n);
      assert c in ids ==> c in init || c == ids[|ids| - 1];
    }
  }

  /** Every child of `p` has a level at least one above the level of `p`. */
  ghost predicate Settled(children: map<string, seq<string>>, levels: map<string, nat>, p: string)
    requires p in levels && p in children
  {
    forall c :: c in children[p] ==> c in levels && levels[c] >= levels[p] + 1
  }

  /** Some parent of `c` has a level at least one less than the level of `c`. */
  ghost predicate Supports(children: map<string, seq<string>>, levels: map<string, nat>, c: string)
    requires c in levels
  {
    exists p :: p in levels && p in children && c in children[p] && levels[c] <= levels[p] + 1
  }

  /** Every level other than a root's is justified by some parent's level. */
  ghost predicate Supported(children: map<string, seq<string>>, roots: seq<string>, levels: map<string, nat>) {
    forall c {:trigger Supports(children, levels, c)} :: c in levels && c !in roots ==> Supports(children, levels, c)
  }

  /** The invariant of the queue loop, except that `pending` may be unsettled. */
  ghost predicate Progress(children: map<string, seq<string>>, roots: seq<string>, rank: map<string, nat>,
                           levels: map<string, nat>, queue: seq<string>, pending: Option<string>)
  {
    && Bounded(levels, rank)
    && (forall v :: v in levels ==> v in children)
    && (forall v :: v in queue ==> v in levels)
    && (forall r :: r in roots ==> r in levels && levels[r] == 0)
    && (forall p {:trigger Settled(children, levels, p)} :: p in levels && p !in queue && Some(p) != pending ==> Settled(children, levels, p))
    && Supported(children, roots, levels)
  }

  /** A raise keeps every settled class other than the raised one settled: levels only go up. */
  lemma RaiseKeepsSettled(children: map<string, seq<string>>, levels: map<string, nat>, child: string,
                          n: nat, p: string)
    requires child !in levels || levels[child] < n
    requires p in levels && p in children && p != child && Settled(children, levels, p)
    ensures Settled(children, levels[child := n], p)
  {
  }

  /** A raise to one more than the parent's level keeps every level supported by a parent. */
  lemma RaiseKeepsSupported(children: map<string, seq<string>>, roots: seq<string>, levels: map<string, nat>,
                            parent: string, parentLevel: nat, child: string)
    requires Supported(children, roots, levels)
    requires parent in levels && parent in children && parentLevel <= levels[parent] && child in children[parent]
    requires child !in levels || parentLevel + 1 > levels[child]
    ensures Supported(children, roots, levels[child := parentLevel + 1])
  {
    var levels' := levels[child := parentLevel + 1];
    forall c | c in levels' && c !in roots
      ensures Supports(children, levels', c)
    {
      if c == child {
        assert parent in levels' && levels'[c] <= levels'[parent] + 1;
      } else {
        assert Supports(children, levels, c);
        var p :| p in levels && p in children && c in children[p] && levels[c] <= levels[p] + 1;
        assert p in levels';
      }
    }
  }

  /** One raise of a child's level keeps the invariant (with the new child queued) and lowers the
      potential. */
  lemma RaiseKeepsProgress(ids: seq<string>, children: map<string, seq<string>>, roots: seq<string>,
                           rank: map<string, nat>, levels: map<string, nat>, queue: seq<string>,
                           parent: string, parentLevel: nat, child: string)
    requires Graph(ids, children, roots) && RankedBy(children, roots, rank)
    requires Progress(children, roots, rank, levels, queue, Some(parent))
    requires parent in levels && parentLevel <= levels[parent] && child in children[parent]
    requires child !in levels || parentLevel + 1 > levels[child]
    ensures Progress(children, roots, rank, levels[child := parentLevel + 1], queue + [child], Some(parent))
    ensures Potential(ids, levels[child := parentLevel + 1], rank) < Potential(ids, levels, rank)
  {
    var levels', queue' := levels[child := parentLevel + 1], queue + [child];
    assert child in ids && child in rank && parentLevel + 1 <= rank[child];
    PotentialDrops(ids, levels, rank, child, parentLevel + 1);
    forall p | p in levels' && p !in queue' && Some(p) != Some(parent)
      ensures Settled(children, levels', p)
    {
      RaiseKeepsSettled(children, levels, child, parentLevel + 1, p);
    }
    RaiseKeepsSupported(children, roots, levels, parent, parentLevel, child);
  }

  /** Once every child of `parent` is at least one level below its level at dequeue time, `parent`
      is settled unless it went back into the queue. */
  lemma SettleParent(children: map<string, seq<string>>, roots: seq<string>, rank: map<string, nat>,
                     levels: map<string, nat>, queue: seq<string>, parent: string, parentLevel: nat)
    requires Progress(children, roots, rank, levels, queue, Some(parent))
    requires parent in levels && parent in children && (levels[parent] == parentLevel || parent in queue)
    requires forall c :: c in children[parent] ==> c in levels && levels[c] >= parentLevel + 1
    ensures Progress(children, roots, rank, levels, queue, None)
  {
    assert parent !in queue ==> Settled(children, levels, parent);
  }

  /** The invariant of the inner loop, for a parent dequeued at level `parentLevel`, measured against
      the state (`levels0`, `queue0`) the loop started from. */
  ghost predicate Relaxing(ids: seq<string>, children: map<string, seq<string>>, roots: seq<string>,
                           rank: map<string, nat>, parent: string, parentLevel: nat,
                           levels0: map<string, nat>, queue0: seq<string>, levels: map<string, nat>, queue: seq<string>)
  {
    && Bounded(levels0, rank)
    && Progress(children, roots, rank, levels, queue, Some(parent))
    && parent in levels && parentLevel <= levels[parent]
    && (levels[parent] == parentLevel || parent in queue)
    && (Potential(ids, levels, rank) < Potential(ids, levels0, rank) || (levels == levels0 && queue == queue0))
  }

  /** A raise inside the inner loop keeps its invariant. */
  lemma RaiseKeepsRelaxing(ids: seq<string>, children: map<string, seq<string>>, roots: seq<string>,
                           rank: map<string, nat>, parent: string, parentLevel: nat,
                           levels0: map<string, nat>, queue0: seq<string>, levels: map<string, nat>, queue: seq<string>,
                           child: string)
    requires Graph(ids, children, roots) && RankedBy(children, roots, rank)
    requires Relaxing(ids, children, roots, rank, parent, parentLevel, levels0, queue0, levels, queue)
    requires child in children[parent] && (child !in levels || parentLevel + 1 > levels[child])
    ensures Relaxing(ids, children, roots, rank, parent, parentLevel, levels0, queue0,
                     levels[child := parentLevel + 1], queue + [child])
  {
    RaiseKeepsProgress(ids, children, roots, rank, levels, queue, parent, parentLevel, child);
  }

  /** The body of the inner `for`, for one child. */
  method RelaxChild(ghost ids: seq<string>, children: map<string, seq<string>>, roots: seq<string>,
                    ghost rank: map<string, nat>, parent: string, parentLevel: nat,
                    ghost levels0: map<string, nat>, ghost queue0: seq<string>,
                    child: string, levels: map<string, nat>, queue: seq<string>)
    returns (levels': map<string, nat>, queue': seq<string>)
    requires Graph(ids, children, roots) && RankedBy(children, roots, rank)
    requires Relaxing(ids, children, roots, rank, parent, parentLevel, levels0, queue0, levels, queue)
    requires parent in children && child in children[parent]
    ensures Relaxing(ids, children, roots, rank, parent, parentLevel, levels0, queue0, levels', queue')
    ensures child in levels' && levels'[child] >= parentLevel + 1
    ensures forall v :: v in levels ==> v in levels' && levels'[v] >= levels[v]
  {
    levels', queue' := levels, queue;
    var proposed := parentLevel + 1;
    if child !in levels || proposed > levels[child] {
      RaiseKeepsRelaxing(ids, children, roots, rank, parent, parentLevel, levels0, queue0, levels, queue, child);
      levels' := levels[child := proposed];
      queue' := queue + [child];
    }
  }

  /** The inner `for` over the children of `parent`: a child whose level is unset or lower than the
      parent's plus one gets that level and joins the queue. */
  method RelaxChildren(ghost ids: seq<string>, children: map<string, seq<string>>, roots: seq<string>,
                       ghost rank: map<string, nat>, parent: string, levels: map<string, nat>, queue: seq<string>)
    returns (levels': map<string, nat>, queue': seq<string>)
    requires Graph(ids, children, roots) && RankedBy(children, roots, rank)
    requires parent in levels && Progress(children, roots, rank, levels, queue, Some(parent))
    ensures Progress(children, roots, rank, levels', queue', None)
    ensures Potential(ids, levels', rank) < Potential(ids, levels, rank) || (levels' == levels && queue' == queue)
  {
    var parentLevel := levels[parent];
    var kids := children[parent];
    levels', queue' := levels, queue;
    for k := 0 to |kids|
      invariant Relaxing(ids, children, roots, rank, parent, parentLevel, levels, queue, levels', queue')
      invariant forall c :: c in kids[..k] ==> c in levels' && levels'[c] >= parentLevel + 1
    {
      assert kids[..k + 1] == kids[..k] + [kids[k]];
      levels', queue' := RelaxChild(ids, children, roots, rank, parent, parentLevel, levels, queue,
                                    kids[k], levels', queue');
    }
    assert kids[..|kids|] == kids;
    FinishRelaxing(ids, children, roots, rank, parent, parentLevel, levels, queue, levels', queue');
  }

  /** After the inner loop, `parent` is settled (or queued again) and the invariant is restored. */
  lemma {:induction false} FinishRelaxing(ids: seq<string>, children: map<string, seq<string>>, roots: seq<string>,
                       rank: map<string, nat>, parent: string, parentLevel: nat,
                       levels0: map<string, nat>, queue0: seq<string>, levels: map<string, nat>, queue: seq<string>)
    requires Relaxing(ids, children, roots, rank, parent, parentLevel, levels0, queue0, levels, queue)
    requires parent in children
    requires forall c :: c in children[parent] ==> c in levels && levels[c] >= parentLevel + 1
    ensures Progress(children, roots, rank, levels, queue, None)
    ensures Potential(ids, levels, rank) < Potential(ids, levels0, rank) || (levels == levels0 && queue == queue0)
  {
    SettleParent(children, roots, rank, levels, queue, parent, parentLevel);
  }

  /** The `while (queue.length)` loop: it ends because every raise stays within the ranking. */
  method Propagate(ghost ids: seq<string>, children: map<string, seq<string>>, roots: seq<string>,
                   ghost rank: map<string, nat>)
    returns (levels: map<string, nat>)
    requires Graph(ids, children, roots) && RankedBy(children, roots, rank)
    ensures Progress(children, roots, rank, levels, [], None)
  {
    levels := map r | r in roots :: 0;
    var queue := roots;
    while |queue| > 0
      invariant Progress(children, roots, rank, levels, queue, None)
      decreases Potential(ids, levels, rank), |queue|
    {
      var parent := queue[0];
      queue := queue[1..];
      levels, queue := RelaxChildren(ids, children, roots, rank, parent, levels, queue);
    }
  }

  datatype LevelInfo = LevelInfo(levelById: map<string, nat>, parentsByChild: map<string, seq<string>>)

  /** The largest level (the `Math.max(...Object.values(levelById))`), over a map whose keys are
      among `ids`. */
  method MaxLevel(ids: seq<string>, levels: map<string, nat>) returns (m: nat)
    requires forall v :: v in levels ==> v in ids
    ensures forall v :: v in levels ==> levels[v] <= m
    ensures m == 0 || exists v :: v in levels && levels[v] == m
  {
    m := 0;
    for i := 0 to |ids|
      invariant forall j :: 0 <= j < i && ids[j] in levels ==> levels[ids[j]] <= m
      invariant m == 0 || exists v :: v in levels && levels[v] == m
    {
      if ids[i] in levels && levels[ids[i]] > m {
        m := levels[ids[i]];
      }
    }
    forall v | v in levels ensures levels[v] <= m {
      var j :| 0 <= j < |ids| && ids[j] == v;
    }
  }

  /** The closing `forEach` as a function: walking the classes in order, each one still without a
      level gets `top + 1`, which becomes the new `top`. */
  function Numbered(ids: seq<string>, levels: map<string, nat>, top: nat): map<string, nat>
    decreases |ids|
  {
    if |ids| == 0 then levels
    else if ids[0] in levels then Numbered(ids[1..], levels, top)
    else Numbered(ids[1..], levels[ids[0] := top + 1], top + 1)
  }

  /** Numbering gives every listed class a level, keeps the levels already there, and puts each
      newly numbered class on a level of its own above `top`. */
  lemma {:induction false} NumberedFacts(ids: seq<string>, levels: map<string, nat>, top: nat)
    requires forall v :: v in levels ==> levels[v] <= top
    ensures var lv := Numbered(ids, levels, top);
            && (forall v :: v in lv <==> v in levels || v in ids)
            && (forall v :: v in levels ==> lv[v] == levels[v])
            && (forall v :: v in lv && v !in levels ==> lv[v] > top)
            && (forall v, w :: v in lv && w in lv && v !in levels && w !in levels && v != w ==> lv[v] != lv[w])
    decreases |ids|
  {
    if |ids| > 0 {
      var rest := ids[1..];
      assert forall v :: v in ids <==> v == ids[0] || v in rest;
      if ids[0] in levels {
        NumberedFacts(rest, levels, top);
      } else {
        NumberedFacts(rest, levels[ids[0] := top + 1], top + 1);
      }
    }
  }

  /** The closing `forEach`: each class still without a level gets the next level above all others,
      in class order: `maxLevel + 1`, `maxLevel + 2`, ... */
  method NumberUnreached(ids: seq<string>, levels: map<string, nat>, maxLevel: nat)
    returns (levels': map<string, nat>)
    requires forall v :: v in levels ==> v in ids && levels[v] <= maxLevel
    ensures levels' == Numbered(ids, levels, maxLevel)
    ensures forall v :: v in levels' <==> v in ids
    ensures forall v :: v in levels ==> levels'[v] == levels[v]
    ensures forall v :: v in levels' && v !in levels ==> levels'[v] > maxLevel
    ensures forall v, w :: v in levels' && w in levels' && v !in levels && w !in levels && v != w ==>
              levels'[v] != levels'[w]
  {
    levels' := levels;
    var top := maxLevel;
    assert ids[0..] == ids;
    for i := 0 to |ids|
      invariant Numbered(ids[i..], levels', top) == Numbered(ids, levels, maxLevel)
    {
      assert ids[i..][1..] == ids[i + 1..];
      if ids[i] !in levels' {
        top := top + 1;
        levels' := levels'[ids[i] := top];
      }
    }
    assert ids[|ids|..] == [];
    NumberedFacts(ids, levels, maxLevel);
  }

  /** The maps built by `buildInheritanceMaps` have the shape the queue loop relies on: children are
      listed classes and never roots. */
  lemma {:induction false} MapsFormGraph(ids: seq<string>, inh: seq<ClassRelation>, children: map<string, seq<string>>,
                      roots: seq<string>)
    requires forall p :: p in children <==> p in ids
    requires forall p {:trigger children[p]} :: p in children ==> children[p] == ChildrenOf(ids, inh, p)
    requires roots == Roots(ids, inh)
    ensures Graph(ids, children, roots)
  {
    forall r | r in roots ensures r in children {
      assert r in ids;
    }
    forall p, c | p in children && c in children[p]
      ensures c in children && c !in roots
    {
      ChildIsNoRoot(ids, inh, p, c);
    }
  }

  /** The ranking of the inheritance relation is a ranking of the maps. */
  lemma MapsRanked(ids: seq<string>, inh: seq<ClassRelation>, children: map<string, seq<string>>,
                   roots: seq<string>, rank: map<string, nat>)
    requires forall p {:trigger children[p]} :: p in children ==> children[p] == ChildrenOf(ids, inh, p)
    requires forall r :: r in roots ==> r in rank
    requires forall p, c :: p in rank && c in ChildrenOf(ids, inh, p) ==> c in rank && rank[p] < rank[c]
    ensures RankedBy(children, roots, rank)
  {
    forall p, c | p in rank && p in children && c in children[p]
      ensures c in rank && rank[p] < rank[c]
    {
      assert c in ChildrenOf(ids, inh, p);
    }
  }

  // ---------------------------------------------------------------- what the level map satisfies

  /** Some parent of `c` sits exactly one level above it. */
  ghost predicate DeepestParentAt(ids: seq<string>, inh: seq<ClassRelation>, reached: set<string>,
                                  lv: map<string, nat>, c: string)
    requires c in lv
  {
    exists p :: p in reached && p in lv && c in ChildrenOf(ids, inh, p) && lv[c] == lv[p] + 1
  }

  /** The children of a reached class are reached and sit at least one level below it. */
  ghost predicate ClosedBelow(ids: seq<string>, inh: seq<ClassRelation>, reached: set<string>, lv: map<string, nat>) {
    forall p, c :: p in reached && p in lv && c in ChildrenOf(ids, inh, p) ==> c in reached && c in lv && lv[c] >= lv[p] + 1
  }

  lemma {:induction false} ChildBelow(ids: seq<string>, inh: seq<ClassRelation>, reached: set<string>, lv: map<string, nat>,
                   p: string, c: string)
    requires ClosedBelow(ids, inh, reached, lv)
    requires p in reached && p in lv && c in ChildrenOf(ids, inh, p)
    ensures c in reached && c in lv && lv[c] >= lv[p] + 1
  {
  }

  /** Every reached class other than a root sits exactly one level below its deepest parent. */
  ghost predicate DeepestParents(ids: seq<string>, inh: seq<ClassRelation>, roots: seq<string>, reached: set<string>,
                                 lv: map<string, nat>) {
    forall c {:trigger DeepestParentAt(ids, inh, reached, lv, c)} ::
      c in reached && c in lv && c !in roots ==> DeepestParentAt(ids, inh, reached, lv, c)
  }

  /** The levels of the classes reached from the roots: the roots are reached and sit at level 0, the
      children of a reached class are reached and sit at least one level below it, and every reached
      class other than a root sits exactly one level below its deepest parent. */
  ghost predicate LayeredFrom(ids: seq<string>, inh: seq<ClassRelation>, roots: seq<string>, reached: set<string>,
                              lv: map<string, nat>) {
    && (forall v :: v in reached ==> v in lv)
    && (forall r :: r in roots ==> r in reached && lv[r] == 0)
    && ClosedBelow(ids, inh, reached, lv)
    && DeepestParents(ids, inh, roots, reached, lv)
  }

  /** The levels of the reached classes alone. */
  function ReachedPart(reached: set<string>, lv: map<string, nat>): map<string, nat> {
    map v | v in lv && v in reached :: lv[v]
  }

  /** `m` is `Math.max` of the levels (0 for none). */
  ghost predicate IsDeepest(levels: map<string, nat>, m: nat) {
    (forall v :: v in levels ==> levels[v] <= m) && (m == 0 || exists v :: v in levels && levels[v] == m)
  }

  /** The classes not reached are numbered one after another past the deepest reached level, in class
      order. */
  ghost predicate UnreachedNumbered(ids: seq<string>, reached: set<string>, lv: map<string, nat>) {
    exists m :: IsDeepest(ReachedPart(reached, lv), m) && lv == Numbered(ids, ReachedPart(reached, lv), m)
  }

  /** Numbering past the deepest level of the reached classes is what `UnreachedNumbered` describes. */
  lemma NumberedPastDeepest(ids: seq<string>, levels: map<string, nat>, m: nat, lv: map<string, nat>)
    requires forall v :: v in levels ==> v in ids && levels[v] <= m
    requires m == 0 || exists v :: v in levels && levels[v] == m
    requires lv == Numbered(ids, levels, m)
    ensures UnreachedNumbered(ids, levels.Keys, lv)
  {
    NumberedFacts(ids, levels, m);
    assert ReachedPart(levels.Keys, lv) == levels;
    assert IsDeepest(levels, m);
  }

  /** Every class not reached sits below every reached class, each on a level of its own. */
  ghost predicate UnreachedBelow(reached: set<string>, lv: map<string, nat>) {
    && (forall v, u :: v in lv && v !in reached && u in reached && u in lv ==> lv[u] < lv[v])
    && (forall v, w :: v in lv && w in lv && v !in reached && w !in reached && v != w ==> lv[v] != lv[w])
  }

  /** When the queue has run dry, each class reached sits at least one level below each parent. */
  lemma {:induction false} PropagatedClosure(ids: seq<string>, inh: seq<ClassRelation>, children: map<string, seq<string>>,
                          roots: seq<string>, rank: map<string, nat>, levels: map<string, nat>)
    requires forall p {:trigger children[p]} :: p in children ==> children[p] == ChildrenOf(ids, inh, p)
    requires Progress(children, roots, rank, levels, [], None)
    ensures ClosedBelow(ids, inh, levels.Keys, levels)
  {
    DryClosed(children, roots, rank, levels);
    ClosedFromSettled(ids, inh, children, levels);
  }

  /** Every class with a level is listed in `children`, and each of its listed children sits at least
      one level below it. */
  ghost predicate AllSettled(children: map<string, seq<string>>, levels: map<string, nat>) {
    && (forall v :: v in levels ==> v in children)
    && (forall p, c :: p in levels && p in children && c in children[p] ==> c in levels && levels[c] >= levels[p] + 1)
  }

  /** Levels that settle every child listed in `children` are closed below along inheritance. */
  lemma {:induction false} ClosedFromSettled(ids: seq<string>, inh: seq<ClassRelation>, children: map<string, seq<string>>,
                          levels: map<string, nat>)
    requires forall p {:trigger children[p]} :: p in children ==> children[p] == ChildrenOf(ids, inh, p)
    requires AllSettled(children, levels)
    ensures ClosedBelow(ids, inh, levels.Keys, levels)
  {
    forall p, c | p in levels.Keys && p in levels && c in ChildrenOf(ids, inh, p)
      ensures c in levels.Keys && c in levels && levels[c] >= levels[p] + 1
    {
      assert c in children[p];
    }
  }

  /** When the queue has run dry, every class with a level is listed and settled. */
  lemma DryClosed(children: map<string, seq<string>>, roots: seq<string>, rank: map<string, nat>,
                  levels: map<string, nat>)
    requires Progress(children, roots, rank, levels, [], None)
    ensures AllSettled(children, levels)
  {
    forall p, c | p in levels && p in children && c in children[p]
      ensures c in levels && levels[c] >= levels[p] + 1
    {
      assert Settled(children, levels, p);
    }
  }

  /** When the queue has run dry, each class reached other than a root sits exactly one level below
      some parent. */
  lemma {:induction false} PropagatedDeepest(ids: seq<string>, inh: seq<ClassRelation>, children: map<string, seq<string>>,
                          roots: seq<string>, rank: map<string, nat>, levels: map<string, nat>)
    requires forall p {:trigger children[p]} :: p in children ==> children[p] == ChildrenOf(ids, inh, p)
    requires Progress(children, roots, rank, levels, [], None)
    ensures DeepestParents(ids, inh, roots, levels.Keys, levels)
  {
    forall c | c in levels && c !in roots
      ensures DeepestParentAt(ids, inh, levels.Keys, levels, c)
    {
      assert Supports(children, levels, c);
      var p :| p in levels && p in children && c in children[p] && levels[c] <= levels[p] + 1;
      assert Settled(children, levels, p);
      assert c in ChildrenOf(ids, inh, p);
    }
  }

  /** When the queue has run dry, the roots are still at level 0. */
  lemma PropagatedRoots(children: map<string, seq<string>>, roots: seq<string>, rank: map<string, nat>,
                        levels: map<string, nat>)
    requires Progress(children, roots, rank, levels, [], None)
    ensures forall r :: r in roots ==> r in levels.Keys && levels[r] == 0
  {
  }

  lemma ClosureKept(ids: seq<string>, inh: seq<ClassRelation>, levels: map<string, nat>, lv: map<string, nat>)
    requires ClosedBelow(ids, inh, levels.Keys, levels)
    requires forall v :: v in levels ==> v in lv && lv[v] == levels[v]
    ensures ClosedBelow(ids, inh, levels.Keys, lv)
  {
  }

  lemma DeepestKept(ids: seq<string>, inh: seq<ClassRelation>, roots: seq<string>, levels: map<string, nat>,
                    lv: map<string, nat>)
    requires DeepestParents(ids, inh, roots, levels.Keys, levels)
    requires forall v :: v in levels ==> v in lv && lv[v] == levels[v]
    ensures DeepestParents(ids, inh, roots, levels.Keys, lv)
  {
    forall c | c in levels && c !in roots
      ensures DeepestParentAt(ids, inh, levels.Keys, lv, c)
    {
      assert DeepestParentAt(ids, inh, levels.Keys, levels, c);
      var p :| p in levels && c in ChildrenOf(ids, inh, p) && levels[c] == levels[p] + 1;
      assert p in lv;
    }
  }

  /** Levels found by the queue loop, kept when the unreached classes are numbered, are layered from
      the roots. */
  lemma LayeredKept(ids: seq<string>, inh: seq<ClassRelation>, roots: seq<string>, levels: map<string, nat>,
                    lv: map<string, nat>)
    requires ClosedBelow(ids, inh, levels.Keys, levels) && DeepestParents(ids, inh, roots, levels.Keys, levels)
    requires forall r :: r in roots ==> r in levels.Keys && levels[r] == 0
    requires forall v :: v in levels ==> v in lv && lv[v] == levels[v]
    ensures LayeredFrom(ids, inh, roots, levels.Keys, lv)
  {
    ClosureKept(ids, inh, levels, lv);
    DeepestKept(ids, inh, roots, levels, lv);
  }

  /** The `filter` of `roots`, reading `parentsByChild`. */
  method FindRoots(ids: seq<string>, inh: seq<ClassRelation>, parentsByChild: map<string, seq<string>>)
    returns (roots: seq<string>)
    requires forall c :: c in ids ==> c in parentsByChild && parentsByChild[c] == ParentsOf(ids, inh, c)
    ensures roots == Roots(ids, inh)
  {
    roots := [];
    for i := 0 to |ids|
      invariant roots == RootsAmong(ids, inh, ids[..i])
    {
      assert ids[..i + 1][..i] == ids[..i];
      assert ids[i] in ids;
      if |parentsByChild[ids[i]]| == 0 {
        roots := roots + [ids[i]];
      }
    }
    assert ids[..|ids|] == ids;
  }

  /** What `buildLevelMap` returns. There is no level map without an inheritance relation or without a
      root. Otherwise every class has a level and the parent lists come back with it; the classes
      reached from the roots are layered from them, and every other class gets a level of its own below
      all of theirs. */
  ghost predicate LevelMapOf(classes: seq<ClassNode>, relations: seq<ClassRelation>, info: Option<LevelInfo>,
                             reached: set<string>) {
    var ids, inh := ClassIds(classes), InheritanceOf(relations);
    && (info.None? <==> |inh| == 0 || |Roots(ids, inh)| == 0)
    && (info.Some? ==>
          && (forall c :: c in info.value.parentsByChild <==> c in ids)
          && (forall c {:trigger info.value.parentsByChild[c]} :: c in info.value.parentsByChild ==>
                info.value.parentsByChild[c] == ParentsOf(ids, inh, c))
          && (forall v :: v in info.value.levelById <==> v in ids)
          && LayeredFrom(ids, inh, Roots(ids, inh), reached, info.value.levelById)
          && UnreachedBelow(reached, info.value.levelById)
          && UnreachedNumbered(ids, reached, info.value.levelById))
  }

  /** In a level map, a subclass of a reached class is reached and sits at least one level deeper. */
  lemma {:induction false} LevelMapChild(classes: seq<ClassNode>, relations: seq<ClassRelation>, info: LevelInfo, reached: set<string>,
                      p: string, c: string)
    requires LevelMapOf(classes, relations, Some(info), reached)
    requires p in reached && c in ChildrenOf(ClassIds(classes), InheritanceOf(relations), p)
    ensures c in reached && p in info.levelById && c in info.levelById
    ensures info.levelById[c] >= info.levelById[p] + 1
  {
    var ids, inh := ClassIds(classes), InheritanceOf(relations);
    assert LayeredFrom(ids, inh, Roots(ids, inh), reached, info.levelById);
    ChildBelow(ids, inh, reached, info.levelById, p, c);
  }

  /** `buildLevelMap`, with `reached` the classes the queue loop gave a level. */
  method BuildLevelMap(classes: seq<ClassNode>, relations: seq<ClassRelation>, ghost rank: map<string, nat>)
    returns (info: Option<LevelInfo>, ghost reached: set<string>)
    requires Ranked(ClassIds(classes), InheritanceOf(relations), rank)
    ensures LevelMapOf(classes, relations, info, reached)
  {
    var ids := ClassIds(classes);
    var inheritance, childrenByParent, parentsByChild := BuildInheritanceMaps(classes, relations);
    reached := {};
    if |inheritance| == 0 {
      return None, reached;
    }
    var roots := FindRoots(ids, inheritance, parentsByChild);
    if |roots| == 0 {
      return None, reached;
    }
    var levelById;
    levelById, reached := LevelsFromRoots(ids, inheritance, childrenByParent, roots, rank);
    info := Some(LevelInfo(levelById, parentsByChild));
  }

  /** The queue loop from the roots, then fresh levels past the deepest for the classes never
      reached; `reached` is the classes the queue loop gave a level. */
  method LevelsFromRoots(ids: seq<string>, ghost inh: seq<ClassRelation>, childrenByParent: map<string, seq<string>>,
                         roots: seq<string>, ghost rank: map<string, nat>)
    returns (levelById: map<string, nat>, ghost reached: set<string>)
    requires forall p :: p in childrenByParent <==> p in ids
    requires forall p {:trigger childrenByParent[p]} :: p in childrenByParent ==> childrenByParent[p] == ChildrenOf(ids, inh, p)
    requires roots == Roots(ids, inh) && Ranked(ids, inh, rank)
    ensures forall v :: v in levelById <==> v in ids
    ensures LayeredFrom(ids, inh, roots, reached, levelById) && UnreachedBelow(reached, levelById)
    ensures UnreachedNumbered(ids, reached, levelById)
  {
    MapsFormGraph(ids, inh, childrenByParent, roots);
    MapsRanked(ids, inh, childrenByParent, roots, rank);
    var levels := Propagate(ids, childrenByParent, roots, rank);
    PropagatedClosure(ids, inh, childrenByParent, roots, rank, levels);
    PropagatedDeepest(ids, inh, childrenByParent, roots, rank, levels);
    PropagatedRoots(childrenByParent, roots, rank, levels);
    reached := levels.Keys;
    var maxLevel := MaxLevel(ids, levels);
    levelById := NumberUnreached(ids, levels, maxLevel);
    LayeredKept(ids, inh, roots, levels, levelById);
    NumberedPastDeepest(ids, levels, maxLevel, levelById);
  }

  // ---------------------------------------------------------------- a cycle reached from a root

  /** A class below a root that is its own grandchild through `b` admits no ranking. */
  lemma CycleUnranked(ids: seq<string>, inh: seq<ClassRelation>, rank: map<string, nat>, r: string, a: string, b: string)
    requires r in Roots(ids, inh) && a in ChildrenOf(ids, inh, r)
    requires b in ChildrenOf(ids, inh, a) && a in ChildrenOf(ids, inh, b)
    ensures !Ranked(ids, inh, rank)
  {
    if Ranked(ids, inh, rank) {
      RankedRoot(ids, inh, rank, r);
      RankedEdge(ids, inh, rank, r, a);
      RankedEdge(ids, inh, rank, a, b);
      RankedEdge(ids, inh, rank, b, a);
    }
  }

  /** Under a ranking, a child of a ranked class is ranked higher. */
  lemma RankedEdge(ids: seq<string>, inh: seq<ClassRelation>, rank: map<string, nat>, p: string, c: string)
    requires Ranked(ids, inh, rank) && p in rank && c in ChildrenOf(ids, inh, p)
    ensures c in rank && rank[p] < rank[c]
  {
  }

  /** Under a ranking, every root is ranked. */
  lemma RankedRoot(ids: seq<string>, inh: seq<ClassRelation>, rank: map<string, nat>, r: string)
    requires Ranked(ids, inh, rank) && r in Roots(ids, inh)
    ensures r in rank
  {
  }

  /** Classes `R`, `A`, `B` where `A` extends `R` and `A`, `B` extend each other: `R` is a root, the
      cycle `A`, `B` hangs below it, and no ranking exists. On this input the queue raises `A` and `B`
      forever, so `BuildLevelMap` has no level map to return. */
  lemma CycleBelowRootUnranked(rank: map<string, nat>)
    ensures var ids := ["R", "A", "B"];
            var inh := [ClassRelation("e1", "A", "R", Inheritance, None, None),
                        ClassRelation("e2", "A", "B", Inheritance, None, None),
                        ClassRelation("e3", "B", "A", Inheritance, None, None)];
            !Ranked(ids, inh, rank)
  {
    var ids := ["R", "A", "B"];
    var ar := ClassRelation("e1", "A", "R", Inheritance, None, None);
    var ab := ClassRelation("e2", "A", "B", Inheritance, None, None);
    var ba := ClassRelation("e3", "B", "A", Inheritance, None, None);
    var inh := [ar, ab, ba];
    var ps := ParentsOf(ids, inh, "R");
    if ps != [] {
      ParentsMembers(ids, inh, ps[0], "R");
      assert false;
    }
    assert "R" in Roots(ids, inh);
    assert Known(ids, ar) && ar in inh;
    ChildrenMembers(ids, inh, "R", "A");
    assert Known(ids, ab) && ab in inh;
    ChildrenMembers(ids, inh, "B", "A");
    assert Known(ids, ba) && ba in inh;
    ChildrenMembers(ids, inh, "A", "B");
    CycleUnranked(ids, inh, rank, "R", "A", "B");
  }
}
