/** Grid A* over (cell, incoming direction) states with turn, reversal, start-direction and
    obstacle-proximity penalties (`routeAStar` and its helpers, src/utils/GeometryUtils.js:6-15,
    199-201, 234-335). */
module AStar {
  import opened Options
  import opened Geometry

  datatype Cell = Cell(cx: int, cy: int)

  /** A search state: a cell and the index of the move that entered it, -1 for the start state. The
      source keys its maps by the string `cx,cy,direction`; distinct states give distinct keys. */
  datatype State = State(cx: int, cy: int, direction: int)

  function CellOf(s: State): Cell {
    Cell(s.cx, s.cy)
  }

  /** One entry of `CARDINAL_DIRECTIONS`. */
  datatype Move = Move(dx: int, dy: int, side: Side)

  /** `CARDINAL_DIRECTIONS`, indexed 0..3: right, left, bottom, top. */
  const CardinalDirections: seq<Move> :=
    [Move(1, 0, Right), Move(-1, 0, Left), Move(0, 1, Bottom), Move(0, -1, Top)]

  /** `SIDE_TO_DIRECTION_INDEX`. */
  function DirectionIndex(side: Side): (d: int)
    ensures 0 <= d < 4 && CardinalDirections[d].side == side
  {
    match side
    case Right => 0
    case Left => 1
    case Bottom => 2
    case Top => 3
  }

  /** Each move is one unit along the outward normal of its side. */
  lemma MovesFollowNormals(d: int)
    requires 0 <= d < 4
    ensures var m := CardinalDirections[d];
            m.dx as real == SideNormal(m.side).x && m.dy as real == SideNormal(m.side).y
  {
  }

  const TurnPenalty: real := 0.9
  const UturnPenalty: real := 0.6
  const StartDirectionPenalty: real := 0.45

  function AbsInt(v: int): (r: nat)
    ensures r == v || r == -v
  {
    if v < 0 then -v else v
  }

  /** `manhattanDistance` between two cells. */
  function Manhattan(a: Cell, b: Cell): (r: nat)
    ensures r == 0 <==> a == b
  {
    AbsInt(a.cx - b.cx) + AbsInt(a.cy - b.cy)
  }

  /** Two cells one cardinal move apart. */
  predicate Adjacent(a: Cell, b: Cell) {
    Manhattan(a, b) == 1
  }

  /** `isOppositeDirection`: both indices name moves and the moves cancel out. */
  predicate IsOppositeDirection(a: int, b: int)
    requires -1 <= a < 4 && -1 <= b < 4
  {
    if a == -1 || b == -1 then false
    else CardinalDirections[a].dx + CardinalDirections[b].dx == 0
         && CardinalDirections[a].dy + CardinalDirections[b].dy == 0
  }

  /** Two directions are opposite exactly when they leave from opposite sides; the start state's -1
      is opposite to nothing. */
  lemma OppositeDirectionSides(a: int, b: int)
    requires -1 <= a < 4 && -1 <= b < 4
    ensures IsOppositeDirection(a, b) <==>
              a != -1 && b != -1 && Opposite(CardinalDirections[a].side) == CardinalDirections[b].side
    ensures IsOppositeDirection(a, b) ==> a != b
  {
  }

  /** The cost of entering a neighbour by move `direction` from a state entered by `previous`. */
  function MovementCost(penalty: real, previous: int, direction: int, preferred: int): real
    requires -1 <= previous < 4 && 0 <= direction < 4
  {
    1.0 + penalty
    + (if previous != -1 && previous != direction then TurnPenalty else 0.0)
    + (if IsOppositeDirection(previous, direction) then UturnPenalty else 0.0)
    + (if previous == -1 && preferred != -1 && direction != preferred then StartDirectionPenalty else 0.0)
  }

  /** Every step costs at least one plus its proximity penalty; going straight on costs exactly that,
      and a reversal costs 1.5 more. */
  lemma MovementCostBounds(penalty: real, previous: int, direction: int, preferred: int)
    requires -1 <= previous < 4 && 0 <= direction < 4
    ensures MovementCost(penalty, previous, direction, preferred) >= 1.0 + penalty
    ensures previous == direction ==> MovementCost(penalty, previous, direction, preferred) == 1.0 + penalty
    ensures IsOppositeDirection(previous, direction) ==>
              MovementCost(penalty, previous, direction, preferred) == 1.0 + penalty + TurnPenalty + UturnPenalty
    ensures MovementCost(penalty, previous, direction, preferred) <= 1.0 + penalty + TurnPenalty + UturnPenalty
  {
  }

  predicate InGrid(cx: int, cy: int, columns: int, rows: int) {
    0 <= cx < columns && 0 <= cy < rows
  }

  function StartState(start: Cell): State {
    State(start.cx, start.cy, -1)
  }

  // ---------------------------------------------------------------- the open set

  predicate Distinct<T(==)>(s: seq<T>) {
    forall i, j :: 0 <= i < j < |s| ==> s[i] != s[j]
  }

  /** `Set.prototype.add` on an insertion-ordered set. */
  function AddToSet(s: seq<State>, x: State): (r: seq<State>)
    requires Distinct(s)
    ensures Distinct(r) && (forall y :: y in r <==> y in s || y == x)
  {
    if x in s then s else s + [x]
  }

  /** `Set.prototype.delete` of the element at position `i`. */
  function RemoveAt(s: seq<State>, i: nat): (r: seq<State>)
    requires Distinct(s) && i < |s|
    ensures Distinct(r) && (forall y :: y in r <==> y in s && y != s[i])
  {
    var r := s[..i] + s[i + 1..];
    assert forall y :: y in r <==> y in s && y != s[i] by {
      forall y
        ensures y in r <==> y in s && y != s[i]
      {
        if y in s && y != s[i] {
          var k :| 0 <= k < |s| && s[k] == y;
          if k < i { assert r[k] == y; } else { assert r[k - 1] == y; }
        }
      }
    }
    r
  }

  // ---------------------------------------------------------------- the search invariant

  /** `cameFrom[k] == p` is a genuine step of the search: `k` was entered from `p` by move
      `k.direction`, lies inside the grid on a free cell, and `p` is strictly cheaper to reach. */
  predicate ParentLink(k: State, p: State, gScore: map<State, real>,
                       isBlocked: (int, int) -> bool, columns: int, rows: int)
  {
    k in gScore && p in gScore && gScore[p] < gScore[k]
    && 0 <= k.direction < 4
    && k.cx == p.cx + CardinalDirections[k.direction].dx
    && k.cy == p.cy + CardinalDirections[k.direction].dy
    && InGrid(k.cx, k.cy, columns, rows) && !isBlocked(k.cx, k.cy)
  }

  /** Every recorded `cameFrom` entry is a parent link. */
  predicate Links(cameFrom: map<State, State>, gScore: map<State, real>,
                  isBlocked: (int, int) -> bool, columns: int, rows: int)
  {
    forall k :: k in cameFrom ==> ParentLink(k, cameFrom[k], gScore, isBlocked, columns, rows)
  }

  /** What the search keeps true between iterations: every state with a score is the start state or
      has a parent link, and everything open has a score. */
  predicate SearchInv(start: Cell, isBlocked: (int, int) -> bool, columns: int, rows: int,
                      openSet: seq<State>, cameFrom: map<State, State>,
                      gScore: map<State, real>, fScore: map<State, real>)
  {
    StartState(start) in gScore && StartState(start) !in cameFrom
    && gScore.Keys == cameFrom.Keys + {StartState(start)}
    && fScore.Keys == gScore.Keys
    && Distinct(openSet)
    && (forall k :: k in openSet ==> k in gScore)
    && Links(cameFrom, gScore, isBlocked, columns, rows)
  }

  lemma ScoredDirection(start: Cell, isBlocked: (int, int) -> bool, columns: int, rows: int,
                        openSet: seq<State>, cameFrom: map<State, State>,
                        gScore: map<State, real>, fScore: map<State, real>, k: State)
    requires SearchInv(start, isBlocked, columns, rows, openSet, cameFrom, gScore, fScore) && k in gScore
    ensures -1 <= k.direction < 4
    ensures k.direction == -1 ==> k == StartState(start)
  {
    if k != StartState(start) {
      assert k in cameFrom;
      assert ParentLink(k, cameFrom[k], gScore, isBlocked, columns, rows);
    }
  }

  // ---------------------------------------------------------------- one iteration

  /** The scan over the open set: the first state of least f-score, comparing with strict `<`
      starting from +infinity. */
  method SelectCurrent(openSet: seq<State>, fScore: map<State, real>) returns (index: nat)
    requires |openSet| > 0 && forall k :: k in openSet ==> k in fScore
    ensures index < |openSet|
    ensures forall j :: 0 <= j < |openSet| ==> fScore[openSet[index]] <= fScore[openSet[j]]
    ensures forall j :: 0 <= j < index ==> fScore[openSet[index]] < fScore[openSet[j]]
  {
    var currentScore: Option<real> := None;
    index := 0;
    for j := 0 to |openSet|
      invariant j == 0 <==> currentScore.None?
      invariant index < |openSet| && (j > 0 ==> index < j && currentScore == Some(fScore[openSet[index]]))
      invariant forall m :: 0 <= m < j ==> fScore[openSet[index]] <= fScore[openSet[m]]
      invariant forall m :: 0 <= m < index ==> fScore[openSet[index]] < fScore[openSet[m]]
    {
      var score := fScore[openSet[j]];
      if currentScore.None? || score < currentScore.value {
        currentScore := Some(score);
        index := j;
      }
    }
  }

  /** One pass of the inner loop: try entering the neighbour by move `d`. */
  method Relax(start: Cell, end: Cell, current: State, d: int, currentCost: real,
               isBlocked: (int, int) -> bool, penalty: (int, int) -> real,
               columns: int, rows: int, preferred: int,
               openSet: seq<State>, cameFrom: map<State, State>,
               gScore: map<State, real>, fScore: map<State, real>)
    returns (openSet': seq<State>, cameFrom': map<State, State>,
             gScore': map<State, real>, fScore': map<State, real>)
    requires SearchInv(start, isBlocked, columns, rows, openSet, cameFrom, gScore, fScore)
    requires current in gScore && gScore[current] == currentCost && 0 <= d < 4
    requires forall x, y :: penalty(x, y) >= 0.0
    ensures SearchInv(start, isBlocked, columns, rows, openSet', cameFrom', gScore', fScore')
    ensures current in gScore' && gScore'[current] == currentCost
    ensures current !in openSet ==> current !in openSet'
  {
    openSet', cameFrom', gScore', fScore' := openSet, cameFrom, gScore, fScore;
    var direction := CardinalDirections[d];
    var nx := current.cx + direction.dx;
    var ny := current.cy + direction.dy;
    if nx < 0 || ny < 0 || nx >= columns || ny >= rows {
      return;
    }
    if isBlocked(nx, ny) {
      return;
    }
    ScoredDirection(start, isBlocked, columns, rows, openSet, cameFrom, gScore, fScore, current);
    var neighbor := State(nx, ny, d);
    var movementCost := MovementCost(penalty(nx, ny), current.direction, d, preferred);
    MovementCostBounds(penalty(nx, ny), current.direction, d, preferred);
    var tentative := currentCost + movementCost;
    if neighbor !in gScore || tentative < gScore[neighbor] {
      cameFrom' := cameFrom[neighbor := current];
      gScore' := gScore[neighbor := tentative];
      fScore' := fScore[neighbor := tentative + Manhattan(Cell(nx, ny), end) as real];
      openSet' := AddToSet(openSet, neighbor);
      assert neighbor != current && neighbor != StartState(start);
      assert ParentLink(neighbor, current, gScore', isBlocked, columns, rows);
      forall k | k in cameFrom'
        ensures ParentLink(k, cameFrom'[k], gScore', isBlocked, columns, rows)
      {
        if k != neighbor {
          assert ParentLink(k, cameFrom[k], gScore, isBlocked, columns, rows);
        }
      }
    }
  }

  // ---------------------------------------------------------------- the path

  /** The unfiltered cells of the state chain. */
  function Cells(states: seq<State>): (cells: seq<Cell>)
    ensures |cells| == |states| && forall i :: 0 <= i < |states| ==> cells[i] == CellOf(states[i])
  {
    seq(|states|, i requires 0 <= i < |states| => CellOf(states[i]))
  }

  function Reverse<T>(s: seq<T>): (r: seq<T>)
    ensures |r| == |s| && forall i :: 0 <= i < |s| ==> r[i] == s[|s| - 1 - i]
  {
    seq(|s|, i requires 0 <= i < |s| => s[|s| - 1 - i])
  }

  /** The `filter` of `reconstructPath`: a cell equal to the one before it in the unfiltered list is
      dropped. */
  function DropRepeats(cells: seq<Cell>): (r: seq<Cell>)
    ensures |r| <= |cells|
    decreases |cells|
  {
    if |cells| <= 1 then cells
    else DropRepeats(cells[..|cells| - 1]) + (if cells[|cells| - 2] != cells[|cells| - 1] then [cells[|cells| - 1]] else [])
  }

  lemma {:induction false} DropRepeatsOfAdjacent(cells: seq<Cell>)
    requires forall i :: 0 <= i < |cells| - 1 ==> Adjacent(cells[i], cells[i + 1])
    ensures DropRepeats(cells) == cells
    decreases |cells|
  {
    if |cells| > 1 {
      DropRepeatsOfAdjacent(cells[..|cells| - 1]);
      assert Adjacent(cells[|cells| - 2], cells[|cells| - 1]);
    }
  }

  /** A chain of states, each the `cameFrom` of the one before it. */
  predicate ParentChain(chain: seq<State>, cameFrom: map<State, State>) {
    forall i :: 0 <= i < |chain| - 1 ==> chain[i] in cameFrom && cameFrom[chain[i]] == chain[i + 1]
  }

  /** Each state of `chain` after the first was entered from the one before it. */
  predicate LinkedForward(chain: seq<State>, gScore: map<State, real>,
                          isBlocked: (int, int) -> bool, columns: int, rows: int)
  {
    forall i :: 0 <= i < |chain| - 1 ==> ParentLink(chain[i + 1], chain[i], gScore, isBlocked, columns, rows)
  }

  lemma ReversedChainLinked(isBlocked: (int, int) -> bool, columns: int, rows: int,
                            cameFrom: map<State, State>, gScore: map<State, real>, stateKeys: seq<State>)
    requires Links(cameFrom, gScore, isBlocked, columns, rows)
    requires ParentChain(stateKeys, cameFrom)
    ensures LinkedForward(Reverse(stateKeys), gScore, isBlocked, columns, rows)
  {
    var chain := Reverse(stateKeys);
    forall i | 0 <= i < |chain| - 1
      ensures ParentLink(chain[i + 1], chain[i], gScore, isBlocked, columns, rows)
    {
      var j := |stateKeys| - 2 - i;
      assert chain[i + 1] == stateKeys[j] && chain[i] == stateKeys[j + 1];
      assert stateKeys[j] in cameFrom && cameFrom[stateKeys[j]] == stateKeys[j + 1];
    }
  }

  /** A forward-linked chain from the start state gives a path of adjacent cells from the start whose
      cells after the first are free grid cells. */
  lemma LinkedChainPath(start: Cell, isBlocked: (int, int) -> bool, columns: int, rows: int,
                        gScore: map<State, real>, chain: seq<State>)
    requires |chain| >= 1 && chain[0] == StartState(start)
    requires LinkedForward(chain, gScore, isBlocked, columns, rows)
    ensures var points := DropRepeats(Cells(chain));
            |points| >= 1 && points[0] == start && points[|points| - 1] == CellOf(chain[|chain| - 1])
            && (forall i :: 0 <= i < |points| - 1 ==> Adjacent(points[i], points[i + 1]))
            && (forall i :: 1 <= i < |points| ==>
                  InGrid(points[i].cx, points[i].cy, columns, rows) && !isBlocked(points[i].cx, points[i].cy))
  {
    var cells := Cells(chain);
    forall i | 0 <= i < |cells| - 1
      ensures Adjacent(cells[i], cells[i + 1])
    {
      assert ParentLink(chain[i + 1], chain[i], gScore, isBlocked, columns, rows);
    }
    DropRepeatsOfAdjacent(cells);
    forall i | 1 <= i < |cells|
      ensures InGrid(cells[i].cx, cells[i].cy, columns, rows) && !isBlocked(cells[i].cx, cells[i].cy)
    {
      assert ParentLink(chain[i], chain[i - 1], gScore, isBlocked, columns, rows);
    }
  }

  /** The walk of `reconstructPath` along `cameFrom`: from `stateKey` back to the start state, each
      step to the recorded parent. */
  method WalkBack(start: Cell, isBlocked: (int, int) -> bool, columns: int, rows: int,
                  openSet: seq<State>, cameFrom: map<State, State>,
                  gScore: map<State, real>, fScore: map<State, real>, stateKey: State)
    returns (stateKeys: seq<State>)
    requires SearchInv(start, isBlocked, columns, rows, openSet, cameFrom, gScore, fScore)
    requires stateKey in gScore
    ensures |stateKeys| >= 1 && stateKeys[0] == stateKey && stateKeys[|stateKeys| - 1] == StartState(start)
    ensures ParentChain(stateKeys, cameFrom)
  {
    assert Links(cameFrom, gScore, isBlocked, columns, rows);
    assert StartState(start) !in cameFrom && gScore.Keys == cameFrom.Keys + {StartState(start)};
    stateKeys := [stateKey];
    var walker := stateKey;
    while walker in cameFrom
      invariant walker in gScore && |stateKeys| >= 1
      invariant stateKeys[0] == stateKey && stateKeys[|stateKeys| - 1] == walker
      invariant ParentChain(stateKeys, cameFrom)
      decreases Cheaper(gScore, gScore[walker])
    {
      var next := cameFrom[walker];
      assert ParentLink(walker, next, gScore, isBlocked, columns, rows);
      CheaperShrinks(gScore, next, walker);
      ChainSnoc(stateKeys, cameFrom, next);
      walker := next;
      stateKeys := stateKeys + [walker];
    }
  }

  /** The states reached more cheaply than `v`: the measure that shrinks along `cameFrom`. */
  ghost function Cheaper(gScore: map<State, real>, v: real): set<State> {
    set k | k in gScore.Keys && gScore[k] < v
  }

  lemma CheaperShrinks(gScore: map<State, real>, p: State, k: State)
    requires p in gScore && k in gScore && gScore[p] < gScore[k]
    ensures Cheaper(gScore, gScore[p]) < Cheaper(gScore, gScore[k])
  {
    assert p in Cheaper(gScore, gScore[k]) && p !in Cheaper(gScore, gScore[p]);
  }

  lemma ChainSnoc(chain: seq<State>, cameFrom: map<State, State>, next: State)
    requires |chain| >= 1 && ParentChain(chain, cameFrom)
    requires chain[|chain| - 1] in cameFrom && cameFrom[chain[|chain| - 1]] == next
    ensures ParentChain(chain + [next], cameFrom)
  {
  }

  /** `reconstructPath`: follow `cameFrom` back from `stateKey`, then reverse, take the cells and drop
      repeated ones. The walk ends because each parent is strictly cheaper to reach. */
  method ReconstructPath(start: Cell, isBlocked: (int, int) -> bool, columns: int, rows: int,
                         openSet: seq<State>, cameFrom: map<State, State>,
                         gScore: map<State, real>, fScore: map<State, real>, stateKey: State)
    returns (points: seq<Cell>)
    requires SearchInv(start, isBlocked, columns, rows, openSet, cameFrom, gScore, fScore)
    requires stateKey in gScore
    ensures |points| >= 1 && points[0] == start && points[|points| - 1] == CellOf(stateKey)
    ensures forall i :: 0 <= i < |points| - 1 ==> Adjacent(points[i], points[i + 1])
    ensures forall i :: 1 <= i < |points| ==>
              InGrid(points[i].cx, points[i].cy, columns, rows) && !isBlocked(points[i].cx, points[i].cy)
  {
    var stateKeys := WalkBack(start, isBlocked, columns, rows, openSet, cameFrom, gScore, fScore, stateKey);
    ReversedChainLinked(isBlocked, columns, rows, cameFrom, gScore, stateKeys);
    LinkedChainPath(start, isBlocked, columns, rows, gScore, Reverse(stateKeys));
    points := DropRepeats(Cells(Reverse(stateKeys)));
  }

  // ---------------------------------------------------------------- the search

  /** `routeAStar`. The source loops until the open set is empty; here at most `fuel` states are
      expanded, after which no path is reported. A path that is found starts at `start`, ends at
      `end`, moves one cardinal step at a time and, after the start, stays on free cells of the grid. */
  method RouteAStar(start: Cell, end: Cell, isBlocked: (int, int) -> bool, penalty: (int, int) -> real,
                    columns: int, rows: int, preferred: int, fuel: nat)
    returns (path: Option<seq<Cell>>)
    requires forall x, y :: penalty(x, y) >= 0.0
    ensures path.Some? ==>
              var p := path.value;
              |p| >= 1 && p[0] == start && p[|p| - 1] == end
              && (forall i :: 0 <= i < |p| - 1 ==> Adjacent(p[i], p[i + 1]))
              && (forall i :: 1 <= i < |p| ==> InGrid(p[i].cx, p[i].cy, columns, rows) && !isBlocked(p[i].cx, p[i].cy))
  {
    var startStateKey := StartState(start);
    var openSet := [startStateKey];
    var cameFrom: map<State, State> := map[];
    var gScore := map[startStateKey := 0.0];
    var fScore := map[startStateKey := Manhattan(start, end) as real];
    var expanded := 0;
    while |openSet| > 0 && expanded < fuel
      invariant SearchInv(start, isBlocked, columns, rows, openSet, cameFrom, gScore, fScore)
      decreases fuel - expanded
    {
      var index := SelectCurrent(openSet, fScore);
      var current := openSet[index];
      if current.cx == end.cx && current.cy == end.cy {
        var cells := ReconstructPath(start, isBlocked, columns, rows, openSet, cameFrom, gScore, fScore, current);
        return Some(cells);
      }
      openSet := RemoveAt(openSet, index);
      var currentCost := gScore[current];
      for d := 0 to 4
        invariant SearchInv(start, isBlocked, columns, rows, openSet, cameFrom, gScore, fScore)
        invariant current in gScore && gScore[current] == currentCost
      {
        openSet, cameFrom, gScore, fScore :=
          Relax(start, end, current, d, currentCost, isBlocked, penalty, columns, rows, preferred,
                openSet, cameFrom, gScore, fScore);
      }
      expanded := expanded + 1;
    }
    return None;
  }
}
