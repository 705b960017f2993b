/** The coordinate half of `buildHierarchicalLayout` (src/renderers/ClassRenderer.jsx:216-258): the
    arranged levels become rows, 120 apart vertically and starting at 90; the boxes of a row sit 90
    apart horizontally and the row is centred within the widest row (at least 500 wide). */
module ClassPlacement {
  import opened DiagramModel
  import opened ClassLayout
  import opened ClassGrid

  /** Every identifier of every row has a size and names a class. */
  predicate Listed(classes: seq<ClassNode>, dims: map<string, Size>, rows: seq<seq<string>>) {
    forall r, id :: 0 <= r < |rows| && id in rows[r] ==> id in dims && id in ClassIds(classes)
  }

  /** No size is negative. */
  predicate NonNegative(dims: map<string, Size>) {
    forall id :: id in dims ==> dims[id].width >= 0 && dims[id].height >= 0
  }

  // ---------------------------------------------------------------- classes.find

  /** The position of the first class with identifier `id`. */
  function FindIndex(classes: seq<ClassNode>, id: string): (i: nat)
    requires id in ClassIds(classes)
    ensures i < |classes| && classes[i].id == id
    ensures forall j :: 0 <= j < i ==> classes[j].id != id
    decreases |classes|
  {
    if classes[0].id == id then 0
    else
      assert id in ClassIds(classes[1..]) by {
        var k :| 0 <= k < |classes| && ClassIds(classes)[k] == id;
        assert ClassIds(classes[1..])[k - 1] == id;
      }
      FindIndex(classes[1..], id) + 1
  }

  /** `classes.find((item) => item.id === id)`. */
  function FindClass(classes: seq<ClassNode>, id: string): ClassNode
    requires id in ClassIds(classes)
  {
    classes[FindIndex(classes, id)]
  }

  // ---------------------------------------------------------------- row widths

  /** `ids.reduce((sum, id) => sum + dimensions[id].width, 0)`. */
  function WidthSum(dims: map<string, Size>, ids: seq<string>): int
    requires forall id :: id in ids ==> id in dims
    decreases |ids|
  {
    if |ids| == 0 then 0
    else
      assert forall id :: id in ids[..|ids| - 1] ==> id in ids;
      WidthSum(dims, ids[..|ids| - 1]) + dims[ids[|ids| - 1]].width
  }

  /** A level's width: its boxes and a gap of 90 between neighbours. */
  function RowWidth(dims: map<string, Size>, ids: seq<string>): int
    requires forall id :: id in ids ==> id in dims
  {
    WidthSum(dims, ids) + (if |ids| == 0 then 0 else (|ids| - 1) * 90)
  }

  /** How far right of the row's start the box at position `i` begins: the boxes before it and a gap
      after each. */
  function Offset(dims: map<string, Size>, ids: seq<string>, i: nat): int
    requires i <= |ids| && forall id :: id in ids ==> id in dims
  {
    assert forall id :: id in ids[..i] ==> id in ids;
    WidthSum(dims, ids[..i]) + 90 * i
  }

  lemma OffsetStep(dims: map<string, Size>, ids: seq<string>, i: nat)
    requires i < |ids| && forall id :: id in ids ==> id in dims
    ensures Offset(dims, ids, i + 1) == Offset(dims, ids, i) + dims[ids[i]].width + 90
  {
    assert ids[..i + 1][..i] == ids[..i];
  }

  /** A later box of a row begins at least 90 to the right of where an earlier one ends. */
  lemma {:induction false} OffsetApart(dims: map<string, Size>, ids: seq<string>, i: nat, j: nat)
    requires i < j <= |ids| && forall id :: id in ids ==> id in dims
    requires NonNegative(dims)
    ensures Offset(dims, ids, i) + dims[ids[i]].width + 90 <= Offset(dims, ids, j)
    decreases j - i
  {
    OffsetStep(dims, ids, j - 1);
    if i < j - 1 {
      OffsetApart(dims, ids, i, j - 1);
    }
  }

  /** The first box begins at the row's start and the last one ends at its full width. */
  lemma RowSpan(dims: map<string, Size>, ids: seq<string>)
    requires |ids| > 0 && forall id :: id in ids ==> id in dims
    ensures Offset(dims, ids, 0) == 0
    ensures Offset(dims, ids, |ids| - 1) + dims[ids[|ids| - 1]].width == RowWidth(dims, ids)
  {
    OffsetStep(dims, ids, |ids| - 1);
    assert ids[..|ids|] == ids;
  }

  /** `Math.max(...levelWidths, 500)`. */
  function MaxWidth(dims: map<string, Size>, rows: seq<seq<string>>): (m: int)
    requires forall r, id :: 0 <= r < |rows| && id in rows[r] ==> id in dims
    ensures m >= 500 && forall r :: 0 <= r < |rows| ==> RowWidth(dims, rows[r]) <= m
    ensures m == 500 || exists r :: 0 <= r < |rows| && RowWidth(dims, rows[r]) == m
    decreases |rows|
  {
    if |rows| == 0 then 500
    else
      var rest := MaxWidth(dims, rows[..|rows| - 1]);
      var last := RowWidth(dims, rows[|rows| - 1]);
      assert forall r :: 0 <= r < |rows| - 1 ==> rows[..|rows| - 1][r] == rows[r];
      if last > rest then last else rest
  }

  // ---------------------------------------------------------------- boxes

  /** The box of the identifier at position `i` of a row that starts at `left` and has its top at `y`. */
  function BoxAt(classes: seq<ClassNode>, dims: map<string, Size>, ids: seq<string>, left: real, y: real,
                 i: nat): Placed
    requires i < |ids| && forall id :: id in ids ==> id in dims && id in ClassIds(classes)
  {
    var size := dims[ids[i]];
    Placed(FindClass(classes, ids[i]), size.width, size.height, left + Offset(dims, ids, i) as real, y)
  }

  /** The first `k` boxes of a row. */
  function RowAt(classes: seq<ClassNode>, dims: map<string, Size>, ids: seq<string>, left: real, y: real,
                 k: nat): (boxes: seq<Placed>)
    requires k <= |ids| && forall id :: id in ids ==> id in dims && id in ClassIds(classes)
    ensures |boxes| == k && forall i :: 0 <= i < k ==> boxes[i] == BoxAt(classes, dims, ids, left, y, i)
  {
    if k == 0 then [] else RowAt(classes, dims, ids, left, y, k - 1) + [BoxAt(classes, dims, ids, left, y, k - 1)]
  }

  /** The tallest box of each row, the `levelMaxHeights`. */
  function RowHeights(dims: map<string, Size>, rows: seq<seq<string>>): (heights: seq<int>)
    requires forall r, id :: 0 <= r < |rows| && id in rows[r] ==> id in dims
    ensures |heights| == |rows| && forall r :: 0 <= r < |rows| ==> heights[r] >= 0
  {
    seq(|rows|, r requires 0 <= r < |rows| => Tallest(dims, rows[r]))
  }

  /** Where row `r` starts: centred within the widest row, 90 from the left edge. */
  function Left(dims: map<string, Size>, rows: seq<seq<string>>, r: nat): real
    requires r < |rows| && forall q, id :: 0 <= q < |rows| && id in rows[q] ==> id in dims
  {
    90.0 + (MaxWidth(dims, rows) - RowWidth(dims, rows[r])) as real / 2.0
  }

  /** The top of row `r`: rows start at 90 and follow each other 120 below the tallest box. */
  function Top(dims: map<string, Size>, rows: seq<seq<string>>, r: nat): int
    requires r < |rows| && forall q, id :: 0 <= q < |rows| && id in rows[q] ==> id in dims
  {
    Stacked(RowHeights(dims, rows), 90, 120, r)
  }

  /** The box of the identifier at position `i` of row `r`. */
  function LevelBox(classes: seq<ClassNode>, dims: map<string, Size>, rows: seq<seq<string>>, r: nat, i: nat): Placed
    requires Listed(classes, dims, rows) && r < |rows| && i < |rows[r]|
  {
    BoxAt(classes, dims, rows[r], Left(dims, rows, r), Top(dims, rows, r) as real, i)
  }

  /** The number of boxes in the rows before `k`. */
  function RowStart(rows: seq<seq<string>>, k: nat): nat
    requires k <= |rows|
  {
    if k == 0 then 0 else RowStart(rows, k - 1) + |rows[k - 1]|
  }

  lemma {:induction false} RowStartGrows(rows: seq<seq<string>>, r: nat, s: nat)
    requires r < s <= |rows|
    ensures RowStart(rows, r) + |rows[r]| <= RowStart(rows, s)
    decreases s - r
  {
    if r < s - 1 {
      RowStartGrows(rows, r, s - 1);
    }
  }

  /** The boxes of the first `k` rows, row after row: the `positioned` list. */
  function Layout(classes: seq<ClassNode>, dims: map<string, Size>, rows: seq<seq<string>>, k: nat)
    : (placed: seq<Placed>)
    requires Listed(classes, dims, rows) && k <= |rows|
    ensures |placed| == RowStart(rows, k)
  {
    if k == 0 then []
    else
      var r := k - 1;
      Layout(classes, dims, rows, r) + RowAt(classes, dims, rows[r], Left(dims, rows, r), Top(dims, rows, r) as real, |rows[r]|)
  }

  // ---------------------------------------------------------------- the loops

  /** `ids.forEach` of one level: push each box and move the cursor right by its width and the gap. */
  method PlaceRow(classes: seq<ClassNode>, dims: map<string, Size>, ids: seq<string>, start: real, y: real,
                  positioned: seq<Placed>)
    returns (positioned': seq<Placed>)
    requires forall id :: id in ids ==> id in dims && id in ClassIds(classes)
    ensures positioned' == positioned + RowAt(classes, dims, ids, start, y, |ids|)
  {
    positioned' := positioned;
    var xCursor := start;
    for index := 0 to |ids|
      invariant positioned' == positioned + RowAt(classes, dims, ids, start, y, index)
      invariant xCursor == start + Offset(dims, ids, index) as real
    {
      var id := ids[index];
      var classNode := FindClass(classes, id);
      var item := dims[id];
      PlaceStep(classes, dims, ids, start, y, positioned, positioned', xCursor, index);
      positioned' := positioned' + [Placed(classNode, item.width, item.height, xCursor, y)];
      xCursor := xCursor + (item.width + 90) as real;
    }
  }

  /** One turn of the `forEach` in `PlaceRow`: the pushed box and the moved cursor keep its invariants. */
  lemma PlaceStep(classes: seq<ClassNode>, dims: map<string, Size>, ids: seq<string>, start: real, y: real,
                  positioned: seq<Placed>, acc: seq<Placed>, xCursor: real, index: nat)
    requires index < |ids| && forall id :: id in ids ==> id in dims && id in ClassIds(classes)
    requires acc == positioned + RowAt(classes, dims, ids, start, y, index)
    requires xCursor == start + Offset(dims, ids, index) as real
    ensures acc + [Placed(FindClass(classes, ids[index]), dims[ids[index]].width, dims[ids[index]].height, xCursor, y)]
            == positioned + RowAt(classes, dims, ids, start, y, index + 1)
    ensures xCursor + (dims[ids[index]].width + 90) as real == start + Offset(dims, ids, index + 1) as real
  {
    var box := BoxAt(classes, dims, ids, start, y, index);
    var before := RowAt(classes, dims, ids, start, y, index);
    var after := RowAt(classes, dims, ids, start, y, index + 1);
    assert after == before + [box];
    AppendSnoc(positioned, before, box, after);
    OffsetStep(dims, ids, index);
  }

  lemma AppendSnoc<T>(a: seq<T>, b: seq<T>, x: T, c: seq<T>)
    requires c == b + [x]
    ensures (a + b) + [x] == a + c
  {
  }

  /** The `levelWidths`: each level's boxes and `max(count - 1, 0)` gaps of 90, which is its row width. */
  function LevelWidths(dims: map<string, Size>, rows: seq<seq<string>>): (widths: seq<int>)
    requires forall r, id :: 0 <= r < |rows| && id in rows[r] ==> id in dims
    ensures |widths| == |rows| && forall r :: 0 <= r < |rows| ==> widths[r] == RowWidth(dims, rows[r])
  {
    seq(|rows|, r requires 0 <= r < |rows| =>
      WidthSum(dims, rows[r]) + (if |rows[r]| - 1 > 0 then |rows[r]| - 1 else 0) * 90)
  }

  /** From the arranged levels to boxes: the row heights, widths and tops, then every row in turn. */
  method PlaceLevels(classes: seq<ClassNode>, dims: map<string, Size>, rows: seq<seq<string>>)
    returns (positioned: seq<Placed>)
    requires Listed(classes, dims, rows)
    ensures positioned == Layout(classes, dims, rows, |rows|)
  {
    var levelMaxHeights := RowHeights(dims, rows);
    var levelWidths := LevelWidths(dims, rows);
    var maxLevelWidth := MaxWidth(dims, rows);
    var yByLevel := StackRows(levelMaxHeights, 90, 120);
    positioned := PlaceRows(classes, dims, rows, maxLevelWidth, levelWidths, yByLevel);
  }

  /** The `levels.forEach` that places every row, given the widths and tops computed before it. */
  method PlaceRows(classes: seq<ClassNode>, dims: map<string, Size>, rows: seq<seq<string>>,
                   maxLevelWidth: int, levelWidths: seq<int>, yByLevel: seq<int>)
    returns (positioned: seq<Placed>)
    requires Listed(classes, dims, rows) && maxLevelWidth == MaxWidth(dims, rows)
    requires |levelWidths| == |rows| && forall r :: 0 <= r < |rows| ==> levelWidths[r] == RowWidth(dims, rows[r])
    requires |yByLevel| == |rows| && forall r :: 0 <= r < |rows| ==> yByLevel[r] == Top(dims, rows, r)
    ensures positioned == Layout(classes, dims, rows, |rows|)
  {
    positioned := [];
    for levelIndex := 0 to |rows|
      invariant positioned == Layout(classes, dims, rows, levelIndex)
    {
      var xCursor := 90.0 + (maxLevelWidth - levelWidths[levelIndex]) as real / 2.0;
      positioned := PlaceLevel(classes, dims, rows, levelIndex, xCursor, yByLevel[levelIndex], positioned);
    }
  }

  /** One pass of the level loop: the boxes of row `r`, from its left edge and top. */
  method PlaceLevel(classes: seq<ClassNode>, dims: map<string, Size>, rows: seq<seq<string>>, r: nat,
                    left: real, top: int, positioned: seq<Placed>)
    returns (positioned': seq<Placed>)
    requires Listed(classes, dims, rows) && r < |rows|
    requires left == Left(dims, rows, r) && top == Top(dims, rows, r)
    requires positioned == Layout(classes, dims, rows, r)
    ensures positioned' == Layout(classes, dims, rows, r + 1)
  {
    positioned' := PlaceRow(classes, dims, rows[r], left, top as real, positioned);
  }

  // ---------------------------------------------------------------- what the placement guarantees

  /** Within a row, a later box sits at the same height and at least 90 to the right of an earlier one. */
  lemma RowApart(classes: seq<ClassNode>, dims: map<string, Size>, rows: seq<seq<string>>, r: nat, i: nat, i': nat)
    requires Listed(classes, dims, rows) && NonNegative(dims)
    requires r < |rows| && i < i' < |rows[r]|
    ensures var a, b := LevelBox(classes, dims, rows, r, i), LevelBox(classes, dims, rows, r, i');
            a.y == b.y && a.x + a.width as real + 90.0 <= b.x
  {
    OffsetApart(dims, rows[r], i, i');
  }

  /** A box of a later row sits at least 120 below every box of an earlier row. */
  lemma RowsStacked(classes: seq<ClassNode>, dims: map<string, Size>, rows: seq<seq<string>>,
                    r: nat, i: nat, r': nat, i': nat)
    requires Listed(classes, dims, rows)
    requires r < r' < |rows| && i < |rows[r]| && i' < |rows[r']|
    ensures var a, b := LevelBox(classes, dims, rows, r, i), LevelBox(classes, dims, rows, r', i');
            a.y + a.height as real + 120.0 <= b.y
  {
    assert rows[r][i] in rows[r];
    StackedGrows(RowHeights(dims, rows), 90, 120, r, r');
  }

  /** Each row lies between 90 and 90 plus the widest row, with equal margins on both sides. */
  lemma RowCentred(classes: seq<ClassNode>, dims: map<string, Size>, rows: seq<seq<string>>, r: nat)
    requires Listed(classes, dims, rows) && r < |rows| && |rows[r]| > 0
    ensures var first, last := LevelBox(classes, dims, rows, r, 0), LevelBox(classes, dims, rows, r, |rows[r]| - 1);
            && first.x >= 90.0
            && first.x - 90.0 == (90 + MaxWidth(dims, rows)) as real - (last.x + last.width as real)
  {
    RowSpan(dims, rows[r]);
  }

  /** Each position of the layout holds the box of some position of some row, the rows in order. */
  lemma {:induction false} Locate(classes: seq<ClassNode>, dims: map<string, Size>, rows: seq<seq<string>>,
                                  k: nat, p: nat)
    returns (r: nat, i: nat)
    requires Listed(classes, dims, rows) && k <= |rows| && p < RowStart(rows, k)
    ensures r < k && i < |rows[r]| && p == RowStart(rows, r) + i
    ensures Layout(classes, dims, rows, k)[p] == LevelBox(classes, dims, rows, r, i)
    decreases k
  {
    var before := RowStart(rows, k - 1);
    if p < before {
      r, i := Locate(classes, dims, rows, k - 1, p);
    } else {
      r, i := k - 1, p - before;
    }
  }

  /** No two boxes of the layout overlap. */
  lemma LayoutApart(classes: seq<ClassNode>, dims: map<string, Size>, rows: seq<seq<string>>, p: nat, q: nat)
    requires Listed(classes, dims, rows) && NonNegative(dims)
    requires p < q < RowStart(rows, |rows|)
    ensures var placed := Layout(classes, dims, rows, |rows|);
            Apart(placed[p], placed[q])
  {
    var r, i := Locate(classes, dims, rows, |rows|, p);
    var r', i' := Locate(classes, dims, rows, |rows|, q);
    if r' < r {
      RowStartGrows(rows, r', r);
    } else if r == r' {
      RowApart(classes, dims, rows, r, i, i');
    } else {
      RowsStacked(classes, dims, rows, r, i, r', i');
    }
  }

  /** The identifiers of the rows, row after row. */
  function Concat(rows: seq<seq<string>>, k: nat): seq<string>
    requires k <= |rows|
  {
    if k == 0 then [] else Concat(rows, k - 1) + rows[k - 1]
  }

  /** The identifiers of the placed classes, in order. */
  function NodeIds(placed: seq<Placed>): (ids: seq<string>)
    ensures |ids| == |placed| && forall p :: 0 <= p < |placed| ==> ids[p] == placed[p].node.id
  {
    seq(|placed|, p requires 0 <= p < |placed| => placed[p].node.id)
  }

  lemma NodeIdsAppend(a: seq<Placed>, b: seq<Placed>)
    ensures NodeIds(a + b) == NodeIds(a) + NodeIds(b)
  {
    assert forall p :: 0 <= p < |a| + |b| ==> (a + b)[p] == if p < |a| then a[p] else b[p - |a|];
  }

  /** The boxes of a row are the classes of its identifiers, in order. */
  lemma RowNodeIds(classes: seq<ClassNode>, dims: map<string, Size>, ids: seq<string>, left: real, y: real)
    requires forall id :: id in ids ==> id in dims && id in ClassIds(classes)
    ensures NodeIds(RowAt(classes, dims, ids, left, y, |ids|)) == ids
  {
    var row := RowAt(classes, dims, ids, left, y, |ids|);
    forall i | 0 <= i < |ids|
      ensures row[i].node.id == ids[i]
    {
      assert row[i] == BoxAt(classes, dims, ids, left, y, i);
    }
  }

  /** The layout places the classes named by the rows, row after row, each box the class it names. */
  lemma {:induction false} LayoutIds(classes: seq<ClassNode>, dims: map<string, Size>, rows: seq<seq<string>>, k: nat)
    requires Listed(classes, dims, rows) && k <= |rows|
    ensures NodeIds(Layout(classes, dims, rows, k)) == Concat(rows, k)
  {
    if k > 0 {
      var r := k - 1;
      LayoutIds(classes, dims, rows, r);
      var row := RowAt(classes, dims, rows[r], Left(dims, rows, r), Top(dims, rows, r) as real, |rows[r]|);
      RowNodeIds(classes, dims, rows[r], Left(dims, rows, r), Top(dims, rows, r) as real);
      NodeIdsAppend(Layout(classes, dims, rows, r), row);
    }
  }
}
