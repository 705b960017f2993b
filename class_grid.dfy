/** Class boxes and the fallback grid placement: the `dimensions` table of `buildLayout`
    (src/renderers/ClassRenderer.jsx:261-276) and `buildGridLayout` (ClassRenderer.jsx:124-163). */
module ClassGrid {
  import opened DiagramModel
  import opened ClassLayout

  /** The width and height of one class box (an entry of `dimensions`). */
  datatype Size = Size(width: int, height: int)

  /** A class with its box: the `{...classNode, width, height, x, y}` records the layouts return. */
  datatype Placed = Placed(node: ClassNode, width: int, height: int, x: real, y: real)

  /** Two boxes do not overlap: one lies wholly to the left of or above the other (touching edges
      allowed). */
  predicate Apart(a: Placed, b: Placed) {
    a.x + a.width as real <= b.x || b.x + b.width as real <= a.x
    || a.y + a.height as real <= b.y || b.y + b.height as real <= a.y
  }

  function SizeOf(c: ClassNode): Size {
    Size(ClassWidth(c), ClassHeight(c))
  }

  // ---------------------------------------------------------------- dimensions

  /** The `dimensions` table: one entry per identifier, the last class with that identifier winning. */
  function Dimensions(classes: seq<ClassNode>): (dims: map<string, Size>)
    ensures forall id :: id in dims <==> id in ClassIds(classes)
    ensures forall id :: id in dims ==> 250 <= dims[id].width <= 320 && dims[id].height >= 104
    decreases |classes|
  {
    if |classes| == 0 then map[]
    else
      var init := classes[..|classes| - 1];
      var last := classes[|classes| - 1];
      assert ClassIds(classes) == ClassIds(init) + [last.id];
      Dimensions(init)[last.id := SizeOf(last)]
  }

  /** A class that no later class shares its identifier with has its own size in the table. */
  lemma {:induction false} DimensionsLastWins(classes: seq<ClassNode>, i: nat)
    requires i < |classes| && forall j :: i < j < |classes| ==> classes[j].id != classes[i].id
    ensures classes[i].id in Dimensions(classes) && Dimensions(classes)[classes[i].id] == SizeOf(classes[i])
    decreases |classes|
  {
    assert ClassIds(classes)[i] == classes[i].id;
    if i < |classes| - 1 {
      var init := classes[..|classes| - 1];
      assert init[i] == classes[i];
      DimensionsLastWins(init, i);
    }
  }

  /** The `classes.forEach` that fills `dimensions`. */
  method MeasureClasses(classes: seq<ClassNode>) returns (dims: map<string, Size>)
    ensures dims == Dimensions(classes)
  {
    dims := map[];
    for i := 0 to |classes|
      invariant dims == Dimensions(classes[..i])
    {
      assert classes[..i + 1][..i] == classes[..i];
      dims := dims[classes[i].id := SizeOf(classes[i])];
    }
    assert classes[..|classes|] == classes;
  }

  // ---------------------------------------------------------------- products, rows and columns

  /** `a * b`, by repeated addition: the grid arithmetic below is stated with it. */
  function Times(a: nat, b: nat): nat {
    if a == 0 then 0 else Times(a - 1, b) + b
  }

  lemma {:induction false} TimesIsProduct(a: nat, b: nat)
    ensures Times(a, b) == a * b
  {
    if a > 0 {
      TimesIsProduct(a - 1, b);
    }
  }

  lemma {:induction false} TimesMonotone(a: nat, a': nat, b: nat)
    requires a <= a'
    ensures Times(a, b) <= Times(a', b)
    decreases a'
  {
    if a < a' {
      TimesMonotone(a, a' - 1, b);
    }
  }

  lemma {:induction false} TimesAtLeast(a: nat, b: nat)
    requires b >= 1
    ensures a <= Times(a, b)
  {
    if a > 0 {
      TimesAtLeast(a - 1, b);
    }
  }

  /** The search for the least `r >= c` whose square reaches `m`. */
  function SqrtUp(m: nat, c: nat): (r: nat)
    requires c == 0 || Times(c - 1, c - 1) < m
    ensures Times(r, r) >= m && (r == 0 || Times(r - 1, r - 1) < m)
    decreases m - c
  {
    if Times(c, c) >= m then c
    else
      assert c < m by {
        if c > 0 {
          TimesAtLeast(c, c);
        }
      }
      SqrtUp(m, c + 1)
  }

  /** `Math.max(1, Math.ceil(Math.sqrt(n || 1)))`: the least positive column count whose square
      holds every class. */
  function Columns(n: nat): (cols: nat)
    ensures cols >= 1 && Times(cols, cols) >= n
    ensures Times(cols - 1, cols - 1) < (if n == 0 then 1 else n)
  {
    var r := SqrtUp(if n == 0 then 1 else n, 0);
    if 1 < r then r else 1
  }

  /** The row and the column of position `i` when rows hold `cols` positions, counted one position
      at a time. */
  function GridCell(i: nat, cols: nat): (rc: (nat, nat))
    requires cols >= 1
    ensures rc.1 < cols && Times(rc.0, cols) + rc.1 == i
  {
    if i == 0 then (0, 0)
    else
      var prev := GridCell(i - 1, cols);
      if prev.1 + 1 == cols then (prev.0 + 1, 0) else (prev.0, prev.1 + 1)
  }

  /** A row and a column that add up to `i` are those of `i`. */
  lemma CellUnique(i: nat, cols: nat, r: nat, c: nat)
    requires cols >= 1 && c < cols && Times(r, cols) + c == i
    ensures GridCell(i, cols) == (r, c)
  {
    var rc := GridCell(i, cols);
    if rc.0 < r {
      TimesMonotone(rc.0 + 1, r, cols);
    } else if r < rc.0 {
      TimesMonotone(r + 1, rc.0, cols);
    }
  }

  /** `Math.floor(index / columns)` and `index % columns` are the row and the column. */
  lemma CellIsDivMod(i: nat, cols: nat)
    requires cols >= 1
    ensures GridCell(i, cols) == (i / cols, i % cols)
  {
    TimesIsProduct(i / cols, cols);
    CellUnique(i, cols, i / cols, i % cols);
  }

  /** `Math.floor(index / columns)` and `index % columns`. */
  method RowAndColumn(index: nat, columns: nat) returns (rowIndex: nat, colIndex: nat)
    requires columns >= 1
    ensures (rowIndex, colIndex) == GridCell(index, columns)
  {
    rowIndex, colIndex := index / columns, index % columns;
    CellIsDivMod(index, columns);
  }

  /** Later positions are in the same row further right, or in a later row. */
  lemma CellOrder(i: nat, j: nat, cols: nat)
    requires cols >= 1 && i < j
    ensures var a, b := GridCell(i, cols), GridCell(j, cols); a.0 < b.0 || (a.0 == b.0 && a.1 < b.1)
  {
    var a, b := GridCell(i, cols), GridCell(j, cols);
    if b.0 < a.0 {
      TimesMonotone(b.0 + 1, a.0, cols);
    }
  }

  /** The number of rows `n` positions fill. */
  function RowCount(n: nat, cols: nat): nat
    requires cols >= 1
  {
    if n == 0 then 0 else GridCell(n - 1, cols).0 + 1
  }

  /** Pushing position `index` opens a new row exactly when it is the first of its row. */
  lemma RowCountStep(index: nat, cols: nat)
    requires cols >= 1
    ensures RowCount(index, cols) == if GridCell(index, cols).1 == 0 then GridCell(index, cols).0 else GridCell(index, cols).0 + 1
  {
  }

  /** Every position falls in one of the rows. */
  lemma RowOfIndex(i: nat, n: nat, cols: nat)
    requires cols >= 1 && i < n
    ensures GridCell(i, cols).0 < RowCount(n, cols)
  {
    if i < n - 1 {
      CellOrder(i, n - 1, cols);
    }
  }

  /** The grid never has more rows than columns. */
  lemma RowsAtMostColumns(n: nat)
    ensures var cols := Columns(n); RowCount(n, cols) <= cols
  {
    var cols := Columns(n);
    if n > 0 {
      var r := GridCell(n - 1, cols).0;
      if r >= cols {
        TimesMonotone(cols, r, cols);
      }
    }
  }

  /** Up to `cols` identifiers from position `start` on. */
  function RowSlice(ids: seq<string>, start: nat, cols: nat): seq<string> {
    if start >= |ids| then [] else ids[start .. if start + cols < |ids| then start + cols else |ids|]
  }

  /** The identifiers that land in row `r`: `cols` positions from the `r`-th multiple of `cols`. */
  function RowIds(ids: seq<string>, cols: nat, r: nat): seq<string> {
    RowSlice(ids, Times(r, cols), cols)
  }

  /** Pushing position `index` leaves a row that ends before it alone and extends the row it falls in. */
  lemma RowSliceGrow(ids: seq<string>, start: nat, cols: nat, index: nat)
    requires index < |ids|
    ensures start + cols <= index ==> RowSlice(ids[..index + 1], start, cols) == RowSlice(ids[..index], start, cols)
    ensures start <= index < start + cols ==>
              RowSlice(ids[..index + 1], start, cols) == RowSlice(ids[..index], start, cols) + [ids[index]]
  {
    var longer, shorter := ids[..index + 1], ids[..index];
    if start + cols <= index {
      PrefixSlice(ids, index + 1, start, start + cols);
      PrefixSlice(ids, index, start, start + cols);
    } else if start <= index < start + cols {
      PrefixSlice(ids, index + 1, start, index + 1);
      PrefixSlice(ids, index, start, index);
      assert RowSlice(longer, start, cols) == ids[start..index + 1];
      assert RowSlice(shorter, start, cols) == ids[start..index];
      assert ids[start..index + 1] == ids[start..index] + [ids[index]];
    }
  }

  /** A slice of a prefix is the same slice of the whole sequence. */
  lemma PrefixSlice(ids: seq<string>, n: nat, a: nat, b: nat)
    requires a <= b <= n <= |ids|
    ensures ids[..n][a..b] == ids[a..b]
  {
  }

  lemma InRowSlice(ids: seq<string>, start: nat, cols: nat, i: nat)
    requires start <= i < start + cols && i < |ids|
    ensures ids[i] in RowSlice(ids, start, cols)
  {
    assert RowSlice(ids, start, cols)[i - start] == ids[i];
  }

  /** Rows of earlier positions are complete once a later position is pushed. */
  lemma RowIdsGrow(ids: seq<string>, cols: nat, index: nat, r: nat)
    requires cols >= 1 && index < |ids|
    ensures var q := GridCell(index, cols).0;
            && (r < q ==> RowIds(ids[..index + 1], cols, r) == RowIds(ids[..index], cols, r))
            && (r == q ==> RowIds(ids[..index + 1], cols, r) == RowIds(ids[..index], cols, r) + [ids[index]])
  {
    var q := GridCell(index, cols).0;
    if r < q {
      TimesMonotone(r + 1, q, cols);
    }
    RowSliceGrow(ids, Times(r, cols), cols, index);
  }

  /** The `for` loop that pushes each identifier onto its row. */
  method GroupRows(ids: seq<string>, cols: nat) returns (rows: seq<seq<string>>)
    requires cols >= 1
    ensures |rows| == RowCount(|ids|, cols)
    ensures forall r :: 0 <= r < |rows| ==> rows[r] == RowIds(ids, cols, r)
  {
    rows := [];
    for index := 0 to |ids|
      invariant |rows| == RowCount(index, cols)
      invariant forall r :: 0 <= r < |rows| ==> rows[r] == RowIds(ids[..index], cols, r)
    {
      var rowIndex, _ := RowAndColumn(index, cols);
      RowCountStep(index, cols);
      forall r | 0 <= r <= rowIndex
        ensures && (r < rowIndex ==> RowIds(ids[..index + 1], cols, r) == RowIds(ids[..index], cols, r))
                && (r == rowIndex ==> RowIds(ids[..index + 1], cols, r) == RowIds(ids[..index], cols, r) + [ids[index]])
      {
        RowIdsGrow(ids, cols, index, r);
      }
      if rowIndex >= |rows| {
        assert RowIds(ids[..index], cols, rowIndex) == [];
        rows := rows + [[]];
      }
      rows := rows[rowIndex := rows[rowIndex] + [ids[index]]];
    }
    assert ids[..|ids|] == ids;
  }

  // ---------------------------------------------------------------- row heights and tops

  /** The tallest box among `ids` (`Math.max` over a row, which is never empty; 0 for none). */
  function Tallest(dims: map<string, Size>, ids: seq<string>): (h: int)
    requires forall id :: id in ids ==> id in dims
    ensures h >= 0 && forall id :: id in ids ==> dims[id].height <= h
    ensures h == 0 || exists id :: id in ids && dims[id].height == h
    decreases |ids|
  {
    if |ids| == 0 then 0
    else
      var rest := Tallest(dims, ids[1..]);
      var first := dims[ids[0]].height;
      assert forall id :: id in ids ==> id == ids[0] || id in ids[1..];
      if first > rest then first else rest
  }

  /** The top of row `r` when rows start at `start` and each one sits its tallest box plus `gap`
      below the previous. */
  function Stacked(heights: seq<int>, start: int, gap: int, r: nat): int
    requires r <= |heights|
  {
    if r == 0 then start else Stacked(heights, start, gap, r - 1) + heights[r - 1] + gap
  }

  /** Later rows start below earlier rows and their boxes, with at least the gap between. */
  lemma {:induction false} StackedGrows(heights: seq<int>, start: int, gap: int, r: nat, s: nat)
    requires r < s <= |heights| && gap >= 0
    requires forall q :: 0 <= q < |heights| ==> heights[q] >= 0
    ensures Stacked(heights, start, gap, s) >= Stacked(heights, start, gap, r) + heights[r] + gap
    decreases s - r
  {
    if s > r + 1 {
      StackedGrows(heights, start, gap, r, s - 1);
    }
  }

  /** The tallest box of each row, the `rowHeights` of the source. */
  function GridRowHeights(ids: seq<string>, dims: map<string, Size>, cols: nat): (heights: seq<int>)
    requires cols >= 1 && forall id :: id in ids ==> id in dims
    ensures |heights| == RowCount(|ids|, cols) && forall r :: 0 <= r < |heights| ==> heights[r] >= 0
  {
    seq(RowCount(|ids|, cols), r requires 0 <= r =>
      assert forall id :: id in RowIds(ids, cols, r) ==> id in ids;
      Tallest(dims, RowIds(ids, cols, r)))
  }

  /** The `for` loops that accumulate `yByRow` (and `yByLevel`): a cursor that starts at `start`
      and moves down by each row's height plus `gap`. */
  method StackRows(heights: seq<int>, start: int, gap: int) returns (tops: seq<int>)
    ensures |tops| == |heights| && forall r :: 0 <= r < |heights| ==> tops[r] == Stacked(heights, start, gap, r)
  {
    tops := [];
    var cursor := start;
    for index := 0 to |heights|
      invariant |tops| == index && cursor == Stacked(heights, start, gap, index)
      invariant forall r :: 0 <= r < index ==> tops[r] == Stacked(heights, start, gap, r)
    {
      tops := tops + [cursor];
      cursor := cursor + heights[index] + gap;
    }
  }

  // ---------------------------------------------------------------- the grid

  /** Where `buildGridLayout` puts the class at position `i`: in column `c` at 90 plus 410 per
      column, on the top of row `r` (rows start at 100, 90 apart), where `(r, c)` is the cell of `i`. */
  function GridPlaced(classes: seq<ClassNode>, dims: map<string, Size>, i: nat): Placed
    requires i < |classes| && forall id :: id in ClassIds(classes) ==> id in dims
  {
    var ids := ClassIds(classes);
    var cols := Columns(|classes|);
    var heights := GridRowHeights(ids, dims, cols);
    var cell := GridCell(i, cols);
    assert cell.0 < |heights| by {
      RowOfIndex(i, |classes|, cols);
    }
    assert ids[i] == classes[i].id;
    var size := dims[classes[i].id];
    Placed(classes[i], size.width, size.height, (90 + cell.1 * 410) as real, Stacked(heights, 100, 90, cell.0) as real)
  }

  /** The first `k` classes of the grid, in order. */
  function GridPrefix(classes: seq<ClassNode>, dims: map<string, Size>, k: nat): (placed: seq<Placed>)
    requires k <= |classes| && forall id :: id in ClassIds(classes) ==> id in dims
    ensures |placed| == k && forall i :: 0 <= i < k ==> placed[i] == GridPlaced(classes, dims, i)
  {
    if k == 0 then []
    else
      var prev := GridPrefix(classes, dims, k - 1);
      var placed := prev + [GridPlaced(classes, dims, k - 1)];
      assert forall i :: 0 <= i < k - 1 ==> placed[i] == prev[i];
      placed
  }

  method BuildGridLayout(classes: seq<ClassNode>, dims: map<string, Size>) returns (placed: seq<Placed>)
    requires forall id :: id in ClassIds(classes) ==> id in dims
    ensures placed == GridPrefix(classes, dims, |classes|)
  {
    var ids := ClassIds(classes);
    var columns := Columns(|classes|);
    var rows := GroupRows(ids, columns);
    var rowHeights := seq(|rows|, r requires 0 <= r < |rows| =>
      assert forall id :: id in rows[r] ==> id in ids;
      Tallest(dims, rows[r]));
    assert rowHeights == GridRowHeights(ids, dims, columns);
    var yByRow := StackRows(rowHeights, 100, 90);
    placed := [];
    for index := 0 to |classes|
      invariant placed == GridPrefix(classes, dims, index)
    {
      var rowIndex, colIndex := RowAndColumn(index, columns);
      GridStep(classes, dims, yByRow, index, rowIndex, colIndex);
      var item := dims[classes[index].id];
      placed := placed + [Placed(classes[index], item.width, item.height, (90 + colIndex * 410) as real,
                                 yByRow[rowIndex] as real)];
    }
  }

  /** One turn of the loop in `BuildGridLayout`: the box it pushes is the grid box of that position. */
  lemma GridStep(classes: seq<ClassNode>, dims: map<string, Size>, yByRow: seq<int>, index: nat,
                 rowIndex: nat, colIndex: nat)
    requires index < |classes| && forall id :: id in ClassIds(classes) ==> id in dims
    requires var cols := Columns(|classes|);
             |yByRow| == RowCount(|classes|, cols) &&
             forall r :: 0 <= r < |yByRow| ==>
               yByRow[r] == Stacked(GridRowHeights(ClassIds(classes), dims, cols), 100, 90, r)
    requires (rowIndex, colIndex) == GridCell(index, Columns(|classes|))
    ensures rowIndex < |yByRow|
    ensures var size := dims[classes[index].id];
            Placed(classes[index], size.width, size.height, (90 + colIndex * 410) as real, yByRow[rowIndex] as real)
            == GridPlaced(classes, dims, index)
  {
    RowOfIndex(index, |classes|, Columns(|classes|));
  }

  /** Of two classes at positions `i < j`, the later one sits in the same row at least 90 to the
      right of the earlier box, or in a later row at least 90 below it. */
  lemma GridSeparated(classes: seq<ClassNode>, dims: map<string, Size>, i: nat, j: nat)
    requires forall id :: id in ClassIds(classes) ==> id in dims && dims[id].width <= 320
    requires i < j < |classes|
    ensures var a, b := GridPlaced(classes, dims, i), GridPlaced(classes, dims, j);
            (a.y == b.y && a.x + a.width as real + 90.0 <= b.x) || a.y + a.height as real + 90.0 <= b.y
  {
    var ids := ClassIds(classes);
    var cols := Columns(|classes|);
    var heights := GridRowHeights(ids, dims, cols);
    var ci, cj := GridCell(i, cols), GridCell(j, cols);
    CellOrder(i, j, cols);
    RowOfIndex(j, |classes|, cols);
    if ci.0 < cj.0 {
      InRowSlice(ids, Times(ci.0, cols), cols, i);
      StackedGrows(heights, 100, 90, ci.0, cj.0);
    }
  }

  /** Grid boxes take their sizes from the table and never overlap. */
  lemma GridDisjoint(classes: seq<ClassNode>, dims: map<string, Size>, i: nat, j: nat)
    requires dims == Dimensions(classes)
    requires i < |classes| && j < |classes| && i != j
    ensures Apart(GridPlaced(classes, dims, i), GridPlaced(classes, dims, j))
  {
    if i < j {
      GridSeparated(classes, dims, i, j);
    } else {
      GridSeparated(classes, dims, j, i);
    }
  }
}
