/** Table grids: cells, what they cover, and the two checkers of a grid
    (src/packages/parsers/source_adapter.py, src/packages/ir/validator.py). */
module Tables {
  import opened Wrappers

  type Slot = (nat, nat)

  datatype Cell = Cell(row: nat, column: nat, rowSpan: nat, columnSpan: nat)

  predicate Holds(c: Cell, row: nat, column: nat) {
    c.row <= row < c.row + c.rowSpan && c.column <= column < c.column + c.columnSpan
  }

  function Slots(c: Cell): set<Slot> {
    set r: nat, k: nat | c.row <= r < c.row + c.rowSpan && c.column <= k < c.column + c.columnSpan :: (r, k)
  }

  function Covered(cells: seq<Cell>): set<Slot> {
    if cells == [] then {} else Covered(cells[..|cells| - 1]) + Slots(cells[|cells| - 1])
  }

  predicate Inside(c: Cell, rows: nat, columns: nat) {
    c.row + c.rowSpan <= rows && c.column + c.columnSpan <= columns
  }

  ghost predicate Disjoint(cells: seq<Cell>) {
    forall i, j :: 0 <= i < j < |cells| ==> Slots(cells[i]) !! Slots(cells[j])
  }

  ghost predicate AllInside(cells: seq<Cell>, rows: nat, columns: nat) {
    forall i :: 0 <= i < |cells| ==> Inside(cells[i], rows, columns)
  }

  /** Every slot of the grid belongs to exactly one cell, and no cell leaves the grid. */
  ghost predicate Tiles(rows: nat, columns: nat, cells: seq<Cell>) {
    && AllInside(cells, rows, columns)
    && Disjoint(cells)
    && forall r: nat, k: nat :: r < rows && k < columns ==> Owned(r, k, cells)
  }

  predicate Owned(row: nat, column: nat, cells: seq<Cell>) {
    exists i :: 0 <= i < |cells| && Holds(cells[i], row, column)
  }

  function Whole(rows: nat, columns: nat): Cell {
    Cell(0, 0, rows, columns)
  }

  lemma {:induction false} RowCount(row: nat, column: nat, columnSpan: nat)
    ensures |Slots(Cell(row, column, 1, columnSpan))| == columnSpan
  {
    if columnSpan == 0 {
      assert Slots(Cell(row, column, 1, 0)) == {};
    } else {
      RowCount(row, column, columnSpan - 1);
      assert Slots(Cell(row, column, 1, columnSpan)) ==
        Slots(Cell(row, column, 1, columnSpan - 1)) + {(row, column + columnSpan - 1)};
    }
  }

  lemma {:induction false} SplitLastRow(c: Cell)
    requires c.rowSpan > 0
    ensures var above, last := c.(rowSpan := c.rowSpan - 1), Cell(c.row + c.rowSpan - 1, c.column, 1, c.columnSpan);
      |Slots(c)| == |Slots(above)| + |Slots(last)|
  {
    var above, last := c.(rowSpan := c.rowSpan - 1), Cell(c.row + c.rowSpan - 1, c.column, 1, c.columnSpan);
    assert Slots(c) == Slots(above) + Slots(last) && Slots(above) !! Slots(last);
  }

  lemma {:induction false} SlotCount(c: Cell)
    ensures |Slots(c)| == c.rowSpan * c.columnSpan
    decreases c.rowSpan
  {
    if c.rowSpan == 0 {
      assert Slots(c) == {};
    } else {
      SplitLastRow(c);
      SlotCount(c.(rowSpan := c.rowSpan - 1));
      RowCount(c.row + c.rowSpan - 1, c.column, c.columnSpan);
      OneMore(c.rowSpan, c.columnSpan);
    }
  }

  lemma {:induction false} OneMore(n: nat, m: nat)
    requires n > 0
    ensures (n - 1) * m + m == n * m
  {}

  lemma {:induction false} SubsetCount<T>(a: set<T>, b: set<T>)
    requires a <= b
    ensures |a| <= |b| && (|a| == |b| <==> a == b)
  {
    assert b == a + (b - a) && |b| == |a| + |b - a|;
    if |a| == |b| { assert b - a == {}; }
  }

  lemma {:induction false} CoveredOwned(cells: seq<Cell>, s: Slot)
    ensures s in Covered(cells) <==> Owned(s.0, s.1, cells)
  {
    if cells != [] {
      var n := |cells| - 1;
      CoveredOwned(cells[..n], s);
      if Owned(s.0, s.1, cells[..n]) {
        var i :| 0 <= i < n && Holds(cells[..n][i], s.0, s.1);
        assert Holds(cells[i], s.0, s.1);
      }
      if Owned(s.0, s.1, cells) && s !in Slots(cells[n]) {
        var i :| 0 <= i < |cells| && Holds(cells[i], s.0, s.1);
        assert Holds(cells[..n][i], s.0, s.1);
      }
    }
  }

  lemma {:induction false} CoveredInside(cells: seq<Cell>, rows: nat, columns: nat)
    requires AllInside(cells, rows, columns)
    ensures Covered(cells) <= Slots(Whole(rows, columns))
  {
    forall s | s in Covered(cells) ensures s in Slots(Whole(rows, columns)) {
      CoveredOwned(cells, s);
      var i :| 0 <= i < |cells| && Holds(cells[i], s.0, s.1);
      assert Inside(cells[i], rows, columns);
    }
  }

  /** Counting covered slots is the same as finding an owner for each. */
  lemma {:induction false} CountIsCover(cells: seq<Cell>, rows: nat, columns: nat)
    requires AllInside(cells, rows, columns)
    ensures |Covered(cells)| == rows * columns <==> forall r: nat, k: nat :: r < rows && k < columns ==>
      Owned(r, k, cells)
    ensures |Covered(cells)| <= rows * columns
  {
    var whole := Slots(Whole(rows, columns));
    CoveredInside(cells, rows, columns);
    SlotCount(Whole(rows, columns));
    SubsetCount(Covered(cells), whole);
    if Covered(cells) == whole {
      forall r: nat, k: nat | r < rows && k < columns ensures Owned(r, k, cells) {
        CoveredOwned(cells, (r, k));
        assert (r, k) in whole;
      }
    } else if forall r: nat, k: nat :: r < rows && k < columns ==> Owned(r, k, cells) {
      forall s | s in whole ensures s in Covered(cells) {
        CoveredOwned(cells, (s.0, s.1));
      }
      assert false;
    }
  }

  lemma {:induction false} DisjointStep(cells: seq<Cell>, n: nat)
    requires n < |cells| && Disjoint(cells[..n])
    ensures Disjoint(cells[..n + 1]) <==> Slots(cells[n]) !! Covered(cells[..n])
  {
    var before, now := cells[..n], cells[..n + 1];
    assert now == before + [cells[n]];
    if Slots(cells[n]) !! Covered(before) {
      forall i, j | 0 <= i < j < |now| ensures Slots(now[i]) !! Slots(now[j]) {
        if j < n {
          assert now[i] == before[i] && now[j] == before[j];
        } else {
          assert now[i] == before[i];
          forall s | s in Slots(before[i]) ensures s !in Slots(cells[n]) {
            CoveredOwned(before, s);
            assert Holds(before[i], s.0, s.1);
          }
        }
      }
    } else {
      var s :| s in Slots(cells[n]) && s in Covered(before);
      CoveredOwned(before, s);
      var i :| 0 <= i < n && Holds(before[i], s.0, s.1);
      assert now[i] == before[i] && now[n] == cells[n];
      assert !(Slots(now[i]) !! Slots(now[n]));
    }
  }

  lemma {:induction false} DisjointPrefix(cells: seq<Cell>, n: nat)
    requires n <= |cells| && Disjoint(cells)
    ensures Disjoint(cells[..n])
  {}

  lemma {:induction false} CoveredStep(cells: seq<Cell>, n: nat)
    requires n < |cells|
    ensures Covered(cells[..n + 1]) == Covered(cells[..n]) + Slots(cells[n])
  {
    assert cells[..n + 1][..n] == cells[..n];
  }

  /** The slots of `c` before `(row, column)` in row order. */
  ghost function Before(c: Cell, row: nat, column: nat): set<Slot> {
    set s | s in Slots(c) && (s.0 < row || (s.0 == row && s.1 < column))
  }

  datatype RowGroup = RowGroup(section: Section, start: nat, end: nat)

  datatype Section = Head | Body | Foot

  datatype ColumnGroup = ColumnGroup(start: nat, end: nat)

  /** A table as the document stores it; cell `i` shows the block `content[i]`. */
  datatype Grid = Grid(rows: nat, columns: nat, cells: seq<Cell>, rowGroups: seq<RowGroup>,
      columnGroups: seq<ColumnGroup>)

  predicate Follows(groups: seq<RowGroup>, i: nat)
    requires i < |groups|
  {
    groups[i].start == if i == 0 then 0 else groups[i - 1].end
  }

  /** Row groups follow one another without a gap from the first row to the last. */
  ghost predicate RowGroupsPartition(groups: seq<RowGroup>, rows: nat) {
    && (forall i :: 0 <= i < |groups| ==> groups[i].start < groups[i].end)
    && (forall i :: 0 <= i < |groups| ==> Follows(groups, i))
    && (groups != [] ==> groups[|groups| - 1].end == rows)
  }

  ghost predicate ColumnGroupsOrdered(groups: seq<ColumnGroup>, columns: nat) {
    && (forall i :: 0 <= i < |groups| ==> groups[i].start < groups[i].end <= columns)
    && (forall i :: 0 < i < |groups| ==> groups[i - 1].end <= groups[i].start)
  }

  /** What publication requires of a structured table of schema 4.0. */
  ghost predicate GridAccepted(g: Grid) {
    && g.rows * g.columns <= 100000
    && Tiles(g.rows, g.columns, g.cells)
    && RowGroupsPartition(g.rowGroups, g.rows)
    && ColumnGroupsOrdered(g.columnGroups, g.columns)
  }

  /** `for row … for column … covered.add`: false when a slot is already covered. */
  method CoverCell(c: Cell, covered: set<Slot>) returns (ok: bool, after: set<Slot>)
    ensures ok <==> Slots(c) !! covered
    ensures ok ==> after == covered + Slots(c)
  {
    ok, after := true, covered;
    var row := c.row;
    while row < c.row + c.rowSpan
      invariant c.row <= row <= c.row + c.rowSpan
      invariant after == covered + Before(c, row, 0) && Before(c, row, 0) !! covered
    {
      var column := c.column;
      while column < c.column + c.columnSpan
        invariant c.column <= column <= c.column + c.columnSpan
        invariant after == covered + Before(c, row, column) && Before(c, row, column) !! covered
      {
        if (row, column) in after {
          assert (row, column) in Slots(c) && (row, column) !in Before(c, row, column);
          ok := false;
          return;
        }
        after := after + {(row, column)};
        assert Before(c, row, column + 1) == Before(c, row, column) + {(row, column)};
        column := column + 1;
      }
      assert Before(c, row + 1, 0) == Before(c, row, c.column + c.columnSpan);
      row := row + 1;
    }
    assert Before(c, c.row + c.rowSpan, 0) == Slots(c);
  }

  /** The coverage check of publication. */
  method CheckCoverage(rows: nat, columns: nat, cells: seq<Cell>) returns (ok: bool)
    ensures ok <==> rows * columns <= 100000 && Tiles(rows, columns, cells)
  {
    if rows * columns > 100000 { return false; }
    var covered: set<Slot> := {};
    var i := 0;
    while i < |cells|
      invariant 0 <= i <= |cells|
      invariant covered == Covered(cells[..i]) && Disjoint(cells[..i])
      invariant forall j :: 0 <= j < i ==> Inside(cells[j], rows, columns)
    {
      if !Inside(cells[i], rows, columns) { return false; }
      DisjointStep(cells, i);
      CoveredStep(cells, i);
      if Disjoint(cells) { DisjointPrefix(cells, i + 1); }
      var free;
      free, covered := CoverCell(cells[i], covered);
      if !free { return false; }
      i := i + 1;
    }
    assert cells[..i] == cells;
    CountIsCover(cells, rows, columns);
    ok := |covered| == rows * columns;
  }

  method CheckRowGroups(groups: seq<RowGroup>, rows: nat) returns (ok: bool)
    ensures ok <==> RowGroupsPartition(groups, rows)
  {
    var previous := 0;
    var i := 0;
    while i < |groups|
      invariant 0 <= i <= |groups|
      invariant previous == if i == 0 then 0 else groups[i - 1].end
      invariant forall j :: 0 <= j < i ==> groups[j].start < groups[j].end <= rows
      invariant forall j :: 0 <= j < i ==> Follows(groups, j)
    {
      if !(groups[i].start < groups[i].end <= rows) {
        if RowGroupsPartition(groups, rows) { EndsWithin(groups, rows, i); }
        return false;
      }
      if groups[i].start != previous {
        assert !Follows(groups, i);
        return false;
      }
      assert Follows(groups, i);
      previous := groups[i].end;
      i := i + 1;
    }
    ok := groups == [] || previous == rows;
  }

  lemma {:induction false} EndsWithin(groups: seq<RowGroup>, rows: nat, i: nat)
    requires RowGroupsPartition(groups, rows) && i < |groups|
    ensures groups[i].end <= rows
    decreases |groups| - i
  {
    if i + 1 < |groups| {
      EndsWithin(groups, rows, i + 1);
      assert Follows(groups, i + 1);
    }
  }

  method CheckColumnGroups(groups: seq<ColumnGroup>, columns: nat) returns (ok: bool)
    ensures ok <==> ColumnGroupsOrdered(groups, columns)
  {
    var previous := 0;
    for i := 0 to |groups|
      invariant previous == if i == 0 then 0 else groups[i - 1].end
      invariant forall j :: 0 <= j < i ==> groups[j].start < groups[j].end <= columns
      invariant forall j :: 0 < j < i ==> groups[j - 1].end <= groups[j].start
    {
      if !(previous <= groups[i].start < groups[i].end <= columns) { return false; }
      previous := groups[i].end;
    }
    return true;
  }

  method CheckGrid(g: Grid) returns (ok: bool)
    ensures ok <==> GridAccepted(g)
  {
    ok := CheckCoverage(g.rows, g.columns, g.cells);
    if ok { ok := CheckRowGroups(g.rowGroups, g.rows); }
    if ok { ok := CheckColumnGroups(g.columnGroups, g.columns); }
  }

  /** A parser's cell: offsets, and the spans it repeats when it gives them. */
  datatype Offsets = Offsets(rowStart: int, rowEnd: int, columnStart: int, columnEnd: int, rowSpan: Option<int>,
      columnSpan: Option<int>)

  predicate WellFormed(o: Offsets, rows: int, columns: int) {
    && 0 <= o.rowStart < o.rowEnd <= rows && 0 <= o.columnStart < o.columnEnd <= columns
    && (o.rowSpan.Some? ==> o.rowSpan.value == o.rowEnd - o.rowStart)
    && (o.columnSpan.Some? ==> o.columnSpan.value == o.columnEnd - o.columnStart)
  }

  function AsCell(o: Offsets): Cell {
    if 0 <= o.rowStart <= o.rowEnd && 0 <= o.columnStart <= o.columnEnd
    then Cell(o.rowStart, o.columnStart, o.rowEnd - o.rowStart, o.columnEnd - o.columnStart)
    else Cell(0, 0, 0, 0)
  }

  function AsCells(offsets: seq<Offsets>): (cells: seq<Cell>)
    ensures |cells| == |offsets| && forall i :: 0 <= i < |cells| ==> cells[i] == AsCell(offsets[i])
  {
    seq(|offsets|, i requires 0 <= i < |offsets| => AsCell(offsets[i]))
  }

  ghost predicate Complete(rows: int, columns: int, offsets: seq<Offsets>) {
    && 0 < rows <= 1000 && 0 < columns <= 1000 && rows * columns <= 10000
    && (forall i :: 0 <= i < |offsets| ==> WellFormed(offsets[i], rows, columns))
    && Tiles(rows, columns, AsCells(offsets))
  }

  /** `table_grid_complete`. */
  method TableGridComplete(rows: int, columns: int, offsets: seq<Offsets>) returns (ok: bool)
    ensures ok <==> Complete(rows, columns, offsets)
  {
    if !(0 < rows <= 1000 && 0 < columns <= 1000 && rows * columns <= 10000) { return false; }
    ok := OffsetsTile(rows, columns, offsets);
  }

  method OffsetsTile(rows: nat, columns: nat, offsets: seq<Offsets>) returns (ok: bool)
    ensures ok <==> (forall i :: 0 <= i < |offsets| ==>
      WellFormed(offsets[i], rows, columns)) && Tiles(rows, columns, AsCells(offsets))
  {
    ghost var cells := AsCells(offsets);
    var occupied: set<Slot> := {};
    var i := 0;
    while i < |offsets|
      invariant 0 <= i <= |offsets|
      invariant occupied == Covered(cells[..i]) && Disjoint(cells[..i])
      invariant forall j :: 0 <= j < i ==> WellFormed(offsets[j], rows, columns)
      invariant AllInside(cells[..i], rows, columns)
    {
      if !WellFormed(offsets[i], rows, columns) { return false; }
      if Disjoint(cells) { DisjointPrefix(cells, i + 1); }
      DisjointStep(cells, i);
      var free;
      free, occupied := Occupy(occupied, offsets[i], cells, i);
      if !free { return false; }
      assert Inside(cells[i], rows, columns) && cells[..i + 1] == cells[..i] + [cells[i]];
      i := i + 1;
    }
    assert cells[..i] == cells;
    CountIsCover(cells, rows, columns);
    ok := |occupied| == rows * columns;
  }

  method Occupy(occupied: set<Slot>, o: Offsets, ghost cells: seq<Cell>, ghost i: nat) returns (free: bool,
      after: set<Slot>)
    requires i < |cells| && cells[i] == AsCell(o) && occupied == Covered(cells[..i])
    ensures free <==> Slots(cells[i]) !! occupied
    ensures free ==> after == Covered(cells[..i + 1])
  {
    var slots := Slots(AsCell(o));
    free, after := occupied * slots == {}, occupied + slots;
    if free {
      forall s | s in slots ensures s !in occupied { assert s !in occupied * slots; }
      CoveredStep(cells, i);
    }
  }
}
