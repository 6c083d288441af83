/** The two span-placement algorithms (src/packages/parsers/semantic.py and table_html.py). */
module Placement {
  import opened Wrappers
  import opened Tables

  /** A cell tag; a span is None when its attribute is not one to four digits. */
  datatype Entry = Entry(rowSpan: Option<nat>, columnSpan: Option<nat>)

  /** `container` identifies the element that holds the row. */
  datatype Row = Row(section: Section, container: nat, entries: seq<Entry>)

  datatype Reader = Semantic | Markup

  /** The cells placed so far, the columns they reach and the slots they take. */
  datatype State = State(cells: seq<Cell>, columns: nat, used: nat)

  const MAX_ROWS := 1000
  const MAX_SPAN := 1000
  const MAX_SLOTS := 10000

  /** A column no placed cell reaches. */
  function Reach(cells: seq<Cell>): nat {
    if cells == [] then 0 else Max(Reach(cells[..|cells| - 1]), cells[|cells| - 1].column
      + cells[|cells| - 1].columnSpan)
  }

  lemma {:induction false} OwnedIsReached(cells: seq<Cell>, row: nat, column: nat)
    requires Owned(row, column, cells)
    ensures column < Reach(cells)
  {
    var n := |cells| - 1;
    if !Holds(cells[n], row, column) {
      var i :| 0 <= i < |cells| && Holds(cells[i], row, column);
      assert Holds(cells[..n][i], row, column);
      OwnedIsReached(cells[..n], row, column);
    }
  }

  /** The first free column at or after `column`. */
  function FirstFree(cells: seq<Cell>, row: nat, column: nat): nat
    decreases Reach(cells) - column
  {
    if Owned(row, column, cells) then
      OwnedIsReached(cells, row, column);
      FirstFree(cells, row, column + 1)
    else column
  }

  /** Every column passed over is owned, the one found is not. */
  lemma {:induction false} FirstFreeIsLeftmost(cells: seq<Cell>, row: nat, column: nat)
    ensures var c := FirstFree(cells, row, column);
      column <= c && !Owned(row, c, cells) && forall k :: column <= k < c ==> Owned(row, k, cells)
    decreases Reach(cells) - column
  {
    if Owned(row, column, cells) {
      OwnedIsReached(cells, row, column);
      FirstFreeIsLeftmost(cells, row, column + 1);
    }
  }

  /** The first later row in another container, or the number of rows. */
  function SectionEnd(rows: seq<Row>, r: nat, at: nat): (end: nat)
    requires r < at <= |rows|
    ensures at <= end <= |rows|
    ensures forall i :: at <= i < end ==> rows[i].container == rows[r].container
    ensures end < |rows| ==> rows[end].container != rows[r].container
    decreases |rows| - at
  {
    if at == |rows| || rows[at].container != rows[r].container then at else SectionEnd(rows, r, at + 1)
  }

  /** A row span of zero reaches the end of the section; only the semantic reader allows it. */
  function RowSpan(reader: Reader, rows: seq<Row>, r: nat, span: nat): nat
    requires r < |rows|
  {
    if reader == Semantic && span == 0 then SectionEnd(rows, r, r + 1) - r else span
  }

  predicate Fits(reader: Reader, n: nat, c: Cell, used: nat) {
    && 1 <= c.rowSpan <= MAX_SPAN && 1 <= c.columnSpan <= MAX_SPAN && c.row + c.rowSpan <= n
    && match reader
       case Semantic => (c.row + c.rowSpan) * (c.column + c.columnSpan) <= MAX_SLOTS
       case Markup => c.column + c.columnSpan <= 1000 && Size(c) <= MAX_SLOTS && used + Size(c) <= MAX_SLOTS
  }

  function CellAt(reader: Reader, rows: seq<Row>, r: nat, cursor: nat, s: State, e: Entry): Option<Cell>
    requires r < |rows|
  {
    if e.rowSpan.None? || e.columnSpan.None? then None
    else Some(Cell(r, FirstFree(s.cells, r, cursor), RowSpan(reader, rows, r, e.rowSpan.value), e.columnSpan.value))
  }

  predicate Meets(a: Cell, b: Cell) {
    && a.row < b.row + b.rowSpan && b.row < a.row + a.rowSpan
    && a.column < b.column + b.columnSpan && b.column < a.column + a.columnSpan
  }

  predicate Overlaps(c: Cell, cells: seq<Cell>) {
    exists i :: 0 <= i < |cells| && Meets(c, cells[i])
  }

  function Size(c: Cell): nat {
    c.rowSpan * c.columnSpan
  }

  function Add(s: State, c: Cell): State {
    State(s.cells + [c], Max(s.columns, c.column + c.columnSpan), s.used + Size(c))
  }

  /** One cell at the first free column after the cursor, or a rejected table. */
  function Place(reader: Reader, rows: seq<Row>, r: nat, cursor: nat, s: State, e: Entry): Option<(State, nat)>
    requires r < |rows|
  {
    var cell := CellAt(reader, rows, r, cursor, s, e);
    if cell.None? || !Fits(reader, |rows|, cell.value, s.used) || Overlaps(cell.value, s.cells) then None
    else Some((Add(s, cell.value), cell.value.column + cell.value.columnSpan))
  }

  /** The first `k` cells of a row. */
  function PlaceRow(reader: Reader, rows: seq<Row>, r: nat, k: nat, s: State): Option<(State, nat)>
    requires r < |rows| && k <= |rows[r].entries|
  {
    if k == 0 then Some((s, 0))
    else
      var before := PlaceRow(reader, rows, r, k - 1, s);
      if before.None? then None
      else Place(reader, rows, r, before.value.1, before.value.0, rows[r].entries[k - 1])
  }

  /** The first `k` rows. */
  function PlaceRows(reader: Reader, rows: seq<Row>, k: nat): Option<State>
    requires k <= |rows|
  {
    if k == 0 then Some(State([], 0, 0))
    else
      var before := PlaceRows(reader, rows, k - 1);
      if before.None? then None
      else
        var now := PlaceRow(reader, rows, k - 1, |rows[k - 1].entries|, before.value);
        if now.None? then None else Some(now.value.0)
  }

  /** The finished grid; None is a rejected table. */
  function Build(reader: Reader, rows: seq<Row>): Option<State> {
    if rows == [] || |rows| > MAX_ROWS then None
    else
      var s := PlaceRows(reader, rows, |rows|);
      if s.None? || s.value.used != |rows| * s.value.columns then None
      else if reader == Markup && s.value.columns == 0 then None
      else s
  }

  lemma {:induction false} RowFails(reader: Reader, rows: seq<Row>, r: nat, j: nat, k: nat, s: State)
    requires r < |rows| && j <= k <= |rows[r].entries| && PlaceRow(reader, rows, r, j, s).None?
    ensures PlaceRow(reader, rows, r, k, s).None?
  {
    if j < k { RowFails(reader, rows, r, j, k - 1, s); }
  }

  lemma {:induction false} RowsFail(reader: Reader, rows: seq<Row>, j: nat, k: nat)
    requires j <= k <= |rows| && PlaceRows(reader, rows, j).None?
    ensures PlaceRows(reader, rows, k).None?
  {
    if j < k { RowsFail(reader, rows, j, k - 1); }
  }

  /** What placement keeps: disjoint cells of positive span inside the rows and the columns so far. */
  ghost predicate Sound(s: State, n: nat) {
    && Disjoint(s.cells) && AllInside(s.cells, n, s.columns) && s.used == |Covered(s.cells)|
    && forall i :: 0 <= i < |s.cells| ==> s.cells[i].rowSpan >= 1 && s.cells[i].columnSpan >= 1
  }

  lemma {:induction false} MeetsShareSlot(a: Cell, b: Cell)
    requires a.rowSpan >= 1 && a.columnSpan >= 1 && b.rowSpan >= 1 && b.columnSpan >= 1
    ensures Meets(a, b) <==> exists row: nat, column: nat :: Holds(a, row, column) && Holds(b, row, column)
  {
    if Meets(a, b) {
      assert Holds(a, Max(a.row, b.row), Max(a.column, b.column))
        && Holds(b, Max(a.row, b.row), Max(a.column, b.column));
    }
  }

  /** Rectangles overlap exactly when they share a slot. */
  lemma {:induction false} OverlapIsShared(c: Cell, cells: seq<Cell>)
    requires c.rowSpan >= 1 && c.columnSpan >= 1
    requires forall i :: 0 <= i < |cells| ==> cells[i].rowSpan >= 1 && cells[i].columnSpan >= 1
    ensures Overlaps(c, cells) <==> exists slot :: slot in Slots(c) && slot in Covered(cells)
  {
    if Overlaps(c, cells) {
      var i :| 0 <= i < |cells| && Meets(c, cells[i]);
      MeetsShareSlot(c, cells[i]);
      var row: nat, column: nat :| Holds(c, row, column) && Holds(cells[i], row, column);
      CoveredOwned(cells, (row, column));
      assert (row, column) in Slots(c);
    }
    if slot :| slot in Slots(c) && slot in Covered(cells) {
      CoveredOwned(cells, slot);
      var i :| 0 <= i < |cells| && Holds(cells[i], slot.0, slot.1);
      assert Holds(c, slot.0, slot.1);
      MeetsShareSlot(c, cells[i]);
    }
  }

  lemma {:induction false} AddCovers(s: State, c: Cell)
    ensures Covered(Add(s, c).cells) == Covered(s.cells) + Slots(c)
  {
    var cells := Add(s, c).cells;
    assert cells[..|s.cells|] == s.cells && cells[..|cells|] == cells;
    CoveredStep(cells, |s.cells|);
  }

  lemma {:induction false} AddIsDisjoint(s: State, c: Cell)
    requires Disjoint(s.cells) && Slots(c) !! Covered(s.cells)
    ensures Disjoint(Add(s, c).cells)
  {
    var cells := Add(s, c).cells;
    assert cells[..|s.cells|] == s.cells && cells[..|cells|] == cells;
    DisjointStep(cells, |s.cells|);
  }

  lemma {:induction false} AddIsSound(s: State, c: Cell, n: nat)
    requires Sound(s, n) && c.rowSpan >= 1 && c.columnSpan >= 1 && c.row + c.rowSpan <= n && !Overlaps(c, s.cells)
    ensures Sound(Add(s, c), n)
    ensures Covered(Add(s, c).cells) == Covered(s.cells) + Slots(c)
  {
    OverlapIsShared(c, s.cells);
    assert Slots(c) !! Covered(s.cells);
    AddCovers(s, c);
    AddIsDisjoint(s, c);
    SlotCount(c);
  }

  lemma {:induction false} PlaceIsSound(reader: Reader, rows: seq<Row>, r: nat, cursor: nat, s: State, e: Entry)
    requires r < |rows| && Sound(s, |rows|) && Place(reader, rows, r, cursor, s, e).Some?
    ensures var t := Place(reader, rows, r, cursor, s, e).value.0; Sound(t, |rows|) && s.columns <= t.columns
  {
    AddIsSound(s, CellAt(reader, rows, r, cursor, s, e).value, |rows|);
  }

  lemma {:induction false} RowIsSound(reader: Reader, rows: seq<Row>, r: nat, k: nat, s: State)
    requires r < |rows| && k <= |rows[r].entries| && Sound(s, |rows|) && PlaceRow(reader, rows, r, k, s).Some?
    ensures Sound(PlaceRow(reader, rows, r, k, s).value.0, |rows|)
    ensures s.columns <= PlaceRow(reader, rows, r, k, s).value.0.columns
  {
    if k > 0 {
      RowIsSound(reader, rows, r, k - 1, s);
      var before := PlaceRow(reader, rows, r, k - 1, s).value;
      PlaceIsSound(reader, rows, r, before.1, before.0, rows[r].entries[k - 1]);
    }
  }

  lemma {:induction false} RowsAreSound(reader: Reader, rows: seq<Row>, k: nat)
    requires k <= |rows| && PlaceRows(reader, rows, k).Some?
    ensures Sound(PlaceRows(reader, rows, k).value, |rows|)
  {
    if k > 0 {
      RowsAreSound(reader, rows, k - 1);
      RowIsSound(reader, rows, k - 1, |rows[k - 1].entries|, PlaceRows(reader, rows, k - 1).value);
    }
  }

  method SkipOccupied(occupied: set<Slot>, ghost cells: seq<Cell>, row: nat, column: nat) returns (c: nat)
    requires occupied == Covered(cells)
    ensures c == FirstFree(cells, row, column)
  {
    c := column;
    CoveredOwned(cells, (row, c));
    while (row, c) in occupied
      invariant column <= c && FirstFree(cells, row, c) == FirstFree(cells, row, column)
      invariant (row, c) in occupied <==> Owned(row, c, cells)
      decreases Reach(cells) - c
    {
      OwnedIsReached(cells, row, c);
      c := c + 1;
      CoveredOwned(cells, (row, c));
    }
  }

  method Admit(reader: Reader, n: nat, cell: Cell, s: State, occupied: set<Slot>) returns (ok: bool)
    requires Sound(s, n) && occupied == Covered(s.cells)
    ensures ok <==> Fits(reader, n, cell, s.used) && !Overlaps(cell, s.cells)
  {
    if !Fits(reader, n, cell, |occupied|) { return false; }
    OverlapIsShared(cell, s.cells);
    var slots := Slots(cell);
    ok := !exists slot :: slot in slots && slot in occupied;
  }

  method PlaceEntry(reader: Reader, rows: seq<Row>, r: nat, cursor: nat, s: State, occupied: set<Slot>, e: Entry)
    returns (result: Option<(State, nat)>, after: set<Slot>)
    requires r < |rows| && Tracks(occupied, s, |rows|)
    ensures result == Place(reader, rows, r, cursor, s, e)
    ensures result.Some? ==> Tracks(after, result.value.0, |rows|)
  {
    after := occupied;
    if e.rowSpan.None? || e.columnSpan.None? { return None, after; }
    var column := SkipOccupied(occupied, s.cells, r, cursor);
    var cell := Cell(r, column, RowSpan(reader, rows, r, e.rowSpan.value), e.columnSpan.value);
    var ok := Admit(reader, |rows|, cell, s, occupied);
    if !ok { return None, after; }
    after := occupied + Slots(cell);
    AddIsSound(s, cell, |rows|);
    result := Some((Add(s, cell), column + cell.columnSpan));
  }

  /** The occupied slots belong to sound cells placed so far. */
  ghost predicate Tracks(occupied: set<Slot>, s: State, n: nat) {
    Sound(s, n) && occupied == Covered(s.cells)
  }

  lemma {:induction false} RowStep(reader: Reader, rows: seq<Row>, r: nat, k: nat, start: State, s: State, cursor: nat)
    requires r < |rows| && k < |rows[r].entries| && PlaceRow(reader, rows, r, k, start) == Some((s, cursor))
    ensures PlaceRow(reader, rows, r, k + 1, start) == Place(reader, rows, r, cursor, s, rows[r].entries[k])
  {}

  /** The cells of one row, left to right. */
  method PlaceRowCells(reader: Reader, rows: seq<Row>, r: nat, start: State, occupied: set<Slot>)
    returns (result: Option<(State, nat)>, after: set<Slot>)
    requires r < |rows| && Tracks(occupied, start, |rows|)
    ensures result == PlaceRow(reader, rows, r, |rows[r].entries|, start)
    ensures result.Some? ==> Tracks(after, result.value.0, |rows|)
  {
    var entries := rows[r].entries;
    var s, column := start, 0;
    after := occupied;
    var i := 0;
    while i < |entries|
      invariant 0 <= i <= |entries| && PlaceRow(reader, rows, r, i, start) == Some((s, column))
      invariant Tracks(after, s, |rows|)
    {
      RowStep(reader, rows, r, i, start, s, column);
      var placed;
      placed, after := PlaceEntry(reader, rows, r, column, s, after, entries[i]);
      i := i + 1;
      if placed.None? {
        RowFails(reader, rows, r, i, |entries|, start);
        return None, after;
      }
      s, column := placed.value.0, placed.value.1;
    }
    result := Some((s, column));
  }

  lemma {:induction false} RowsStep(reader: Reader, rows: seq<Row>, k: nat, s: State)
    requires k < |rows| && PlaceRows(reader, rows, k) == Some(s)
    ensures var now := PlaceRow(reader, rows, k, |rows[k].entries|, s);
      PlaceRows(reader, rows, k + 1) == if now.None? then None else Some(now.value.0)
  {}

  /** The row and column loops of both readers. */
  method PlaceCells(reader: Reader, rows: seq<Row>) returns (result: Option<State>, occupied: set<Slot>)
    ensures result == PlaceRows(reader, rows, |rows|)
    ensures result.Some? ==> Tracks(occupied, result.value, |rows|)
  {
    var s := State([], 0, 0);
    occupied := {};
    var r := 0;
    while r < |rows|
      invariant 0 <= r <= |rows| && PlaceRows(reader, rows, r) == Some(s)
      invariant Tracks(occupied, s, |rows|)
    {
      RowsStep(reader, rows, r, s);
      var placed;
      placed, occupied := PlaceRowCells(reader, rows, r, s, occupied);
      r := r + 1;
      if placed.None? {
        RowsFail(reader, rows, r, |rows|);
        return None, occupied;
      }
      s := placed.value.0;
    }
    result := Some(s);
  }

  /** `HTMLSemantics.table` and `_TableParser.grid` on the rows they read. */
  method ReadTable(reader: Reader, rows: seq<Row>) returns (result: Option<State>)
    ensures result == Build(reader, rows)
  {
    if rows == [] || |rows| > MAX_ROWS { return None; }
    var occupied;
    result, occupied := PlaceCells(reader, rows);
    if result.Some? {
      if reader == Markup && result.value.columns == 0 { return None; }
      if |occupied| != |rows| * result.value.columns { return None; }
    }
  }

  /** A grid either reader returns is tiled exactly. */
  lemma {:induction false} BuildTiles(reader: Reader, rows: seq<Row>)
    requires Build(reader, rows).Some?
    ensures var t := Build(reader, rows).value; Tiles(|rows|, t.columns, t.cells)
  {
    RowsAreSound(reader, rows, |rows|);
    var t := Build(reader, rows).value;
    CountIsCover(t.cells, |rows|, t.columns);
  }

  /** The semantic reader's own span bound, held by every cell. */
  ghost predicate Bounded(s: State) {
    forall i :: 0 <= i < |s.cells| ==>
      (s.cells[i].row + s.cells[i].rowSpan) * (s.cells[i].column + s.cells[i].columnSpan) <= MAX_SLOTS
  }

  lemma {:induction false} PlaceIsBounded(rows: seq<Row>, r: nat, cursor: nat, s: State, e: Entry)
    requires r < |rows| && Bounded(s) && Place(Semantic, rows, r, cursor, s, e).Some?
    ensures Bounded(Place(Semantic, rows, r, cursor, s, e).value.0)
  {}

  lemma {:induction false} RowIsBounded(rows: seq<Row>, r: nat, k: nat, s: State)
    requires r < |rows| && k <= |rows[r].entries| && Bounded(s) && PlaceRow(Semantic, rows, r, k, s).Some?
    ensures Bounded(PlaceRow(Semantic, rows, r, k, s).value.0)
  {
    if k > 0 {
      RowIsBounded(rows, r, k - 1, s);
      var before := PlaceRow(Semantic, rows, r, k - 1, s).value;
      PlaceIsBounded(rows, r, before.1, before.0, rows[r].entries[k - 1]);
    }
  }

  lemma {:induction false} RowsAreBounded(rows: seq<Row>, k: nat)
    requires k <= |rows| && PlaceRows(Semantic, rows, k).Some?
    ensures Bounded(PlaceRows(Semantic, rows, k).value)
  {
    if k > 0 {
      RowsAreBounded(rows, k - 1);
      RowIsBounded(rows, k - 1, |rows[k - 1].entries|, PlaceRows(Semantic, rows, k - 1).value);
    }
  }

  /** The cell in the bottom right corner bounds the whole grid. */
  lemma {:induction false} SemanticCapacity(rows: seq<Row>)
    requires Build(Semantic, rows).Some?
    ensures |rows| * Build(Semantic, rows).value.columns <= MAX_SLOTS
  {
    var t := Build(Semantic, rows).value;
    if t.columns > 0 {
      BuildTiles(Semantic, rows);
      RowsAreBounded(rows, |rows|);
      assert Owned(|rows| - 1, t.columns - 1, t.cells);
      var i :| 0 <= i < |t.cells| && Holds(t.cells[i], |rows| - 1, t.columns - 1);
      assert Inside(t.cells[i], |rows|, t.columns);
      assert t.cells[i].row + t.cells[i].rowSpan == |rows| && t.cells[i].column + t.cells[i].columnSpan == t.columns;
    }
  }
}
