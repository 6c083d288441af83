/** The layout both table readers promise, told over the finished grid
    (src/packages/parsers/semantic.py and table_html.py). */
module TableLayout {
  import opened Wrappers
  import opened Tables
  import opened Placement

  /** The cells in front of row `r`. */
  function FirstCell(rows: seq<Row>, r: nat): nat
    requires r <= |rows|
  {
    if r == 0 then 0 else FirstCell(rows, r - 1) + |rows[r - 1].entries|
  }

  /** A cell takes the rows its tag asks for; zero asks the semantic reader for the rest of the container. */
  ghost predicate TakesRows(reader: Reader, rows: seq<Row>, r: nat, asked: nat, taken: nat)
    requires r < |rows|
  {
    if reader == Markup || asked != 0 then taken == asked
    else
      && 1 <= taken <= |rows| - r
      && (forall k :: r <= k < r + taken ==> rows[k].container == rows[r].container)
      && (r + taken < |rows| ==> rows[r + taken].container != rows[r].container)
  }

  /** The leftmost free column from the cursor on. */
  ghost predicate Leftmost(earlier: seq<Cell>, row: nat, cursor: nat, column: nat) {
    && cursor <= column && !Owned(row, column, earlier)
    && forall k :: cursor <= k < column ==> Owned(row, k, earlier)
  }

  predicate WithinLimits(reader: Reader, n: nat, c: Cell, used: nat) {
    && 1 <= c.rowSpan <= 1000 && 1 <= c.columnSpan <= 1000 && c.row + c.rowSpan <= n
    && match reader
       case Semantic => (c.row + c.rowSpan) * (c.column + c.columnSpan) <= 10000
       case Markup => c.column + c.columnSpan <= 1000 && used + c.rowSpan * c.columnSpan <= 10000
  }

  /** The cell of one tag among the earlier cells. */
  ghost predicate Proper(reader: Reader, rows: seq<Row>, r: nat, cursor: nat, earlier: seq<Cell>, e: Entry, c: Cell)
    requires r < |rows|
  {
    && e.rowSpan.Some? && e.columnSpan.Some? && c.row == r && c.columnSpan == e.columnSpan.value
    && TakesRows(reader, rows, r, e.rowSpan.value, c.rowSpan) && Leftmost(earlier, r, cursor, c.column)
    && WithinLimits(reader, |rows|, c, |Covered(earlier)|) && Slots(c) !! Covered(earlier)
  }

  lemma {:induction false} LeftmostIsFirst(earlier: seq<Cell>, row: nat, cursor: nat, column: nat)
    ensures Leftmost(earlier, row, cursor, column) <==> column == FirstFree(earlier, row, cursor)
  {
    FirstFreeIsLeftmost(earlier, row, cursor);
  }

  lemma {:induction false} RowsAsAsked(reader: Reader, rows: seq<Row>, r: nat, asked: nat, taken: nat)
    requires r < |rows|
    ensures TakesRows(reader, rows, r, asked, taken) <==> taken == RowSpan(reader, rows, r, asked)
  {
    if reader == Semantic && asked == 0 {
      var _ := SectionEnd(rows, r, r + 1);
    }
  }

  /** One placement step accepts a tag exactly when its cell is proper, and adds that cell. */
  lemma {:induction false} PlaceExactly(reader: Reader, rows: seq<Row>, r: nat, cursor: nat, s: State, e: Entry,
    c: Cell)
    requires r < |rows| && Sound(s, |rows|)
    ensures Proper(reader, rows, r, cursor, s.cells, e, c) <==>
      Place(reader, rows, r, cursor, s, e) == Some((Add(s, c), c.column + c.columnSpan))
  {
    if e.rowSpan.Some? && e.columnSpan.Some? {
      LeftmostIsFirst(s.cells, r, cursor, c.column);
      RowsAsAsked(reader, rows, r, e.rowSpan.value, c.rowSpan);
      var cell := CellAt(reader, rows, r, cursor, s, e).value;
      if c == cell {
        ProperOrNot(reader, |rows|, s, c);
      } else {
        assert Add(s, c).cells[|s.cells|] != Add(s, cell).cells[|s.cells|];
      }
    }
  }

  lemma {:induction false} ProperOrNot(reader: Reader, n: nat, s: State, c: Cell)
    requires Sound(s, n)
    ensures WithinLimits(reader, n, c, |Covered(s.cells)|) && Slots(c) !! Covered(s.cells)
      <==> Fits(reader, n, c, s.used) && !Overlaps(c, s.cells)
  {
    if c.rowSpan >= 1 && c.columnSpan >= 1 { OverlapIsShared(c, s.cells); }
  }

  /** The cell of entry `i` of row `r` in the finished list. */
  ghost predicate PlacedAt(reader: Reader, rows: seq<Row>, cells: seq<Cell>, r: nat, i: nat)
    requires r < |rows| && i < |rows[r].entries|
  {
    var p := FirstCell(rows, r) + i;
    p < |cells| && Proper(reader, rows, r, Cursor(cells, p, i), cells[..p], rows[r].entries[i], cells[p])
  }

  /** Where the search for a cell starts: at the left edge, or behind the cell before it in the row. */
  function Cursor(cells: seq<Cell>, p: nat, i: nat): nat
    requires i <= p <= |cells|
  {
    if i == 0 then 0 else cells[p - 1].column + cells[p - 1].columnSpan
  }

  ghost predicate RowPlaced(reader: Reader, rows: seq<Row>, cells: seq<Cell>, r: nat, k: nat)
    requires r < |rows| && k <= |rows[r].entries|
  {
    forall i :: 0 <= i < k ==> PlacedAt(reader, rows, cells, r, i)
  }

  /** Every tag of the table has its cell, and there are no others. */
  ghost predicate LaidOut(reader: Reader, rows: seq<Row>, cells: seq<Cell>) {
    |cells| == FirstCell(rows, |rows|) && RowsPlaced(reader, rows, cells, |rows|)
  }

  ghost predicate RowsPlaced(reader: Reader, rows: seq<Row>, cells: seq<Cell>, n: nat)
    requires n <= |rows|
  {
    forall r :: 0 <= r < n ==> RowPlaced(reader, rows, cells, r, |rows[r].entries|)
  }

  lemma {:induction false} PlacedIsStable(reader: Reader, rows: seq<Row>, a: seq<Cell>, b: seq<Cell>, r: nat, i: nat)
    requires r < |rows| && i < |rows[r].entries| && a <= b && FirstCell(rows, r) + i < |a|
    ensures PlacedAt(reader, rows, a, r, i) <==> PlacedAt(reader, rows, b, r, i)
  {
    var p := FirstCell(rows, r) + i;
    assert a[..p] == b[..p];
  }

  /** The state holds the first cells of the list, and the columns they reach. */
  ghost predicate Holds(s: State, cells: seq<Cell>, p: nat) {
    p <= |cells| && s.cells == cells[..p] && s.columns == Reach(s.cells)
  }

  lemma {:induction false} AddHolds(s: State, cells: seq<Cell>, p: nat)
    requires Holds(s, cells, p) && p < |cells|
    ensures Holds(Add(s, cells[p]), cells, p + 1)
  {
    assert Add(s, cells[p]).cells[..|s.cells|] == s.cells;
    assert cells[..p] + [cells[p]] == cells[..p + 1];
  }

  /** A proper cell is placed. */
  lemma {:induction false} PlacesCell(reader: Reader, rows: seq<Row>, cells: seq<Cell>, r: nat, i: nat, p: nat,
      u: State, e: Entry)
    requires r < |rows| && i <= p < |cells| && Sound(u, |rows|) && Holds(u, cells, p)
    requires Proper(reader, rows, r, Cursor(cells, p, i), cells[..p], e, cells[p])
    ensures Holds(Add(u, cells[p]), cells, p + 1)
    ensures Place(reader, rows, r, Cursor(cells, p, i), u, e)
      == Some((Add(u, cells[p]), Cursor(cells, p + 1, i + 1)))
  {
    PlaceExactly(reader, rows, r, Cursor(cells, p, i), u, e, cells[p]);
    AddHolds(u, cells, p);
  }

  /** The row that starts at cell `p`, up to its tag `k`, as the list tells it. */
  ghost predicate RowStands(reader: Reader, rows: seq<Row>, cells: seq<Cell>, r: nat, p: nat, k: nat, s: State,
      t: State)
  {
    && r < |rows| && k <= |rows[r].entries| && p + k <= |cells|
    && Holds(t, cells, p + k) && PlaceRow(reader, rows, r, k, s) == Some((t, Cursor(cells, p + k, k)))
  }

  lemma {:induction false} EntryOfRow(reader: Reader, rows: seq<Row>, cells: seq<Cell>, r: nat, i: nat)
    requires r < |rows| && i < |rows[r].entries| && RowPlaced(reader, rows, cells, r, |rows[r].entries|)
    ensures var p := FirstCell(rows, r) + i;
      p < |cells| && Proper(reader, rows, r, Cursor(cells, p, i), cells[..p], rows[r].entries[i], cells[p])
  {
    assert PlacedAt(reader, rows, cells, r, i);
  }

  lemma {:induction false} RowStandsOn(reader: Reader, rows: seq<Row>, cells: seq<Cell>, r: nat, p: nat, k: nat,
      s: State, u: State)
    requires r < |rows| && k < |rows[r].entries| && p + k < |cells| && Sound(u, |rows|)
    requires RowStands(reader, rows, cells, r, p, k, s, u)
    requires Proper(reader, rows, r, Cursor(cells, p + k, k), cells[..p + k], rows[r].entries[k], cells[p + k])
    ensures RowStands(reader, rows, cells, r, p, k + 1, s, Add(u, cells[p + k]))
  {
    RowStep(reader, rows, r, k, s, u, Cursor(cells, p + k, k));
    PlacesCell(reader, rows, cells, r, k, p + k, u, rows[r].entries[k]);
  }

  /** Row `r` starts at cell `p` with everything before it placed. */
  ghost predicate RowReady(reader: Reader, rows: seq<Row>, cells: seq<Cell>, r: nat, p: nat, s: State) {
    && r < |rows| && RowsPlaced(reader, rows, cells, r + 1) && p == FirstCell(rows, r)
    && Holds(s, cells, p) && PlaceRows(reader, rows, r) == Some(s)
  }

  lemma {:induction false} NextStands(reader: Reader, rows: seq<Row>, cells: seq<Cell>, r: nat, k: nat, p: nat,
      s: State, u: State) returns (t: State)
    requires RowReady(reader, rows, cells, r, p, s) && RowStands(reader, rows, cells, r, p, k, s, u)
    requires k < |rows[r].entries|
    ensures RowStands(reader, rows, cells, r, p, k + 1, s, t)
  {
    EntryOfRow(reader, rows, cells, r, k);
    RowsAreSound(reader, rows, r);
    RowIsSound(reader, rows, r, k, s);
    RowStandsOn(reader, rows, cells, r, p, k, s, u);
    t := Add(u, cells[p + k]);
  }

  lemma {:induction false} RowBegins(reader: Reader, rows: seq<Row>, cells: seq<Cell>, r: nat, p: nat, s: State)
    requires RowReady(reader, rows, cells, r, p, s)
    ensures RowStands(reader, rows, cells, r, p, 0, s, s)
  {}

  /** A row whose tags have their cells is placed. */
  lemma {:induction false} PlacesRow(reader: Reader, rows: seq<Row>, cells: seq<Cell>, r: nat, k: nat, p: nat, s: State)
      returns (t: State)
    requires RowReady(reader, rows, cells, r, p, s) && k <= |rows[r].entries|
    ensures RowStands(reader, rows, cells, r, p, k, s, t)
    decreases k
  {
    if k == 0 {
      t := s;
      RowBegins(reader, rows, cells, r, p, s);
    } else {
      var u := PlacesRow(reader, rows, cells, r, k - 1, p, s);
      t := NextStands(reader, rows, cells, r, k - 1, p, s, u);
    }
  }

  lemma {:induction false} PlacesRows(reader: Reader, rows: seq<Row>, cells: seq<Cell>, k: nat) returns (t: State)
    requires k <= |rows| && RowsPlaced(reader, rows, cells, k)
    ensures PlaceRows(reader, rows, k) == Some(t) && Holds(t, cells, FirstCell(rows, k))
  {
    if k == 0 {
      t := State([], 0, 0);
      assert cells[..0] == [];
    } else {
      var u := PlacesRows(reader, rows, cells, k - 1);
      t := PlacesRow(reader, rows, cells, k - 1, |rows[k - 1].entries|, FirstCell(rows, k - 1), u);
    }
  }

  lemma {:induction false} EntryIsPlaced(reader: Reader, rows: seq<Row>, r: nat, i: nat, u: State, cursor: nat)
      returns (t: State)
    requires r < |rows| && i < |rows[r].entries| && Sound(u, |rows|) && |u.cells| == FirstCell(rows, r) + i
    requires cursor == Cursor(u.cells, |u.cells|, i) && RowPlaced(reader, rows, u.cells, r, i)
    requires Place(reader, rows, r, cursor, u, rows[r].entries[i]).Some?
    ensures |t.cells| == |u.cells| + 1 && u.cells <= t.cells && RowPlaced(reader, rows, t.cells, r, i + 1)
    ensures Place(reader, rows, r, cursor, u, rows[r].entries[i]) == Some((t, Cursor(t.cells, |t.cells|, i + 1)))
  {
    var e := rows[r].entries[i];
    var c := CellAt(reader, rows, r, cursor, u, e).value;
    PlaceExactly(reader, rows, r, cursor, u, e, c);
    t := Add(u, c);
    LastIsPlaced(reader, rows, r, i, u, c);
    forall m | 0 <= m < i ensures PlacedAt(reader, rows, t.cells, r, m) {
      assert PlacedAt(reader, rows, u.cells, r, m);
      PlacedIsStable(reader, rows, u.cells, t.cells, r, m);
    }
  }

  lemma {:induction false} LastIsPlaced(reader: Reader, rows: seq<Row>, r: nat, i: nat, u: State, c: Cell)
    requires r < |rows| && i < |rows[r].entries| && |u.cells| == FirstCell(rows, r) + i
    requires Proper(reader, rows, r, Cursor(u.cells, |u.cells|, i), u.cells, rows[r].entries[i], c)
    ensures PlacedAt(reader, rows, u.cells + [c], r, i)
  {
    assert (u.cells + [c])[..|u.cells|] == u.cells;
  }

  /** A placed row gives each of its tags a cell, behind the cells before it. */
  lemma {:induction false} RowIsPlaced(reader: Reader, rows: seq<Row>, r: nat, k: nat, s: State)
    requires r < |rows| && k <= |rows[r].entries| && PlaceRow(reader, rows, r, k, s).Some?
    requires Sound(s, |rows|) && |s.cells| == FirstCell(rows, r)
    ensures var (t, cursor) := PlaceRow(reader, rows, r, k, s).value;
      && s.cells <= t.cells && |t.cells| == FirstCell(rows, r) + k && cursor == Cursor(t.cells, |t.cells|, k)
      && RowPlaced(reader, rows, t.cells, r, k)
  {
    if k > 0 {
      RowIsPlaced(reader, rows, r, k - 1, s);
      RowIsSound(reader, rows, r, k - 1, s);
      var before := PlaceRow(reader, rows, r, k - 1, s).value;
      var _ := EntryIsPlaced(reader, rows, r, k - 1, before.0, before.1);
    }
  }

  lemma {:induction false} RowsArePlaced(reader: Reader, rows: seq<Row>, k: nat)
    requires k <= |rows| && PlaceRows(reader, rows, k).Some?
    ensures var t := PlaceRows(reader, rows, k).value;
      |t.cells| == FirstCell(rows, k) && RowsPlaced(reader, rows, t.cells, k)
  {
    if k > 0 {
      RowsArePlaced(reader, rows, k - 1);
      RowsAreSound(reader, rows, k - 1);
      var u, n := PlaceRows(reader, rows, k - 1).value, |rows[k - 1].entries|;
      RowIsPlaced(reader, rows, k - 1, n, u);
      var t := PlaceRow(reader, rows, k - 1, n, u).value.0;
      forall r | 0 <= r < k - 1 ensures RowPlaced(reader, rows, t.cells, r, |rows[r].entries|) {
        RowIsStable(reader, rows, u.cells, t.cells, r);
      }
    }
  }

  lemma {:induction false} RowIsStable(reader: Reader, rows: seq<Row>, a: seq<Cell>, b: seq<Cell>, r: nat)
    requires r < |rows| && a <= b && RowPlaced(reader, rows, a, r, |rows[r].entries|)
    ensures RowPlaced(reader, rows, b, r, |rows[r].entries|)
  {
    forall i | 0 <= i < |rows[r].entries| ensures PlacedAt(reader, rows, b, r, i) {
      assert PlacedAt(reader, rows, a, r, i);
      PlacedIsStable(reader, rows, a, b, r, i);
    }
  }

  /** The table the cells make: one to a thousand rows, every tag with its cell, and no gap. */
  ghost predicate Makes(reader: Reader, rows: seq<Row>, cells: seq<Cell>) {
    && 1 <= |rows| <= 1000 && LaidOut(reader, rows, cells) && Tiles(|rows|, Reach(cells), cells)
    && (reader == Markup ==> Reach(cells) > 0)
  }

  /** A reader returns exactly the cells that make the table, and rejects it when there are none: every
      tag in order, as wide and as tall as it asks, at the leftmost free place of its row. */
  lemma {:induction false} ReadsExactly(reader: Reader, rows: seq<Row>, cells: seq<Cell>)
    ensures Makes(reader, rows, cells) <==> Build(reader, rows).Some? && Build(reader, rows).value.cells == cells
    ensures Build(reader, rows).Some? ==> Build(reader, rows).value.columns == Reach(Build(reader, rows).value.cells)
  {
    if LaidOut(reader, rows, cells) {
      var t := PlacesRows(reader, rows, cells, |rows|);
      RowsAreSound(reader, rows, |rows|);
      assert cells[..|cells|] == cells;
      CountIsCover(cells, |rows|, t.columns);
    }
    if Build(reader, rows).Some? {
      RowsArePlaced(reader, rows, |rows|);
      BuildTiles(reader, rows);
      var found := Build(reader, rows).value.cells;
      var t := PlacesRows(reader, rows, found, |rows|);
    }
  }
}
