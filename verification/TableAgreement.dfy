/** What the readers promise their checkers, and each other. */
module TableAgreement {
  import opened Wrappers
  import opened Tables
  import opened Placement

  lemma {:induction false} ProductMono(a: nat, b: nat, n: nat, m: nat)
    requires a <= n && b <= m
    ensures a * b <= n * m
  {
    assert a * b <= n * b by { assert (n - a) * b >= 0; }
    assert n * b <= n * m by { assert n * (m - b) >= 0; }
  }

  lemma {:induction false} UsedWithin(s: State, n: nat)
    requires Sound(s, n)
    ensures s.used <= n * s.columns
  {
    CountIsCover(s.cells, n, s.columns);
  }

  /** No cell asks to reach the end of its section. */
  ghost predicate PlainSpans(rows: seq<Row>) {
    forall r, i :: 0 <= r < |rows| && 0 <= i < |rows[r].entries| ==> rows[r].entries[i].rowSpan != Some(0)
  }

  lemma {:induction false} FitsAgree(n: nat, c: Cell, used: nat, m: nat)
    requires c.column + c.columnSpan <= m && n * m <= MAX_SLOTS
    ensures Fits(Markup, n, c, used) ==> Fits(Semantic, n, c, used)
    ensures Fits(Semantic, n, c, used) && m <= 1000 && used + Size(c) <= MAX_SLOTS ==> Fits(Markup, n, c, used)
  {
    if c.row + c.rowSpan <= n {
      ProductMono(c.row + c.rowSpan, c.column + c.columnSpan, n, m);
      ProductMono(c.rowSpan, c.columnSpan, n, m);
    }
  }

  lemma {:induction false} CellAgrees(rows: seq<Row>, r: nat, cursor: nat, s: State, e: Entry)
    requires r < |rows| && e.rowSpan != Some(0)
    ensures CellAt(Markup, rows, r, cursor, s, e) == CellAt(Semantic, rows, r, cursor, s, e)
  {}

  lemma {:induction false} MarkupRoom(n: nat, s: State, c: Cell, m: nat)
    requires Sound(s, n) && Fits(Semantic, n, c, s.used) && !Overlaps(c, s.cells)
    requires Add(s, c).columns <= m && n * m <= MAX_SLOTS
    ensures s.used + Size(c) <= MAX_SLOTS
  {
    AddIsSound(s, c, n);
    UsedWithin(Add(s, c), n);
    ProductMono(n, Add(s, c).columns, n, m);
  }

  /** Within the final width both readers place a cell alike. */
  lemma {:induction false} PlaceAgrees(rows: seq<Row>, r: nat, cursor: nat, s: State, e: Entry, reader: Reader, m: nat)
    requires r < |rows| && e.rowSpan != Some(0) && Sound(s, |rows|)
    requires Place(reader, rows, r, cursor, s, e).Some? && Place(reader, rows, r, cursor, s, e).value.0.columns <= m
    requires m <= 1000 && |rows| * m <= MAX_SLOTS
    ensures Place(Markup, rows, r, cursor, s, e) == Place(Semantic, rows, r, cursor, s, e)
  {
    CellAgrees(rows, r, cursor, s, e);
    var c := CellAt(reader, rows, r, cursor, s, e).value;
    if reader == Semantic { MarkupRoom(|rows|, s, c, m); }
    FitsAgree(|rows|, c, s.used, m);
  }

  lemma {:induction false} RowAgrees(rows: seq<Row>, r: nat, k: nat, s: State, reader: Reader, m: nat)
    requires r < |rows| && k <= |rows[r].entries| && PlainSpans(rows) && Sound(s, |rows|)
    requires PlaceRow(reader, rows, r, k, s).Some? && PlaceRow(reader, rows, r, k, s).value.0.columns <= m
    requires m <= 1000 && |rows| * m <= MAX_SLOTS
    ensures PlaceRow(Markup, rows, r, k, s) == PlaceRow(Semantic, rows, r, k, s)
  {
    if k > 0 {
      var before := PlaceRow(reader, rows, r, k - 1, s).value;
      var e := rows[r].entries[k - 1];
      RowIsSound(reader, rows, r, k - 1, s);
      PlaceIsSound(reader, rows, r, before.1, before.0, e);
      RowAgrees(rows, r, k - 1, s, reader, m);
      PlaceAgrees(rows, r, before.1, before.0, e, reader, m);
    }
  }

  /** The rows before the last one are sound and no wider. */
  lemma {:induction false} RowsBefore(rows: seq<Row>, k: nat, reader: Reader, m: nat)
    requires 0 < k <= |rows| && PlaceRows(reader, rows, k).Some? && PlaceRows(reader, rows, k).value.columns <= m
    ensures PlaceRows(reader, rows, k - 1).Some?
    ensures var before := PlaceRows(reader, rows, k - 1).value;
      && Sound(before, |rows|) && before.columns <= m
      && var row := PlaceRow(reader, rows, k - 1, |rows[k - 1].entries|, before);
         row.Some? && row.value.0.columns <= m
  {
    RowsAreSound(reader, rows, k - 1);
    RowIsSound(reader, rows, k - 1, |rows[k - 1].entries|, PlaceRows(reader, rows, k - 1).value);
  }

  lemma {:induction false} RowsAgree(rows: seq<Row>, k: nat, reader: Reader, m: nat)
    requires k <= |rows| && PlainSpans(rows)
    requires PlaceRows(reader, rows, k).Some? && PlaceRows(reader, rows, k).value.columns <= m
    requires m <= 1000 && |rows| * m <= MAX_SLOTS
    ensures PlaceRows(Markup, rows, k) == PlaceRows(Semantic, rows, k)
  {
    if k > 0 {
      RowsBefore(rows, k, reader, m);
      RowsAgree(rows, k - 1, reader, m);
      RowAgrees(rows, k - 1, |rows[k - 1].entries|, PlaceRows(reader, rows, k - 1).value, reader, m);
    }
  }

  lemma {:induction false} PlaceIsNarrow(rows: seq<Row>, r: nat, cursor: nat, s: State, e: Entry)
    requires r < |rows| && s.columns <= 1000 && s.used <= MAX_SLOTS && Place(Markup, rows, r, cursor, s, e).Some?
    ensures var t := Place(Markup, rows, r, cursor, s, e).value.0; t.columns <= 1000 && t.used <= MAX_SLOTS
  {
  }

  lemma {:induction false} RowIsNarrow(rows: seq<Row>, r: nat, k: nat, s: State)
    requires r < |rows| && k <= |rows[r].entries| && s.columns <= 1000 && s.used <= MAX_SLOTS
    requires PlaceRow(Markup, rows, r, k, s).Some?
    ensures var t := PlaceRow(Markup, rows, r, k, s).value.0; t.columns <= 1000 && t.used <= MAX_SLOTS
  {
    if k > 0 {
      RowIsNarrow(rows, r, k - 1, s);
      var before := PlaceRow(Markup, rows, r, k - 1, s).value;
      PlaceIsNarrow(rows, r, before.1, before.0, rows[r].entries[k - 1]);
    }
  }

  lemma {:induction false} RowsAreNarrow(rows: seq<Row>, k: nat)
    requires k <= |rows| && PlaceRows(Markup, rows, k).Some?
    ensures var t := PlaceRows(Markup, rows, k).value; t.columns <= 1000 && t.used <= MAX_SLOTS
  {
    if k > 0 {
      RowsAreNarrow(rows, k - 1);
      RowIsNarrow(rows, k - 1, |rows[k - 1].entries|, PlaceRows(Markup, rows, k - 1).value);
    }
  }

  /** On tables without zero row spans the two readers accept the same tables and lay them out the
      same, except that the markup reader refuses tables without columns and beyond a thousand. */
  lemma {:induction false} ReadersAgree(rows: seq<Row>)
    requires PlainSpans(rows)
    ensures Build(Markup, rows).Some? <==>
      Build(Semantic, rows).Some? && 0 < Build(Semantic, rows).value.columns <= 1000
    ensures Build(Markup, rows).Some? ==> Build(Markup, rows) == Build(Semantic, rows)
  {
    if Build(Markup, rows).Some? {
      RowsAreNarrow(rows, |rows|);
      RowsAgree(rows, |rows|, Markup, Build(Markup, rows).value.columns);
    }
    if Build(Semantic, rows).Some? && 0 < Build(Semantic, rows).value.columns <= 1000 {
      SemanticCapacity(rows);
      RowsAgree(rows, |rows|, Semantic, Build(Semantic, rows).value.columns);
    }
  }

  /** The offsets and spans both readers write for a placed cell. */
  function ToOffsets(cells: seq<Cell>): (offsets: seq<Offsets>)
    ensures |offsets| == |cells|
    ensures forall i :: 0 <= i < |cells| ==> offsets[i] == CellOffsets(cells[i])
  {
    seq(|cells|, i requires 0 <= i < |cells| => CellOffsets(cells[i]))
  }

  function CellOffsets(c: Cell): Offsets {
    Offsets(c.row, c.row + c.rowSpan, c.column, c.column + c.columnSpan, Some(c.rowSpan), Some(c.columnSpan))
  }

  lemma {:induction false} ReaderOffsets(reader: Reader, rows: seq<Row>)
    requires Build(reader, rows).Some?
    ensures var t := Build(reader, rows).value;
      && AsCells(ToOffsets(t.cells)) == t.cells
      && forall i :: 0 <= i < |t.cells| ==> WellFormed(ToOffsets(t.cells)[i], |rows|, t.columns)
  {
    RowsAreSound(reader, rows, |rows|);
    var t := Build(reader, rows).value;
    forall i | 0 <= i < |t.cells|
      ensures WellFormed(ToOffsets(t.cells)[i], |rows|, t.columns) && AsCells(ToOffsets(t.cells))[i] == t.cells[i]
    {
      assert Inside(t.cells[i], |rows|, t.columns);
    }
  }

  /** `table_grid_complete` accepts every table the markup reader returns. */
  lemma {:induction false} MarkupIsComplete(rows: seq<Row>)
    requires Build(Markup, rows).Some?
    ensures var t := Build(Markup, rows).value; Complete(|rows|, t.columns, ToOffsets(t.cells))
  {
    var t := Build(Markup, rows).value;
    BuildTiles(Markup, rows);
    ReaderOffsets(Markup, rows);
    RowsAreNarrow(rows, |rows|);
  }

  /** `table_grid_complete` accepts a table of the semantic reader exactly when it has between one
      and a thousand columns. */
  lemma {:induction false} SemanticIsComplete(rows: seq<Row>)
    requires Build(Semantic, rows).Some?
    ensures var t := Build(Semantic, rows).value;
      Complete(|rows|, t.columns, ToOffsets(t.cells)) <==> 0 < t.columns <= 1000
  {
    BuildTiles(Semantic, rows);
    ReaderOffsets(Semantic, rows);
    SemanticCapacity(rows);
  }

  /** A row joins the last group when the section is the same, and starts a group otherwise. */
  function JoinRow(groups: seq<RowGroup>, section: Section, r: nat): seq<RowGroup> {
    if groups == [] || groups[|groups| - 1].section != section then groups + [RowGroup(section, r, r + 1)]
    else groups[..|groups| - 1] + [groups[|groups| - 1].(end := r + 1)]
  }

  /** The row groups a reader collects from the first `k` rows. */
  function RowGroups(rows: seq<Row>, k: nat): (groups: seq<RowGroup>)
    requires k <= |rows|
  {
    if k == 0 then [] else JoinRow(RowGroups(rows, k - 1), rows[k - 1].section, k - 1)
  }

  ghost predicate OneSection(g: RowGroup, rows: seq<Row>) {
    g.end <= |rows| && forall r :: g.start <= r < g.end ==> rows[r].section == g.section
  }

  ghost predicate NeighboursDiffer(groups: seq<RowGroup>) {
    forall i :: 0 < i < |groups| ==> groups[i].section != groups[i - 1].section
  }

  ghost predicate OneSectionEach(groups: seq<RowGroup>, rows: seq<Row>) {
    forall i :: 0 <= i < |groups| ==> OneSection(groups[i], rows)
  }

  lemma {:induction false} JoinPartitions(groups: seq<RowGroup>, section: Section, r: nat)
    requires RowGroupsPartition(groups, r) && (groups == [] <==> r == 0) && NeighboursDiffer(groups)
    ensures var next := JoinRow(groups, section, r);
      RowGroupsPartition(next, r + 1) && next != [] && NeighboursDiffer(next)
  {
    var next := JoinRow(groups, section, r);
    forall i | 0 <= i < |next| ensures Follows(next, i) {
      if i < |groups| { assert Follows(groups, i); }
    }
  }

  lemma {:induction false} JoinKeepsSections(groups: seq<RowGroup>, rows: seq<Row>, r: nat)
    requires r < |rows| && RowGroupsPartition(groups, r) && OneSectionEach(groups, rows)
    ensures OneSectionEach(JoinRow(groups, rows[r].section, r), rows)
  {}

  ghost predicate GroupsExact(groups: seq<RowGroup>, rows: seq<Row>, k: nat) {
    && RowGroupsPartition(groups, k) && (groups == [] <==> k == 0)
    && OneSectionEach(groups, rows) && NeighboursDiffer(groups)
  }

  lemma {:induction false} NoRowsIsExact(rows: seq<Row>)
    ensures GroupsExact([], rows, 0)
  {}

  lemma {:induction false} NextRowIsExact(rows: seq<Row>, groups: seq<RowGroup>, k: nat)
    requires k < |rows| && GroupsExact(groups, rows, k)
    ensures GroupsExact(JoinRow(groups, rows[k].section, k), rows, k + 1)
  {
    JoinPartitions(groups, rows[k].section, k);
    JoinKeepsSections(groups, rows, k);
  }

  /** Groups partition the rows, hold one section each, and neighbours differ. */
  lemma {:induction false} RowGroupsAreExact(rows: seq<Row>, k: nat)
    requires k <= |rows|
    ensures GroupsExact(RowGroups(rows, k), rows, k)
  {
    if k > 0 {
      RowGroupsAreExact(rows, k - 1);
      NextRowIsExact(rows, RowGroups(rows, k - 1), k - 1);
    } else {
      NoRowsIsExact(rows);
    }
  }

  method CollectRowGroups(rows: seq<Row>) returns (groups: seq<RowGroup>)
    ensures groups == RowGroups(rows, |rows|)
  {
    groups := [];
    for r := 0 to |rows|
      invariant groups == RowGroups(rows, r)
    {
      var n := |groups|;
      if groups == [] || groups[n - 1].section != rows[r].section {
        groups := groups + [RowGroup(rows[r].section, r, r + 1)];
      } else {
        groups := groups[..n - 1] + [groups[n - 1].(end := r + 1)];
      }
    }
  }

  /** A column group: its column elements' spans, or its own; None is not one to four digits. */
  datatype GroupTag = GroupTag(columns: seq<Option<nat>>, own: Option<nat>)

  function TagSpans(t: GroupTag): seq<Option<nat>> {
    if t.columns != [] then t.columns else [t.own]
  }

  predicate ValidSpans(spans: seq<Option<nat>>) {
    forall i :: 0 <= i < |spans| ==> spans[i].Some? && 1 <= spans[i].value <= 1000
  }

  function Total(spans: seq<Option<nat>>): (n: nat)
    requires ValidSpans(spans)
    ensures n >= |spans|
  {
    if spans == [] then 0 else Total(spans[..|spans| - 1]) + spans[|spans| - 1].value
  }

  datatype Columns = Columns(groups: seq<ColumnGroup>, next: nat)

  /** Bad tags are skipped. */
  function JoinTag(c: Columns, spans: seq<Option<nat>>, columns: nat): Columns {
    if !ValidSpans(spans) || c.next + Total(spans) > columns then c
    else Columns(c.groups + [ColumnGroup(c.next, c.next + Total(spans))], c.next + Total(spans))
  }

  /** The column groups of the first `k` tags and the next free column. */
  function ColumnGroups(tags: seq<GroupTag>, columns: nat, k: nat): Columns
    requires k <= |tags|
  {
    if k == 0 then Columns([], 0) else JoinTag(ColumnGroups(tags, columns, k - 1), TagSpans(tags[k - 1]), columns)
  }

  ghost predicate ColumnsInOrder(c: Columns, columns: nat) {
    && ColumnGroupsOrdered(c.groups, columns)
    && c.next == if c.groups == [] then 0 else c.groups[|c.groups| - 1].end
  }

  lemma {:induction false} JoinKeepsOrder(c: Columns, spans: seq<Option<nat>>, columns: nat)
    requires ColumnsInOrder(c, columns) && spans != []
    ensures ColumnsInOrder(JoinTag(c, spans, columns), columns)
  {
    if ValidSpans(spans) && c.next + Total(spans) <= columns {
      var end := c.next + Total(spans);
      assert c.next < end;
    }
  }

  lemma {:induction false} ColumnGroupsAreOrdered(tags: seq<GroupTag>, columns: nat, k: nat)
    requires k <= |tags|
    ensures ColumnsInOrder(ColumnGroups(tags, columns, k), columns)
  {
    if k > 0 {
      ColumnGroupsAreOrdered(tags, columns, k - 1);
      JoinKeepsOrder(ColumnGroups(tags, columns, k - 1), TagSpans(tags[k - 1]), columns);
    }
  }

  /** Spans add up. */
  lemma {:induction false} TotalIsSum(a: seq<Option<nat>>, b: seq<Option<nat>>, n: nat)
    requires ValidSpans(a) && ValidSpans(b) && 1 <= n <= 1000
    ensures Total([Some(n)]) == n && ValidSpans(a + b) && Total(a + b) == Total(a) + Total(b)
  {
    assert [Some(n)][..0] == [];
    if b == [] {
      assert a + b == a;
    } else {
      assert (a + b)[..|a + b| - 1] == a + b[..|b| - 1];
      TotalIsSum(a, b[..|b| - 1], n);
    }
  }

  /** The columns the groups cover so far. */
  function Covered(groups: seq<ColumnGroup>): nat {
    if groups == [] then 0 else groups[|groups| - 1].end
  }

  /** The tag's columns, or its own when it has none, each spanning one to a thousand. */
  predicate GoodTag(t: GroupTag) {
    if t.columns == [] then t.own.Some? && 1 <= t.own.value <= 1000
    else forall i :: 0 <= i < |t.columns| ==> t.columns[i].Some? && 1 <= t.columns[i].value <= 1000
  }

  function TagWidth(t: GroupTag): nat
    requires GoodTag(t)
  {
    if t.columns == [] then t.own.value else Total(t.columns)
  }

  /** A good tag with room left covers the next columns, as many as it spans; any other tag adds no
      group and takes no column. */
  lemma {:induction false} TagCoversItsSpans(tags: seq<GroupTag>, columns: nat, k: nat)
    requires k < |tags|
    ensures var before, t := ColumnGroups(tags, columns, k).groups, tags[k];
      ColumnGroups(tags, columns, k + 1).groups ==
        if GoodTag(t) && Covered(before) + TagWidth(t) <= columns
        then before + [ColumnGroup(Covered(before), Covered(before) + TagWidth(t))] else before
  {
    ColumnGroupsAreOrdered(tags, columns, k);
    if tags[k].columns == [] && GoodTag(tags[k]) { TotalIsSum([], [], tags[k].own.value); }
  }

  method CollectColumnGroups(tags: seq<GroupTag>, columns: nat) returns (groups: seq<ColumnGroup>)
    ensures groups == ColumnGroups(tags, columns, |tags|).groups
  {
    groups := [];
    var column: nat := 0;
    for k := 0 to |tags|
      invariant ColumnGroups(tags, columns, k) == Columns(groups, column)
    {
      var spans := TagSpans(tags[k]);
      if ValidSpans(spans) {
        var end := column + Total(spans);
        if end <= columns {
          groups, column := groups + [ColumnGroup(column, end)], end;
        }
      }
    }
  }

  /** The table the semantic reader hands on. */
  function SemanticGrid(rows: seq<Row>, tags: seq<GroupTag>): Option<Grid> {
    var t := Build(Semantic, rows);
    if t.None? then None
    else
      Some(Grid(|rows|, t.value.columns, t.value.cells, RowGroups(rows, |rows|),
        ColumnGroups(tags, t.value.columns, |tags|).groups))
  }

  /** Publication accepts the grid of every table the semantic reader returns. */
  lemma {:induction false} SemanticGridIsAccepted(rows: seq<Row>, tags: seq<GroupTag>)
    requires SemanticGrid(rows, tags).Some?
    ensures var g := SemanticGrid(rows, tags).value; GridAccepted(g) && g.rows * g.columns <= MAX_SLOTS
  {
    BuildTiles(Semantic, rows);
    SemanticCapacity(rows);
    RowGroupsAreExact(rows, |rows|);
    ColumnGroupsAreOrdered(tags, Build(Semantic, rows).value.columns, |tags|);
  }
}
