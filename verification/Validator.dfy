/** Acceptance of a document source (src/packages/ir/validator.py, `validate_source`). */
module Validator {
  import opened Wrappers
  import opened Tables
  import opened Documents
  import opened Normalization

  const MAX_BLOCKS := 10000
  const MAX_OWNERS := 64

  predicate Prose(k: Kind) {
    k in {Heading, Paragraph, ListItem, Caption, TableCell, Footnote}
  }

  function Ids(blocks: seq<Block>): set<Id> {
    set i | 0 <= i < |blocks| :: blocks[i].id
  }

  /** Parents lead to a block without one, and no block comes twice on the way. */
  predicate ParentsEnd(blocks: seq<Block>, b: Block, seen: set<Id>)
    requires b in blocks
    decreases |Ids(blocks) - seen|
  {
    b.parent.None? ||
      (b.id !in seen && Find(blocks, b.parent.value).Some? &&
        (Fewer(blocks, b, seen); ParentsEnd(blocks, Find(blocks, b.parent.value).value, seen + {b.id})))
  }

  /** Owners lead to a root within sixty-four steps, and no block comes twice on the way. */
  predicate OwnersEnd(blocks: seq<Block>, b: Block, seen: set<Id>)
    requires b in blocks
    decreases |Ids(blocks) - seen|
  {
    b.owner.None? ||
      (b.id !in seen && Find(blocks, b.owner.value).Some? && |seen| < MAX_OWNERS &&
        (Fewer(blocks, b, seen); OwnersEnd(blocks, Find(blocks, b.owner.value).value, seen + {b.id})))
  }

  lemma {:induction false} Fewer(blocks: seq<Block>, b: Block, seen: set<Id>)
    requires b in blocks && b.id !in seen
    ensures |Ids(blocks) - (seen + {b.id})| < |Ids(blocks) - seen|
  {
    assert Ids(blocks) - (seen + {b.id}) == (Ids(blocks) - seen) - {b.id};
  }

  predicate ParentOk(blocks: seq<Block>, b: Block)
    requires b in blocks
  {
    && (b.parent.Some? ==> Find(blocks, b.parent.value).Some? && Find(blocks, b.parent.value).value.kind == Heading)
    && ParentsEnd(blocks, b, {})
  }

  predicate OwnerKindLegal(rich: bool, kind: Kind, owner: Kind) {
    || (rich && owner in {Group, ListItem, TableCell})
    || (kind == Caption && (owner in {Figure, Table} || (rich && owner in {Math, Code})))
    || (rich && kind == Footnote && owner in {Figure, Table, Math})
    || (kind == TableCell && owner == Table)
  }

  predicate OwnerOk(source: Source, b: Block)
    requires b in source.blocks
  {
    && (b.owner.Some? ==>
        var owner := Find(source.blocks, b.owner.value);
        && owner.Some? && (source.rich || owner.value.owner.None?)
        && OwnerKindLegal(source.rich, b.kind, owner.value.kind)
        && OwnersEnd(source.blocks, b, {}))
    && (b.kind == TableCell ==> b.owner.Some?)
  }

  /** Prose must be translatable, except empty cells and, in schema 4.0, containers and controls. */
  predicate ProseOk(source: Source, b: Block) {
    || !Prose(b.kind) || b.translatable || EmptyTableCell(b)
    || (source.rich && b.normalized == "" && (b.attributes.children != [] || HasControl(b.inline, source.atoms)))
  }

  ghost predicate TextOk(source: Source, b: Block, safe: SafeUrl) {
    && EditsInOrder(b.edits, 0, |b.raw|)
    && Splice(b.raw, b.edits, 0) == b.normalized
    && RefsResolve(b.inline, source, safe)
    && Flatten(b.inline, source.atoms) == Some(b.normalized)
    && BlockHash(b, source.atoms) == b.hash
  }

  predicate OwnedBy(blocks: seq<Block>, id: Id, owner: Id) {
    Find(blocks, id).Some? && Find(blocks, id).value.owner == Some(owner)
  }

  function Entries(b: Block): seq<CellEntry> {
    if b.attributes.table.Some? && b.attributes.table.value.Structured? then b.attributes.table.value.entries else []
  }

  predicate CaptionsOk(source: Source, b: Block) {
    && (forall i, j :: 0 <= i < j < |b.attributes.captions| ==> b.attributes.captions[i] != b.attributes.captions[j])
    && (forall i :: 0 <= i < |b.attributes.captions| ==>
          OwnedBy(source.blocks, b.attributes.captions[i], b.id)
            && Find(source.blocks, b.attributes.captions[i]).value.kind == Caption)
  }

  /** A caption, cell or note is listed by its owner. */
  predicate ListedByOwner(source: Source, b: Block) {
    b.owner.Some? && Find(source.blocks, b.owner.value).Some? ==>
      var owner := Find(source.blocks, b.owner.value).value;
      && (b.kind == Caption && owner.kind in {Figure, Table, Math, Code} ==> b.id in owner.attributes.captions)
      && (b.kind == TableCell ==> exists i :: 0 <= i < |Entries(owner)| && Entries(owner)[i].content == b.id)
      && (source.rich && b.kind == Footnote && owner.kind in {Figure, Table, Math} ==> b.id in owner.attributes.notes)
  }

  predicate ChildrenOk(source: Source, b: Block) {
    source.rich ==>
      && (forall i :: 0 <= i < |b.attributes.children| ==> OwnedBy(source.blocks, b.attributes.children[i], b.id))
      && (b.kind in {Group, ListItem, TableCell} ==>
            forall i :: 0 <= i < |source.blocks| && source.blocks[i].owner == Some(b.id) ==>
              source.blocks[i].id in b.attributes.children)
      && (b.kind == Group ==> b.normalized == "" && b.inline == [] && !b.translatable)
      && (forall i :: 0 <= i < |b.attributes.notes| ==>
            OwnedBy(source.blocks, b.attributes.notes[i], b.id)
              && Find(source.blocks, b.attributes.notes[i]).value.kind == Footnote)
  }

  predicate EntryOk(source: Source, b: Block, entries: seq<CellEntry>, i: nat)
    requires i < |entries|
  {
    && OwnedBy(source.blocks, entries[i].content, b.id)
    && Find(source.blocks, entries[i].content).value.kind == TableCell
    && (forall j :: 0 <= j < i ==> entries[j].content != entries[i].content)
    && (source.rich ==> forall k :: 0 <= k < |entries[i].headers| ==>
          && OwnedBy(source.blocks, entries[i].headers[k], b.id)
          && exists j :: 0 <= j < |entries| && entries[j].content == entries[i].headers[k] && entries[j].header)
  }

  ghost predicate TableOk(source: Source, b: Block) {
    (b.kind == Table && b.attributes.table.Some? && b.attributes.table.value.Structured? ==>
      var grid, entries := b.attributes.table.value.grid, b.attributes.table.value.entries;
      && (forall i :: 0 <= i < |entries| ==> EntryOk(source, b, entries, i))
      && (if source.rich then GridAccepted(grid)
          else grid.rows * grid.columns <= 100000 && Tiles(grid.rows, grid.columns, grid.cells)))
  }

  ghost predicate BlockAccepted(source: Source, b: Block, safe: SafeUrl)
    requires b in source.blocks
  {
    && ParentOk(source.blocks, b) && OwnerOk(source, b) && ProseOk(source, b) && TextOk(source, b, safe)
    && CaptionsOk(source, b) && ListedByOwner(source, b) && ChildrenOk(source, b) && TableOk(source, b)
  }

  predicate RootsListed(blocks: seq<Block>, order: seq<Id>) {
    && (forall i :: 0 <= i < |order| ==> Find(blocks, order[i]).Some? && Find(blocks, order[i]).value.owner.None?)
    && (forall b :: b in blocks && b.owner.None? ==> b.id in order)
  }

  predicate EarlierBlock(blocks: seq<Block>, a: Id, b: Id) {
    && Find(blocks, a).Some? && Find(blocks, b).Some?
    && Find(blocks, a).value.order < Find(blocks, b).value.order
  }

  /** Reading order names every root once, in block order. */
  predicate ReadingOrderOk(source: Source) {
    && RootsListed(source.blocks, source.readingOrder)
    && forall i, j :: 0 <= i < j < |source.readingOrder| ==>
      EarlierBlock(source.blocks, source.readingOrder[i], source.readingOrder[j])
  }

  predicate TitleOk(source: Source) {
    var title := Find(source.blocks, source.title);
    title.Some? && (source.rich || title.value.owner.None?) && title.value.kind == Heading
  }

  ghost predicate DistinctOrders(blocks: seq<Block>) {
    forall i, j :: 0 <= i < j < |blocks| ==> blocks[i].order != blocks[j].order
  }

  ghost predicate SourceAccepted(source: Source, safe: SafeUrl) {
    && |source.blocks| <= MAX_BLOCKS && DistinctIds(source.blocks) && DistinctOrders(source.blocks)
    && ReadingOrderOk(source) && TitleOk(source)
    && forall b :: b in source.blocks ==> BlockAccepted(source, b, safe)
  }

  /** The walk up the heading parents. */
  method WalkParents(blocks: seq<Block>, b: Block) returns (ok: bool)
    requires b in blocks
    ensures ok == ParentsEnd(blocks, b, {})
  {
    var seen: set<Id>, current := {}, b;
    while current.parent.Some?
      invariant current in blocks && ParentsEnd(blocks, current, seen) == ParentsEnd(blocks, b, {})
      decreases |Ids(blocks) - seen|
    {
      if current.id in seen { return false; }
      Fewer(blocks, current, seen);
      var parent := Find(blocks, current.parent.value);
      if parent.None? { return false; }
      seen, current := seen + {current.id}, parent.value;
    }
    return true;
  }

  /** The bounded walk up the owners. */
  method WalkOwners(blocks: seq<Block>, b: Block) returns (ok: bool)
    requires b in blocks
    ensures ok == OwnersEnd(blocks, b, {})
  {
    var seen: set<Id>, current := {}, b;
    while current.owner.Some?
      invariant current in blocks && OwnersEnd(blocks, current, seen) == OwnersEnd(blocks, b, {})
      decreases |Ids(blocks) - seen|
    {
      var owner := Find(blocks, current.owner.value);
      if current.id in seen || owner.None? { return false; }
      if |seen| >= MAX_OWNERS { return false; }
      Fewer(blocks, current, seen);
      seen, current := seen + {current.id}, owner.value;
    }
    return true;
  }

  method CheckOwner(source: Source, b: Block) returns (ok: bool)
    requires b in source.blocks
    ensures ok == OwnerOk(source, b)
  {
    if b.owner.Some? {
      var owner := Find(source.blocks, b.owner.value);
      if owner.None? || !(source.rich || owner.value.owner.None?) { return false; }
      if !OwnerKindLegal(source.rich, b.kind, owner.value.kind) { return false; }
      ok := WalkOwners(source.blocks, b);
    } else {
      ok := b.kind != TableCell;
    }
  }

  method CheckText(source: Source, b: Block, safe: SafeUrl) returns (ok: bool)
    ensures ok <==> TextOk(source, b, safe)
  {
    var text := Reproduce(b.raw, b.edits);
    if text.None? || text.value != b.normalized { return false; }
    ok := InlineRefs(b.inline, source, safe);
    if !ok { return false; }
    var flat := FlattenInline(b.inline, source.atoms);
    ok := flat == Some(b.normalized) && BlockHash(b, source.atoms) == b.hash;
  }

  method CheckTable(source: Source, b: Block) returns (ok: bool)
    ensures ok <==> TableOk(source, b)
  {
    if !(b.kind == Table && b.attributes.table.Some? && b.attributes.table.value.Structured?) { return true; }
    var grid, entries := b.attributes.table.value.grid, b.attributes.table.value.entries;
    for i := 0 to |entries|
      invariant forall j :: 0 <= j < i ==> EntryOk(source, b, entries, j)
    {
      if !EntryOk(source, b, entries, i) { return false; }
    }
    if source.rich {
      ok := CheckGrid(grid);
    } else {
      ok := CheckCoverage(grid.rows, grid.columns, grid.cells);
    }
  }

  method CheckBlock(source: Source, b: Block, safe: SafeUrl) returns (ok: bool)
    requires b in source.blocks
    ensures ok <==> BlockAccepted(source, b, safe)
  {
    ok := WalkParents(source.blocks, b);
    if !ok || !ParentOk(source.blocks, b) { return false; }
    ok := CheckOwner(source, b);
    if !ok || !ProseOk(source, b) { return false; }
    ok := CheckText(source, b, safe);
    if !ok || !CaptionsOk(source, b) || !ListedByOwner(source, b) || !ChildrenOk(source, b) { return false; }
    ok := CheckTable(source, b);
  }

  ghost predicate BlocksAccepted(source: Source, n: nat, safe: SafeUrl)
    requires n <= |source.blocks|
  {
    forall i :: 0 <= i < n ==> BlockAccepted(source, source.blocks[i], safe)
  }

  method CheckBlocks(source: Source, safe: SafeUrl) returns (ok: bool)
    ensures ok <==> BlocksAccepted(source, |source.blocks|, safe)
  {
    var i := 0;
    while i < |source.blocks|
      invariant 0 <= i <= |source.blocks| && BlocksAccepted(source, i, safe)
    {
      ok := CheckBlock(source, source.blocks[i], safe);
      if !ok { return false; }
      i := i + 1;
    }
    return true;
  }

  /** `validate_source`. */
  method ValidateSource(source: Source, safe: SafeUrl) returns (ok: bool)
    ensures ok <==> SourceAccepted(source, safe)
  {
    if |source.blocks| > MAX_BLOCKS { return false; }
    ok := CheckDistinct(source.blocks);
    if !ok || !ReadingOrderOk(source) || !TitleOk(source) { return false; }
    ok := CheckBlocks(source, safe);
  }

  method CheckDistinct(blocks: seq<Block>) returns (ok: bool)
    ensures ok <==> DistinctIds(blocks) && DistinctOrders(blocks)
  {
    var ids: set<Id>, orders: set<nat> := {}, {};
    for i := 0 to |blocks|
      invariant ids == (set j | 0 <= j < i :: blocks[j].id) && orders == (set j | 0 <= j < i :: blocks[j].order)
      invariant DistinctIds(blocks[..i]) && DistinctOrders(blocks[..i])
    {
      if blocks[i].id in ids || blocks[i].order in orders { return false; }
      ids, orders := ids + {blocks[i].id}, orders + {blocks[i].order};
    }
    assert blocks[..|blocks|] == blocks;
    return true;
  }

  /** Only containers, pictures, tables, formulas and code own children: an accepted heading,
      paragraph, caption, footnote or reference has none. */
  lemma {:induction false} OnlyContainersHaveChildren(source: Source, b: Block, safe: SafeUrl)
    requires SourceAccepted(source, safe) && source.rich && b in source.blocks && b.attributes.children != []
    ensures b.kind in {Group, ListItem, TableCell, Figure, Table, Math, Code}
  {
    var i :| 0 <= i < |source.blocks| && source.blocks[i] == b;
    FindAt(source.blocks, i);
    assert BlockAccepted(source, b, safe);
    assert OwnedBy(source.blocks, b.attributes.children[0], b.id);
    var child := Find(source.blocks, b.attributes.children[0]).value;
    assert BlockAccepted(source, child, safe);
    assert OwnerOk(source, child);
  }
}
