/** What a reader may rely on once a source or a translation is accepted (src/packages/ir/validator.py). */
module Guarantees {
  import opened Wrappers
  import opened Documents
  import opened Normalization
  import opened Tables
  import opened Retention
  import opened Validator
  import opened Translations

  /** A block's text is its raw text with evidenced edits that do not overlap, its inline nodes show exactly
      that text, and every reference, cross-reference and link in it leads somewhere. */
  lemma {:induction false} AcceptedText(source: Source, safe: SafeUrl, b: Block)
    requires SourceAccepted(source, safe) && b in source.blocks
    ensures EditsInOrder(b.edits, 0, |b.raw|) && Replay(b.raw, b.edits, 0) == b.normalized
    ensures forall i :: 0 <= i < |b.edits| ==>
      b.edits[i].evidenced && 0 <= b.edits[i].start <= b.edits[i].end <= |b.raw|
    ensures Flatten(b.inline, source.atoms) == Some(b.normalized) && b.hash == BlockHash(b, source.atoms)
    ensures forall n :: n in b.inline ==> Leads(n, source, safe)
  {
    assert BlockAccepted(source, b, safe);
    ReplayIsSplice(b.raw, b.edits, 0);
    assert Replay(b.raw, b.edits, 0)[..0] == "";
    EditsAreEvidenced(b.edits, 0, |b.raw|);
    FlattenKnown(b.inline, source.atoms);
    forall n | n in b.inline ensures Leads(n, source, safe) {
      var i :| 0 <= i < |b.inline| && b.inline[i] == n;
      assert NodeResolves(b.inline[i], source.blocks, safe);
    }
  }

  ghost predicate Leads(n: Inline, source: Source, safe: SafeUrl) {
    match n
    case Text(_) => true
    case ProtectedRef(ref) => ref in source.atoms
    case CrossRef(target, _) => exists b :: b in source.blocks && b.id == target
    case Link(href, _) => safe(href)
  }

  lemma {:induction false} EditsAreEvidenced(edits: seq<Edit>, previous: nat, length: nat)
    requires EditsInOrder(edits, previous, length)
    ensures forall i :: 0 <= i < |edits| ==> edits[i].evidenced && previous <= edits[i].start <= edits[i].end <= length
  {
    if edits != [] {
      EditsAreEvidenced(edits[1..], edits[0].end, length);
      forall i | 1 <= i < |edits| ensures edits[i] == edits[1..][i - 1] {}
    }
  }

  /** Owners lead from a block to a root in at most sixty-four steps, through blocks that are all different. */
  ghost predicate OwnerPath(blocks: seq<Block>, path: seq<Block>) {
    && 1 <= |path| <= 65 && path[|path| - 1].owner.None?
    && (forall k :: 0 <= k < |path| - 1 ==> OwnerStep(blocks, path, k))
    && forall j, k :: 0 <= j < k < |path| - 1 ==> path[j].id != path[k].id
  }

  ghost predicate OwnerStep(blocks: seq<Block>, path: seq<Block>, k: nat)
    requires k + 1 < |path|
  {
    path[k].owner.Some? && Find(blocks, path[k].owner.value) == Some(path[k + 1])
  }

  lemma {:induction false} OwnersLead(blocks: seq<Block>, b: Block, seen: set<Id>) returns (path: seq<Block>)
    requires b in blocks && OwnersEnd(blocks, b, seen) && |seen| <= 64
    ensures |seen| + |path| <= 65 && |path| >= 1 && path[0] == b && path[|path| - 1].owner.None?
    ensures forall k :: 0 <= k < |path| - 1 ==> OwnerStep(blocks, path, k) && path[k].id !in seen
    ensures forall j, k :: 0 <= j < k < |path| - 1 ==> path[j].id != path[k].id
    decreases |Ids(blocks) - seen|
  {
    path := [b];
    if b.owner.Some? {
      Fewer(blocks, b, seen);
      var rest := OwnersLead(blocks, Find(blocks, b.owner.value).value, seen + {b.id});
      path := [b] + rest;
      forall k | 0 <= k < |path| - 1 ensures OwnerStep(blocks, path, k) && path[k].id !in seen {
        if k > 0 { assert OwnerStep(blocks, rest, k - 1); }
      }
    }
  }

  /** And the walk accepts every such path: owners end well exactly where one exists. */
  lemma {:induction false} OwnersEndExactly(blocks: seq<Block>, b: Block)
    requires b in blocks
    ensures OwnersEnd(blocks, b, {}) <==> exists path :: OwnerPath(blocks, path) && path[0] == b
  {
    if OwnersEnd(blocks, b, {}) {
      var path := OwnersLead(blocks, b, {});
    }
    if path :| OwnerPath(blocks, path) && path[0] == b {
      PathEnds(blocks, path, 0, {});
    }
  }

  lemma {:induction false} PathEnds(blocks: seq<Block>, path: seq<Block>, k: nat, seen: set<Id>)
    requires OwnerPath(blocks, path) && k < |path| && path[k] in blocks && |seen| == k
    requires forall j :: k <= j < |path| - 1 ==> path[j].id !in seen
    ensures OwnersEnd(blocks, path[k], seen)
    decreases |path| - k
  {
    if k < |path| - 1 {
      assert OwnerStep(blocks, path, k);
      PathEnds(blocks, path, k + 1, seen + {path[k].id});
    }
  }

  /** Who may own whom. */
  predicate MayOwn(rich: bool, owner: Kind, kind: Kind) {
    match owner
    case Group => rich
    case ListItem => rich
    case TableCell => rich
    case Table => kind == Caption || kind == TableCell || (rich && kind == Footnote)
    case Figure => kind == Caption || (rich && kind == Footnote)
    case Math => rich && (kind == Caption || kind == Footnote)
    case Code => rich && kind == Caption
    case _ => false
  }

  lemma {:induction false} LegalMayOwn(rich: bool, owner: Kind, kind: Kind)
    ensures MayOwn(rich, owner, kind) <==> OwnerKindLegal(rich, kind, owner)
  {}

  ghost predicate LegalStep(source: Source, path: seq<Block>, k: nat)
    requires k + 1 < |path|
  {
    MayOwn(source.rich, path[k + 1].kind, path[k].kind) && (!source.rich ==> path[k + 1].owner.None?)
  }

  /** Every block belongs to a root through owners that may own it; a cell belongs to someone, and before
      schema 4.0 owners are roots. */
  lemma {:induction false} AcceptedOwners(source: Source, safe: SafeUrl, b: Block) returns (path: seq<Block>)
    requires SourceAccepted(source, safe) && b in source.blocks
    ensures OwnerPath(source.blocks, path) && path[0] == b
    ensures forall k :: 0 <= k < |path| - 1 ==> LegalStep(source, path, k)
    ensures b.kind == TableCell ==> |path| > 1
  {
    assert BlockAccepted(source, b, safe) && OwnerOk(source, b);
    path := OwnersLead(source.blocks, b, {});
    forall k | 0 <= k < |path| - 1 ensures LegalStep(source, path, k) {
      if k > 0 { assert OwnerStep(source.blocks, path, k - 1); }
      assert OwnerStep(source.blocks, path, k);
      OwnerIsLegal(source, safe, path[k], path[k + 1]);
    }
  }

  lemma {:induction false} OwnerIsLegal(source: Source, safe: SafeUrl, b: Block, owner: Block)
    requires SourceAccepted(source, safe) && b in source.blocks
    requires b.owner.Some? && Find(source.blocks, b.owner.value) == Some(owner)
    ensures MayOwn(source.rich, owner.kind, b.kind) && (!source.rich ==> owner.owner.None?)
  {
    assert BlockAccepted(source, b, safe) && OwnerOk(source, b);
    LegalMayOwn(source.rich, owner.kind, b.kind);
  }

  /** Parents lead up through headings, all different, to one without a parent. */
  ghost predicate ParentPath(blocks: seq<Block>, path: seq<Block>) {
    && path != [] && path[|path| - 1].parent.None?
    && (forall k :: 0 <= k < |path| - 1 ==> ParentStep(blocks, path, k))
    && forall j, k :: 0 <= j < k < |path| - 1 ==> path[j].id != path[k].id
  }

  ghost predicate ParentStep(blocks: seq<Block>, path: seq<Block>, k: nat)
    requires k + 1 < |path|
  {
    path[k].parent.Some? && Find(blocks, path[k].parent.value) == Some(path[k + 1]) && path[k + 1].kind == Heading
  }

  ghost predicate HeadingsAbove(blocks: seq<Block>) {
    forall b :: b in blocks && b.parent.Some? ==> HeadingAbove(blocks, b)
  }

  ghost predicate HeadingAbove(blocks: seq<Block>, b: Block) {
    b.parent.Some? && Find(blocks, b.parent.value).Some? && Find(blocks, b.parent.value).value.kind == Heading
  }

  lemma {:induction false} ParentsLead(blocks: seq<Block>, b: Block, seen: set<Id>) returns (path: seq<Block>)
    requires HeadingsAbove(blocks) && b in blocks && ParentsEnd(blocks, b, seen)
    ensures path != [] && path[0] == b && path[|path| - 1].parent.None?
    ensures forall k :: 0 <= k < |path| - 1 ==> ParentStep(blocks, path, k) && path[k].id !in seen
    ensures forall j, k :: 0 <= j < k < |path| - 1 ==> path[j].id != path[k].id
    decreases |Ids(blocks) - seen|
  {
    path := [b];
    if b.parent.Some? {
      Fewer(blocks, b, seen);
      assert HeadingAbove(blocks, b);
      var rest := ParentsLead(blocks, Find(blocks, b.parent.value).value, seen + {b.id});
      path := [b] + rest;
      forall k | 0 <= k < |path| - 1 ensures ParentStep(blocks, path, k) && path[k].id !in seen {
        if k > 0 { assert ParentStep(blocks, rest, k - 1); }
      }
    }
  }

  /** Every block hangs under headings that lead, without a cycle, to the top of the outline. */
  lemma {:induction false} AcceptedParents(source: Source, safe: SafeUrl, b: Block) returns (path: seq<Block>)
    requires SourceAccepted(source, safe) && b in source.blocks
    ensures ParentPath(source.blocks, path) && path[0] == b
  {
    forall c | c in source.blocks && c.parent.Some? ensures HeadingAbove(source.blocks, c) {
      assert BlockAccepted(source, c, safe) && ParentOk(source.blocks, c);
    }
    assert BlockAccepted(source, b, safe) && ParentOk(source.blocks, b);
    path := ParentsLead(source.blocks, b, {});
  }

  /** A block with that id and kind belongs to `owner`. */
  ghost predicate Belongs(source: Source, id: Id, owner: Id) {
    exists c :: c in source.blocks && c.id == id && c.owner == Some(owner)
  }

  ghost predicate BelongsAs(source: Source, id: Id, owner: Id, kind: Kind) {
    exists c :: c in source.blocks && c.id == id && c.owner == Some(owner) && c.kind == kind
  }

  lemma {:induction false} FoundBlock(blocks: seq<Block>, b: Block)
    requires DistinctIds(blocks) && b in blocks
    ensures Find(blocks, b.id) == Some(b)
  {
    var i :| 0 <= i < |blocks| && blocks[i] == b;
    FindAt(blocks, i);
  }

  lemma {:induction false} OwnedBelongs(source: Source, id: Id, owner: Id)
    requires DistinctIds(source.blocks)
    ensures OwnedBy(source.blocks, id, owner) <==> Belongs(source, id, owner)
  {
    if Belongs(source, id, owner) {
      var c :| c in source.blocks && c.id == id && c.owner == Some(owner);
      FoundBlock(source.blocks, c);
    }
  }

  lemma {:induction false} OwnedBelongsAs(source: Source, id: Id, owner: Id, kind: Kind)
    requires DistinctIds(source.blocks)
    ensures BelongsAs(source, id, owner, kind)
      <==> OwnedBy(source.blocks, id, owner) && Find(source.blocks, id).value.kind == kind
  {
    if BelongsAs(source, id, owner, kind) {
      var c :| c in source.blocks && c.id == id && c.owner == Some(owner) && c.kind == kind;
      FoundBlock(source.blocks, c);
    }
  }

  /** What the checks of single blocks and of their owners say together. */
  lemma {:induction false} Listings(source: Source, safe: SafeUrl, b: Block)
    requires SourceAccepted(source, safe) && b in source.blocks
    ensures ChildrenOk(source, b) && CaptionsOk(source, b) && TableOk(source, b)
    ensures forall c :: c in source.blocks ==> ListedByOwner(source, c)
  {
    assert BlockAccepted(source, b, safe);
    forall c | c in source.blocks ensures ListedByOwner(source, c) { assert BlockAccepted(source, c, safe); }
  }

  lemma {:induction false} ChildrenListed(source: Source, b: Block, id: Id)
    requires DistinctIds(source.blocks) && source.rich && ChildrenOk(source, b)
    requires b.kind in {Group, ListItem, TableCell}
    ensures id in b.attributes.children <==> Belongs(source, id, b.id)
  {
    OwnedBelongs(source, id, b.id);
    if Belongs(source, id, b.id) {
      var c :| c in source.blocks && c.id == id && c.owner == Some(b.id);
      var i :| 0 <= i < |source.blocks| && source.blocks[i] == c;
    }
  }

  /** In schema 4.0 a container lists exactly the blocks it owns. */
  lemma {:induction false} AcceptedChildren(source: Source, safe: SafeUrl, b: Block, id: Id)
    requires SourceAccepted(source, safe) && source.rich && b in source.blocks && b.kind in {Group, ListItem, TableCell}
    ensures id in b.attributes.children <==> Belongs(source, id, b.id)
  {
    Listings(source, safe, b);
    ChildrenListed(source, b, id);
  }

  lemma {:induction false} CaptionsListed(source: Source, b: Block, id: Id)
    requires DistinctIds(source.blocks) && CaptionsOk(source, b) && b in source.blocks
    requires forall c :: c in source.blocks ==> ListedByOwner(source, c)
    requires b.kind in {Figure, Table, Math, Code}
    ensures id in b.attributes.captions <==> BelongsAs(source, id, b.id, Caption)
  {
    OwnedBelongsAs(source, id, b.id, Caption);
    if BelongsAs(source, id, b.id, Caption) {
      var c :| c in source.blocks && c.id == id && c.owner == Some(b.id) && c.kind == Caption;
      FoundBlock(source.blocks, b);
      assert ListedByOwner(source, c);
    }
  }

  /** A figure, table, formula or code block lists exactly the captions it owns, each once. */
  lemma {:induction false} AcceptedCaptions(source: Source, safe: SafeUrl, b: Block, id: Id)
    requires SourceAccepted(source, safe) && b in source.blocks && b.kind in {Figure, Table, Math, Code}
    ensures id in b.attributes.captions <==> BelongsAs(source, id, b.id, Caption)
    ensures forall i, j :: 0 <= i < j < |b.attributes.captions| ==> b.attributes.captions[i] != b.attributes.captions[j]
  {
    Listings(source, safe, b);
    CaptionsListed(source, b, id);
  }

  lemma {:induction false} NotesListed(source: Source, b: Block, id: Id)
    requires DistinctIds(source.blocks) && source.rich && ChildrenOk(source, b) && b in source.blocks
    requires forall c :: c in source.blocks ==> ListedByOwner(source, c)
    requires b.kind in {Figure, Table, Math}
    ensures id in b.attributes.notes <==> BelongsAs(source, id, b.id, Footnote)
  {
    OwnedBelongsAs(source, id, b.id, Footnote);
    if BelongsAs(source, id, b.id, Footnote) {
      var c :| c in source.blocks && c.id == id && c.owner == Some(b.id) && c.kind == Footnote;
      FoundBlock(source.blocks, b);
      assert ListedByOwner(source, c);
    }
  }

  /** In schema 4.0 a figure, table or formula lists exactly the footnotes it owns. */
  lemma {:induction false} AcceptedNotes(source: Source, safe: SafeUrl, b: Block, id: Id)
    requires SourceAccepted(source, safe) && source.rich && b in source.blocks && b.kind in {Figure, Table, Math}
    ensures id in b.attributes.notes <==> BelongsAs(source, id, b.id, Footnote)
  {
    Listings(source, safe, b);
    NotesListed(source, b, id);
  }

  ghost predicate ShowsCell(entries: seq<CellEntry>, id: Id) {
    exists i :: 0 <= i < |entries| && entries[i].content == id
  }

  lemma {:induction false} CellsListed(source: Source, b: Block, id: Id, entries: seq<CellEntry>)
    requires DistinctIds(source.blocks) && b in source.blocks && b.kind == Table && Entries(b) == entries
    requires forall c :: c in source.blocks ==> ListedByOwner(source, c)
    requires forall i :: 0 <= i < |entries| ==> EntryOk(source, b, entries, i)
    ensures ShowsCell(entries, id) <==> BelongsAs(source, id, b.id, TableCell)
    ensures forall i, j :: 0 <= i < j < |entries| ==> entries[i].content != entries[j].content
  {
    OwnedBelongsAs(source, id, b.id, TableCell);
    forall i, j | 0 <= i < j < |entries| ensures entries[i].content != entries[j].content {
      assert EntryOk(source, b, entries, j);
    }
    if ShowsCell(entries, id) {
      var i :| 0 <= i < |entries| && entries[i].content == id;
      assert EntryOk(source, b, entries, i);
    }
    if BelongsAs(source, id, b.id, TableCell) {
      var c :| c in source.blocks && c.id == id && c.owner == Some(b.id) && c.kind == TableCell;
      FoundBlock(source.blocks, b);
      assert ListedByOwner(source, c);
    }
  }

  /** A structured table shows exactly the cells it owns, each once, on a grid without gap or overlap. */
  lemma {:induction false} AcceptedCells(source: Source, safe: SafeUrl, b: Block, id: Id)
    requires SourceAccepted(source, safe) && b in source.blocks && b.kind == Table
    requires b.attributes.table.Some? && b.attributes.table.value.Structured?
    ensures ShowsCell(b.attributes.table.value.entries, id) <==> BelongsAs(source, id, b.id, TableCell)
    ensures var grid, entries := b.attributes.table.value.grid, b.attributes.table.value.entries;
      && (forall i, j :: 0 <= i < j < |entries| ==> entries[i].content != entries[j].content)
      && Tiles(grid.rows, grid.columns, grid.cells) && grid.rows * grid.columns <= 100000
  {
    Listings(source, safe, b);
    CellsListed(source, b, id, b.attributes.table.value.entries);
  }

  /** In schema 4.0 the headers of a cell are header cells of the same table. */
  lemma {:induction false} AcceptedHeaders(source: Source, safe: SafeUrl, b: Block, i: nat, k: nat)
    requires SourceAccepted(source, safe) && source.rich && b in source.blocks && b.kind == Table
    requires b.attributes.table.Some? && b.attributes.table.value.Structured?
    requires var entries := b.attributes.table.value.entries; i < |entries| && k < |entries[i].headers|
    ensures var entries := b.attributes.table.value.entries;
      HeaderOf(entries, entries[i].headers[k]) && Belongs(source, entries[i].headers[k], b.id)
  {
    var entries := b.attributes.table.value.entries;
    Listings(source, safe, b);
    assert EntryOk(source, b, entries, i);
    OwnedBelongs(source, entries[i].headers[k], b.id);
  }

  ghost predicate HeaderOf(entries: seq<CellEntry>, id: Id) {
    exists j :: 0 <= j < |entries| && entries[j].content == id && entries[j].header
  }

  /** Prose is translatable, save an empty cell and, in schema 4.0, an empty container or control; a group has
      no text of its own. */
  lemma {:induction false} AcceptedProse(source: Source, safe: SafeUrl, b: Block)
    requires SourceAccepted(source, safe) && b in source.blocks
    ensures b.kind in {Heading, Paragraph, ListItem, Caption, TableCell, Footnote} && !b.translatable ==>
      b.normalized == "" || (b.kind == TableCell && Blank(b.normalized))
    ensures b.kind in {Heading, Paragraph, ListItem, Caption, Footnote} && !b.translatable ==>
      source.rich && (b.attributes.children != [] || HasControl(b.inline, source.atoms))
    ensures source.rich && b.kind == Group ==> b.normalized == "" && b.inline == [] && !b.translatable
    ensures |source.blocks| <= 10000
  {
    assert BlockAccepted(source, b, safe);
    assert ProseOk(source, b) && ChildrenOk(source, b);
  }

  /** Reading order goes through every root once, in block order, and the title is a heading. */
  lemma {:induction false} AcceptedOrder(source: Source, safe: SafeUrl, id: Id)
    requires SourceAccepted(source, safe)
    ensures id in source.readingOrder <==> exists b :: b in source.blocks && b.id == id && b.owner.None?
    ensures forall i, j :: 0 <= i < j < |source.readingOrder| ==> source.readingOrder[i] != source.readingOrder[j]
    ensures exists b :: b in source.blocks && b.id == source.title && b.kind == Heading
  {
    forall i, j | 0 <= i < j < |source.readingOrder| ensures source.readingOrder[i] != source.readingOrder[j] {
      assert EarlierBlock(source.blocks, source.readingOrder[i], source.readingOrder[j]);
    }
    if id in source.readingOrder {
      var i :| 0 <= i < |source.readingOrder| && source.readingOrder[i] == id;
      assert Find(source.blocks, source.readingOrder[i]).Some?;
    }
  }

  /** Why a block may keep its source text. */
  ghost predicate MayBeKept(source: Source, language: string, original: map<Id, string>, b: Block, reason: string) {
    || b.kind == Code || b.kind == Math || b.kind == Figure || b.kind == Reference || b.kind == Table
    || b.kind == Group
    || (b.kind == TableCell && Blank(b.raw) && Blank(b.normalized) && forall n :: n in b.inline ==>
      n.Text? && Blank(n.text))
    || (source.rich && b.normalized == "" && b.attributes.children != [])
    || (source.rich && b.normalized == "" && reason == "static_control" && HasControl(b.inline, source.atoms))
    || (b.id in original && original[b.id] == reason)
    || (b.language == language && reason == "same_language")
  }

  /** What one result may show of its block. */
  ghost predicate Presents(source: Source, language: string, original: map<Id, string>, b: Block, r: BlockResult,
      draft: bool)
  {
    match r.status
    case Unresolved => draft
    case SourceShown =>
      && r.target == [] && !Blank(r.reason) && r.reviewState == NotReviewed
      && r.fallback.Some? && (r.fallback.value.SourcePage? ==> b.pages != [])
    case Retained => r.target == [] && !Blank(r.reason) && MayBeKept(source, language, original, b, r.reason)
    case Translated =>
      && Flatten(r.target, source.atoms).Some? && !Blank(Flatten(r.target, source.atoms).value)
      && forall n :: n in r.target ==> Repeats(n, b)
  }

  /** The node repeats what the source block refers to. */
  ghost predicate Repeats(n: Inline, b: Block) {
    match n
    case Text(_) => true
    case ProtectedRef(ref) => n in b.inline
    case CrossRef(target, _) => exists m :: m in b.inline && m.CrossRef? && m.target == target
    case Link(href, _) => exists m :: m in b.inline && m.Link? && m.href == href
  }

  /** In an accepted translation every block has exactly one result, made from this very source, that shows a
      translation without invented references, keeps the source for an admitted reason, or falls back to it;
      a human review belongs to exactly what is shown. */
  lemma {:induction false} AcceptedTranslation(source: Source, documentTitle: string, t: Translation, draft: bool,
      rules: Rules, b: Block) returns (r: BlockResult)
    requires IRAccepted(source, documentTitle, t, draft, rules) && b in source.blocks
    ensures r in t.results && r.block == b.id && r.hash == b.hash
    ensures forall q :: q in t.results && q.block == b.id ==> q == r
    ensures Presents(source, t.language, OriginalOnly(source, rules.patterns), b, r, draft)
    ensures r.reviewState == HumanReviewed <==> r.review.Some?
    ensures r.review.Some? ==> r.review.value == ReviewRecord(true, b.hash, r.target, r.context, r.generation.glossary)
  {
    FoundBlock(source.blocks, b);
    r := OneResult(source, t.results, b);
    ResultPresents(source, t, draft, rules, b, r);
  }

  lemma {:induction false} OneResult(source: Source, results: seq<BlockResult>, b: Block) returns (r: BlockResult)
    requires Bijective(source, results) && b in source.blocks
    ensures r in results && r.block == b.id && forall q :: q in results && q.block == b.id ==> q == r
  {
    r := FindResult(results, b.id).value;
    var i :| 0 <= i < |results| && results[i] == r;
    forall q | q in results && q.block == b.id ensures q == r {
      var k :| 0 <= k < |results| && results[k] == q;
      assert k == i;
    }
  }

  lemma {:induction false} ResultPresents(source: Source, t: Translation, draft: bool, rules: Rules, b: Block,
      r: BlockResult)
    requires TranslationAccepted(source, t, draft, rules) && r in t.results
    requires Find(source.blocks, r.block) == Some(b)
    ensures r.hash == b.hash && Presents(source, t.language, OriginalOnly(source, rules.patterns), b, r, draft)
    ensures ReviewAccepted(b, r)
  {
    var i :| 0 <= i < |t.results| && t.results[i] == r;
    assert ResultAccepted(source, t.language, OriginalOnly(source, rules.patterns), t.results[i], draft, rules.safe);
    StatusPresents(source, t.language, OriginalOnly(source, rules.patterns), b, r, draft);
  }

  lemma {:induction false} StatusPresents(source: Source, language: string, original: map<Id, string>, b: Block,
      r: BlockResult, draft: bool)
    requires StatusAccepted(source, language, original, b, r, draft)
    ensures Presents(source, language, original, b, r, draft)
  {
    if r.status.Translated? {
      forall n | n in r.target ensures Repeats(n, b) { NodeRepeats(b, r.target, n); }
    }
    if r.status.Retained? && EmptyTableCell(b) {
      forall n | n in b.inline ensures n.Text? && Blank(n.text) {
        var i :| 0 <= i < |b.inline| && b.inline[i] == n;
      }
    }
  }

  lemma {:induction false} NodeRepeats(b: Block, target: seq<Inline>, n: Inline)
    requires InventsNothing(b, target) && n in target
    ensures Repeats(n, b)
  {
    match n
    case Text(_) =>
    case ProtectedRef(ref) => assert ref in Refs(target);
    case CrossRef(t, _) => assert t in Targets(target) && t in Targets(b.inline);
    case Link(href, _) => assert href in Hrefs(target) && href in Hrefs(b.inline);
  }
}
