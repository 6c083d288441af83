/** Which text around the title keeps its source, and why: the laws of the scan of
    src/packages/ir/retention.py over the reasons it returns. */
module TitlePage {
  import opened Wrappers
  import opened Documents
  import opened Retention

  /** A list of blocks read with its title and title pages. */
  datatype Page = Page(blocks: seq<Block>, title: Id, pages: set<nat>, patterns: Patterns)

  function After(p: Page, k: nat): Scan
    requires k <= |p.blocks|
  {
    ScanTo(p.blocks, k, p.title, p.pages, p.patterns)
  }

  function Reasons(p: Page): map<Id, string> {
    After(p, |p.blocks|).reasons
  }

  function ReasonAt(p: Page, k: nat): Option<string>
    requires k < |p.blocks|
  {
    Reason(Reasons(p), p.blocks[k].id)
  }

  function Reason(reasons: map<Id, string>, id: Id): Option<string> {
    if id in reasons then Some(reasons[id]) else None
  }

  function FactsAt(p: Page, k: nat): Facts
    requires k < |p.blocks|
  {
    p.patterns(p.blocks[k])
  }

  /** Text of its own on the title's pages, as far as pages are known. */
  predicate OnTitlePages(b: Block, pages: set<nat>) {
    b.owner.None? && TextKind(b.kind) && (b.pages != [] && pages != {} ==> forall n :: n in b.pages ==> n in pages)
  }

  /** The front matter goes on over kept text that is no label and no heading, and over blank lines. */
  predicate GoesOn(b: Block, f: Facts, reason: Option<string>, pages: set<nat>) {
    && !OpensSection(b, f)
    && match reason
       case Some(r) => r != "original_identifier_label" && r != "original_bibliography_heading"
       case None => OnTitlePages(b, pages) && f.blank
  }

  /** The title stands before `k`, and the front matter goes on from there. */
  ghost predicate InFront(p: Page, k: nat)
    requires k <= |p.blocks|
  {
    exists t :: 0 <= t < k && FrontFrom(p, t, k)
  }

  ghost predicate FrontFrom(p: Page, t: nat, k: nat)
    requires t < k <= |p.blocks|
  {
    p.blocks[t].id == p.title
      && forall i :: t < i < k ==> GoesOn(p.blocks[i], FactsAt(p, i), ReasonAt(p, i), p.pages)
  }

  /** An author list was kept before. */
  ghost predicate AuthorsBefore(p: Page, k: nat)
    requires k <= |p.blocks|
  {
    exists i :: 0 <= i < k && ReasonAt(p, i) == Some("original_author_list")
  }

  /** A later block leaves the reason of an earlier one alone. */
  lemma {:induction false} Settled(p: Page, i: nat, k: nat)
    requires i < k <= |p.blocks| && DistinctIds(p.blocks)
    ensures ReasonAt(p, i) == Reason(After(p, k).reasons, p.blocks[i].id)
    decreases |p.blocks| - k
  {
    if k < |p.blocks| {
      Settled(p, i, k + 1);
      ScanBlockWrites(After(p, k), p.title, p.blocks[k], Following(p.blocks, k), p.pages, p.patterns);
      assert p.blocks[i].id != p.blocks[k].id;
    }
  }

  lemma {:induction false} NotYet(p: Page, j: nat, k: nat)
    requires j <= k < |p.blocks| && DistinctIds(p.blocks)
    ensures p.blocks[k].id !in After(p, j).reasons
  {
    if j > 0 {
      NotYet(p, j - 1, k);
      ScanBlockWrites(After(p, j - 1), p.title, p.blocks[j - 1], Following(p.blocks, j - 1), p.pages, p.patterns);
      assert p.blocks[j - 1].id != p.blocks[k].id;
    }
  }

  lemma {:induction false} SamePages(b: Block, pages: set<nat>)
    ensures (PageSet(Some(b)) != {} && pages != {} && !(PageSet(Some(b)) <= pages))
      <==> !(b.pages != [] && pages != {} ==> forall n :: n in b.pages ==> n in pages)
  {
    if b.pages != [] { assert b.pages[0] in PageSet(Some(b)); }
    forall n | n in b.pages ensures n in PageSet(Some(b)) {
      var i :| 0 <= i < |b.pages| && b.pages[i] == n;
    }
  }

  /** One step of the front matter rules, told by the reason it writes. */
  lemma {:induction false} FrontMatterStep(s: Scan, b: Block, following: Option<Block>, pages: set<nat>,
      patterns: Patterns)
    requires s.front && b.id !in s.reasons && !OpensSection(b, patterns(b))
    ensures var t := FrontMatter(s, b, following, pages, patterns);
      var r := Reason(t.reasons, b.id);
      && (t.front <==> GoesOn(b, patterns(b), r, pages))
      && (t.afterAuthor <==> s.afterAuthor || r == Some("original_author_list"))
      && t.bibliography == s.bibliography
  {
    SamePages(b, pages);
  }

  lemma {:induction false} Words()
    ensures "original_author_list" != "original_affiliation" && "original_math_cell" != "original_reference"
  {
    assert "original_author_list"[10] != "original_affiliation"[10];
    assert "original_math_cell"[9] != "original_reference"[9];
  }

  lemma {:induction false} BodyStep(s: Scan, b: Block, following: Option<Block>, pages: set<nat>, patterns: Patterns)
    requires b.id !in s.reasons && (s.front ==> !s.bibliography)
    requires OpensSection(b, patterns(b)) ==> !s.front
    ensures var t := BodyRules(s, b, following, pages, patterns);
      var r := Reason(t.reasons, b.id);
      && (t.front <==> s.front && GoesOn(b, patterns(b), r, pages))
      && (t.afterAuthor <==> s.afterAuthor || r == Some("original_author_list"))
      && (t.front ==> !t.bibliography)
  {
    Words();
    if s.front { FrontMatterStep(s, b, following, pages, patterns); }
  }

  /** One step of the scan, told by the reason it writes. */
  lemma {:induction false} ScanStep(s: Scan, title: Id, b: Block, following: Option<Block>, pages: set<nat>,
      patterns: Patterns)
    requires b.id !in s.reasons && (s.front ==> !s.bibliography) && b.id != title
    ensures var t := ScanBlock(s, title, b, following, pages, patterns);
      var r := Reason(t.reasons, b.id);
      && (t.front <==> s.front && GoesOn(b, patterns(b), r, pages))
      && (t.afterAuthor <==> s.afterAuthor || r == Some("original_author_list"))
      && (t.front ==> !t.bibliography)
  {
    var f := patterns(b);
    var entered := if OpensSection(b, f) then s.(bibliography := false, front := false) else s;
    BodyStep(entered, b, following, pages, patterns);
  }

  /** The two running flags mean: the title came before and the front matter has gone on since, and an
      author list was kept. */
  lemma {:induction false} FrontFlags(p: Page, k: nat)
    requires k <= |p.blocks| && DistinctIds(p.blocks)
    ensures After(p, k).front <==> InFront(p, k)
    ensures After(p, k).afterAuthor <==> AuthorsBefore(p, k)
    ensures After(p, k).front ==> !After(p, k).bibliography
  {
    if k > 0 {
      var b := p.blocks[k - 1];
      FrontFlags(p, k - 1);
      NotYet(p, k - 1, k - 1);
      Settled(p, k - 1, k);
      if b.id == p.title {
        assert FrontFrom(p, k - 1, k);
        AuthorsStep(p, k - 1);
      } else {
        ScanStep(After(p, k - 1), p.title, b, Following(p.blocks, k - 1), p.pages, p.patterns);
        FrontGoesOn(p, k - 1);
        AuthorsStep(p, k - 1);
      }
    }
  }

  lemma {:induction false} AuthorsStep(p: Page, k: nat)
    requires k < |p.blocks|
    ensures AuthorsBefore(p, k + 1) <==> AuthorsBefore(p, k) || ReasonAt(p, k) == Some("original_author_list")
  {}

  lemma {:induction false} FrontGoesOn(p: Page, k: nat)
    requires k < |p.blocks| && p.blocks[k].id != p.title
    ensures InFront(p, k + 1) <==> InFront(p, k) && GoesOn(p.blocks[k], FactsAt(p, k), ReasonAt(p, k), p.pages)
  {
    if InFront(p, k + 1) {
      var t :| 0 <= t < k + 1 && FrontFrom(p, t, k + 1);
      assert FrontFrom(p, t, k);
    }
    if InFront(p, k) && GoesOn(p.blocks[k], FactsAt(p, k), ReasonAt(p, k), p.pages) {
      var t :| 0 <= t < k && FrontFrom(p, t, k);
      assert FrontFrom(p, t, k + 1);
    }
  }

  /** Front matter text the earlier rules leave alone. */
  ghost predicate FrontText(p: Page, k: nat)
    requires k < |p.blocks|
  {
    var b, f := p.blocks[k], FactsAt(p, k);
    && InFront(p, k) && OnTitlePages(b, p.pages) && !f.blank
    && f.identifier.None? && !OpensBibliography(b, f) && !OpensSection(b, f)
  }

  /** Behind an author list a looser pattern takes affiliations. */
  ghost predicate AffiliationLine(p: Page, k: nat)
    requires k < |p.blocks|
  {
    if AuthorsBefore(p, k) then FactsAt(p, k).affiliationAfterAuthor else FactsAt(p, k).affiliation
  }

  /** Names, with something beside them that says they are the authors. */
  ghost predicate Byline(p: Page, k: nat)
    requires k < |p.blocks|
  {
    var f := FactsAt(p, k);
    f.names && (f.authorLabel || f.markers || AuthorsBefore(p, k) || Adjacent(Following(p.blocks, k), p.patterns))
  }

  /** A reference, or text and cells under a reference heading that no section heading has ended. */
  ghost predicate InReferences(p: Page, k: nat)
    requires k < |p.blocks|
  {
    var b, f := p.blocks[k], FactsAt(p, k);
    b.kind == Reference || ((TextKind(b.kind) || b.kind == TableCell)
      && InBibliography(p.blocks, k, p.title, p.patterns) && !OpensSection(b, f))
  }

  lemma {:induction false} FrontReason(s: Scan, b: Block, following: Option<Block>, pages: set<nat>,
      patterns: Patterns)
    requires b.id !in s.reasons
    ensures var f := patterns(b);
      var line := if s.afterAuthor then f.affiliationAfterAuthor else f.affiliation;
      Reason(FrontMatter(s, b, following, pages, patterns).reasons, b.id) ==
        if !OnTitlePages(b, pages) || f.blank then None
        else if line then Some("original_affiliation")
        else if f.names && (f.authorLabel || f.markers || s.afterAuthor || Adjacent(following, patterns))
          then Some("original_author_list") else None
  {
    SamePages(b, pages);
  }

  lemma {:induction false} BodyReason(s: Scan, b: Block, following: Option<Block>, pages: set<nat>, patterns: Patterns)
    requires b.id !in s.reasons
    ensures var f := patterns(b);
      Reason(BodyRules(s, b, following, pages, patterns).reasons, b.id) ==
        if b.kind == Reference || (s.bibliography && (TextKind(b.kind) || b.kind == TableCell))
          then Some("original_reference")
        else if b.owner.None? && TextKind(b.kind) && f.identifier.Some? then Some(IdentifierText(f.identifier.value))
        else if s.front then Reason(FrontMatter(s, b, following, pages, patterns).reasons, b.id) else None
  {}

  /** The rules that win over everything else. */
  predicate FirstRules(b: Block, f: Facts, title: Id) {
    || b.id == title || (b.kind == Caption && f.identifierLabel) || (b.kind == TableCell && f.cell.Some?)
    || OpensBibliography(b, f)
  }

  lemma {:induction false} LaterReason(p: Page, k: nat)
    requires k < |p.blocks| && DistinctIds(p.blocks)
    requires !FirstRules(p.blocks[k], FactsAt(p, k), p.title)
    ensures var b, f := p.blocks[k], FactsAt(p, k);
      ReasonAt(p, k) ==
        if InReferences(p, k) then Some("original_reference")
        else if b.owner.None? && TextKind(b.kind) && f.identifier.Some? then Some(IdentifierText(f.identifier.value))
        else if !FrontText(p, k) then None
        else if AffiliationLine(p, k) then Some("original_affiliation")
        else if Byline(p, k) then Some("original_author_list") else None
  {
    var s, b, f := After(p, k), p.blocks[k], FactsAt(p, k);
    NotYet(p, k, k);
    Settled(p, k, k + 1);
    FrontFlags(p, k);
    BibliographyFlag(p.blocks, k, p.title, p.pages, p.patterns);
    var entered := if OpensSection(b, f) then s.(bibliography := false, front := false) else s;
    BodyReason(entered, b, Following(p.blocks, k), p.pages, p.patterns);
    if entered.front { FrontReason(entered, b, Following(p.blocks, k), p.pages, p.patterns); }
  }

  lemma {:induction false} EarlyReason(p: Page, k: nat)
    requires k < |p.blocks| && DistinctIds(p.blocks)
    requires FirstRules(p.blocks[k], FactsAt(p, k), p.title)
    ensures var b, f := p.blocks[k], FactsAt(p, k);
      ReasonAt(p, k) ==
        if b.id == p.title then None
        else if b.kind == Caption then Some("original_identifier_label")
        else if b.kind == TableCell then Some(CellText(f.cell.value)) else Some("original_bibliography_heading")
  {
    NotYet(p, k, k);
    Settled(p, k, k + 1);
  }

  lemma {:induction false} WordsDiffer(b: Block, f: Facts)
    ensures f.cell.Some? ==> CellText(f.cell.value) !in {"original_author_list", "original_affiliation",
      "original_reference", "original_identifier_label", "original_bibliography_heading"}
    ensures f.identifier.Some? ==> IdentifierText(f.identifier.value) !in {"original_author_list",
      "original_affiliation", "original_reference", "original_identifier_label", "original_bibliography_heading"}
  {
    Words();
  }

  lemma {:induction false} FrontTextIsLater(p: Page, k: nat)
    requires k < |p.blocks| && DistinctIds(p.blocks) && FrontText(p, k)
    ensures !FirstRules(p.blocks[k], FactsAt(p, k), p.title) && !InReferences(p, k)
  {
    var t :| 0 <= t < k && FrontFrom(p, t, k);
    assert p.blocks[t].id != p.blocks[k].id;
    FrontFlags(p, k);
    BibliographyFlag(p.blocks, k, p.title, p.pages, p.patterns);
  }

  lemma {:induction false} FrontReasons(p: Page, k: nat)
    requires k < |p.blocks| && DistinctIds(p.blocks)
    ensures ReasonAt(p, k) == Some("original_affiliation") <==> FrontText(p, k) && AffiliationLine(p, k)
    ensures ReasonAt(p, k) == Some("original_author_list") <==>
      FrontText(p, k) && !AffiliationLine(p, k) && Byline(p, k)
  {
    var b, f := p.blocks[k], FactsAt(p, k);
    Words();
    WordsDiffer(b, f);
    if FrontText(p, k) { FrontTextIsLater(p, k); }
    if FirstRules(b, f, p.title) { EarlyReason(p, k); } else { LaterReason(p, k); }
  }

  /** Title-page text is kept as an affiliation exactly when it reads as one, with the looser pattern
      behind an author list; the front matter has gone on up to it, on the title's pages. */
  lemma {:induction false} AffiliationIsKept(p: Page, k: nat)
    requires k < |p.blocks| && DistinctIds(p.blocks)
    ensures ReasonAt(p, k) == Some("original_affiliation") <==> FrontText(p, k) && AffiliationLine(p, k)
  {
    FrontReasons(p, k);
  }

  /** And as an author list exactly when it names people and something says they are the authors. */
  lemma {:induction false} AuthorListIsKept(p: Page, k: nat)
    requires k < |p.blocks| && DistinctIds(p.blocks)
    ensures ReasonAt(p, k) == Some("original_author_list") <==>
      FrontText(p, k) && !AffiliationLine(p, k) && Byline(p, k)
  {
    FrontReasons(p, k);
  }

  /** References are kept under their heading, cells for what they hold, and identifiers anywhere. */
  lemma {:induction false} OthersAreKept(p: Page, k: nat)
    requires k < |p.blocks| && DistinctIds(p.blocks) && p.blocks[k].id != p.title
    ensures var b, f, r := p.blocks[k], FactsAt(p, k), ReasonAt(p, k);
      && (r == Some("original_identifier_label") <==> b.kind == Caption && f.identifierLabel)
      && (r == Some("original_bibliography_heading") <==> OpensBibliography(b, f))
      && (r == Some("original_reference") <==>
           InReferences(p, k) && !OpensBibliography(b, f) && !(b.kind == TableCell && f.cell.Some?))
  {
    var b, f := p.blocks[k], FactsAt(p, k);
    Words();
    WordsDiffer(b, f);
    if FirstRules(b, f, p.title) { EarlyReason(p, k); } else { LaterReason(p, k); }
  }

  predicate IdentifierLine(b: Block, f: Facts) {
    b.owner.None? && TextKind(b.kind) && f.identifier.Some?
  }

  /** Numbers, formulas and identifiers in cells, each under its own word. */
  lemma {:induction false} CellsAreKept(p: Page, k: nat)
    requires k < |p.blocks| && DistinctIds(p.blocks) && p.blocks[k].id != p.title && p.blocks[k].kind == TableCell
    ensures var f, r := FactsAt(p, k), ReasonAt(p, k);
      && (r == Some("original_numeric_cell") <==> f.cell == Some(NumericCell))
      && (r == Some("original_math_cell") <==> f.cell == Some(MathCell))
      && (r == Some("original_identifier_cell") <==> f.cell == Some(IdentifierCell))
  {
    Words();
    if FirstRules(p.blocks[k], FactsAt(p, k), p.title) { EarlyReason(p, k); } else { LaterReason(p, k); }
  }

  /** Lines that are an identifier or a contact are kept as one wherever no stronger rule speaks. */
  lemma {:induction false} LiteralsAreKept(p: Page, k: nat)
    requires k < |p.blocks| && DistinctIds(p.blocks) && p.blocks[k].id != p.title
    ensures var b, f, r := p.blocks[k], FactsAt(p, k), ReasonAt(p, k);
      var free := IdentifierLine(b, f) && !OpensBibliography(b, f) && !InReferences(p, k);
      && (r == Some("original_identifier") <==> free && f.identifier == Some(Identifier))
      && (r == Some("original_contact") <==> free && f.identifier == Some(Contact))
  {
    Words();
    if FirstRules(p.blocks[k], FactsAt(p, k), p.title) { EarlyReason(p, k); } else { LaterReason(p, k); }
  }

  /** A block no rule speaks of is translated. */
  lemma {:induction false} RestIsTranslated(p: Page, k: nat)
    requires k < |p.blocks| && DistinctIds(p.blocks)
    ensures var b, f := p.blocks[k], FactsAt(p, k);
      ReasonAt(p, k) == None <==>
        b.id == p.title
        || (!FirstRules(b, f, p.title) && !InReferences(p, k)
            && !IdentifierLine(b, f)
            && !(FrontText(p, k) && (AffiliationLine(p, k) || Byline(p, k))))
  {
    if FirstRules(p.blocks[k], FactsAt(p, k), p.title) { EarlyReason(p, k); } else { LaterReason(p, k); }
  }

  /** The page `original_only_blocks` reads: the blocks by their order, the title and its pages. */
  ghost function PageOf(source: Source, patterns: Patterns): (p: Page)
    ensures Reasons(p) == OriginalOnly(source, patterns)
  {
    var blocks := Sorted(source.blocks);
    Page(blocks, source.title, PageSet(Find(blocks, source.title)), patterns)
  }

  ghost predicate Ascending(blocks: seq<Block>) {
    forall i, j :: 0 <= i < j < |blocks| ==> blocks[i].order <= blocks[j].order
  }

  lemma {:induction false} InsertAscends(sorted: seq<Block>, b: Block)
    requires Ascending(sorted)
    ensures Ascending(Insert(sorted, b))
    ensures forall c :: c in Insert(sorted, b) ==> c in sorted || c == b
  {
    var n := |sorted| - 1;
    if sorted != [] && sorted[n].order > b.order {
      InsertAscends(sorted[..n], b);
      forall c | c in Insert(sorted[..n], b) ensures c.order <= sorted[n].order {}
    }
  }

  lemma {:induction false} SortedAscends(blocks: seq<Block>)
    ensures Ascending(Sorted(blocks))
  {
    if blocks != [] {
      SortedAscends(blocks[..|blocks| - 1]);
      InsertAscends(Sorted(blocks[..|blocks| - 1]), blocks[|blocks| - 1]);
    }
  }

  lemma {:induction false} InsertIsDistinct(sorted: seq<Block>, b: Block)
    requires DistinctIds(sorted) && forall c :: c in sorted ==> c.id != b.id
    ensures DistinctIds(Insert(sorted, b)) && forall c :: c in Insert(sorted, b) ==> c in sorted || c == b
  {
    var n := |sorted| - 1;
    if sorted != [] && sorted[n].order > b.order {
      InsertIsDistinct(sorted[..n], b);
      forall c | c in Insert(sorted[..n], b) ensures c.id != sorted[n].id {}
    }
  }

  lemma {:induction false} SortedIsDistinct(blocks: seq<Block>)
    requires DistinctIds(blocks)
    ensures DistinctIds(Sorted(blocks)) && forall c :: c in Sorted(blocks) ==> c in blocks
  {
    if blocks != [] {
      SortedIsDistinct(blocks[..|blocks| - 1]);
      InsertIsDistinct(Sorted(blocks[..|blocks| - 1]), blocks[|blocks| - 1]);
    }
  }

  /** Every block of a source is read once, in order. */
  lemma {:induction false} PageIsSource(source: Source, patterns: Patterns)
    ensures var p := PageOf(source, patterns);
      && multiset(p.blocks) == multiset(source.blocks) && Ascending(p.blocks) && p.title == source.title
      && (DistinctIds(source.blocks) ==> DistinctIds(p.blocks))
  {
    if DistinctIds(source.blocks) { SortedIsDistinct(source.blocks); }
    SortedKeeps(source.blocks);
    SortedAscends(source.blocks);
  }
}
