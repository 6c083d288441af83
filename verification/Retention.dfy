/** The original-only policy (src/packages/ir/retention.py): which blocks keep their source text. */
module Retention {
  import opened Wrappers
  import opened Documents

  datatype CellReason = NumericCell | MathCell | IdentifierCell
  datatype IdentifierReason = Identifier | Contact

  /** What the text patterns say about one block. */
  datatype Facts = Facts(
    identifierLabel: bool, cell: Option<CellReason>, referenceHeading: bool, proseHeading: bool,
    identifier: Option<IdentifierReason>, blank: bool, affiliation: bool, affiliationAfterAuthor: bool,
    names: bool, authorLabel: bool, markers: bool)

  type Patterns = Block -> Facts

  function CellText(r: CellReason): string {
    match r
    case NumericCell => "original_numeric_cell"
    case MathCell => "original_math_cell"
    case IdentifierCell => "original_identifier_cell"
  }

  function IdentifierText(r: IdentifierReason): string {
    match r
    case Identifier => "original_identifier"
    case Contact => "original_contact"
  }

  datatype Scan = Scan(reasons: map<Id, string>, front: bool, bibliography: bool, afterAuthor: bool)

  predicate TextKind(k: Kind) {
    k in {Paragraph, ListItem, Footnote}
  }

  function Retain(s: Scan, b: Block, reason: string): Scan {
    s.(reasons := s.reasons[b.id := reason])
  }

  predicate OpensBibliography(b: Block, f: Facts) {
    b.owner.None? && b.kind in {Heading, Paragraph} && f.referenceHeading
  }

  predicate OpensSection(b: Block, f: Facts) {
    b.owner.None? && (b.kind == Heading || (b.kind == Paragraph && f.proseHeading))
  }

  function PageSet(b: Option<Block>): set<nat> {
    if b.None? then {} else set i | 0 <= i < |b.value.pages| :: b.value.pages[i]
  }

  /** A metadata line right behind a list of names. */
  predicate Adjacent(following: Option<Block>, patterns: Patterns) {
    following.Some? && TextKind(following.value.kind) && following.value.owner.None?
      && (patterns(following.value).affiliationAfterAuthor || patterns(following.value).identifier.Some?)
  }

  /** The front matter rules, reached while the scan is still in front of the body. */
  function FrontMatter(s: Scan, b: Block, following: Option<Block>, titlePages: set<nat>, patterns: Patterns): Scan {
    var f := patterns(b);
    if PageSet(Some(b)) != {} && titlePages != {} && !(PageSet(Some(b)) <= titlePages) then s.(front := false)
    else if b.owner.Some? || !TextKind(b.kind) then s.(front := false)
    else if f.blank then s
    else if (if s.afterAuthor then f.affiliationAfterAuthor else f.affiliation) then
      Retain(s, b, "original_affiliation")
    else if f.names && (Adjacent(following, patterns) || s.afterAuthor || f.authorLabel || f.markers) then
      Retain(s, b, "original_author_list").(afterAuthor := true)
    else s.(front := false)
  }

  /** The rules behind the headings: references, identifiers, front matter. */
  function BodyRules(s: Scan, b: Block, following: Option<Block>, titlePages: set<nat>, patterns: Patterns): Scan {
    var f := patterns(b);
    if b.kind == Reference || (s.bibliography && (TextKind(b.kind) || b.kind == TableCell)) then
      Retain(s, b, "original_reference")
    else if b.owner.None? && TextKind(b.kind) && f.identifier.Some? then
      Retain(s, b, IdentifierText(f.identifier.value))
    else if !s.front then s
    else FrontMatter(s, b, following, titlePages, patterns)
  }

  /** One block of the scan. */
  function ScanBlock(s: Scan, title: Id, b: Block, following: Option<Block>, titlePages: set<nat>,
      patterns: Patterns): Scan {
    var f := patterns(b);
    if b.id == title then s.(front := true, bibliography := false)
    else if b.kind == Caption && f.identifierLabel then Retain(s, b, "original_identifier_label").(front := false)
    else if b.kind == TableCell && f.cell.Some? then Retain(s, b, CellText(f.cell.value))
    else if OpensBibliography(b, f) then
      Retain(s, b, "original_bibliography_heading").(bibliography := true, front := false)
    else
      var entered := if OpensSection(b, f) then s.(bibliography := false, front := false) else s;
      BodyRules(entered, b, following, titlePages, patterns)
  }

  function Following(blocks: seq<Block>, i: nat): Option<Block> {
    if i + 1 < |blocks| then Some(blocks[i + 1]) else None
  }

  /** The scan over the first `k` blocks in order. */
  function ScanTo(blocks: seq<Block>, k: nat, title: Id, titlePages: set<nat>, patterns: Patterns): Scan
    requires k <= |blocks|
  {
    if k == 0 then Scan(map[], false, false, false)
    else
      ScanBlock(ScanTo(blocks, k - 1, title, titlePages, patterns), title, blocks[k - 1], Following(blocks, k - 1),
        titlePages, patterns)
  }

  /** Blocks by their order, equal orders in place. */
  function Insert(sorted: seq<Block>, b: Block): seq<Block> {
    if sorted == [] || sorted[|sorted| - 1].order <= b.order then sorted + [b]
    else Insert(sorted[..|sorted| - 1], b) + [sorted[|sorted| - 1]]
  }

  function Sorted(blocks: seq<Block>): seq<Block> {
    if blocks == [] then [] else Insert(Sorted(blocks[..|blocks| - 1]), blocks[|blocks| - 1])
  }

  function OriginalOnly(source: Source, patterns: Patterns): map<Id, string> {
    var blocks := Sorted(source.blocks);
    ScanTo(blocks, |blocks|, source.title, PageSet(Find(blocks, source.title)), patterns).reasons
  }

  /** `original_only_blocks`. */
  method OriginalOnlyBlocks(source: Source, patterns: Patterns) returns (reasons: map<Id, string>)
    ensures reasons == OriginalOnly(source, patterns)
  {
    var blocks := Sorted(source.blocks);
    var titlePages := PageSet(Find(blocks, source.title));
    reasons := map[];
    var front, bibliography, afterAuthor := false, false, false;
    for i := 0 to |blocks|
      invariant ScanTo(blocks, i, source.title, titlePages, patterns) == Scan(reasons, front, bibliography, afterAuthor)
    {
      var b, f := blocks[i], patterns(blocks[i]);
      ghost var before := Scan(reasons, front, bibliography, afterAuthor);
      var root := b.owner.None?;
      if b.id == source.title {
        front, bibliography := true, false;
      } else if b.kind == Caption && f.identifierLabel {
        reasons, front := reasons[b.id := "original_identifier_label"], false;
      } else if b.kind == TableCell && f.cell.Some? {
        reasons := reasons[b.id := CellText(f.cell.value)];
      } else if root && b.kind in {Heading, Paragraph} && f.referenceHeading {
        reasons, bibliography, front := reasons[b.id := "original_bibliography_heading"], true, false;
      } else {
        if root && (b.kind == Heading || (b.kind == Paragraph && f.proseHeading)) {
          bibliography, front := false, false;
        }
        if b.kind == Reference || (bibliography && (TextKind(b.kind) || b.kind == TableCell)) {
          reasons := reasons[b.id := "original_reference"];
        } else if root && TextKind(b.kind) && f.identifier.Some? {
          reasons := reasons[b.id := IdentifierText(f.identifier.value)];
        } else if front {
          if PageSet(Some(b)) != {} && titlePages != {} && !(PageSet(Some(b)) <= titlePages) {
            front := false;
          } else if !root || !TextKind(b.kind) {
            front := false;
          } else if !f.blank {
            if (if afterAuthor then f.affiliationAfterAuthor else f.affiliation) {
              reasons := reasons[b.id := "original_affiliation"];
            } else if f.names && (Adjacent(Following(blocks, i), patterns) || afterAuthor || f.authorLabel
              || f.markers) {
              reasons, afterAuthor := reasons[b.id := "original_author_list"], true;
            } else {
              front := false;
            }
          }
        }
      }
      assert Scan(reasons, front, bibliography, afterAuthor) ==
        ScanBlock(before, source.title, b, Following(blocks, i), titlePages, patterns);
    }
  }

  /** Every reason is one of the policy's own words. */
  predicate PolicyReason(reason: string) {
    reason in {
      "original_identifier_label", "original_numeric_cell", "original_math_cell", "original_identifier_cell",
      "original_bibliography_heading", "original_reference", "original_identifier", "original_contact",
      "original_affiliation", "original_author_list"}
  }

  ghost predicate PolicyReasons(reasons: map<Id, string>) {
    forall id :: id in reasons ==> PolicyReason(reasons[id])
  }

  /** A step writes at most one reason, the block's own. */
  ghost predicate Writes(s: Scan, b: Block, t: Scan) {
    t.reasons == s.reasons || Wrote(s, b, t)
  }

  ghost predicate Wrote(s: Scan, b: Block, t: Scan) {
    b.id in t.reasons && PolicyReason(t.reasons[b.id]) && t.reasons == s.reasons[b.id := t.reasons[b.id]]
  }

  lemma {:induction false} RetainWrites(s: Scan, b: Block, reason: string)
    requires PolicyReason(reason)
    ensures Wrote(s, b, Retain(s, b, reason))
  {}

  lemma {:induction false} FrontMatterWrites(s: Scan, b: Block, following: Option<Block>, titlePages: set<nat>,
      patterns: Patterns)
    ensures Writes(s, b, FrontMatter(s, b, following, titlePages, patterns))
  {
    RetainWrites(s, b, "original_affiliation");
    RetainWrites(s, b, "original_author_list");
  }

  lemma {:induction false} BodyRulesWrite(s: Scan, b: Block, following: Option<Block>, titlePages: set<nat>,
      patterns: Patterns)
    ensures Writes(s, b, BodyRules(s, b, following, titlePages, patterns))
    ensures b.kind == Reference ==> Wrote(s, b, BodyRules(s, b, following, titlePages, patterns))
  {
    FrontMatterWrites(s, b, following, titlePages, patterns);
    RetainWrites(s, b, "original_reference");
    RetainWrites(s, b, "original_identifier");
    RetainWrites(s, b, "original_contact");
  }

  lemma {:induction false} ScanBlockWrites(s: Scan, title: Id, b: Block, following: Option<Block>,
      titlePages: set<nat>, patterns: Patterns)
    ensures var t := ScanBlock(s, title, b, following, titlePages, patterns);
      if b.id == title then t.reasons == s.reasons else Writes(s, b, t) && (b.kind == Reference ==> Wrote(s, b, t))
  {
    BodyRulesWrite(if OpensSection(b, patterns(b)) then s.(bibliography := false, front := false) else s, b, following,
      titlePages, patterns);
    RetainWrites(s, b, "original_identifier_label");
    RetainWrites(s, b, "original_numeric_cell");
    RetainWrites(s, b, "original_math_cell");
    RetainWrites(s, b, "original_identifier_cell");
    RetainWrites(s, b, "original_bibliography_heading");
  }

  lemma {:induction false} ScanReasons(blocks: seq<Block>, k: nat, title: Id, titlePages: set<nat>, patterns: Patterns)
    requires k <= |blocks|
    ensures var t := ScanTo(blocks, k, title, titlePages, patterns);
      && PolicyReasons(t.reasons) && title !in t.reasons
      && forall j :: 0 <= j < k && blocks[j].kind == Reference && blocks[j].id != title ==> blocks[j].id in t.reasons
  {
    if k > 0 {
      ScanReasons(blocks, k - 1, title, titlePages, patterns);
      ScanBlockWrites(ScanTo(blocks, k - 1, title, titlePages, patterns), title, blocks[k - 1],
        Following(blocks, k - 1), titlePages, patterns);
    }
  }

  lemma {:induction false} InsertKeeps(sorted: seq<Block>, b: Block)
    ensures multiset(Insert(sorted, b)) == multiset(sorted) + multiset{b}
  {
    if sorted != [] && sorted[|sorted| - 1].order > b.order {
      var n := |sorted| - 1;
      assert sorted == sorted[..n] + [sorted[n]];
      InsertKeeps(sorted[..n], b);
    }
  }

  lemma {:induction false} SortedKeeps(blocks: seq<Block>)
    ensures multiset(Sorted(blocks)) == multiset(blocks)
  {
    if blocks != [] {
      var n := |blocks| - 1;
      assert blocks == blocks[..n] + [blocks[n]];
      SortedKeeps(blocks[..n]);
      InsertKeeps(Sorted(blocks[..n]), blocks[n]);
    }
  }

  /** The title never keeps its source text by policy, references always do, and every reason is a
      policy word. */
  lemma {:induction false} PolicyShape(source: Source, patterns: Patterns)
    ensures var reasons := OriginalOnly(source, patterns);
      && PolicyReasons(reasons) && source.title !in reasons
      && forall b :: b in source.blocks && b.kind == Reference && b.id != source.title ==> b.id in reasons
  {
    var blocks := Sorted(source.blocks);
    SortedKeeps(source.blocks);
    ScanReasons(blocks, |blocks|, source.title, PageSet(Find(blocks, source.title)), patterns);
    forall b | b in source.blocks && b.kind == Reference && b.id != source.title
      ensures b.id in OriginalOnly(source, patterns)
    {
      assert b in multiset(blocks);
      var j :| 0 <= j < |blocks| && blocks[j] == b;
    }
  }

  /** The block closes an open bibliography: the title, or a root section heading that opens none. */
  predicate Closes(b: Block, title: Id, f: Facts) {
    b.id == title || (OpensSection(b, f) && !OpensBibliography(b, f))
  }

  ghost predicate InBibliography(blocks: seq<Block>, k: nat, title: Id, patterns: Patterns)
    requires k <= |blocks|
  {
    exists j :: 0 <= j < k && OpenedAt(blocks, j, k, title, patterns)
  }

  /** Position `j` opens the bibliography and nothing before `k` closes it. */
  ghost predicate OpenedAt(blocks: seq<Block>, j: nat, k: nat, title: Id, patterns: Patterns)
    requires j < k <= |blocks|
  {
    && blocks[j].id != title && OpensBibliography(blocks[j], patterns(blocks[j]))
    && forall i :: j < i < k ==> !Closes(blocks[i], title, patterns(blocks[i]))
  }

  lemma {:induction false} BibliographyStep(s: Scan, title: Id, b: Block, following: Option<Block>,
      titlePages: set<nat>, patterns: Patterns)
    ensures ScanBlock(s, title, b, following, titlePages, patterns).bibliography <==>
      b.id != title && (OpensBibliography(b, patterns(b)) || (s.bibliography && !Closes(b, title, patterns(b))))
  {}

  /** The running flag means: a reference heading came before, and no section heading since. */
  lemma {:induction false} BibliographyFlag(blocks: seq<Block>, k: nat, title: Id, titlePages: set<nat>,
      patterns: Patterns)
    requires k <= |blocks|
    ensures ScanTo(blocks, k, title, titlePages, patterns).bibliography <==> InBibliography(blocks, k, title, patterns)
  {
    if k > 0 {
      var s, b := ScanTo(blocks, k - 1, title, titlePages, patterns), blocks[k - 1];
      BibliographyFlag(blocks, k - 1, title, titlePages, patterns);
      BibliographyStep(s, title, b, Following(blocks, k - 1), titlePages, patterns);
      if b.id != title && OpensBibliography(b, patterns(b)) {
        assert OpenedAt(blocks, k - 1, k, title, patterns);
      }
      if InBibliography(blocks, k - 1, title, patterns) && !Closes(b, title, patterns(b)) {
        var j :| 0 <= j < k - 1 && OpenedAt(blocks, j, k - 1, title, patterns);
        assert OpenedAt(blocks, j, k, title, patterns);
      }
      if InBibliography(blocks, k, title, patterns) {
        var j :| 0 <= j < k && OpenedAt(blocks, j, k, title, patterns);
        if j < k - 1 { assert OpenedAt(blocks, j, k - 1, title, patterns); }
      }
    }
  }

  /** Text inside the bibliography keeps its source; the reason is written when the scan passes it
      and later blocks with other ids leave it alone. */
  lemma {:induction false} BibliographyIsRetained(blocks: seq<Block>, k: nat, n: nat, title: Id, titlePages: set<nat>,
      patterns: Patterns)
    requires k < n <= |blocks| && DistinctIds(blocks) && blocks[k].id != title
    requires TextKind(blocks[k].kind) && !OpensBibliography(blocks[k], patterns(blocks[k]))
    requires !Closes(blocks[k], title, patterns(blocks[k]))
    requires InBibliography(blocks, k, title, patterns)
    ensures var reasons := ScanTo(blocks, n, title, titlePages, patterns).reasons;
      blocks[k].id in reasons && reasons[blocks[k].id] == "original_reference"
    decreases n
  {
    if n > k + 1 {
      BibliographyIsRetained(blocks, k, n - 1, title, titlePages, patterns);
      ScanBlockWrites(ScanTo(blocks, n - 1, title, titlePages, patterns), title, blocks[n - 1],
        Following(blocks, n - 1), titlePages, patterns);
      assert blocks[n - 1].id != blocks[k].id;
    } else {
      BibliographyFlag(blocks, k, title, titlePages, patterns);
      InsideStep(ScanTo(blocks, k, title, titlePages, patterns), title, blocks[k], Following(blocks, k), titlePages,
        patterns);
    }
  }

  lemma {:induction false} InsideStep(s: Scan, title: Id, b: Block, following: Option<Block>, titlePages: set<nat>,
      patterns: Patterns)
    requires s.bibliography && b.id != title && TextKind(b.kind)
    requires !OpensBibliography(b, patterns(b)) && !Closes(b, title, patterns(b))
    ensures var t := ScanBlock(s, title, b, following, titlePages, patterns);
      b.id in t.reasons && t.reasons[b.id] == "original_reference"
  {}
}
