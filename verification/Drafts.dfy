/** Draft segments, reviews and the translation snapshot (src/packages/editorial/drafts.py). */
module Drafts {
  import opened Wrappers
  import opened Documents
  import opened Retention
  import opened Translations

  datatype SegmentOrigin = ManualUi | FromModel | CandidateAccepted | FromCache | RevisionCopy

  /** One version of a block's translation; `kind` is the generation a copied revision recorded. */
  datatype Segment = Segment(
    block: Id, sequence: nat, target: seq<Inline>, hash: SourceHash, context: Context, origin: SegmentOrigin,
    glossary: Option<string>, kind: Option<Origin>)

  /** What a reviewer confirmed. */
  datatype Fingerprint = Fingerprint(hash: SourceHash, context: Context, target: seq<Inline>, version: nat,
      glossary: string)

  datatype Review = Review(block: Id, version: nat, fingerprint: Fingerprint)

  /** A draft's stored rows; `glossary` is the draft's own glossary revision. */
  datatype History = History(segments: seq<Segment>, reviews: seq<Review>, glossary: string)

  /** The row with the highest sequence number. */
  function Current(segments: seq<Segment>, id: Id): (r: Option<Segment>)
    ensures r.Some? ==> r.value.block == id && r.value in segments
    ensures forall i :: 0 <= i < |segments| && segments[i].block == id ==>
      r.Some? && segments[i].sequence <= r.value.sequence
  {
    if segments == [] then None
    else
      var before, last := Current(segments[..|segments| - 1], id), segments[|segments| - 1];
      assert forall i :: 0 <= i < |segments| - 1 ==> segments[i] == segments[..|segments| - 1][i];
      if last.block == id && (before.None? || last.sequence > before.value.sequence) then Some(last) else before
  }

  function SegmentGlossary(h: History, s: Segment): string {
    if s.glossary.Some? then s.glossary.value else h.glossary
  }

  function SegmentFingerprint(h: History, s: Segment): Fingerprint {
    Fingerprint(s.hash, s.context, s.target, s.sequence, SegmentGlossary(h, s))
  }

  predicate Reviewed(h: History, s: Segment) {
    exists i :: 0 <= i < |h.reviews| && h.reviews[i].block == s.block && h.reviews[i].version == s.sequence
      && h.reviews[i].fingerprint == SegmentFingerprint(h, s)
  }

  function IndexOf(blocks: seq<Block>, id: Id): (k: nat)
    ensures k <= |blocks|
  {
    if blocks == [] || blocks[0].id == id then 0 else 1 + IndexOf(blocks[1..], id)
  }

  /** `context_hash`. */
  function ContextOf(blocks: seq<Block>, b: Block): Context {
    var k := IndexOf(blocks, b.id);
    Context(
      if b.parent.Some? && Find(blocks, b.parent.value).Some? then Find(blocks, b.parent.value).value.normalized
        else "",
      if 0 < k then [blocks[k - 1].hash] else [],
      if k + 1 < |blocks| then [blocks[k + 1].hash] else [])
  }

  /** The node repeats a reference, cross-reference target or link address of the source. */
  predicate NodeFromSource(n: Inline, b: Block) {
    match n
    case Text(_) => true
    case ProtectedRef(ref) => exists i :: 0 <= i < |b.inline| && b.inline[i].ProtectedRef? && b.inline[i].ref == ref
    case CrossRef(target, _) => exists i :: 0 <= i < |b.inline| && b.inline[i].CrossRef? && b.inline[i].target == target
    case Link(href, _) => exists i :: 0 <= i < |b.inline| && b.inline[i].Link? && b.inline[i].href == href
  }

  ghost predicate TargetValid(nodes: seq<Inline>, source: Source, b: Block, safe: SafeUrl) {
    && nodes != [] && RefsResolve(nodes, source, safe)
    && (forall i :: 0 <= i < |nodes| ==> NodeFromSource(nodes[i], b))
    && Flatten(nodes, source.atoms).Some? && !Blank(Flatten(nodes, source.atoms).value)
  }

  /** `validate_target`. */
  method ValidateTarget(nodes: seq<Inline>, source: Source, b: Block, safe: SafeUrl) returns (ok: bool)
    ensures ok <==> TargetValid(nodes, source, b, safe)
  {
    if nodes == [] { return false; }
    ok := InlineRefs(nodes, source, safe);
    if !ok { return false; }
    for i := 0 to |nodes|
      invariant forall j :: 0 <= j < i ==> NodeFromSource(nodes[j], b)
    {
      if !NodeFromSource(nodes[i], b) { return false; }
    }
    var text := FlattenInline(nodes, source.atoms);
    ok := text.Some? && !Blank(text.value);
  }

  function RetainedReason(source: Source, original: map<Id, string>, b: Block): string {
    if source.rich && b.normalized == "" && HasControl(b.inline, source.atoms) then "static_control"
    else if b.id in original then original[b.id]
    else ""
  }

  predicate Keeps(source: Source, language: string, original: map<Id, string>, b: Block) {
    !b.translatable || b.language == language || RetainedReason(source, original, b) != ""
  }

  function KindReason(k: Kind): string {
    match k
    case Code => "original_code"
    case Math => "original_math"
    case Figure => "original_figure"
    case Table => "structural_container"
    case Group => "structural_container"
    case ListItem => "structural_container"
    case TableCell => "empty_table_cell"
    case Reference => "original_reference"
    case _ => ""
  }

  function KeptReason(source: Source, language: string, original: map<Id, string>, b: Block): string {
    var reason := RetainedReason(source, original, b);
    if reason != "" then reason
    else if b.language == language && b.translatable then "same_language"
    else KindReason(b.kind)
  }

  ghost predicate Usable(s: Segment, source: Source, b: Block, safe: SafeUrl) {
    s.hash == b.hash && TargetValid(s.target, source, b, safe)
  }

  function OriginOf(s: Segment): Origin {
    match s.origin
    case FromModel => Model
    case CandidateAccepted => Model
    case FromCache => Cached
    case RevisionCopy => if s.kind.Some? then s.kind.value else Human
    case ManualUi => Human
  }

  function KeptResult(source: Source, h: History, b: Block, reason: string): BlockResult {
    BlockResult(b.id, b.hash, ContextOf(source.blocks, b), Retained, [], NotReviewed, reason,
      Generation(KeptSource, h.glossary), None, None)
  }

  function FallbackResult(source: Source, h: History, b: Block): BlockResult {
    BlockResult(b.id, b.hash, ContextOf(source.blocks, b), SourceShown, [], NotReviewed, "translation_unavailable",
      Generation(Human, h.glossary), None, Some(if b.normalized != "" || b.pages == [] then SourceText else SourcePage))
  }

  function TranslatedResult(source: Source, h: History, b: Block, s: Segment): BlockResult {
    BlockResult(b.id, b.hash, ContextOf(source.blocks, b), Translated, s.target,
      if Reviewed(h, s) then HumanReviewed else NotReviewed, "", Generation(OriginOf(s), SegmentGlossary(h, s)),
      if Reviewed(h, s) then Some(ReviewRecord(true, b.hash, s.target, ContextOf(source.blocks, b),
        SegmentGlossary(h, s))) else None,
      None)
  }

  /** One block of the snapshot: kept, translated from its current usable segment, or shown as source. */
  ghost function BuildResult(source: Source, h: History, language: string, original: map<Id, string>, b: Block,
      safe: SafeUrl): BlockResult {
    var s := Current(h.segments, b.id);
    if Keeps(source, language, original, b) then KeptResult(source, h, b, KeptReason(source, language, original, b))
    else if s.Some? && Usable(s.value, source, b, safe) then TranslatedResult(source, h, b, s.value)
    else FallbackResult(source, h, b)
  }

  ghost function MapTo<A, B>(f: A -> B, items: seq<A>, k: nat): (r: seq<B>)
    requires k <= |items|
    ensures |r| == k
  {
    if k == 0 then [] else MapTo(f, items, k - 1) + [f(items[k - 1])]
  }

  lemma {:induction false} MapToAt<A, B>(f: A -> B, items: seq<A>, k: nat, i: nat)
    requires i < k <= |items|
    ensures MapTo(f, items, k)[i] == f(items[i])
  {
    if i < k - 1 { MapToAt(f, items, k - 1, i); }
  }

  ghost function Builder(source: Source, h: History, language: string, original: map<Id, string>,
      safe: SafeUrl): Block -> BlockResult {
    b => BuildResult(source, h, language, original, b, safe)
  }

  /** The results of the first `k` blocks. */
  ghost function BuildResults(source: Source, h: History, language: string, original: map<Id, string>, k: nat,
      safe: SafeUrl): (r: seq<BlockResult>)
    requires k <= |source.blocks|
    ensures |r| == k
  {
    MapTo(Builder(source, h, language, original, safe), source.blocks, k)
  }

  lemma {:induction false} BuildResultsAt(source: Source, h: History, language: string, original: map<Id, string>,
      k: nat, safe: SafeUrl, i: nat)
    requires i < k <= |source.blocks|
    ensures BuildResults(source, h, language, original, k, safe)[i] ==
      BuildResult(source, h, language, original, source.blocks[i], safe)
  {
    MapToAt(Builder(source, h, language, original, safe), source.blocks, k, i);
  }

  function TitleOf(source: Source, results: seq<BlockResult>): Option<string> {
    var r, b := FindResult(results, source.title), Find(source.blocks, source.title);
    if r.None? || b.None? then None
    else if r.value.reason == "same_language" || r.value.status == SourceShown then Some(b.value.normalized)
    else Flatten(r.value.target, source.atoms)
  }

  /** The snapshot; None when the source has no title block. */
  ghost function Snapshot(source: Source, h: History, language: string, rules: Rules): Option<Translation> {
    var results := BuildResults(source, h, language, OriginalOnly(source, rules.patterns), |source.blocks|, rules.safe);
    var title := TitleOf(source, results);
    if title.None? then None else Some(Translation(source.id, language, title.value, results))
  }

  method BuildBlock(source: Source, h: History, language: string, original: map<Id, string>, b: Block,
      safe: SafeUrl) returns (r: BlockResult)
    ensures r == BuildResult(source, h, language, original, b, safe)
  {
    var sameLanguage := b.language == language;
    var reason := RetainedReason(source, original, b);
    var retained := !b.translatable || sameLanguage || reason != "";
    var segment := if retained then None else Current(h.segments, b.id);
    if segment.Some? {
      if segment.value.hash != b.hash {
        segment := None;
      } else {
        var ok := ValidateTarget(segment.value.target, source, b, safe);
        if !ok { segment := None; }
      }
    }
    var context := ContextOf(source.blocks, b);
    if retained {
      r := BlockResult(b.id, b.hash, context, Retained, [], NotReviewed,
        if reason != "" then reason else if sameLanguage && b.translatable then "same_language" else KindReason(b.kind),
        Generation(KeptSource, h.glossary), None, None);
    } else if segment.None? {
      r := BlockResult(b.id, b.hash, context, SourceShown, [], NotReviewed, "translation_unavailable",
        Generation(Human, h.glossary), None,
          Some(if b.normalized != "" || b.pages == [] then SourceText else SourcePage));
    } else {
      r := TranslatedResult(source, h, b, segment.value);
    }
  }

  method BuildBlocks(source: Source, h: History, language: string, original: map<Id, string>,
      safe: SafeUrl) returns (results: seq<BlockResult>)
    ensures results == BuildResults(source, h, language, original, |source.blocks|, safe)
  {
    ghost var builder := Builder(source, h, language, original, safe);
    results := [];
    for i := 0 to |source.blocks|
      invariant results == MapTo(builder, source.blocks, i)
    {
      var r := BuildBlock(source, h, language, original, source.blocks[i], safe);
      assert r == builder(source.blocks[i]);
      results := results + [r];
    }
  }

  /** `translation_snapshot`. */
  method TranslationSnapshot(source: Source, h: History, language: string,
      rules: Rules) returns (t: Option<Translation>)
    ensures t == Snapshot(source, h, language, rules)
  {
    var original := OriginalOnlyBlocks(source, rules.patterns);
    var results := BuildBlocks(source, h, language, original, rules.safe);
    var title := TitleOf(source, results);
    t := if title.None? then None else Some(Translation(source.id, language, title.value, results));
  }

  datatype EditError = NotFound | SegmentConflict | TargetInvalid

  function LastSequence(h: History, id: Id): nat {
    if Current(h.segments, id).Some? then Current(h.segments, id).value.sequence else 0
  }

  /** Edits keep the glossary of the version before, unless a candidate is accepted; the caller may name one. */
  function EditGlossary(h: History, id: Id, origin: SegmentOrigin, named: Option<string>): string {
    var previous := Current(h.segments, id);
    if named.Some? then named.value
    else if previous.Some? && origin != CandidateAccepted && previous.value.glossary.Some? then
      previous.value.glossary.value
    else h.glossary
  }

  function EditedSegment(source: Source, h: History, b: Block, nodes: seq<Inline>, origin: SegmentOrigin,
      named: Option<string>): Segment {
    Segment(b.id, LastSequence(h, b.id) + 1, nodes, b.hash, ContextOf(source.blocks, b), origin,
      Some(EditGlossary(h, b.id, origin, named)), None)
  }

  ghost function EditRefusal(source: Source, h: History, id: Id, nodes: seq<Inline>, base: nat,
      rules: Rules): Option<EditError> {
    var b := Find(source.blocks, id);
    if b.None? || !b.value.translatable || id in OriginalOnly(source, rules.patterns) then Some(NotFound)
    else if base != LastSequence(h, id) then Some(SegmentConflict)
    else if !TargetValid(nodes, source, b.value, rules.safe) then Some(TargetInvalid)
    else None
  }

  /** A draft as the editor holds it. */
  class Draft {
    var segments: seq<Segment>
    var reviews: seq<Review>
    var generation: nat
    var checked: bool
    const glossary: string

    constructor (glossary: string)
      ensures View() == History([], [], glossary) && generation == 1 && !checked
    {
      this.glossary := glossary;
      segments, reviews, generation, checked := [], [], 1, false;
    }

    function View(): History
      reads this
    {
      History(segments, reviews, glossary)
    }

    /** What `edit_segment` refuses. */
    method CheckEdit(source: Source, id: Id, nodes: seq<Inline>, base: nat,
        rules: Rules) returns (refusal: Option<EditError>)
      ensures refusal == EditRefusal(source, View(), id, nodes, base, rules)
    {
      var b := Find(source.blocks, id);
      var original := OriginalOnlyBlocks(source, rules.patterns);
      if b.None? || !b.value.translatable || id in original { return Some(NotFound); }
      var previous := Current(segments, id);
      if base != (if previous.Some? then previous.value.sequence else 0) { return Some(SegmentConflict); }
      var ok := ValidateTarget(nodes, source, b.value, rules.safe);
      refusal := if ok then None else Some(TargetInvalid);
    }

    method Lineage(id: Id, origin: SegmentOrigin, named: Option<string>) returns (lineage: string)
      ensures lineage == EditGlossary(View(), id, origin, named)
    {
      var previous := Current(segments, id);
      lineage := glossary;
      if previous.Some? && origin != CandidateAccepted && previous.value.glossary.Some? {
        lineage := previous.value.glossary.value;
      }
      if named.Some? { lineage := named.value; }
    }

    /** `edit_segment`: an accepted edit appends a version and voids the quality result. */
    method EditSegment(source: Source, id: Id, nodes: seq<Inline>, base: nat, origin: SegmentOrigin,
        named: Option<string>, rules: Rules)
      returns (r: Result<Segment, EditError>)
      modifies this
      ensures r.Failure? <==> EditRefusal(source, old(View()), id, nodes, base, rules).Some?
      ensures r.Failure? ==> r.error == EditRefusal(source, old(View()), id, nodes, base, rules).value
      ensures r.Failure? ==> View() == old(View()) && generation == old(generation) && checked == old(checked)
      ensures r.Success? ==>
        r.value == EditedSegment(source, old(View()), Find(source.blocks, id).value, nodes, origin, named)
      ensures r.Success? ==> View() == old(View()).(segments := old(segments) + [r.value])
      ensures r.Success? ==> generation == old(generation) + 1 && !checked
    {
      var refusal := CheckEdit(source, id, nodes, base, rules);
      if refusal.Some? { return Failure(refusal.value); }
      var b := Find(source.blocks, id).value;
      var lineage := Lineage(id, origin, named);
      var segment := Segment(id, base + 1, nodes, b.hash, ContextOf(source.blocks, b), origin, Some(lineage), None);
      segments, generation, checked := segments + [segment], generation + 1, false;
      r := Success(segment);
    }

    /** `create_draft` from a sealed revision: its translations become first versions. */
    method CopyRevision(base: Translation)
      modifies this
      ensures View() == old(View()).(segments := old(segments) + Copied(base.results))
      ensures generation == old(generation) && checked == old(checked)
    {
      ghost var before := segments;
      var i := 0;
      while i < |base.results|
        invariant 0 <= i <= |base.results| && segments == before + Copied(base.results[..i])
        invariant View() == old(View()).(segments := segments) && generation == old(generation)
        invariant checked == old(checked)
      {
        assert base.results[..i + 1][..i] == base.results[..i];
        if base.results[i].status == Translated {
          segments := segments + [CopyOf(base.results[i])];
        }
        i := i + 1;
      }
      assert base.results[..i] == base.results;
    }
  }

  function CopyOf(r: BlockResult): Segment {
    Segment(r.block, 1, r.target, r.hash, r.context, RevisionCopy, Some(r.generation.glossary), Some(r.generation.kind))
  }

  function Copied(results: seq<BlockResult>): seq<Segment> {
    if results == [] then []
    else
      var last := results[|results| - 1];
      Copied(results[..|results| - 1]) + if last.status == Translated then [CopyOf(last)] else []
  }
}
