/** Translation results and what publication requires of them (src/packages/ir/validator.py, `validate_ir`). */
module Translations {
  import opened Wrappers
  import opened Documents
  import opened Retention
  import opened Validator

  datatype Status = Translated | Retained | Unresolved | SourceShown

  datatype ReviewState = NotReviewed | MachineChecked | HumanReviewed

  datatype FallbackMode = SourceText | SourcePage

  datatype Origin = Human | Model | Imported | Cached | KeptSource | Memory

  /** The neighbourhood a translation was made in: parent text, previous and next source. */
  datatype Context = Context(parent: string, before: seq<SourceHash>, after: seq<SourceHash>)

  datatype Generation = Generation(kind: Origin, glossary: string)

  datatype ReviewRecord = ReviewRecord(manual: bool, hash: SourceHash, target: seq<Inline>, context: Context,
      glossary: string)

  datatype BlockResult = BlockResult(
    block: Id, hash: SourceHash, context: Context, status: Status, target: seq<Inline>, reviewState: ReviewState,
    reason: string, generation: Generation, review: Option<ReviewRecord>, fallback: Option<FallbackMode>)

  /** A translation revision under the non-blocking content policy. */
  datatype Translation = Translation(source: Id, language: string, title: string, results: seq<BlockResult>)

  /** What the model takes from outside: link safety and text patterns. */
  datatype Rules = Rules(safe: SafeUrl, patterns: Patterns)

  function Refs(nodes: seq<Inline>): set<Id> {
    set i | 0 <= i < |nodes| && nodes[i].ProtectedRef? :: nodes[i].ref
  }

  function Targets(nodes: seq<Inline>): set<Id> {
    set i | 0 <= i < |nodes| && nodes[i].CrossRef? :: nodes[i].target
  }

  function Hrefs(nodes: seq<Inline>): set<string> {
    set i | 0 <= i < |nodes| && nodes[i].Link? :: nodes[i].href
  }

  predicate InventsNothing(b: Block, target: seq<Inline>) {
    Refs(target) <= Refs(b.inline) && Targets(target) <= Targets(b.inline) && Hrefs(target) <= Hrefs(b.inline)
  }

  predicate RetentionAllowed(source: Source, language: string, original: map<Id, string>, b: Block, reason: string) {
    || b.kind in {Code, Math, Figure, Reference, Table, Group} || EmptyTableCell(b)
    || (source.rich && b.normalized == "" && reason == "static_control" && HasControl(b.inline, source.atoms))
    || (source.rich && b.attributes.children != [] && b.normalized == "")
    || (b.id in original && reason == original[b.id])
    || (reason == "same_language" && b.language == language)
  }

  ghost predicate StatusAccepted(source: Source, language: string, original: map<Id, string>, b: Block, r: BlockResult,
      draftMode: bool) {
    match r.status
    case SourceShown =>
      && r.target == [] && !Blank(r.reason) && r.fallback.Some? && r.reviewState == NotReviewed
      && (r.fallback == Some(SourcePage) ==> b.pages != [])
    case Unresolved => draftMode
    case Translated =>
      var text := Flatten(r.target, source.atoms);
      text.Some? && !Blank(text.value) && InventsNothing(b, r.target)
    case Retained => r.target == [] && !Blank(r.reason) && RetentionAllowed(source, language, original, b, r.reason)
  }

  predicate ReviewAccepted(b: Block, r: BlockResult) {
    if r.reviewState == HumanReviewed then
      r.review.Some? && r.review.value.manual && r.review.value.hash == b.hash && r.review.value.target == r.target
        && r.review.value.context == r.context && r.review.value.glossary == r.generation.glossary
    else r.review.None?
  }

  ghost predicate ResultAccepted(source: Source, language: string, original: map<Id, string>, r: BlockResult,
      draftMode: bool, safe: SafeUrl) {
    var b := Find(source.blocks, r.block);
    && b.Some? && r.hash == b.value.hash && RefsResolve(r.target, source, safe)
    && StatusAccepted(source, language, original, b.value, r, draftMode) && ReviewAccepted(b.value, r)
  }

  function FindResult(results: seq<BlockResult>, id: Id): (r: Option<BlockResult>)
    ensures r.Some? <==> exists i :: 0 <= i < |results| && results[i].block == id
    ensures r.Some? ==> r.value.block == id && r.value in results
  {
    if results == [] then None
    else if results[0].block == id then Some(results[0])
    else
      var rest := FindResult(results[1..], id);
      assert forall i :: 0 < i < |results| ==> results[i] == results[1..][i - 1];
      assert rest.Some? ==> exists i :: 0 <= i < |results[1..]| && results[1..][i].block == id;
      rest
  }

  ghost predicate Bijective(source: Source, results: seq<BlockResult>) {
    && (forall i, j :: 0 <= i < j < |results| ==> results[i].block != results[j].block)
    && (forall i :: 0 <= i < |results| ==> Find(source.blocks, results[i].block).Some?)
    && forall b :: b in source.blocks ==> FindResult(results, b.id).Some?
  }

  ghost predicate TitleAccepted(source: Source, t: Translation) {
    var r, b := FindResult(t.results, source.title), Find(source.blocks, source.title);
    r.Some? && b.Some? &&
      Some(t.title) == if r.value.status in {Retained, SourceShown} then Some(b.value.normalized)
        else Flatten(r.value.target, source.atoms)
  }

  ghost predicate TranslationAccepted(source: Source, t: Translation, draftMode: bool, rules: Rules) {
    && t.source == source.id && Bijective(source, t.results) && TitleAccepted(source, t)
    && forall i :: 0 <= i < |t.results| ==>
         ResultAccepted(source, t.language, OriginalOnly(source, rules.patterns), t.results[i], draftMode, rules.safe)
  }

  /** The stored render input is publishable. */
  ghost predicate IRAccepted(source: Source, documentTitle: string, t: Translation, draftMode: bool, rules: Rules) {
    && SourceAccepted(source, rules.safe) && documentTitle == Find(source.blocks, source.title).value.normalized
    && TranslationAccepted(source, t, draftMode, rules)
  }

  method CheckStatus(source: Source, language: string, original: map<Id, string>, b: Block, r: BlockResult,
      draftMode: bool) returns (ok: bool)
    ensures ok <==> StatusAccepted(source, language, original, b, r, draftMode)
  {
    match r.status {
      case SourceShown =>
        if r.target != [] || Blank(r.reason) || r.fallback.None? || r.reviewState != NotReviewed { return false; }
        ok := r.fallback.value == SourceText || b.pages != [];
      case Unresolved => ok := draftMode;
      case Translated =>
        var text := FlattenInline(r.target, source.atoms);
        ok := text.Some? && !Blank(text.value) && InventsNothing(b, r.target);
      case Retained =>
        ok := r.target == [] && !Blank(r.reason) && RetentionAllowed(source, language, original, b, r.reason);
    }
  }

  method CheckBijection(source: Source, results: seq<BlockResult>) returns (ok: bool)
    requires DistinctIds(source.blocks)
    ensures ok <==> Bijective(source, results)
  {
    var seen: set<Id> := {};
    for i := 0 to |results|
      invariant seen == set j | 0 <= j < i :: results[j].block
      invariant forall j, k :: 0 <= j < k < i ==> results[j].block != results[k].block
    {
      if results[i].block in seen { return false; }
      seen := seen + {results[i].block};
    }
    ok := forall id :: id in seen ==> Find(source.blocks, id).Some?;
    ok := ok && forall b :: b in source.blocks ==> b.id in seen;
  }

  method CheckResult(source: Source, language: string, original: map<Id, string>, r: BlockResult, draftMode: bool,
      safe: SafeUrl) returns (ok: bool)
    ensures ok <==> ResultAccepted(source, language, original, r, draftMode, safe)
  {
    var b := Find(source.blocks, r.block);
    if b.None? || r.hash != b.value.hash { return false; }
    ok := InlineRefs(r.target, source, safe);
    if !ok { return false; }
    ok := CheckStatus(source, language, original, b.value, r, draftMode);
    ok := ok && ReviewAccepted(b.value, r);
  }

  method CheckResults(source: Source, t: Translation, draftMode: bool, rules: Rules) returns (ok: bool)
    ensures ok <==> forall i :: 0 <= i < |t.results| ==>
      ResultAccepted(source, t.language, OriginalOnly(source, rules.patterns), t.results[i], draftMode, rules.safe)
  {
    var original := OriginalOnlyBlocks(source, rules.patterns);
    var i := 0;
    while i < |t.results|
      invariant 0 <= i <= |t.results|
      invariant forall j :: 0 <= j < i ==>
        ResultAccepted(source, t.language, original, t.results[j], draftMode, rules.safe)
    {
      ok := CheckResult(source, t.language, original, t.results[i], draftMode, rules.safe);
      if !ok { return false; }
      i := i + 1;
    }
    return true;
  }

  method CheckTitle(source: Source, t: Translation) returns (ok: bool)
    ensures ok <==> TitleAccepted(source, t)
  {
    var r, b := FindResult(t.results, source.title), Find(source.blocks, source.title);
    if r.None? || b.None? { return false; }
    if r.value.status in {Retained, SourceShown} {
      ok := t.title == b.value.normalized;
    } else {
      var text := FlattenInline(r.value.target, source.atoms);
      ok := text == Some(t.title);
    }
  }

  /** `validate_ir` on a render input that meets the schema. */
  method ValidateIR(source: Source, documentTitle: string, t: Translation, draftMode: bool,
      rules: Rules) returns (ok: bool)
    ensures ok <==> IRAccepted(source, documentTitle, t, draftMode, rules)
  {
    ok := ValidateSource(source, rules.safe);
    if !ok || documentTitle != Find(source.blocks, source.title).value.normalized || t.source != source.id {
      return false;
    }
    ok := CheckBijection(source, t.results);
    if !ok { return false; }
    ok := CheckResults(source, t, draftMode, rules);
    if !ok { return false; }
    ok := CheckTitle(source, t);
  }
}
