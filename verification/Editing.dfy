/** What an edit, a review and a copied revision mean for the next snapshot. */
module Editing {
  import opened Wrappers
  import opened Documents
  import opened Retention
  import opened Validator
  import opened Translations
  import opened Drafts
  import opened Agreement

  function Appended(h: History, s: Segment): History {
    h.(segments := h.segments + [s])
  }

  lemma {:induction false} CurrentAppended(segments: seq<Segment>, s: Segment, id: Id)
    ensures Current(segments + [s], id) ==
      if s.block == id && (Current(segments, id).None? || s.sequence > Current(segments, id).value.sequence) then
        Some(s)
      else Current(segments, id)
  {
    assert (segments + [s])[..|segments|] == segments;
  }

  /** Reviews name versions that exist. */
  ghost predicate ReviewsKnown(h: History) {
    forall i :: 0 <= i < |h.reviews| ==> h.reviews[i].version <= LastSequence(h, h.reviews[i].block)
  }

  ghost function AfterEdit(source: Source, h: History, b: Block, nodes: seq<Inline>, origin: SegmentOrigin,
      named: Option<string>): History {
    Appended(h, EditedSegment(source, h, b, nodes, origin, named))
  }

  /** An accepted edit changes no other block's result. */
  lemma {:induction false} EditLeavesOthers(source: Source, h: History, language: string, b: Block, other: Block,
      nodes: seq<Inline>, origin: SegmentOrigin, named: Option<string>, rules: Rules)
    requires other.id != b.id
    ensures var original := OriginalOnly(source, rules.patterns);
      BuildResult(source, AfterEdit(source, h, b, nodes, origin, named), language, original, other, rules.safe)
      == BuildResult(source, h, language, original, other, rules.safe)
  {
    CurrentAppended(h.segments, EditedSegment(source, h, b, nodes, origin, named), other.id);
  }

  lemma {:induction false} EditedIsCurrent(source: Source, h: History, b: Block, nodes: seq<Inline>,
      origin: SegmentOrigin, named: Option<string>)
    ensures Current(AfterEdit(source, h, b, nodes, origin, named).segments, b.id) ==
      Some(EditedSegment(source, h, b, nodes, origin, named))
  {
    CurrentAppended(h.segments, EditedSegment(source, h, b, nodes, origin, named), b.id);
  }

  /** A new version has no review yet. */
  lemma {:induction false} EditedIsUnreviewed(source: Source, h: History, b: Block, nodes: seq<Inline>,
      origin: SegmentOrigin, named: Option<string>)
    requires ReviewsKnown(h)
    ensures !Reviewed(AfterEdit(source, h, b, nodes, origin, named), EditedSegment(source, h, b, nodes, origin, named))
  {}

  /** The edit is stored but never shown: the block is in the target language or a static control. */
  predicate Hidden(source: Source, language: string, b: Block) {
    b.language == language || (source.rich && b.normalized == "" && HasControl(b.inline, source.atoms))
  }

  lemma {:induction false} HiddenIsKept(source: Source, language: string, original: map<Id, string>, b: Block)
    requires b.translatable && b.id !in original
    ensures Keeps(source, language, original, b) <==> Hidden(source, language, b)
  {}

  lemma {:induction false} CurrentIsShown(source: Source, h: History, language: string, original: map<Id, string>,
      b: Block, s: Segment, safe: SafeUrl)
    requires Current(h.segments, b.id) == Some(s) && Usable(s, source, b, safe)
    ensures BuildResult(source, h, language, original, b, safe) ==
      if Keeps(source, language, original, b) then KeptResult(source, h, b, KeptReason(source, language, original, b))
      else TranslatedResult(source, h, b, s)
  {}

  /** The next snapshot shows an accepted edit exactly, and unreviewed, unless the edit is hidden. */
  lemma {:induction false} EditIsPublished(source: Source, h: History, language: string, id: Id, nodes: seq<Inline>,
      base: nat, origin: SegmentOrigin, named: Option<string>, rules: Rules)
    requires EditRefusal(source, h, id, nodes, base, rules).None? && ReviewsKnown(h)
    ensures var b := Find(source.blocks, id).value;
      var r := BuildResult(source, AfterEdit(source, h, b, nodes, origin, named), language,
        OriginalOnly(source, rules.patterns), b, rules.safe);
      if Hidden(source, language, b) then r.status == Retained && r.target == []
      else
        r.status == Translated && r.target == nodes && r.reviewState == NotReviewed && r.generation.glossary ==
          EditGlossary(h, id, origin, named)
  {
    var b := Find(source.blocks, id).value;
    var s := EditedSegment(source, h, b, nodes, origin, named);
    EditedIsCurrent(source, h, b, nodes, origin, named);
    EditedIsUnreviewed(source, h, b, nodes, origin, named);
    HiddenIsKept(source, language, OriginalOnly(source, rules.patterns), b);
    CurrentIsShown(source, AfterEdit(source, h, b, nodes, origin, named), language,
      OriginalOnly(source, rules.patterns), b, s, rules.safe);
  }

  lemma {:induction false} EditCountsUp(source: Source, h: History, b: Block, nodes: seq<Inline>,
      origin: SegmentOrigin, named: Option<string>)
    ensures LastSequence(AfterEdit(source, h, b, nodes, origin, named), b.id) == LastSequence(h, b.id) + 1
  {
    EditedIsCurrent(source, h, b, nodes, origin, named);
  }

  /** Of two edits from the same version the second is refused. */
  lemma {:induction false} SecondEditConflicts(source: Source, h: History, id: Id, nodes: seq<Inline>,
      more: seq<Inline>, base: nat, origin: SegmentOrigin, named: Option<string>, rules: Rules)
    requires EditRefusal(source, h, id, nodes, base, rules).None?
    ensures EditRefusal(source, AfterEdit(source, h, Find(source.blocks, id).value, nodes, origin, named), id, more,
      base, rules) == Some(SegmentConflict)
  {
    EditCountsUp(source, h, Find(source.blocks, id).value, nodes, origin, named);
  }

  /** The review was given for version `s`, and for the text, source and glossary that `r` publishes. */
  ghost predicate Confirms(review: Review, s: Segment, b: Block, r: BlockResult) {
    && review.block == b.id && review.version == s.sequence == review.fingerprint.version
    && review.fingerprint.context == s.context
    && review.fingerprint.target == r.target && review.fingerprint.hash == b.hash
    && review.fingerprint.glossary == r.generation.glossary
  }

  /** A published human review confirmed exactly this text, glossary and source, in the block's current
      version. The neighbourhood it confirmed is the published one exactly when the version was written there. */
  lemma {:induction false} ReviewedIsConfirmed(source: Source, h: History, language: string, b: Block, rules: Rules)
    ensures var r := BuildResult(source, h, language, OriginalOnly(source, rules.patterns), b, rules.safe);
      r.reviewState == HumanReviewed ==>
        && Current(h.segments, b.id).Some?
        && var s := Current(h.segments, b.id).value;
           exists i :: 0 <= i < |h.reviews| && Confirms(h.reviews[i], s, b, r)
             && (h.reviews[i].fingerprint.context == r.context <==> s.context == ContextOf(source.blocks, b))
  {
    var original := OriginalOnly(source, rules.patterns);
    var r := BuildResult(source, h, language, original, b, rules.safe);
    var s := Current(h.segments, b.id);
    if !Keeps(source, language, original, b) && s.Some? && Usable(s.value, source, b, rules.safe)
        && Reviewed(h, s.value) {
      var i :| 0 <= i < |h.reviews| && h.reviews[i].block == s.value.block && h.reviews[i].version == s.value.sequence
        && h.reviews[i].fingerprint == SegmentFingerprint(h, s.value);
      assert Confirms(h.reviews[i], s.value, b, r);
    }
  }

  /** Every version that can be shown was written where its block now stands. */
  ghost predicate WrittenHere(source: Source, h: History) {
    forall i, b :: 0 <= i < |h.segments| && b in source.blocks && h.segments[i].block == b.id && h.segments[i].hash ==
      b.hash
      ==> h.segments[i].context == ContextOf(source.blocks, b)
  }

  /** Edits keep it, and a draft copied from a sealed revision of the same source starts with it, so in
      such drafts a published review confirmed the published neighbourhood too. */
  lemma {:induction false} EditIsWrittenHere(source: Source, h: History, b: Block, nodes: seq<Inline>,
      origin: SegmentOrigin, named: Option<string>)
    requires DistinctIds(source.blocks) && WrittenHere(source, h) && b in source.blocks
    ensures WrittenHere(source, AfterEdit(source, h, b, nodes, origin, named))
  {
    var after := AfterEdit(source, h, b, nodes, origin, named);
    forall i, c | 0 <= i < |after.segments| && c in source.blocks && after.segments[i].block == c.id
      && after.segments[i].hash == c.hash
      ensures after.segments[i].context == ContextOf(source.blocks, c)
    {
      if i < |h.segments| { assert after.segments[i] == h.segments[i]; }
    }
  }

  lemma {:induction false} CopiedFrom(results: seq<BlockResult>, s: Segment)
    requires s in Copied(results)
    ensures exists i :: 0 <= i < |results| && s == CopyOf(results[i])
  {
    if results != [] {
      var n := |results| - 1;
      if s in Copied(results[..n]) {
        CopiedFrom(results[..n], s);
        var i :| 0 <= i < n && s == CopyOf(results[..n][i]);
        assert results[..n][i] == results[i];
      } else {
        assert s == CopyOf(results[n]);
      }
    }
  }

  lemma {:induction false} CopyIsWrittenHere(source: Source, h: History, language: string, rules: Rules)
    requires DistinctIds(source.blocks)
    ensures WrittenHere(source, CopyHistory(source, h, language, rules))
  {
    var results := Results(source, h, language, rules);
    var copy := CopyHistory(source, h, language, rules);
    forall i, b | 0 <= i < |copy.segments| && b in source.blocks && copy.segments[i].block == b.id
      ensures copy.segments[i].context == ContextOf(source.blocks, b)
    {
      CopiedFrom(results, copy.segments[i]);
      var k :| 0 <= k < |results| && copy.segments[i] == CopyOf(results[k]);
      BuiltForBlock(source, h, language, OriginalOnly(source, rules.patterns), source.blocks[k], rules.safe);
      ResultsAreBijective(source, h, language, rules);
      ResultContext(source, h, language, rules, k);
    }
  }

  lemma {:induction false} ResultContext(source: Source, h: History, language: string, rules: Rules, k: nat)
    requires k < |source.blocks|
    ensures var results := Results(source, h, language, rules);
      k < |results| && results[k].block == source.blocks[k].id && results[k].context ==
        ContextOf(source.blocks, source.blocks[k])
  {
    BuildResultsAt(source, h, language, OriginalOnly(source, rules.patterns), |source.blocks|, rules.safe, k);
  }

  /** A published review of such a draft confirmed everything that is published with it. */
  lemma {:induction false} ReviewedInContext(source: Source, h: History, language: string, b: Block, rules: Rules)
    requires WrittenHere(source, h) && b in source.blocks
    ensures var r := BuildResult(source, h, language, OriginalOnly(source, rules.patterns), b, rules.safe);
      r.reviewState == HumanReviewed ==>
        exists i :: 0 <= i < |h.reviews| && h.reviews[i].block == b.id && h.reviews[i].fingerprint ==
          Fingerprint(r.hash, r.context, r.target, h.reviews[i].version, r.generation.glossary)
  {
    var original := OriginalOnly(source, rules.patterns);
    var s := Current(h.segments, b.id);
    if !Keeps(source, language, original, b) && s.Some? && Usable(s.value, source, b, rules.safe)
        && Reviewed(h, s.value) {
      assert exists i :: 0 <= i < |h.segments| && h.segments[i] == s.value;
    }
  }

  ghost predicate DistinctBlocks(results: seq<BlockResult>) {
    forall i, j :: 0 <= i < j < |results| ==> results[i].block != results[j].block
  }

  /** The copy of one more result is the current version of its own block and of no other. */
  lemma {:induction false} CopyStep(results: seq<BlockResult>, last: BlockResult, id: Id)
    requires last.block == id ==> Current(Copied(results), id).None?
    ensures Current(Copied(results + [last]), id) ==
      if last.block == id && last.status == Translated then Some(CopyOf(last)) else Current(Copied(results), id)
  {
    assert (results + [last])[..|results|] == results;
    if last.status == Translated {
      CurrentAppended(Copied(results), CopyOf(last), id);
    } else {
      assert Copied(results) + [] == Copied(results);
    }
  }

  lemma {:induction false} CopiedBlocks(results: seq<BlockResult>, id: Id)
    requires forall i :: 0 <= i < |results| ==> results[i].block != id
    ensures Current(Copied(results), id) == None
  {
    if results != [] {
      var n := |results| - 1;
      CopiedBlocks(results[..n], id);
      assert results == results[..n] + [results[n]];
      CopyStep(results[..n], results[n], id);
    }
  }

  /** A copied revision has exactly its translated results as current versions. */
  lemma {:induction false} CurrentCopied(results: seq<BlockResult>, i: nat)
    requires DistinctBlocks(results) && i < |results|
    ensures Current(Copied(results), results[i].block) == if results[i].status ==
      Translated then Some(CopyOf(results[i])) else None
  {
    var n := |results| - 1;
    assert results == results[..n] + [results[n]];
    if i < n {
      assert results[..n][i] == results[i];
      CurrentCopied(results[..n], i);
    } else {
      CopiedBlocks(results[..n], results[n].block);
    }
    CopyStep(results[..n], results[n], results[i].block);
  }

  function Unreviewed(r: BlockResult): BlockResult {
    r.(reviewState := NotReviewed, review := None)
  }

  lemma {:induction false} CopiedResult(source: Source, h: History, copy: History, language: string, original: map<Id,
      string>, b: Block, safe: SafeUrl)
    requires copy.glossary == h.glossary && copy.reviews == []
    requires var r := BuildResult(source, h, language, original, b, safe);
      Current(copy.segments, b.id) == if r.status == Translated then Some(CopyOf(r)) else None
    ensures BuildResult(source, copy, language, original, b, safe) ==
      Unreviewed(BuildResult(source, h, language, original, b, safe))
  {
    var s := Current(h.segments, b.id);
    if !Keeps(source, language, original, b) && s.Some? && Usable(s.value, source, b, safe) {
      var r := TranslatedResult(source, h, b, s.value);
      assert Usable(CopyOf(r), source, b, safe);
      assert !Reviewed(copy, CopyOf(r));
    }
  }

  ghost function CopyHistory(source: Source, h: History, language: string, rules: Rules): History {
    History(Copied(Results(source, h, language, rules)), [], h.glossary)
  }

  lemma {:induction false} CopiedAt(source: Source, h: History, language: string, rules: Rules, i: nat)
    requires DistinctIds(source.blocks) && i < |source.blocks|
    ensures Results(source, CopyHistory(source, h, language, rules), language, rules)[i] ==
      Unreviewed(Results(source, h, language, rules)[i])
  {
    var results := Results(source, h, language, rules);
    ResultsAreBijective(source, h, language, rules);
    BuiltForBlock(source, h, language, OriginalOnly(source, rules.patterns), source.blocks[i], rules.safe);
    CurrentCopied(results, i);
    CopiedResult(source, h, CopyHistory(source, h, language, rules), language, OriginalOnly(source, rules.patterns),
      source.blocks[i], rules.safe);
  }

  lemma {:induction false} SameTitle(source: Source, results: seq<BlockResult>, copies: seq<BlockResult>,
      r: BlockResult)
    requires FindResult(results, source.title) == Some(r) && FindResult(copies, source.title) == Some(Unreviewed(r))
    ensures TitleOf(source, copies) == TitleOf(source, results)
  {}

  lemma {:induction false} CopiedTitle(source: Source, h: History, language: string, rules: Rules)
    requires SourceAccepted(source, rules.safe)
    ensures TitleOf(source, Results(source, CopyHistory(source, h, language, rules), language, rules)) ==
      TitleOf(source, Results(source, h, language, rules))
  {
    var copy := CopyHistory(source, h, language, rules);
    var i :| 0 <= i < |source.blocks| && source.blocks[i] == Find(source.blocks, source.title).value;
    ResultsAreBijective(source, h, language, rules);
    ResultsAreBijective(source, copy, language, rules);
    CopiedAt(source, h, language, rules, i);
    SameTitle(source, Results(source, h, language, rules), Results(source, copy, language, rules),
      Results(source, h, language, rules)[i]);
  }

  /** A draft copied from a sealed snapshot seals to the same revision again; only the reviews are gone. */
  lemma {:induction false} CopyReproduces(source: Source, h: History, language: string, rules: Rules)
    requires SourceAccepted(source, rules.safe)
    ensures var t := Snapshot(source, h, language, rules);
      var again := Snapshot(source, CopyHistory(source, h, language, rules), language, rules);
      && t.Some? && again.Some? && again.value.title == t.value.title && |again.value.results| == |t.value.results|
      && forall i :: 0 <= i < |t.value.results| ==> again.value.results[i] == Unreviewed(t.value.results[i])
  {
    TitleExists(source, h, language, rules);
    TitleExists(source, CopyHistory(source, h, language, rules), language, rules);
    CopiedTitle(source, h, language, rules);
    forall i | 0 <= i < |source.blocks|
      ensures Results(source, CopyHistory(source, h, language, rules), language, rules)[i] ==
        Unreviewed(Results(source, h, language, rules)[i])
    {
      CopiedAt(source, h, language, rules, i);
    }
  }

  /** A translation publication accepts is a usable version when copied into a new draft. */
  lemma {:induction false} AcceptedIsUsable(source: Source, language: string, original: map<Id, string>,
      r: BlockResult, b: Block, draftMode: bool, safe: SafeUrl)
    requires ResultAccepted(source, language, original, r, draftMode, safe) && Find(source.blocks, r.block) == Some(b)
    requires r.status == Translated
    ensures Usable(CopyOf(r), source, b, safe)
  {
    InventsNothingIsValid(r.target, b);
  }
}
