/** The snapshot builder satisfies the checker, and edits, reviews and copies mean what they say. */
module Agreement {
  import opened Wrappers
  import opened Documents
  import opened Retention
  import opened Validator
  import opened Translations
  import opened Drafts

  lemma {:induction false} WordsAreNotBlank(reason: string)
    requires Word(reason)
    ensures !Blank(reason)
  {}

  lemma {:induction false} PolicyWords(reason: string)
    requires PolicyReason(reason)
    ensures reason != "" && reason[0] == 'o'
  {}

  ghost predicate Word(reason: string) {
    reason != "" && 'a' <= reason[0] <= 'z'
  }

  lemma {:induction false} KindWords(k: Kind)
    requires !(k in {Heading, Paragraph, Caption, Footnote})
    ensures Word(KindReason(k))
  {}

  /** An accepted source disables translation of such prose only around a control. */
  lemma {:induction false} DisabledProseIsControl(source: Source, b: Block, rules: Rules)
    requires SourceAccepted(source, rules.safe) && b in source.blocks
    requires !b.translatable && b.kind in {Heading, Paragraph, Caption, Footnote}
    ensures source.rich && b.normalized == "" && HasControl(b.inline, source.atoms)
  {
    assert BlockAccepted(source, b, rules.safe);
    assert ProseOk(source, b);
    if b.attributes.children != [] { OnlyContainersHaveChildren(source, b, rules.safe); }
  }

  lemma {:induction false} RetainedWord(source: Source, original: map<Id, string>, b: Block)
    requires PolicyReasons(original)
    ensures RetainedReason(source, original, b) == "" || Word(RetainedReason(source, original, b))
    ensures source.rich && b.normalized == "" && HasControl(b.inline, source.atoms) ==>
      RetainedReason(source, original, b) != ""
  {
    if b.id in original { PolicyWords(original[b.id]); }
  }

  /** Every kept block has a reason: an accepted source leaves no kept prose without one. */
  lemma {:induction false} KeptHasReason(source: Source, language: string, b: Block, rules: Rules)
    requires SourceAccepted(source, rules.safe) && b in source.blocks
    requires Keeps(source, language, OriginalOnly(source, rules.patterns), b)
    ensures Word(KeptReason(source, language, OriginalOnly(source, rules.patterns), b))
  {
    var original := OriginalOnly(source, rules.patterns);
    PolicyShape(source, rules.patterns);
    RetainedWord(source, original, b);
    if !b.translatable {
      if b.kind in {Heading, Paragraph, Caption, Footnote} {
        DisabledProseIsControl(source, b, rules);
      } else {
        KindWords(b.kind);
      }
    }
  }

  /** The reason the builder gives is one the checker admits. */
  lemma {:induction false} KeptIsAllowed(source: Source, language: string, b: Block, rules: Rules)
    requires SourceAccepted(source, rules.safe) && b in source.blocks
    requires Keeps(source, language, OriginalOnly(source, rules.patterns), b)
    ensures var original := OriginalOnly(source, rules.patterns);
      RetentionAllowed(source, language, original, b, KeptReason(source, language, original, b))
  {
    var original := OriginalOnly(source, rules.patterns);
    PolicyShape(source, rules.patterns);
    if b.id in original { PolicyWords(original[b.id]); }
    if RetainedReason(source, original, b) == "" && !b.translatable && Prose(b.kind) {
      assert BlockAccepted(source, b, rules.safe);
      assert ProseOk(source, b);
    }
  }

  lemma {:induction false} ValidInventsNothing(nodes: seq<Inline>, b: Block)
    requires forall i :: 0 <= i < |nodes| ==> NodeFromSource(nodes[i], b)
    ensures InventsNothing(b, nodes)
  {
    forall ref | ref in Refs(nodes) ensures ref in Refs(b.inline) {
      var i :| 0 <= i < |nodes| && nodes[i].ProtectedRef? && nodes[i].ref == ref;
      assert NodeFromSource(nodes[i], b);
    }
    forall target | target in Targets(nodes) ensures target in Targets(b.inline) {
      var i :| 0 <= i < |nodes| && nodes[i].CrossRef? && nodes[i].target == target;
      assert NodeFromSource(nodes[i], b);
    }
    forall href | href in Hrefs(nodes) ensures href in Hrefs(b.inline) {
      var i :| 0 <= i < |nodes| && nodes[i].Link? && nodes[i].href == href;
      assert NodeFromSource(nodes[i], b);
    }
  }

  lemma {:induction false} InventsNothingIsValid(nodes: seq<Inline>, b: Block)
    requires InventsNothing(b, nodes)
    ensures forall i :: 0 <= i < |nodes| ==> NodeFromSource(nodes[i], b)
  {
    forall i | 0 <= i < |nodes| ensures NodeFromSource(nodes[i], b) {
      match nodes[i] {
        case Text(_) =>
        case ProtectedRef(ref) => assert ref in Refs(nodes);
        case CrossRef(target, _) => assert target in Targets(nodes);
        case Link(href, _) => assert href in Hrefs(nodes);
      }
    }
  }

  lemma {:induction false} EmptyTargetResolves(source: Source, safe: SafeUrl)
    ensures RefsResolve([], source, safe)
  {}

  lemma {:induction false} KeptResultAccepted(source: Source, h: History, language: string, b: Block, draftMode: bool,
      rules: Rules)
    requires SourceAccepted(source, rules.safe) && b in source.blocks && Find(source.blocks, b.id) == Some(b)
    requires Keeps(source, language, OriginalOnly(source, rules.patterns), b)
    ensures var original := OriginalOnly(source, rules.patterns);
      ResultAccepted(source, language, original, KeptResult(source, h, b, KeptReason(source, language, original, b)),
        draftMode, rules.safe)
  {
    var reason := KeptReason(source, language, OriginalOnly(source, rules.patterns), b);
    KeptHasReason(source, language, b, rules);
    KeptIsAllowed(source, language, b, rules);
    WordsAreNotBlank(reason);
    EmptyTargetResolves(source, rules.safe);
  }

  lemma {:induction false} FallbackAccepted(source: Source, h: History, language: string, original: map<Id, string>,
      b: Block, draftMode: bool, safe: SafeUrl)
    requires Find(source.blocks, b.id) == Some(b)
    ensures ResultAccepted(source, language, original, FallbackResult(source, h, b), draftMode, safe)
  {
    WordsAreNotBlank("translation_unavailable");
    EmptyTargetResolves(source, safe);
  }

  lemma {:induction false} TranslatedAccepted(source: Source, h: History, language: string, original: map<Id, string>,
      b: Block, s: Segment, draftMode: bool, safe: SafeUrl)
    requires Find(source.blocks, b.id) == Some(b) && Usable(s, source, b, safe)
    ensures ResultAccepted(source, language, original, TranslatedResult(source, h, b, s), draftMode, safe)
  {
    ValidInventsNothing(s.target, b);
  }

  lemma {:induction false} BuiltResultAccepted(source: Source, h: History, language: string, b: Block, draftMode: bool,
      rules: Rules)
    requires SourceAccepted(source, rules.safe) && b in source.blocks && Find(source.blocks, b.id) == Some(b)
    ensures var original := OriginalOnly(source, rules.patterns);
      ResultAccepted(source, language, original, BuildResult(source, h, language, original, b, rules.safe), draftMode,
        rules.safe)
  {
    var original := OriginalOnly(source, rules.patterns);
    var s := Current(h.segments, b.id);
    if Keeps(source, language, original, b) {
      KeptResultAccepted(source, h, language, b, draftMode, rules);
    } else if s.Some? && Usable(s.value, source, b, rules.safe) {
      TranslatedAccepted(source, h, language, original, b, s.value, draftMode, rules.safe);
    } else {
      FallbackAccepted(source, h, language, original, b, draftMode, rules.safe);
    }
  }

  /** One result for each block, found under its block's id. */
  lemma {:induction false} ResultsFollowBlocks(blocks: seq<Block>, results: seq<BlockResult>, i: nat)
    requires DistinctIds(blocks) && |results| == |blocks| && i < |blocks|
    requires forall j :: 0 <= j < |blocks| ==> results[j].block == blocks[j].id
    ensures FindResult(results, blocks[i].id) == Some(results[i])
  {
    if i > 0 {
      assert results[0].block == blocks[0].id != blocks[i].id;
      assert forall j :: 0 <= j < |blocks| - 1 ==> results[1..][j] == results[j + 1] && blocks[1..][j] == blocks[j + 1];
      ResultsFollowBlocks(blocks[1..], results[1..], i - 1);
    }
  }

  ghost function Results(source: Source, h: History, language: string, rules: Rules): (r: seq<BlockResult>)
    ensures |r| == |source.blocks|
    ensures forall i :: 0 <= i < |r| ==>
      r[i] == BuildResult(source, h, language, OriginalOnly(source, rules.patterns), source.blocks[i], rules.safe)
  {
    var original := OriginalOnly(source, rules.patterns);
    var n := |source.blocks|;
    assert forall i :: 0 <= i < n ==>
      BuildResults(source, h, language, original, n, rules.safe)[i] ==
        BuildResult(source, h, language, original, source.blocks[i], rules.safe) by {
      forall i | 0 <= i < n
        ensures BuildResults(source, h, language, original, n, rules.safe)[i] ==
          BuildResult(source, h, language, original, source.blocks[i], rules.safe)
      {
        BuildResultsAt(source, h, language, original, n, rules.safe, i);
      }
    }
    BuildResults(source, h, language, original, n, rules.safe)
  }

  lemma {:induction false} BuiltForBlock(source: Source, h: History, language: string, original: map<Id, string>,
      b: Block, safe: SafeUrl)
    ensures BuildResult(source, h, language, original, b, safe).block == b.id
  {}

  lemma {:induction false} ResultBlocks(source: Source, h: History, language: string, rules: Rules)
    ensures forall j :: 0 <= j < |source.blocks| ==> Results(source, h, language, rules)[j].block == source.blocks[j].id
  {
    forall j | 0 <= j < |source.blocks| ensures Results(source, h, language, rules)[j].block == source.blocks[j].id {
      BuiltForBlock(source, h, language, OriginalOnly(source, rules.patterns), source.blocks[j], rules.safe);
    }
  }

  lemma {:induction false} BlocksInBijection(source: Source, results: seq<BlockResult>)
    requires DistinctIds(source.blocks) && |results| == |source.blocks|
    requires forall j :: 0 <= j < |source.blocks| ==> results[j].block == source.blocks[j].id
    ensures Bijective(source, results)
    ensures forall i :: 0 <= i < |source.blocks| ==> FindResult(results, source.blocks[i].id) == Some(results[i])
  {
    forall i | 0 <= i < |source.blocks|
      ensures FindResult(results, source.blocks[i].id) == Some(results[i])
      ensures Find(source.blocks, source.blocks[i].id) == Some(source.blocks[i])
    {
      ResultsFollowBlocks(source.blocks, results, i);
      FindAt(source.blocks, i);
    }
  }

  lemma {:induction false} ResultsAreBijective(source: Source, h: History, language: string, rules: Rules)
    requires DistinctIds(source.blocks)
    ensures Bijective(source, Results(source, h, language, rules))
    ensures forall i :: 0 <= i < |source.blocks| ==>
      FindResult(Results(source, h, language, rules), source.blocks[i].id) ==
        Some(Results(source, h, language, rules)[i])
  {
    ResultBlocks(source, h, language, rules);
    BlocksInBijection(source, Results(source, h, language, rules));
  }

  /** A kept title either has no text or is kept for its language. */
  lemma {:induction false} KeptTitle(source: Source, language: string, b: Block, rules: Rules)
    requires SourceAccepted(source, rules.safe) && b in source.blocks && b.id == source.title && b.kind == Heading
    requires Keeps(source, language, OriginalOnly(source, rules.patterns), b)
    ensures KeptReason(source, language, OriginalOnly(source, rules.patterns), b) == "same_language"
      || b.normalized == ""
  {
    PolicyShape(source, rules.patterns);
    assert BlockAccepted(source, b, rules.safe);
    assert ProseOk(source, b);
  }

  function TitleByBuilder(b: Block, r: BlockResult, atoms: map<Id, Atom>): Option<string> {
    if r.reason == "same_language" || r.status == SourceShown then Some(b.normalized) else Flatten(r.target, atoms)
  }

  function TitleByChecker(b: Block, r: BlockResult, atoms: map<Id, Atom>): Option<string> {
    if r.status in {Retained, SourceShown} then Some(b.normalized) else Flatten(r.target, atoms)
  }

  /** So both title rules agree. */
  lemma {:induction false} TitleAgrees(source: Source, h: History, language: string, b: Block, rules: Rules)
    requires SourceAccepted(source, rules.safe) && b in source.blocks && b.id == source.title && b.kind == Heading
    ensures var r := BuildResult(source, h, language, OriginalOnly(source, rules.patterns), b, rules.safe);
      TitleByBuilder(b, r, source.atoms) == TitleByChecker(b, r, source.atoms)
        && TitleByBuilder(b, r, source.atoms).Some?
  {
    var original := OriginalOnly(source, rules.patterns);
    if Keeps(source, language, original, b) {
      KeptTitle(source, language, b, rules);
      KeptTitleAgrees(source, h, b, KeptReason(source, language, original, b));
    }
  }

  lemma {:induction false} KeptTitleAgrees(source: Source, h: History, b: Block, reason: string)
    requires reason == "same_language" || b.normalized == ""
    ensures TitleByBuilder(b, KeptResult(source, h, b, reason), source.atoms) == Some(b.normalized)
  {}

  lemma {:induction false} TitleResult(source: Source, h: History, language: string, rules: Rules)
    requires SourceAccepted(source, rules.safe)
    ensures var b := Find(source.blocks, source.title).value;
      FindResult(Results(source, h, language, rules), source.title)
      == Some(BuildResult(source, h, language, OriginalOnly(source, rules.patterns), b, rules.safe))
  {
    var b := Find(source.blocks, source.title).value;
    ResultsAreBijective(source, h, language, rules);
    var i :| 0 <= i < |source.blocks| && source.blocks[i] == b;
  }

  lemma {:induction false} TitleFits(source: Source, results: seq<BlockResult>, language: string, b: Block,
      r: BlockResult)
    requires Find(source.blocks, source.title) == Some(b) && FindResult(results, source.title) == Some(r)
    requires TitleByBuilder(b, r, source.atoms) == TitleByChecker(b, r, source.atoms)
    requires TitleByBuilder(b, r, source.atoms).Some?
    ensures TitleOf(source, results).Some?
    ensures TitleAccepted(source, Translation(source.id, language, TitleOf(source, results).value, results))
  {}

  lemma {:induction false} TitleExists(source: Source, h: History, language: string, rules: Rules)
    requires SourceAccepted(source, rules.safe)
    ensures Snapshot(source, h, language, rules).Some?
    ensures TitleAccepted(source, Snapshot(source, h, language, rules).value)
    ensures Snapshot(source, h, language, rules).value.results == Results(source, h, language, rules)
  {
    var b := Find(source.blocks, source.title).value;
    var r := BuildResult(source, h, language, OriginalOnly(source, rules.patterns), b, rules.safe);
    TitleResult(source, h, language, rules);
    TitleAgrees(source, h, language, b, rules);
    TitleFits(source, Results(source, h, language, rules), language, b, r);
  }

  /** For every accepted source and every segment history the snapshot is publishable, in release
      as in draft mode: sealing never refuses its own input. */
  lemma {:induction false} SnapshotIsAccepted(source: Source, h: History, language: string, draftMode: bool,
      rules: Rules)
    requires SourceAccepted(source, rules.safe)
    ensures var t := Snapshot(source, h, language, rules);
      t.Some? && IRAccepted(source, Find(source.blocks, source.title).value.normalized, t.value, draftMode, rules)
  {
    TitleExists(source, h, language, rules);
    ResultsAreBijective(source, h, language, rules);
    var t := Snapshot(source, h, language, rules).value;
    assert t.results == Results(source, h, language, rules);
    forall i | 0 <= i < |t.results|
      ensures ResultAccepted(source, t.language, OriginalOnly(source, rules.patterns), t.results[i], draftMode,
        rules.safe)
    {
      FindAt(source.blocks, i);
      BuiltResultAccepted(source, h, language, source.blocks[i], draftMode, rules);
    }
  }
}
