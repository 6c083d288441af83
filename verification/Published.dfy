/** What the snapshot publishes for each block, told from the rows of the draft's history. */
module Published {
  import opened Wrappers
  import opened Documents
  import opened Translations
  import opened Drafts

  /** Row `i` is the block's current version: the highest number, the first row that carries it. */
  ghost predicate IsCurrent(h: History, id: Id, i: nat) {
    && i < |h.segments| && h.segments[i].block == id
    && forall k :: 0 <= k < |h.segments| && h.segments[k].block == id ==>
         h.segments[k].sequence < h.segments[i].sequence || (h.segments[k].sequence == h.segments[i].sequence && i <= k)
  }

  lemma {:induction false} CurrentIs(segments: seq<Segment>, id: Id, i: nat)
    requires IsCurrent(History(segments, [], ""), id, i)
    ensures Current(segments, id) == Some(segments[i])
  {
    var n := |segments| - 1;
    if i < n {
      var h := History(segments[..n], [], "");
      forall k | 0 <= k < n && h.segments[k].block == id
        ensures h.segments[k].sequence < h.segments[i].sequence
          || (h.segments[k].sequence == h.segments[i].sequence && i <= k)
      {
        assert h.segments[k] == segments[k];
      }
      CurrentIs(segments[..n], id, i);
    } else {
      EarlierIsLower(segments[..n], id, segments[n].sequence);
    }
  }

  lemma {:induction false} EarlierIsLower(segments: seq<Segment>, id: Id, top: nat)
    requires forall k :: 0 <= k < |segments| && segments[k].block == id ==> segments[k].sequence < top
    ensures Current(segments, id).None? || Current(segments, id).value.sequence < top
  {}

  lemma {:induction false} NoVersion(segments: seq<Segment>, id: Id)
    requires forall k :: 0 <= k < |segments| ==> segments[k].block != id
    ensures Current(segments, id).None?
  {}

  /** The glossary a version was made with: its own, or the draft's. */
  function GlossaryOf(h: History, i: nat): string
    requires i < |h.segments|
  {
    match h.segments[i].glossary case Some(g) => g case None => h.glossary
  }

  /** Somebody confirmed version `i`: this text, made from this source in this neighbourhood with this glossary. */
  ghost predicate ConfirmedBy(h: History, i: nat, k: nat)
    requires i < |h.segments| && k < |h.reviews|
  {
    var s, review := h.segments[i], h.reviews[k];
    && review.block == s.block && review.version == s.sequence && review.fingerprint.version == s.sequence
    && review.fingerprint.target == s.target && review.fingerprint.hash == s.hash
    && review.fingerprint.context == s.context
    && review.fingerprint.glossary == GlossaryOf(h, i)
  }

  ghost predicate Confirmed(h: History, i: nat)
    requires i < |h.segments|
  {
    exists k :: 0 <= k < |h.reviews| && ConfirmedBy(h, i, k)
  }

  lemma {:induction false} ReviewedIffConfirmed(h: History, i: nat)
    requires i < |h.segments|
    ensures Reviewed(h, h.segments[i]) <==> Confirmed(h, i)
  {
    var s := h.segments[i];
    if Reviewed(h, s) {
      var k :| 0 <= k < |h.reviews| && h.reviews[k].block == s.block && h.reviews[k].version == s.sequence
        && h.reviews[k].fingerprint == SegmentFingerprint(h, s);
      assert ConfirmedBy(h, i, k);
    }
    if Confirmed(h, i) {
      var k :| 0 <= k < |h.reviews| && ConfirmedBy(h, i, k);
      assert h.reviews[k].fingerprint == SegmentFingerprint(h, s);
    }
  }

  /** Who made a version, as the snapshot says it. */
  ghost predicate MadeBy(s: Segment, kind: Origin) {
    && (s.origin == FromModel || s.origin == CandidateAccepted ==> kind == Model)
    && (s.origin == FromCache ==> kind == Cached) && (s.origin == ManualUi ==> kind == Human)
    && (s.origin == RevisionCopy ==> s.kind == Some(kind) || (s.kind.None? && kind == Human))
  }

  /** A block that is not kept and whose current version is usable shows exactly that version. It counts as
      human reviewed, with a record of this source, text, neighbourhood and glossary, if and only if the
      history holds a review that confirms exactly this version. */
  lemma {:induction false} PublishedVersion(source: Source, h: History, language: string, original: map<Id, string>,
    b: Block,
      i: nat, safe: SafeUrl)
    requires IsCurrent(h, b.id, i) && Usable(h.segments[i], source, b, safe) && !Keeps(source, language, original, b)
    ensures var r, s := BuildResult(source, h, language, original, b, safe), h.segments[i];
      && r.block == b.id && r.hash == b.hash && r.context == ContextOf(source.blocks, b)
      && r.status == Translated && r.target == s.target && r.reason == "" && r.fallback.None?
      && MadeBy(s, r.generation.kind) && r.generation.glossary == GlossaryOf(h, i)
      && (r.reviewState == HumanReviewed <==> Confirmed(h, i)) && (r.reviewState == NotReviewed <==> !Confirmed(h, i))
      && r.review == if !Confirmed(h, i) then None
                     else Some(ReviewRecord(true, b.hash, s.target, ContextOf(source.blocks, b), GlossaryOf(h, i)))
  {
    CurrentIs(h.segments, b.id, i);
    ReviewedIffConfirmed(h, i);
  }

  /** Without a usable current version the block falls back to its source: to its text when it has one or has
      no page, to its page otherwise. */
  lemma {:induction false} PublishedFallback(source: Source, h: History, language: string, original: map<Id, string>,
    b: Block,
      safe: SafeUrl)
    requires !Keeps(source, language, original, b)
    requires forall i: nat :: IsCurrent(h, b.id, i) ==> !Usable(h.segments[i], source, b, safe)
    ensures var r := BuildResult(source, h, language, original, b, safe);
      && r.block == b.id && r.hash == b.hash && r.context == ContextOf(source.blocks, b)
      && r.status == SourceShown && r.target == [] && r.reason == "translation_unavailable"
      && r.reviewState == NotReviewed && r.review.None? && r.generation == Generation(Human, h.glossary)
      && (r.fallback == Some(SourceText) <==> b.normalized != "" || b.pages == [])
      && (r.fallback == Some(SourcePage) <==> b.normalized == "" && b.pages != [])
  {
    if Current(h.segments, b.id).Some? { CurrentHasRow(h.segments, b.id); }
  }

  lemma {:induction false} CurrentHasRow(segments: seq<Segment>, id: Id)
    requires Current(segments, id).Some?
    ensures exists i: nat :: IsCurrent(History(segments, [], ""), id, i) && Current(segments, id) == Some(segments[i])
  {
    var n := |segments| - 1;
    var before, last := Current(segments[..n], id), segments[n];
    if last.block == id && (before.None? || last.sequence > before.value.sequence) {
      assert IsCurrent(History(segments, [], ""), id, n);
    } else {
      CurrentHasRow(segments[..n], id);
      var i: nat :| IsCurrent(History(segments[..n], [], ""), id, i) && before == Some(segments[..n][i]);
      assert IsCurrent(History(segments, [], ""), id, i);
    }
  }

  /** A kept block shows its source without target and review, whatever its history. */
  lemma {:induction false} PublishedSource(source: Source, h: History, language: string, original: map<Id, string>,
    b: Block,
      safe: SafeUrl)
    requires Keeps(source, language, original, b)
    ensures var r := BuildResult(source, h, language, original, b, safe);
      && r.block == b.id && r.hash == b.hash && r.context == ContextOf(source.blocks, b)
      && r.status == Retained && r.target == [] && r.reviewState == NotReviewed && r.review.None? && r.fallback.None?
      && r.generation == Generation(KeptSource, h.glossary)
      && r.reason == KeptReason(source, language, original, b)
  {}

  /** An empty block of a static control, in the rich schema. */
  predicate StaticControl(source: Source, b: Block) {
    source.rich && b.normalized == "" && exists n :: n in b.inline && ShowsControl(n, source.atoms)
  }

  predicate ShowsControl(n: Inline, atoms: map<Id, Atom>) {
    n.ProtectedRef? && n.ref in atoms && atoms[n.ref].kind == Control
  }

  lemma {:induction false} ControlsShow(nodes: seq<Inline>, atoms: map<Id, Atom>)
    ensures HasControl(nodes, atoms) <==> exists n :: n in nodes && ShowsControl(n, atoms)
  {
    if n :| n in nodes && ShowsControl(n, atoms) {
      var i :| 0 <= i < |nodes| && nodes[i] == n;
    }
    if HasControl(nodes, atoms) {
      var i :| 0 <= i < |nodes| && nodes[i].ProtectedRef? && nodes[i].ref in atoms
        && atoms[nodes[i].ref].kind == Control;
      assert ShowsControl(nodes[i], atoms);
    }
  }

  /** A block is kept exactly if it is not translatable, is in the target language already, is a static control,
      or the policy keeps it; the reason names the first of control, policy, language and kind that applies. */
  lemma {:induction false} KeptExactly(source: Source, language: string, original: map<Id, string>, b: Block)
    requires forall id :: id in original ==> original[id] != ""
    ensures Keeps(source, language, original, b) <==>
      !b.translatable || b.language == language || StaticControl(source, b) || b.id in original
    ensures Keeps(source, language, original, b) ==>
      (var reason := KeptReason(source, language, original, b);
       && (StaticControl(source, b) ==> reason == "static_control")
       && (!StaticControl(source, b) && b.id in original ==> reason == original[b.id])
       && (!StaticControl(source, b) && b.id !in original && b.translatable ==> reason == "same_language")
       && (!StaticControl(source, b) && b.id !in original && !b.translatable ==> KindWord(b.kind, reason)))
  {
    ControlsShow(b.inline, source.atoms);
  }

  /** Why a kind of block is never translated. */
  ghost predicate KindWord(kind: Kind, reason: string) {
    && (kind == Code ==> reason == "original_code") && (kind == Math ==> reason == "original_math")
    && (kind == Figure ==> reason == "original_figure") && (kind == Reference ==> reason == "original_reference")
    && (kind == TableCell ==> reason == "empty_table_cell")
    && (kind == Table || kind == Group || kind == ListItem ==> reason == "structural_container")
    && (kind == Heading || kind == Paragraph || kind == Caption || kind == Footnote ==> reason == "")
  }

  lemma {:induction false} IndexIs(blocks: seq<Block>, i: nat)
    requires DistinctIds(blocks) && i < |blocks|
    ensures IndexOf(blocks, blocks[i].id) == i
  {
    if i > 0 {
      assert blocks[0].id != blocks[i].id && blocks[1..][i - 1] == blocks[i];
      assert DistinctIds(blocks[1..]);
      IndexIs(blocks[1..], i - 1);
    }
  }

  /** The neighbourhood of a block: its parent's text and the blocks just before and after it, where there
      are any. */
  lemma {:induction false} Neighbourhood(blocks: seq<Block>, i: nat)
    requires DistinctIds(blocks) && i < |blocks|
    ensures var c := ContextOf(blocks, blocks[i]);
      && c.before == (if i > 0 then [blocks[i - 1].hash] else [])
      && c.after == (if i + 1 < |blocks| then [blocks[i + 1].hash] else [])
      && (forall p :: 0 <= p < |blocks| && blocks[i].parent == Some(blocks[p].id) ==> c.parent == blocks[p].normalized)
      && ((forall p :: 0 <= p < |blocks| ==> blocks[i].parent != Some(blocks[p].id)) ==> c.parent == "")
  {
    IndexIs(blocks, i);
    forall p | 0 <= p < |blocks| && blocks[i].parent == Some(blocks[p].id)
      ensures Find(blocks, blocks[p].id) == Some(blocks[p])
    {
      FindAt(blocks, p);
    }
  }

  /** An edit's glossary: the one named, else that of the version it replaces, else the draft's; an accepted
      candidate was made with the draft's. */
  lemma {:induction false} EditedGlossary(h: History, id: Id, i: nat, origin: SegmentOrigin, named: Option<string>)
    requires IsCurrent(h, id, i)
    ensures EditGlossary(h, id, origin, named) ==
      if named.Some? then named.value else if origin == CandidateAccepted then h.glossary else GlossaryOf(h, i)
  {
    CurrentIs(h.segments, id, i);
  }

  lemma {:induction false} FirstGlossary(h: History, id: Id, origin: SegmentOrigin, named: Option<string>)
    requires forall k :: 0 <= k < |h.segments| ==> h.segments[k].block != id
    ensures EditGlossary(h, id, origin, named) == if named.Some? then named.value else h.glossary
  {
    NoVersion(h.segments, id);
  }
}
