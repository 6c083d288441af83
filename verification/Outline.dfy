/** Heading parents by a stack, and what the validator makes of them
    (src/packages/parsers/source_adapter.py, src/packages/ir/validator.py). */
module Outline {
  import opened Wrappers
  import opened Documents
  import opened Validator

  /** Blocks in their new order. */
  function Arranged(blocks: seq<Block>, ordered: seq<Id>): (r: seq<Block>)
    requires forall i :: 0 <= i < |ordered| ==> Find(blocks, ordered[i]).Some?
    ensures |r| == |ordered|
    ensures forall i :: 0 <= i < |r| ==> r[i] == Find(blocks, ordered[i]).value.(order := i)
  {
    seq(|ordered|, i requires 0 <= i < |ordered| => Find(blocks, ordered[i]).value.(order := i))
  }

  method AssignOrder(blocks: seq<Block>, ordered: seq<Id>) returns (r: seq<Block>)
    requires forall i :: 0 <= i < |ordered| ==> Find(blocks, ordered[i]).Some?
    ensures r == Arranged(blocks, ordered)
  {
    r := [];
    for i := 0 to |ordered|
      invariant |r| == i && forall j :: 0 <= j < i ==> r[j] == Find(blocks, ordered[j]).value.(order := j)
    {
      r := r + [Find(blocks, ordered[i]).value.(order := i)];
    }
  }

  /** The level of each heading; None for other blocks. */
  type Levels = seq<Option<nat>>

  function LevelsOf(blocks: seq<Block>): (r: Levels)
    ensures |r| == |blocks|
    ensures forall i :: 0 <= i < |r| ==>
      r[i] == if blocks[i].kind == Heading then Some(blocks[i].attributes.level) else None
  {
    seq(|blocks|, i requires 0 <= i < |blocks| => if blocks[i].kind ==
      Heading then Some(blocks[i].attributes.level) else None)
  }

  predicate Below(level: Option<nat>, limit: Option<nat>) {
    level.Some? && (limit.None? || level.value < limit.value)
  }

  /** The last heading before `k` of a level under the limit. */
  function Nearest(levels: Levels, k: nat, limit: Option<nat>): (r: Option<nat>)
    requires k <= |levels|
    ensures r.Some? ==> r.value < k && Below(levels[r.value], limit) && forall j :: r.value < j < k ==>
      !Below(levels[j], limit)
    ensures r.None? ==> forall j :: 0 <= j < k ==> !Below(levels[j], limit)
  {
    if k == 0 then None else if Below(levels[k - 1], limit) then Some(k - 1) else Nearest(levels, k - 1, limit)
  }

  function IdAt(blocks: seq<Block>, i: Option<nat>): Option<Id>
    requires i.Some? ==> i.value < |blocks|
  {
    if i.Some? then Some(blocks[i.value].id) else None
  }

  type ReferenceTitle = string -> bool

  /** A heading belongs to the nearest heading of smaller level before it, anything else to the nearest
      heading or else the title; paragraphs of a reference section become references. */
  function OutlinedBlock(blocks: seq<Block>, i: nat, title: Option<Id>, references: ReferenceTitle): Block
    requires i < |blocks|
  {
    var b := blocks[i];
    if b.kind == Heading then b.(parent := IdAt(blocks, Nearest(LevelsOf(blocks), i, Some(b.attributes.level))))
    else
      var n := Nearest(LevelsOf(blocks), i, None);
      var placed := b.(parent := if n.Some? then Some(blocks[n.value].id) else title);
      if n.Some? && references(blocks[n.value].normalized) && b.kind == Paragraph
      then placed.(kind := Reference, translatable := false) else placed
  }

  function Outlined(blocks: seq<Block>, title: Option<Id>, references: ReferenceTitle): (r: seq<Block>)
    ensures |r| == |blocks| && forall i :: 0 <= i < |r| ==> r[i] == OutlinedBlock(blocks, i, title, references)
  {
    seq(|blocks|, i requires 0 <= i < |blocks| => OutlinedBlock(blocks, i, title, references))
  }

  /** Open headings, later and deeper towards the top. */
  ghost predicate Rising(levels: Levels, stack: seq<nat>, k: nat)
    requires k <= |levels|
  {
    && (forall s :: 0 <= s < |stack| ==> stack[s] < k && levels[stack[s]].Some?)
    && (forall s, t :: 0 <= s < t < |stack| ==> stack[s] < stack[t] && levels[stack[s]].value < levels[stack[t]].value)
  }

  /** Some heading on the stack is as late as `j` and no deeper. */
  ghost predicate Covered(levels: Levels, stack: seq<nat>, j: nat)
    requires j < |levels|
  {
    exists s :: 0 <= s < |stack| && Covers(levels, stack[s], j)
  }

  predicate Covers(levels: Levels, i: nat, j: nat)
    requires j < |levels|
  {
    j <= i < |levels| && levels[i].Some? && levels[j].Some? && levels[i].value <= levels[j].value
  }

  ghost predicate Stacked(levels: Levels, stack: seq<nat>, k: nat)
    requires k <= |levels|
  {
    Rising(levels, stack, k) && forall j :: 0 <= j < k && levels[j].Some? ==> Covered(levels, stack, j)
  }

  lemma {:induction false} TopIsLast(levels: Levels, stack: seq<nat>, k: nat)
    requires k <= |levels| && Stacked(levels, stack, k)
    ensures Nearest(levels, k, None) == if stack == [] then None else Some(stack[|stack| - 1])
  {
    var n := Nearest(levels, k, None);
    if n.Some? {
      assert Covered(levels, stack, n.value);
    }
    if stack != [] { assert Below(levels[stack[|stack| - 1]], None); }
  }

  /** The first `m` open headings are under the level of `k`, the others are not. */
  ghost predicate PoppedTo(levels: Levels, stack: seq<nat>, m: nat, level: nat)
    requires m <= |stack| && forall s :: 0 <= s < |stack| ==> stack[s] < |levels| && levels[stack[s]].Some?
  {
    (forall s :: 0 <= s < m ==> levels[stack[s]].value < level) && forall s :: m <= s < |stack| ==>
      levels[stack[s]].value >= level
  }

  lemma {:induction false} NearestIs(levels: Levels, k: nat, limit: Option<nat>, c: Option<nat>)
    requires k <= |levels| && (c.Some? ==> c.value < k && Below(levels[c.value], limit))
    requires forall j :: (if c.Some? then c.value + 1 else 0) <= j < k ==> !Below(levels[j], limit)
    ensures Nearest(levels, k, limit) == c
  {}

  /** Once deeper headings are popped the top is the nearest heading of smaller level. */
  lemma {:induction false} PoppedTop(levels: Levels, stack: seq<nat>, m: nat, k: nat, level: nat)
    requires k < |levels| && Stacked(levels, stack, k) && m <= |stack| && PoppedTo(levels, stack, m, level)
    ensures Nearest(levels, k, Some(level)) == if m == 0 then None else Some(stack[m - 1])
  {
    forall j | (if m == 0 then 0 else stack[m - 1] + 1) <= j < k ensures !Below(levels[j], Some(level)) {
      if levels[j].Some? {
        assert Covered(levels, stack, j);
        var s :| 0 <= s < |stack| && Covers(levels, stack[s], j);
      }
    }
    NearestIs(levels, k, Some(level), if m == 0 then None else Some(stack[m - 1]));
  }

  lemma {:induction false} PushIsRising(levels: Levels, stack: seq<nat>, m: nat, k: nat)
    requires k < |levels| && Rising(levels, stack, k) && m <= |stack| && levels[k].Some?
    requires PoppedTo(levels, stack, m, levels[k].value)
    ensures Rising(levels, stack[..m] + [k], k + 1)
  {}

  lemma {:induction false} PushKeepsStack(levels: Levels, stack: seq<nat>, m: nat, k: nat)
    requires k < |levels| && Stacked(levels, stack, k) && m <= |stack| && levels[k].Some?
    requires PoppedTo(levels, stack, m, levels[k].value)
    ensures Stacked(levels, stack[..m] + [k], k + 1)
  {
    var next := stack[..m] + [k];
    PushIsRising(levels, stack, m, k);
    forall j | 0 <= j < k + 1 && levels[j].Some? ensures Covered(levels, next, j) {
      if j < k {
        assert Covered(levels, stack, j);
        var s :| 0 <= s < |stack| && Covers(levels, stack[s], j);
        if s < m { assert Covers(levels, next[s], j); } else { assert Covers(levels, next[m], j); }
      } else {
        assert Covers(levels, next[m], j);
      }
    }
  }

  lemma {:induction false} OtherKeepsStack(levels: Levels, stack: seq<nat>, k: nat)
    requires k < |levels| && Stacked(levels, stack, k) && levels[k].None?
    ensures Stacked(levels, stack, k + 1)
  {}

  method PopDeeper(blocks: seq<Block>, stack: seq<nat>, ghost levels: Levels, k: nat, level: nat) returns (m: nat)
    requires levels == LevelsOf(blocks) && k <= |levels| && Rising(levels, stack, k)
    ensures m <= |stack| && PoppedTo(levels, stack, m, level)
  {
    m := |stack|;
    while m > 0 && blocks[stack[m - 1]].attributes.level >= level
      invariant m <= |stack|
      invariant forall s :: m <= s < |stack| ==> levels[stack[s]].value >= level
    {
      m := m - 1;
    }
  }

  ghost predicate InReferences(blocks: seq<Block>, stack: seq<nat>, references: ReferenceTitle)
    requires forall s :: 0 <= s < |stack| ==> stack[s] < |blocks|
  {
    stack != [] && references(blocks[stack[|stack| - 1]].normalized)
  }

  method PlaceHeading(blocks: seq<Block>, stack: seq<nat>, ghost levels: Levels, k: nat, title: Option<Id>,
      references: ReferenceTitle)
    returns (placed: Block, next: seq<nat>)
    requires levels == LevelsOf(blocks) && k < |blocks| && Stacked(levels, stack, k) && blocks[k].kind == Heading
    ensures placed == OutlinedBlock(blocks, k, title, references)
    ensures Stacked(levels, next, k + 1) && next != [] && next[|next| - 1] == k
  {
    var b := blocks[k];
    var m := PopDeeper(blocks, stack, levels, k, b.attributes.level);
    PoppedTop(levels, stack, m, k, b.attributes.level);
    PushKeepsStack(levels, stack, m, k);
    placed := b.(parent := if m > 0 then Some(blocks[stack[m - 1]].id) else None);
    next := stack[..m] + [k];
  }

  method PlaceOther(blocks: seq<Block>, stack: seq<nat>, ghost levels: Levels, k: nat, title: Option<Id>,
      bibliography: bool, references: ReferenceTitle)
    returns (placed: Block)
    requires levels == LevelsOf(blocks) && k < |blocks| && Stacked(levels, stack, k) && blocks[k].kind != Heading
    requires bibliography == InReferences(blocks, stack, references)
    ensures placed == OutlinedBlock(blocks, k, title, references)
  {
    TopIsLast(levels, stack, k);
    placed := blocks[k].(parent := if stack != [] then Some(blocks[stack[|stack| - 1]].id) else title);
    if bibliography && blocks[k].kind == Paragraph { placed := placed.(kind := Reference, translatable := false); }
  }

  /** The heading pass: a stack of open headings gives every block its parent. */
  method HeadingPass(blocks: seq<Block>, title: Option<Id>, references: ReferenceTitle) returns (out: seq<Block>)
    ensures out == Outlined(blocks, title, references)
  {
    ghost var levels := LevelsOf(blocks);
    out := [];
    var stack: seq<nat> := [];
    var bibliography := false;
    var k := 0;
    while k < |blocks|
      invariant 0 <= k <= |blocks| && Stacked(levels, stack, k) && out == Outlined(blocks, title, references)[..k]
      invariant bibliography == InReferences(blocks, stack, references)
    {
      var placed;
      if blocks[k].kind == Heading {
        placed, stack := PlaceHeading(blocks, stack, levels, k, title, references);
        bibliography := references(blocks[k].normalized);
      } else {
        placed := PlaceOther(blocks, stack, levels, k, title, bibliography, references);
        OtherKeepsStack(levels, stack, k);
      }
      out := out + [placed];
      OutlinedGrows(blocks, title, references, k);
      k := k + 1;
    }
  }

  lemma {:induction false} OutlinedGrows(blocks: seq<Block>, title: Option<Id>, references: ReferenceTitle, k: nat)
    requires k < |blocks|
    ensures var out := Outlined(blocks, title, references);
      out[..k] + [OutlinedBlock(blocks, k, title, references)] == out[..k + 1]
  {}

  lemma {:induction false} OutlinedShape(blocks: seq<Block>, title: Option<Id>, references: ReferenceTitle, i: nat)
    requires i < |blocks|
    ensures var b := Outlined(blocks, title, references)[i];
      && b.id == blocks[i].id && b.order == blocks[i].order && b.owner == blocks[i].owner
      && b.attributes == blocks[i].attributes
      && (b.kind == Heading <==> blocks[i].kind == Heading)
  {}

  lemma {:induction false} OutlinedDistinct(blocks: seq<Block>, title: Option<Id>, references: ReferenceTitle)
    requires DistinctIds(blocks)
    ensures DistinctIds(Outlined(blocks, title, references))
  {
    var out := Outlined(blocks, title, references);
    forall i, j | 0 <= i < j < |out| ensures out[i].id != out[j].id {
      OutlinedShape(blocks, title, references, i);
      OutlinedShape(blocks, title, references, j);
    }
  }

  ghost predicate HeadedBy(out: seq<Block>, i: nat, n: nat)
    requires i < |out| && n < |out|
  {
    && out[n].kind == Heading && out[i].parent == Some(out[n].id) && Find(out, out[n].id) == Some(out[n])
  }

  /** A heading's parent is an earlier heading of smaller level. */
  lemma {:induction false} HeadingParent(blocks: seq<Block>, title: Option<Id>, references: ReferenceTitle, i: nat)
    requires i < |blocks| && DistinctIds(blocks) && blocks[i].kind == Heading
    ensures var out := Outlined(blocks, title, references);
      out[i].parent.Some? ==> exists n ::
        0 <= n < i && HeadedBy(out, i, n) && out[n].attributes.level < out[i].attributes.level
  {
    var out := Outlined(blocks, title, references);
    var n := Nearest(LevelsOf(blocks), i, Some(blocks[i].attributes.level));
    if n.Some? {
      OutlinedDistinct(blocks, title, references);
      OutlinedShape(blocks, title, references, n.value);
      OutlinedShape(blocks, title, references, i);
      FindAt(out, n.value);
      assert HeadedBy(out, i, n.value);
    }
  }

  lemma {:induction false} HeadingChainEnds(blocks: seq<Block>, title: Option<Id>, references: ReferenceTitle, i: nat,
      seen: set<Id>)
    requires i < |blocks| && DistinctIds(blocks) && blocks[i].kind == Heading
    requires forall j :: 0 <= j <= i && blocks[j].kind == Heading ==> blocks[j].id !in seen
    ensures ParentsEnd(Outlined(blocks, title, references), Outlined(blocks, title, references)[i], seen)
  {
    var out := Outlined(blocks, title, references);
    OutlinedShape(blocks, title, references, i);
    if out[i].parent.Some? {
      HeadingParent(blocks, title, references, i);
      var n :| 0 <= n < i && HeadedBy(out, i, n) && out[n].attributes.level < out[i].attributes.level;
      OutlinedShape(blocks, title, references, n);
      HeadingChainEnds(blocks, title, references, n, seen + {out[i].id});
    }
  }

  ghost predicate TitleIsHeading(blocks: seq<Block>, title: Option<Id>) {
    title.Some? ==> exists t :: 0 <= t < |blocks| && blocks[t].id == title.value && blocks[t].kind == Heading
  }

  lemma {:induction false} HeadedByHeading(blocks: seq<Block>, title: Option<Id>, references: ReferenceTitle, i: nat,
      n: nat)
    requires i < |blocks| && n < |blocks| && DistinctIds(blocks) && blocks[n].kind == Heading
    requires OutlinedBlock(blocks, i, title, references).parent == Some(blocks[n].id)
    ensures HeadedBy(Outlined(blocks, title, references), i, n)
  {
    OutlinedDistinct(blocks, title, references);
    OutlinedShape(blocks, title, references, n);
    FindAt(Outlined(blocks, title, references), n);
  }

  /** Any other block's parent is a heading: the nearest one before it, or the title. */
  lemma {:induction false} OtherParent(blocks: seq<Block>, title: Option<Id>, references: ReferenceTitle, i: nat)
    requires i < |blocks| && DistinctIds(blocks) && TitleIsHeading(blocks, title) && blocks[i].kind != Heading
    ensures var out := Outlined(blocks, title, references);
      out[i].parent.Some? ==> exists n :: 0 <= n < |blocks| && blocks[n].kind == Heading && HeadedBy(out, i, n)
  {
    var n := Nearest(LevelsOf(blocks), i, None);
    if n.Some? {
      HeadedByHeading(blocks, title, references, i, n.value);
    } else if title.Some? {
      var t :| 0 <= t < |blocks| && blocks[t].id == title.value && blocks[t].kind == Heading;
      HeadedByHeading(blocks, title, references, i, t);
    }
  }

  lemma {:induction false} HeadingsDiffer(blocks: seq<Block>, i: nat)
    requires i < |blocks| && DistinctIds(blocks) && blocks[i].kind != Heading
    ensures forall j :: 0 <= j < |blocks| && blocks[j].kind == Heading ==> blocks[j].id !in {blocks[i].id}
  {}

  lemma {:induction false} ParentStep(out: seq<Block>, b: Block, parent: Block)
    requires b in out && b.parent.Some? && Find(out, b.parent.value) == Some(parent) && ParentsEnd(out, parent, {b.id})
    ensures ParentsEnd(out, b, {})
  {
    assert {} + {b.id} == {b.id};
  }

  lemma {:induction false} OtherChainEnds(blocks: seq<Block>, title: Option<Id>, references: ReferenceTitle, i: nat,
      n: nat)
    requires i < |blocks| && n < |blocks| && DistinctIds(blocks) && blocks[i].kind != Heading
    requires blocks[n].kind == Heading
    requires HeadedBy(Outlined(blocks, title, references), i, n)
    ensures ParentsEnd(Outlined(blocks, title, references), Outlined(blocks, title, references)[i], {})
  {
    var out := Outlined(blocks, title, references);
    OutlinedShape(blocks, title, references, i);
    HeadingsDiffer(blocks, i);
    HeadingChainEnds(blocks, title, references, n, {out[i].id});
    ParentStep(out, out[i], out[n]);
  }

  /** The validator accepts every parent the pass writes. */
  lemma {:induction false} ParentsAreAccepted(blocks: seq<Block>, title: Option<Id>, references: ReferenceTitle, i: nat)
    requires i < |blocks| && DistinctIds(blocks) && TitleIsHeading(blocks, title)
    ensures ParentOk(Outlined(blocks, title, references), Outlined(blocks, title, references)[i])
  {
    var out := Outlined(blocks, title, references);
    if blocks[i].kind == Heading {
      HeadingParent(blocks, title, references, i);
      HeadingChainEnds(blocks, title, references, i, {});
    } else {
      OtherParent(blocks, title, references, i);
      if out[i].parent.Some? {
        var n :| 0 <= n < |blocks| && blocks[n].kind == Heading && HeadedBy(out, i, n);
        OtherChainEnds(blocks, title, references, i, n);
      }
    }
  }

  /** Heading `n` is the latest before `i` that stands above a heading of the level. */
  ghost predicate Heads(blocks: seq<Block>, n: nat, i: nat, level: nat) {
    && n < i <= |blocks| && blocks[n].kind == Heading && blocks[n].attributes.level < level
    && forall j :: n < j < i && blocks[j].kind == Heading ==> blocks[j].attributes.level >= level
  }

  /** Heading `n` is the latest before `i`. */
  ghost predicate LatestHeading(blocks: seq<Block>, n: nat, i: nat) {
    n < i <= |blocks| && blocks[n].kind == Heading && forall j :: n < j < i ==> blocks[j].kind != Heading
  }

  /** A heading hangs under the latest earlier heading of a smaller level, and stays at the top without one;
      nothing else about it changes. */
  lemma {:induction false} HeadingIsOutlined(blocks: seq<Block>, title: Option<Id>, references: ReferenceTitle, i: nat)
    requires i < |blocks| && blocks[i].kind == Heading
    ensures var b, level := Outlined(blocks, title, references)[i], blocks[i].attributes.level;
      && b == blocks[i].(parent := b.parent)
      && (forall n: nat :: Heads(blocks, n, i, level) ==> b.parent == Some(blocks[n].id))
      && ((forall n: nat :: !Heads(blocks, n, i, level)) ==> b.parent == None)
  {
    var levels, level := LevelsOf(blocks), blocks[i].attributes.level;
    var found := Nearest(levels, i, Some(level));
    if found.Some? { assert Heads(blocks, found.value, i, level); }
    forall n: nat | Heads(blocks, n, i, level) ensures found == Some(n) {
      assert Below(levels[n], Some(level));
    }
  }

  /** Anything else hangs under the latest heading, or under the title without one; a paragraph under a
      reference heading becomes a reference that is not translated, and nothing else changes. */
  lemma {:induction false} BlockIsOutlined(blocks: seq<Block>, title: Option<Id>, references: ReferenceTitle, i: nat)
    requires i < |blocks| && blocks[i].kind != Heading
    ensures var b := Outlined(blocks, title, references)[i];
      && (forall n: nat :: LatestHeading(blocks, n, i) ==>
           b == (if references(blocks[n].normalized) && blocks[i].kind == Paragraph
                 then blocks[i].(parent := Some(blocks[n].id), kind := Reference, translatable := false)
                 else blocks[i].(parent := Some(blocks[n].id))))
      && ((forall n: nat :: !LatestHeading(blocks, n, i)) ==> b == blocks[i].(parent := title))
  {
    var levels := LevelsOf(blocks);
    var found := Nearest(levels, i, None);
    if found.Some? { assert LatestHeading(blocks, found.value, i); }
    forall n: nat | LatestHeading(blocks, n, i) ensures found == Some(n) {
      assert Below(levels[n], None);
    }
  }
}
