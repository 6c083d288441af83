/** What cutting and joining trees of formatted text keep (src/packages/parsers/rich_ir.py,
    `slice_semantics` and `merge_semantics`). */
module TreeSlices {
  import opened Wrappers
  import opened RichRuns
  import opened RunRepair
  import opened RichTrees
  import opened TreeRepair

  /** The line break between two children. */
  const BREAK := Styled('\n', Plain, 0)

  /** Inner nodes carry no runs of their own. */
  ghost predicate RunsAtLeaves(t: Tree) {
    t.children == [] || (t.runs == [] && forall i :: 0 <= i < |t.children| ==> RunsAtLeaves(t.children[i]))
  }

  /** Every character a tree shows, with its format. */
  function StyledTree(t: Tree): seq<Styled> {
    if t.children == [] then StyledRuns(t.runs) else StyledForest(t.children)
  }

  function StyledForest(trees: seq<Tree>): seq<Styled> {
    if trees == [] then []
    else
      var n := |trees| - 1;
      Joined(StyledForest(trees[..n]), n > 0, StyledTree(trees[n]))
  }

  function Joined(a: seq<Styled>, apart: bool, b: seq<Styled>): seq<Styled> {
    a + (if apart then [BREAK] else []) + b
  }

  lemma {:induction false} ForestSnoc(trees: seq<Tree>, t: Tree)
    ensures StyledForest(trees + [t]) == Joined(StyledForest(trees), trees != [], StyledTree(t))
    ensures JoinTexts(trees + [t], "\n") == (if trees == [] then "" else JoinTexts(trees, "\n") + "\n") + t.text
  {
    assert (trees + [t])[..|trees|] == trees;
  }

  /** The format of a consistent tree belongs to its text. */
  lemma {:induction false} StyledShowsText(t: Tree)
    requires Consistent(t)
    ensures |StyledTree(t)| == |t.text| && forall k :: 0 <= k < |t.text| ==> StyledTree(t)[k].c == t.text[k]
    decreases t
  {
    if t.children != [] { ForestShowsText(t.children); }
  }

  lemma {:induction false} ForestShowsText(trees: seq<Tree>)
    requires AllConsistent(trees)
    ensures var text := JoinTexts(trees, "\n");
      |StyledForest(trees)| == |text| && forall k :: 0 <= k < |text| ==> StyledForest(trees)[k].c == text[k]
    decreases trees
  {
    if trees != [] {
      var n := |trees| - 1;
      ForestShowsText(trees[..n]);
      StyledShowsText(trees[n]);
      assert trees == trees[..n] + [trees[n]];
      ForestSnoc(trees[..n], trees[n]);
      JoinedShows(StyledForest(trees[..n]), JoinTexts(trees[..n], "\n"), n > 0, StyledTree(trees[n]), trees[n].text);
    }
  }

  lemma {:induction false} JoinedShows(a: seq<Styled>, x: string, apart: bool, b: seq<Styled>, y: string)
    requires |a| == |x| && |b| == |y| && (!apart ==> x == "")
    requires (forall k :: 0 <= k < |x| ==> a[k].c == x[k]) && (forall k :: 0 <= k < |y| ==> b[k].c == y[k])
    ensures var text := (if !apart then "" else x + "\n") + y;
      |Joined(a, apart, b)| == |text| && forall k :: 0 <= k < |text| ==> Joined(a, apart, b)[k].c == text[k]
  {}

  ghost predicate AllSound(trees: seq<Tree>) {
    AllConsistent(trees) && forall i :: 0 <= i < |trees| ==> RunsAtLeaves(trees[i])
  }

  /** What the child loop has collected: never more characters than its children's part of the interval,
      and if none is missing, exactly that part with its formats. */
  ghost predicate Gathered(whole: seq<Styled>, parts: seq<Tree>, i: nat, j: nat)
    requires i <= j
  {
    AllSound(parts) && (parts != [] ==> i < |whole|) && FitsIn(StyledForest(parts), ClipStyled(whole, i, j))
  }

  ghost predicate FitsIn(p: seq<Styled>, clip: seq<Styled>) {
    |p| <= |clip| && (|p| == |clip| ==> p == clip)
  }

  lemma {:induction false} ClipJoined(whole: seq<Styled>, apart: bool, child: seq<Styled>, i: nat, j: nat)
    requires i <= j
    ensures var n := |whole| + if apart then 1 else 0;
      ClipStyled(Joined(whole, apart, child), i, j) ==
        ClipStyled(whole, i, j) + (if apart && i <= |whole| < j then [BREAK] else []) + ClipStyled(child, i - n, j - n)
  {
    var middle := if apart then [BREAK] else [];
    ClipConcat(whole + middle, child, i, j);
    ClipConcat(whole, middle, i, j);
  }

  /** A child outside the interval is skipped. */
  lemma {:induction false} SkipGathers(whole: seq<Styled>, parts: seq<Tree>, apart: bool, child: seq<Styled>, i: nat,
      j: nat)
    requires i <= j && Gathered(whole, parts, i, j)
    requires var n := |whole| + if apart then 1 else 0; Max(i - n, 0) >= Min(j - n, |child|)
    ensures Gathered(Joined(whole, apart, child), parts, i, j)
  {
    ClipJoined(whole, apart, child, i, j);
  }

  lemma {:induction false} LongerGathers(p: seq<Styled>, whole: seq<Styled>, pApart: bool, wApart: bool,
      more: seq<Styled>)
    requires FitsIn(p, whole) && (pApart ==> wApart)
    ensures FitsIn(Joined(p, pApart, more), Joined(whole, wApart, more))
  {}

  lemma {:induction false} OneMoreSound(parts: seq<Tree>, part: Tree)
    requires AllSound(parts) && Consistent(part) && RunsAtLeaves(part)
    ensures AllSound(parts + [part])
  {}

  lemma {:induction false} MiddleClip(child: seq<Styled>, i: int, j: int)
    requires i <= j && Max(i, 0) < Min(j, |child|)
    ensures ClipStyled(child, i, j) == child[Max(i, 0)..Min(j, |child|)]
  {}

  /** The clip grows by the child's part. */
  lemma {:induction false} ClipGrows(whole: seq<Styled>, apart: bool, child: seq<Styled>, part: seq<Styled>, i: nat,
      j: nat, n: nat, a: nat, b: nat)
    requires i <= j && n == |whole| + (if apart then 1 else 0) && a == Max(i - n, 0) && b == Min(j - n, |child|)
    requires a < b
    requires part == child[a..b]
    ensures ClipStyled(Joined(whole, apart, child), i, j) ==
      Joined(ClipStyled(whole, i, j), apart && i <= |whole| < j, part)
  {
    ClipJoined(whole, apart, child, i, j);
    MiddleClip(child, i - n, j - n);
  }

  /** A child that meets the interval adds its slice. */
  lemma {:induction false} SliceGathers(whole: seq<Styled>, parts: seq<Tree>, apart: bool, child: seq<Styled>,
      part: Tree, i: nat, j: nat,
      n: nat, a: nat, b: nat)
    requires i <= j && n == |whole| + (if apart then 1 else 0) && a == Max(i - n, 0) && b == Min(j - n, |child|)
    requires a < b
    requires Gathered(whole, parts, i, j) && Consistent(part) && RunsAtLeaves(part) && (!apart ==> whole == [])
    requires StyledTree(part) == child[a..b]
    ensures Gathered(Joined(whole, apart, child), parts + [part], i, j)
  {
    ClipGrows(whole, apart, child, StyledTree(part), i, j, n, a, b);
    ForestSnoc(parts, part);
    OneMoreSound(parts, part);
    LongerGathers(StyledForest(parts), ClipStyled(whole, i, j), parts != [], apart && i <= |whole| < j,
      StyledTree(part));
  }

  lemma {:induction false} OffsetIsLength(trees: seq<Tree>, k: nat)
    requires k <= |trees| && AllConsistent(trees)
    ensures Offset(trees, k) == |StyledForest(trees[..k])| + if k > 0 then 1 else 0
  {
    if k > 0 {
      OffsetIsLength(trees, k - 1);
      assert trees[..k] == trees[..k - 1] + [trees[k - 1]];
      ForestSnoc(trees[..k - 1], trees[k - 1]);
      StyledShowsText(trees[k - 1]);
    }
  }

  /** A slice of a consistent tree is consistent, and every character in it keeps its format: what it shows
      is exactly the interval of what the tree showed, line breaks between children included. */
  lemma {:induction false} SliceKeepsFormat(t: Tree, i: nat, j: nat)
    requires Consistent(t) && RunsAtLeaves(t) && Slice(t, i, j).Some?
    ensures i <= j <= |StyledTree(t)|
    ensures Consistent(Slice(t, i, j).value) && RunsAtLeaves(Slice(t, i, j).value)
    ensures StyledTree(Slice(t, i, j).value) == StyledTree(t)[i..j]
    ensures Slice(t, i, j).value.kind == t.kind && Slice(t, i, j).value.table == t.table
    decreases t, |t.children| + 1
  {
    var r := Slice(t, i, j).value;
    StyledShowsText(t);
    if t.children == [] {
      CutStyled(t.runs, i, j);
      assert r.children == [] && r.runs == Cut(t.runs, i, j);
    } else {
      ChildrenGathered(t, i, j, |t.children|);
      assert t.children[..|t.children|] == t.children;
      SlicedInner(t, r, SliceChildren(t, i, j, |t.children|).value, i, j);
    }
  }

  lemma {:induction false} SlicedInner(t: Tree, r: Tree, parts: seq<Tree>, i: nat, j: nat)
    requires t.children != [] && t.runs == [] && i <= j <= |StyledForest(t.children)|
    requires r == t.(children := parts, text := JoinTexts(parts, "\n")) && |r.text| == j - i
    requires Gathered(StyledForest(t.children), parts, i, j)
    ensures Consistent(r) && RunsAtLeaves(r) && StyledTree(r) == StyledTree(t)[i..j]
  {
    ForestShowsText(parts);
    assert ClipStyled(StyledTree(t), i, j) == StyledTree(t)[i..j];
  }

  lemma {:induction false} ChildrenGathered(t: Tree, i: nat, j: nat, k: nat)
    requires k <= |t.children| && i <= j && AllSound(t.children) && SliceChildren(t, i, j, k).Some?
    ensures Gathered(StyledForest(t.children[..k]), SliceChildren(t, i, j, k).value, i, j)
    decreases t, k
  {
    if k > 0 {
      ChildrenGathered(t, i, j, k - 1);
      var child, offset := t.children[k - 1], Offset(t.children, k - 1);
      var a, b := Max(i - offset, 0), Min(j - offset, |child.text|);
      NextPart(t, i, j, k);
      if a < b { SliceKeepsFormat(child, a, b); }
      var part := if a < b then Slice(child, a, b).value else child;
      GatherAt(t.children, k, SliceChildren(t, i, j, k - 1).value, part, i, j, a, b);
    }
  }

  lemma {:induction false} GatherAt(trees: seq<Tree>, k: nat, parts: seq<Tree>, part: Tree, i: nat, j: nat, a: int,
      b: int)
    requires 0 < k <= |trees| && i <= j && AllConsistent(trees) && Gathered(StyledForest(trees[..k - 1]), parts, i, j)
    requires a == Max(i - Offset(trees, k - 1), 0) && b == Min(j - Offset(trees, k - 1), |trees[k - 1].text|)
    requires a < b ==> SliceIsGood(trees[k - 1], part, a, b)
    ensures Gathered(StyledForest(trees[..k]), parts + (if a < b then [part] else []), i, j)
  {
    ForestAt(trees, k);
    GatherNext(trees, k, parts, part, i, j, a, b);
  }

  lemma {:induction false} GatherNext(trees: seq<Tree>, k: nat, parts: seq<Tree>, part: Tree, i: nat, j: nat, a: int,
      b: int)
    requires 0 < k <= |trees| && i <= j && Consistent(trees[k - 1])
    requires Gathered(StyledForest(trees[..k - 1]), parts, i, j)
    requires StyledForest(trees[..k]) == Joined(StyledForest(trees[..k - 1]), k > 1, StyledTree(trees[k - 1]))
    requires Offset(trees, k - 1) == |StyledForest(trees[..k - 1])| + if k > 1 then 1 else 0
    requires a == Max(i - Offset(trees, k - 1), 0) && b == Min(j - Offset(trees, k - 1), |trees[k - 1].text|)
    requires a < b ==> SliceIsGood(trees[k - 1], part, a, b)
    ensures Gathered(StyledForest(trees[..k]), parts + (if a < b then [part] else []), i, j)
  {
    GatherOne(StyledForest(trees[..k - 1]), parts, k > 1, trees[k - 1], part, StyledForest(trees[..k]), i, j,
      Offset(trees, k - 1), a, b);
  }

  lemma {:induction false} NextPart(t: Tree, i: int, j: int, k: nat)
    requires 0 < k <= |t.children| && SliceChildren(t, i, j, k).Some?
    ensures var child, offset := t.children[k - 1], Offset(t.children, k - 1);
      var a, b := Max(i - offset, 0), Min(j - offset, |child.text|);
      && SliceChildren(t, i, j, k - 1).Some? && (a < b ==> Slice(child, a, b).Some?)
      && SliceChildren(t, i, j, k).value ==
           SliceChildren(t, i, j, k - 1).value + (if a < b then [Slice(child, a, b).value] else [])
  {}

  lemma {:induction false} ForestAt(trees: seq<Tree>, k: nat)
    requires 0 < k <= |trees| && AllConsistent(trees)
    ensures StyledForest(trees[..k]) == Joined(StyledForest(trees[..k - 1]), k > 1, StyledTree(trees[k - 1]))
    ensures Offset(trees, k - 1) == |StyledForest(trees[..k - 1])| + if k > 1 then 1 else 0
  {
    OffsetIsLength(trees, k - 1);
    assert trees[..k] == trees[..k - 1] + [trees[k - 1]];
    ForestSnoc(trees[..k - 1], trees[k - 1]);
  }

  lemma {:induction false} GatherOne(whole: seq<Styled>, parts: seq<Tree>, apart: bool, child: Tree, part: Tree,
      forest: seq<Styled>, i: nat, j: nat, n: nat, a: int, b: int)
    requires i <= j && n == |whole| + (if apart then 1 else 0) && a == Max(i - n, 0) && b == Min(j - n, |child.text|)
    requires Gathered(whole, parts, i, j) && Consistent(child) && (!apart ==> whole == [])
    requires a < b ==> SliceIsGood(child, part, a, b)
    requires forest == Joined(whole, apart, StyledTree(child))
    ensures Gathered(forest, parts + (if a < b then [part] else []), i, j)
  {
    StyledShowsText(child);
    if a < b {
      SliceGathers(whole, parts, apart, StyledTree(child), part, i, j, n, a, b);
    } else {
      SkipGathers(whole, parts, apart, StyledTree(child), i, j);
      assert parts + [] == parts;
    }
  }

  ghost predicate SliceIsGood(t: Tree, r: Tree, i: nat, j: nat) {
    Consistent(r) && RunsAtLeaves(r) && i <= j <= |StyledTree(t)| && StyledTree(r) == StyledTree(t)[i..j]
  }

  /** `a` occurs in `b` in order. */
  ghost predicate Within(a: seq<Run>, b: seq<Run>) {
    || a == []
    || (b != [] && a[|a| - 1] == b[|b| - 1] && Within(a[..|a| - 1], b[..|b| - 1]))
    || (b != [] && Within(a, b[..|b| - 1]))
  }

  lemma {:induction false} WithinMore(a: seq<Run>, b: seq<Run>, more: seq<Run>)
    requires Within(a, b)
    ensures Within(a, b + more)
  {
    if more == [] {
      assert b + more == b;
    } else {
      WithinMore(a, b, more[..|more| - 1]);
      assert (b + more)[..|b + more| - 1] == b + more[..|more| - 1];
    }
  }

  lemma {:induction false} WithinConcat(a: seq<Run>, b: seq<Run>, x: seq<Run>, y: seq<Run>)
    requires Within(a, b) && Within(x, y)
    ensures Within(a + x, b + y)
    decreases |x| + |y|
  {
    if x == [] {
      assert a + x == a;
      WithinMore(a, b, y);
    } else {
      var n := |y| - 1;
      assert (b + y)[..|b + y| - 1] == b + y[..n];
      if x[|x| - 1] == y[n] && Within(x[..|x| - 1], y[..n]) {
        WithinConcat(a, b, x[..|x| - 1], y[..n]);
        assert (a + x)[..|a + x| - 1] == a + x[..|x| - 1];
      } else {
        WithinConcat(a, b, x, y[..n]);
      }
    }
  }

  /** A cut that divides no protected run keeps those it touches whole. */
  lemma {:induction false} CutWithin(runs: seq<Run>, i: int, j: int)
    requires !Divides(runs, i, j)
    ensures Within(Guarded(Cut(runs, i, j)), Guarded(runs))
  {
    if runs != [] {
      var n := |runs[0].text|;
      CutWithin(runs[1..], i - n, j - n);
      GuardedConcat(Piece(runs[0], i, j), Cut(runs[1..], i - n, j - n));
      GuardedConcat([runs[0]], runs[1..]);
      assert [runs[0]] + runs[1..] == runs;
      PieceWithin(runs[0], i, j);
      WithinConcat(Guarded(Piece(runs[0], i, j)), Guarded([runs[0]]), Guarded(Cut(runs[1..], i - n, j - n)),
        Guarded(runs[1..]));
    }
  }

  lemma {:induction false} PieceWithin(r: Run, i: int, j: int)
    requires Protected(r) ==> Piece(r, i, j) == [] || Piece(r, i, j) == [r]
    ensures Within(Guarded(Piece(r, i, j)), Guarded([r]))
  {}

  /** Every protected run in a slice is one of the tree's own, whole, and in the tree's order. */
  lemma {:induction false} SliceKeepsProtected(t: Tree, i: int, j: int)
    requires RunsAtLeaves(t) && Slice(t, i, j).Some?
    ensures Within(GuardedTree(Slice(t, i, j).value), GuardedTree(t))
    decreases t, |t.children| + 1
  {
    if t.children == [] {
      CutWithin(t.runs, i, j);
    } else {
      PartsWithin(t, i, j, |t.children|);
      var parts := SliceChildren(t, i, j, |t.children|).value;
      var r := Slice(t, i, j).value;
      GuardsOfParts(r, parts, |parts|);
      assert parts[..|parts|] == parts;
    }
  }

  /** The protected runs of several trees, one after the other. */
  function GuardedForest(trees: seq<Tree>): seq<Run> {
    if trees == [] then [] else GuardedForest(trees[..|trees| - 1]) + GuardedTree(trees[|trees| - 1])
  }

  lemma {:induction false} GuardsOfParts(r: Tree, parts: seq<Tree>, k: nat)
    requires r.children == parts && k <= |parts|
    ensures GuardedChildren(r, k) == GuardedForest(parts[..k])
  {
    if k > 0 {
      GuardsOfParts(r, parts, k - 1);
      assert parts[..k][..k - 1] == parts[..k - 1];
    }
  }

  lemma {:induction false} PartsWithin(t: Tree, i: int, j: int, k: nat)
    requires RunsAtLeaves(t) && k <= |t.children| && SliceChildren(t, i, j, k).Some?
    ensures Within(GuardedForest(SliceChildren(t, i, j, k).value), GuardedChildren(t, k))
    decreases t, k
  {
    if k > 0 {
      PartsWithin(t, i, j, k - 1);
      NextPart(t, i, j, k);
      var parts := SliceChildren(t, i, j, k - 1).value;
      var child, offset := t.children[k - 1], Offset(t.children, k - 1);
      var a, b := Max(i - offset, 0), Min(j - offset, |child.text|);
      if a < b {
        SliceKeepsProtected(child, a, b);
        OneMoreWithin(parts, GuardedChildren(t, k - 1), Slice(child, a, b).value, GuardedTree(child));
      } else {
        WithinMore(GuardedForest(parts), GuardedChildren(t, k - 1), GuardedTree(child));
        assert parts + [] == parts;
      }
    }
  }

  lemma {:induction false} OneMoreWithin(parts: seq<Tree>, guards: seq<Run>, part: Tree, more: seq<Run>)
    requires Within(GuardedForest(parts), guards) && Within(GuardedTree(part), more)
    ensures Within(GuardedForest(parts + [part]), guards + more)
  {
    assert (parts + [part])[..|parts|] == parts;
    WithinConcat(GuardedForest(parts), guards, GuardedTree(part), more);
  }

  /** Two pieces of prose, or a list item and its continuation: their runs follow one another. */
  predicate RunsOn(a: Tree, b: Tree) {
    && ((a.kind == b.kind && a.kind in {ParagraphNode, ReferenceNode})
      || (a.kind == ListItemNode && b.kind == ParagraphNode))
    && a.children == [] && b.children == []
  }

  /** What stands between the two when they are joined. */
  function Between(a: Tree, b: Tree, separator: string): seq<Styled> {
    if RunsOn(a, b) then StyledText(Run(Plain, separator, 0)) else [BREAK]
  }

  lemma {:induction false} ProseMerged(a: Tree, b: Tree, separator: string)
    requires RunsOn(a, b) && Consistent(a) && Consistent(b)
    ensures var m := Merged(a, b, separator);
      && m.children == [] && Consistent(m) && StyledTree(m) == StyledTree(a) + Between(a, b, separator) + StyledTree(b)
      && GuardedTree(m) == GuardedTree(a) + GuardedTree(b)
  {
    var middle := if separator != "" then PlainText(separator) else [];
    StyledConcat(a.runs + middle, b.runs);
    StyledConcat(a.runs, middle);
    GuardedConcat(a.runs + middle, b.runs);
    GuardedConcat(a.runs, middle);
    OnePlainRun(separator);
    assert Guarded(a.runs) + [] == Guarded(a.runs);
  }

  lemma {:induction false} OnePlainRun(text: string)
    ensures StyledRuns(PlainText(text)) == StyledText(Run(Plain, text, 0)) && Guarded(PlainText(text)) == []
    ensures text == "" ==> StyledText(Run(Plain, text, 0)) == []
  {
    assert PlainText(text)[1..] == [];
    assert StyledRuns([]) == [];
  }

  lemma {:induction false} GroupMerged(a: Tree, b: Tree, separator: string)
    requires !RunsOn(a, b) && Consistent(a) && Consistent(b) && RunsAtLeaves(a) && RunsAtLeaves(b)
    ensures var m := Merged(a, b, separator);
      && Consistent(m) && RunsAtLeaves(m) && StyledTree(m) == StyledTree(a) + Between(a, b, separator) + StyledTree(b)
      && GuardedTree(m) == GuardedTree(a) + GuardedTree(b)
  {
    var m := Merged(a, b, separator);
    assert m == Tree(GroupNode, [], [a, b], JoinTexts([a, b], "\n"), false);
    assert [a, b][..1] == [a] && [a][..0] == [];
    assert StyledForest([a]) == Joined([], false, StyledTree(a)) == StyledTree(a);
    assert GuardedChildren(m, 1) == GuardedChildren(m, 0) + GuardedTree(a) == GuardedTree(a);
  }

  /** Joining loses and invents nothing: there is a result unless both trees are missing, an item without
      a tree counts as its plain text, and the result shows the first, the separator (a line break
      between unlike parts) and the second, every character with its format and every protected run whole. */
  lemma {:induction false} MergeKeepsBoth(a: Option<Tree>, first: string, b: Option<Tree>, second: string,
      separator: string)
    requires (a.Some? ==> Consistent(a.value) && RunsAtLeaves(a.value))
    requires (b.Some? ==> Consistent(b.value) && RunsAtLeaves(b.value))
    ensures MergeSemantics(a, first, b, second, separator).None? <==> a.None? && b.None?
    ensures a.None? ==>
      StyledTree(OrPlain(a, first)) == StyledText(Run(Plain, first, 0)) && GuardedTree(OrPlain(a, first)) == []
    ensures b.None? ==>
      StyledTree(OrPlain(b, second)) == StyledText(Run(Plain, second, 0)) && GuardedTree(OrPlain(b, second)) == []
    ensures MergeSemantics(a, first, b, second, separator).Some? ==>
      (var x, y, m := OrPlain(a, first), OrPlain(b, second), MergeSemantics(a, first, b, second, separator).value;
       && Consistent(m) && RunsAtLeaves(m) && StyledTree(m) == StyledTree(x) + Between(x, y, separator) + StyledTree(y)
       && GuardedTree(m) == GuardedTree(x) + GuardedTree(y)
       && if RunsOn(x, y) then m.kind == x.kind && m.children == [] else m.kind == GroupNode && m.children == [x, y])
  {
    PlainIsConsistent(first);
    PlainIsConsistent(second);
    var x, y := OrPlain(a, first), OrPlain(b, second);
    if RunsOn(x, y) { ProseMerged(x, y, separator); } else { GroupMerged(x, y, separator); }
  }

  lemma {:induction false} PlainIsConsistent(text: string)
    ensures var t := OrPlain(None, text);
      Consistent(t) && RunsAtLeaves(t) && StyledTree(t) == StyledText(Run(Plain, text, 0)) && GuardedTree(t) == []
  {
    OneRun(Run(Plain, text, 0));
    OnePlainRun(text);
  }
}
