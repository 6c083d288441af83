/** When a slice of a formatted tree exists (src/packages/parsers/rich_ir.py, `slice_semantics` and
    `carry_retained_spans`). */
module TreeCuts {
  import opened Wrappers
  import opened RunRepair
  import opened RichTrees
  import opened TreeRepair
  import opened TreeSlices
  import opened TreeChanges

  /** Line `k` shows a character of the interval. */
  predicate Shown(trees: seq<Tree>, k: nat, i: int, j: int)
    requires k < |trees|
  {
    Max(i, Offset(trees, k)) < Min(j, End(trees, k))
  }

  /** The break behind line `k` lies in the interval. */
  predicate BreakInside(trees: seq<Tree>, k: nat, i: int, j: int)
    requires k < |trees|
  {
    i <= End(trees, k) < j
  }

  /** Each break of the interval, among the first `n` lines, has text of the interval on either side. */
  ghost predicate BreaksKept(trees: seq<Tree>, n: nat, i: int, j: int)
    requires n <= |trees|
  {
    forall k :: 0 <= k < n - 1 && BreakInside(trees, k, i, j) ==> Shown(trees, k, i, j) && Shown(trees, k + 1, i, j)
  }

  ghost predicate NoneShown(trees: seq<Tree>, n: nat, i: int, j: int)
    requires n <= |trees|
  {
    forall k :: 0 <= k < n ==> !Shown(trees, k, i, j)
  }

  /** How much of the interval lies in front of a place. */
  function Before(place: int, i: int, j: int): int {
    Max(0, Min(j, place) - Max(i, 0))
  }

  /** What the loop has collected from `n` lines: nothing if none is shown, and all of the interval so far
      exactly when no break is lost. */
  ghost predicate Collects(trees: seq<Tree>, n: nat, i: int, j: int, parts: seq<Tree>)
    requires 0 < n <= |trees|
  {
    var l, c := |JoinTexts(parts, "\n")|, Before(End(trees, n - 1), i, j);
    && (parts == [] <==> NoneShown(trees, n, i, j))
    && l <= c && (l == c <==> BreaksKept(trees, n, i, j))
  }

  lemma {:induction false} OffsetsGrow(trees: seq<Tree>, a: nat, b: nat)
    requires a < b < |trees|
    ensures End(trees, a) < Offset(trees, b) <= End(trees, b)
    decreases b
  {
    if a < b - 1 { OffsetsGrow(trees, a, b - 1); }
  }

  lemma {:induction false} JoinGrows(parts: seq<Tree>, part: Tree)
    ensures |JoinTexts(parts + [part], "\n")|
      == |JoinTexts(parts, "\n")| + |part.text| + if parts == [] then 0 else 1
  {
    ForestSnoc(parts, part);
  }

  lemma {:induction false} FirstCollects(trees: seq<Tree>, i: int, j: int, parts: seq<Tree>)
    requires trees != [] && 0 <= i <= j
    requires if Shown(trees, 0, i, j) then |parts| == 1 && |parts[0].text| == Min(j, End(trees, 0)) - i else parts == []
    ensures Collects(trees, 1, i, j, parts)
  {}

  lemma {:induction false} ShownCollects(trees: seq<Tree>, n: nat, i: int, j: int, parts: seq<Tree>, part: Tree)
    requires 0 < n < |trees| && 0 <= i <= j && Collects(trees, n, i, j, parts)
    requires Shown(trees, n, i, j) && |part.text| == Min(j, End(trees, n)) - Max(i, Offset(trees, n))
    ensures Collects(trees, n + 1, i, j, parts + [part])
  {
    JoinGrows(parts, part);
    if parts != [] {
      var m :| 0 <= m < n && Shown(trees, m, i, j);
      if m < n - 1 { LaterBreak(trees, m, n, i, j); }
    } else {
      assert !Shown(trees, n - 1, i, j);
      assert BreakInside(trees, n - 1, i, j) ==> !BreaksKept(trees, n + 1, i, j);
      if !BreakInside(trees, n - 1, i, j) { NoBreakBefore(trees, n, i, j); }
    }
  }

  /** Between two shown lines every break is inside. */
  lemma {:induction false} LaterBreak(trees: seq<Tree>, m: nat, n: nat, i: int, j: int)
    requires m < n - 1 < n < |trees| && Shown(trees, m, i, j) && Shown(trees, n, i, j)
    ensures BreakInside(trees, n - 2, i, j) && BreakInside(trees, n - 1, i, j)
    ensures BreaksKept(trees, n, i, j) ==> Shown(trees, n - 1, i, j)
  {
    OffsetsGrow(trees, m, n - 1);
    if m < n - 2 { OffsetsGrow(trees, m, n - 2); }
    OffsetsGrow(trees, n - 2, n);
    OffsetsGrow(trees, n - 1, n);
    assert BreaksKept(trees, n, i, j) && BreakInside(trees, n - 2, i, j) ==> Shown(trees, n - 2 + 1, i, j);
  }

  lemma {:induction false} NoBreakBefore(trees: seq<Tree>, n: nat, i: int, j: int)
    requires 0 < n < |trees| && End(trees, n - 1) < i
    ensures BreaksKept(trees, n + 1, i, j)
  {
    forall k | 0 <= k < n ensures !BreakInside(trees, k, i, j) {
      if k < n - 1 { OffsetsGrow(trees, k, n - 1); }
    }
  }

  lemma {:induction false} SkippedCollects(trees: seq<Tree>, n: nat, i: int, j: int, parts: seq<Tree>)
    requires 0 < n < |trees| && 0 <= i <= j && Collects(trees, n, i, j, parts) && !Shown(trees, n, i, j)
    ensures Collects(trees, n + 1, i, j, parts)
  {
    assert BreakInside(trees, n - 1, i, j) ==> !BreaksKept(trees, n + 1, i, j);
    if !BreakInside(trees, n - 1, i, j) {
      assert BreaksKept(trees, n + 1, i, j) <==> BreaksKept(trees, n, i, j);
    }
  }

  /** The part of child `k` that the loop asks for. */
  function PartFrom(trees: seq<Tree>, k: nat, i: int): int
    requires k < |trees|
  {
    Max(i - Offset(trees, k), 0)
  }

  function PartTo(trees: seq<Tree>, k: nat, j: int): int
    requires k < |trees|
  {
    Min(j - Offset(trees, k), |trees[k].text|)
  }

  /** Every shown line can be sliced. */
  ghost predicate LinesSlice(t: Tree, k: nat, i: int, j: int)
    requires k <= |t.children|
  {
    forall m :: 0 <= m < k && Shown(t.children, m, i, j) ==> LineSlices(t, m, i, j)
  }

  ghost predicate LineSlices(t: Tree, m: nat, i: int, j: int)
    requires m < |t.children|
  {
    Slice(t.children[m], PartFrom(t.children, m, i), PartTo(t.children, m, j)).Some?
  }

  lemma {:induction false} ChildrenSlice(t: Tree, i: int, j: int, k: nat)
    requires k <= |t.children|
    ensures SliceChildren(t, i, j, k).Some? <==> LinesSlice(t, k, i, j)
  {
    if k > 0 {
      ChildrenSlice(t, i, j, k - 1);
      assert Shown(t.children, k - 1, i, j) <==> PartFrom(t.children, k - 1, i) < PartTo(t.children, k - 1, j);
    }
  }

  lemma {:induction false} SliceText(t: Tree, i: int, j: int)
    requires Slice(t, i, j).Some?
    ensures 0 <= i <= j <= |t.text| && Slice(t, i, j).value.text == t.text[i..j]
  {}

  lemma {:induction false} ChildrenCollect(t: Tree, i: int, j: int, k: nat)
    requires 0 < k <= |t.children| && 0 <= i <= j && SliceChildren(t, i, j, k).Some?
    ensures Collects(t.children, k, i, j, SliceChildren(t, i, j, k).value)
  {
    var trees, n := t.children, k - 1;
    var before := SliceChildren(t, i, j, n).value;
    var a, b := PartFrom(trees, n, i), PartTo(trees, n, j);
    assert Shown(trees, n, i, j) <==> a < b;
    if a < b { SliceText(trees[n], a, b); }
    if n == 0 {
      FirstCollects(trees, i, j, SliceChildren(t, i, j, k).value);
    } else {
      ChildrenCollect(t, i, j, n);
      if a < b { ShownCollects(trees, n, i, j, before, Slice(trees[n], a, b).value); }
      else { SkippedCollects(trees, n, i, j, before); }
    }
  }

  /** An inner node can be sliced exactly where its shown lines can and every line break of the interval
      stands between two of them. */
  lemma {:induction false} InnerSlices(t: Tree, i: int, j: int)
    requires Consistent(t) && RunsAtLeaves(t) && t.children != []
    ensures Slice(t, i, j).Some? <==>
      0 <= i <= j <= |t.text| && LinesSlice(t, |t.children|, i, j) && BreaksKept(t.children, |t.children|, i, j)
  {
    ChildrenSlice(t, i, j, |t.children|);
    if 0 <= i <= j <= |t.text| && LinesSlice(t, |t.children|, i, j) { CollectedText(t, i, j); }
  }

  lemma {:induction false} CollectedText(t: Tree, i: nat, j: nat)
    requires Consistent(t) && RunsAtLeaves(t) && t.children != [] && i <= j <= |t.text|
    requires SliceChildren(t, i, j, |t.children|).Some?
    ensures JoinTexts(SliceChildren(t, i, j, |t.children|).value, "\n") == t.text[i..j]
      <==> BreaksKept(t.children, |t.children|, i, j)
  {
    var n := |t.children|;
    ChildrenCollect(t, i, j, n);
    LineAt(t.children, n - 1);
    assert AllSound(t.children);
    ChildrenGathered(t, i, j, n);
    assert t.children[..n] == t.children;
    GatheredText(t, SliceChildren(t, i, j, n).value, i, j);
  }

  /** What the loop collects is the interval exactly when nothing is missing. */
  lemma {:induction false} GatheredText(t: Tree, parts: seq<Tree>, i: nat, j: nat)
    requires Consistent(t) && t.children != [] && i <= j <= |t.text|
    requires Gathered(StyledForest(t.children), parts, i, j)
    ensures JoinTexts(parts, "\n") == t.text[i..j] <==> |JoinTexts(parts, "\n")| == j - i
  {
    StyledShowsText(t);
    ForestShowsText(parts);
    assert ClipStyled(StyledTree(t), i, j) == StyledTree(t)[i..j];
  }

  /** A table cell holder is never sliced, a leaf where no protected run is divided. */
  lemma {:induction false} LeafSlicesExactly(t: Tree, i: int, j: int)
    requires Consistent(t) && t.children == []
    ensures Slice(t, i, j).Some? <==> 0 <= i <= j <= |t.text| && !t.table && !Divides(t.runs, i, j)
  {
    if !t.table { LeafSlices(t, i, j); }
  }

  lemma {:induction false} SlicesExist(t: Tree, spans: seq<Interval>)
    ensures Slices(t, spans).Some? <==> forall k :: 0 <= k < |spans| ==> SpanSlices(t, spans[k])
    ensures Slices(t, spans).Some? ==> |Slices(t, spans).value| == |spans|
  {
    if spans != [] {
      var n := |spans| - 1;
      SlicesExist(t, spans[..n]);
      forall k | 0 <= k < n ensures spans[..n][k] == spans[k] {}
    }
  }

  predicate SpanSlices(t: Tree, span: Interval) {
    Slice(t, span.start, span.end).Some?
  }

  /** Formatting is carried exactly when the repair is not ambiguous, some text is retained, and every
      retained span of the repaired tree can be sliced. */
  lemma {:induction false} CarriedExactly(t: Tree, original: string, spans: seq<Interval>, diff: Diff)
    requires Inside(diff)
    ensures Carried(t, original, spans, diff).Some? <==>
      && !Repaired(t, original, diff).1 && spans != []
      && forall k :: 0 <= k < |spans| ==> SpanSlices(Repaired(t, original, diff).0, spans[k])
  {
    SlicesExist(Repaired(t, original, diff).0, spans);
  }
}
