/** What tree repair, slicing and joining keep. */
module TreeRepair {
  import opened RichRuns
  import opened RunRepair
  import opened RichTrees

  /** Runs sit at the leaves; a leaf shows its runs, any other node its children line by line. */
  ghost predicate Consistent(t: Tree) {
    if t.children == [] then t.text == Visible(t.runs)
    else t.text == JoinTexts(t.children, "\n") && AllConsistent(t.children)
  }

  ghost predicate AllConsistent(trees: seq<Tree>) {
    forall i :: 0 <= i < |trees| ==> Consistent(trees[i])
  }

  lemma {:induction false} LeafShowsUpdate(t: Tree, updated: string, diff: Diff)
    requires Diffs(diff) && Inside(diff) && t.children == []
    ensures Consistent(t) || t.text != updated ==> Consistent(Repaired(t, updated, diff).0)
    ensures !Repaired(t, updated, diff).1 ==> Repaired(t, updated, diff).0.text == updated
  {
    RepairShowsUpdate(t.runs, updated, diff(Visible(t.runs), updated));
  }

  /** Unless the repair is ambiguous the tree shows the updated text, and every inner text is its
      children's texts joined by line breaks. */
  lemma {:induction false} TreeShowsUpdate(t: Tree, updated: string, diff: Diff)
    requires Diffs(diff) && Inside(diff) && Consistent(t) && !Repaired(t, updated, diff).1
    ensures Repaired(t, updated, diff).0.text == updated && Consistent(Repaired(t, updated, diff).0)
    decreases t, |t.children| + 1
  {
    if t.text != updated {
      if t.children == [] {
        LeafShowsUpdate(t, updated, diff);
      } else {
        ChildrenShowUpdates(t, updated, diff, |t.children|);
      }
    }
  }

  lemma {:induction false} ChildrenShowUpdates(t: Tree, updated: string, diff: Diff, k: nat)
    requires Diffs(diff) && Inside(diff) && k <= |t.children| && AllConsistent(t.children)
    ensures AllConsistent(RepairedChildren(t, updated, diff, k))
    decreases t, k
  {
    if k > 0 {
      ChildrenShowUpdates(t, updated, diff, k - 1);
      if RepairedChild(t, updated, diff, k - 1).Some? {
        TreeShowsUpdate(t.children[k - 1], ChildText(t, updated, diff(t.text, updated), k - 1).value, diff);
      }
    }
  }

  /** The protected runs of the leaves that show something, in order. */
  function GuardedTree(t: Tree): seq<Run>
    decreases t, |t.children| + 1
  {
    if t.children == [] then Guarded(t.runs) else GuardedChildren(t, |t.children|)
  }

  function GuardedChildren(t: Tree, k: nat): seq<Run>
    requires k <= |t.children|
    decreases t, k
  {
    if k == 0 then [] else GuardedChildren(t, k - 1) + GuardedTree(t.children[k - 1])
  }

  lemma {:induction false} SameGuards(a: Tree, b: Tree, k: nat)
    requires k <= |a.children| && k <= |b.children|
    requires forall i :: 0 <= i < k ==> GuardedTree(a.children[i]) == GuardedTree(b.children[i])
    ensures GuardedChildren(a, k) == GuardedChildren(b, k)
  {
    if k > 0 { SameGuards(a, b, k - 1); }
  }

  /** Formulas, code and controls survive whole, unchanged and in order, ambiguous or not. */
  lemma {:induction false} TreeKeepsProtected(t: Tree, updated: string, diff: Diff)
    requires Diffs(diff) && Inside(diff)
    ensures GuardedTree(Repaired(t, updated, diff).0) == GuardedTree(t)
    decreases t, |t.children| + 1
  {
    if t.text != updated {
      if t.children == [] {
        RepairKeepsProtected(t.runs, updated, diff(Visible(t.runs), updated));
      } else {
        ChildrenKeepProtected(t, updated, diff, |t.children|);
        var done := RepairedChildren(t, updated, diff, |t.children|);
        var out := WithChildren(t, done, updated).0;
        GuardsOf(t, out, done);
      }
    }
  }

  lemma {:induction false} GuardsOf(t: Tree, out: Tree, done: seq<Tree>)
    requires |done| <= |t.children| && t.children != [] && out.children == done + t.children[|done|..]
    requires forall i :: 0 <= i < |done| ==> GuardedTree(done[i]) == GuardedTree(t.children[i])
    ensures GuardedTree(out) == GuardedTree(t)
  {
    SameGuards(out, t, |t.children|);
  }

  lemma {:induction false} ChildrenKeepProtected(t: Tree, updated: string, diff: Diff, k: nat)
    requires Diffs(diff) && Inside(diff) && k <= |t.children|
    ensures var done := RepairedChildren(t, updated, diff, k);
      forall i :: 0 <= i < |done| ==> GuardedTree(done[i]) == GuardedTree(t.children[i])
    decreases t, k
  {
    if k > 0 {
      ChildrenKeepProtected(t, updated, diff, k - 1);
      if RepairedChild(t, updated, diff, k - 1).Some? {
        TreeKeepsProtected(t.children[k - 1], ChildText(t, updated, diff(t.text, updated), k - 1).value, diff);
      }
    }
  }

  /** A node that carries text runs and nothing else. */
  ghost predicate Leaf(t: Tree) {
    t.children == [] && !t.table && t.text == Visible(t.runs)
  }

  /** A leaf can be sliced exactly where no protected run is divided; the slice shows that interval. */
  lemma {:induction false} LeafSlices(t: Tree, i: int, j: int)
    requires Leaf(t)
    ensures Slice(t, i, j).Some? <==> 0 <= i <= j <= |t.text| && !Divides(t.runs, i, j)
    ensures Slice(t, i, j).Some? ==>
      Slice(t, i, j).value == t.(runs := Cut(t.runs, i, j), text := t.text[i..j]) && Leaf(Slice(t, i, j).value)
  {
    if 0 <= i <= j <= |t.text| { CutText(t.runs, i, j); }
  }

  lemma {:induction false} PieceDivided(r: Run, lo: int, k: int, hi: int)
    requires lo <= 0 && |r.text| <= hi
    ensures Piece(r, lo, k) != [] && Piece(r, lo, k) != [r] <==> 0 < k < |r.text|
    ensures Piece(r, k, hi) != [] && Piece(r, k, hi) != [r] <==> 0 < k < |r.text|
  {
    PieceIsWhole(r, lo, k);
    PieceIsWhole(r, k, hi);
  }

  /** Both sides of a cut divide a protected run exactly when the cut falls inside one. */
  lemma {:induction false} CutDivides(runs: seq<Run>, lo: int, k: int, hi: int)
    requires lo <= 0 && |Visible(runs)| <= hi
    ensures Divides(runs, lo, k) <==> !Unbroken(runs, k)
    ensures Divides(runs, k, hi) <==> !Unbroken(runs, k)
  {
    if runs != [] {
      var n := |runs[0].text|;
      PieceDivided(runs[0], lo, k, hi);
      CutDivides(runs[1..], lo - n, k - n, hi - n);
    }
  }

  lemma {:induction false} ClipHalves(s: seq<Styled>, k: nat)
    requires k <= |s|
    ensures ClipStyled(s, 0, k) + ClipStyled(s, k, |s|) == s
  {
    assert s == s[..k] + s[k..];
  }

  lemma {:induction false} CutKeepsFormat(runs: seq<Run>, k: nat, n: nat)
    requires k <= n == |Visible(runs)|
    ensures StyledRuns(Cut(runs, 0, k) + Cut(runs, k, n)) == StyledRuns(runs)
  {
    StyledConcat(Cut(runs, 0, k), Cut(runs, k, n));
    CutStyled(runs, 0, k);
    CutStyled(runs, k, n);
    ClipHalves(StyledRuns(runs), k);
  }

  lemma {:induction false} CutKeepsGuards(runs: seq<Run>, k: nat, n: nat)
    requires k <= n == |Visible(runs)| && Unbroken(runs, k)
    ensures Guarded(Cut(runs, 0, k) + Cut(runs, k, n)) == Guarded(runs)
  {
    GuardedConcat(Cut(runs, 0, k), Cut(runs, k, n));
    CutSplits(runs, 0, k, n);
    CutWhole(runs, 0, n);
  }

  lemma {:induction false} MergedLeaves(a: Tree, b: Tree, separator: string)
    requires Leaf(a) && Leaf(b) && a.kind == b.kind && a.kind in {ParagraphNode, ReferenceNode}
    ensures var m := Merged(a, b, separator);
      && Leaf(m) && m.kind == a.kind && m.text == a.text + separator + b.text
      && (separator == "" ==> m.runs == a.runs + b.runs)
  {
    var middle := if separator != "" then PlainText(separator) else [];
    assert Visible(middle) == separator by { if separator != "" { OneRun(Run(Plain, separator, 0)); } }
    VisibleConcat(a.runs + middle, b.runs);
    VisibleConcat(a.runs, middle);
    if separator == "" { assert a.runs + [] == a.runs; }
  }

  /** Slicing a paragraph or reference at a cut and joining the halves with nothing restores its text,
      every character's format and its protected runs; both halves exist exactly when the cut falls
      inside no protected run. */
  lemma {:induction false} SliceThenMerge(t: Tree, k: nat)
    requires Leaf(t) && t.kind in {ParagraphNode, ReferenceNode} && k <= |t.text|
    ensures Slice(t, 0, k).Some? && Slice(t, k, |t.text|).Some? <==> Unbroken(t.runs, k)
    ensures Unbroken(t.runs, k) ==>
      (var m := Merged(Slice(t, 0, k).value, Slice(t, k, |t.text|).value, "");
       m.text == t.text && m.kind == t.kind && StyledRuns(m.runs) == StyledRuns(t.runs) && Guarded(m.runs) ==
         Guarded(t.runs))
  {
    CutDivides(t.runs, 0, k, |t.text|);
    LeafSlices(t, 0, k);
    LeafSlices(t, k, |t.text|);
    if Unbroken(t.runs, k) {
      MergedLeaves(Slice(t, 0, k).value, Slice(t, k, |t.text|).value, "");
      CutKeepsFormat(t.runs, k, |t.text|);
      CutKeepsGuards(t.runs, k, |t.text|);
      assert t.text[0..k] + "" + t.text[k..|t.text|] == t.text;
    }
  }

  /** The retained spans of a text, joined by spaces. */
  function JoinSpans(text: string, spans: seq<Interval>): string
    requires SpansInside(text, spans)
  {
    if spans == [] then ""
    else
      var last := text[spans[|spans| - 1].start..spans[|spans| - 1].end];
      if |spans| == 1 then last else JoinSpans(text, spans[..|spans| - 1]) + " " + last
  }

  ghost predicate SpansInside(text: string, spans: seq<Interval>) {
    forall i :: 0 <= i < |spans| ==> spans[i].start <= spans[i].end <= |text|
  }

  lemma {:induction false} OneMoreSpan(text: string, spans: seq<Interval>)
    requires spans != [] && SpansInside(text, spans[..|spans| - 1])
    requires spans[|spans| - 1].start <= spans[|spans| - 1].end <= |text|
    ensures SpansInside(text, spans)
  {
    forall i | 0 <= i < |spans| ensures spans[i].start <= spans[i].end <= |text| {
      if i < |spans| - 1 { assert spans[..|spans| - 1][i] == spans[i]; }
    }
  }

  lemma {:induction false} MergedLast(parts: seq<Tree>, last: Tree)
    ensures MergeAll(parts + [last]) == if parts == [] then last else Merged(MergeAll(parts), last, " ")
  {
    assert (parts + [last])[..|parts|] == parts;
  }

  /** The slice of one more span joins the text. */
  lemma {:induction false} JoinedSlice(t: Tree, merged: Tree, last: Tree, text: string, span: Interval)
    requires Leaf(merged) && Leaf(last) && merged.kind == last.kind && merged.kind in {ParagraphNode, ReferenceNode}
    requires span.start <= span.end <= |t.text| && merged.text == text && last.text == t.text[span.start..span.end]
    ensures var m := Merged(merged, last,
      " "); Leaf(m) && m.kind == last.kind && m.text == text + " " + t.text[span.start..span.end]
  {
    MergedLeaves(merged, last, " ");
  }

  lemma {:induction false} SlicesOfLeaf(t: Tree, spans: seq<Interval>)
    requires Leaf(t) && t.kind in {ParagraphNode, ReferenceNode} && Slices(t, spans).Some?
    ensures |Slices(t, spans).value| == |spans| && SpansInside(t.text, spans)
    ensures spans != [] ==>
      (var m := MergeAll(Slices(t, spans).value); Leaf(m) && m.kind == t.kind && m.text == JoinSpans(t.text, spans))
  {
    if spans != [] {
      var n := |spans| - 1;
      var before, last := Slices(t, spans[..n]).value, Slice(t, spans[n].start, spans[n].end).value;
      SlicesOfLeaf(t, spans[..n]);
      LeafSlices(t, spans[n].start, spans[n].end);
      OneMoreSpan(t.text, spans);
      MergedLast(before, last);
      if n > 0 { JoinedSlice(t, MergeAll(before), last, JoinSpans(t.text, spans[..n]), spans[n]); }
    }
  }

  lemma {:induction false} RepairedLeaf(t: Tree, updated: string, diff: Diff)
    requires Diffs(diff) && Inside(diff) && Leaf(t) && !Repaired(t, updated, diff).1
    ensures var r := Repaired(t, updated, diff).0; Leaf(r) && r.kind == t.kind && r.text == updated
  {
    LeafShowsUpdate(t, updated, diff);
  }

  /** Unless it is ambiguous, the carried text of a paragraph or reference is the retained spans of
      the original text joined by spaces. */
  lemma {:induction false} CarriedShowsSpans(t: Tree, original: string, spans: seq<Interval>, diff: Diff)
    requires Diffs(diff) && Inside(diff) && Leaf(t) && t.kind in {ParagraphNode, ReferenceNode}
    requires Carried(t, original, spans, diff).Some?
    ensures SpansInside(original, spans)
    ensures Carried(t, original, spans, diff).value.text == JoinSpans(original, spans)
  {
    RepairedLeaf(t, original, diff);
    SlicesOfLeaf(Repaired(t, original, diff).0, spans);
  }
}
