/** Trees of formatted text: repair, slicing and joining (src/packages/parsers/rich_ir.py). */
module RichTrees {
  import opened Wrappers
  import opened EditScripts
  import opened RichRuns

  datatype NodeKind = ParagraphNode | ReferenceNode | ListItemNode | GroupNode | OtherNode

  /** `table` marks a node that carries cell data. */
  datatype Tree = Tree(kind: NodeKind, runs: seq<Run>, children: seq<Tree>, text: string, table: bool)

  /** `SequenceMatcher(a, b).get_opcodes()`. */
  type Diff = (string, string) -> seq<Op>

  ghost predicate Diffs(diff: Diff) {
    forall a, b :: Script(diff(a, b), a, b)
  }

  function JoinTexts(trees: seq<Tree>, separator: string): string {
    if trees == [] then ""
    else if |trees| == 1 then trees[0].text
    else JoinTexts(trees[..|trees| - 1], separator) + separator + trees[|trees| - 1].text
  }

  /** Where child `k` starts in the joined text. */
  function Offset(trees: seq<Tree>, k: nat): nat
    requires k <= |trees|
  {
    if k == 0 then 0 else Offset(trees, k - 1) + |trees[k - 1].text| + 1
  }

  predicate Applies(op: Op, start: nat, end: nat) {
    op.tag != Equal && ((op.i < end && op.j > start) || (op.i == op.j && start <= op.i < end))
  }

  function Applicable(ops: seq<Op>, start: nat, end: nat): seq<Op> {
    if ops == [] then []
    else Applicable(ops[..|ops| - 1], start, end) + if Applies(ops[|ops| - 1], start, end) then [ops[|ops| - 1]] else []
  }

  predicate Contained(ops: seq<Op>, start: nat, end: nat) {
    forall k :: 0 <= k < |ops| ==> start <= ops[k].i && ops[k].j <= end
  }

  function Bound(s: string, i: int): nat {
    if i < 0 then 0 else if i > |s| then |s| else i
  }

  /** Edits from the last to the first. */
  function Revise(text: string, ops: seq<Op>, start: nat, updated: string): string
    requires OpsInside(ops, updated)
    decreases |ops|
  {
    if ops == [] then text
    else
      var op := ops[|ops| - 1];
      Revise(text[..Bound(text, op.i - start)] + updated[op.x..op.y] + text[Bound(text, op.j - start)..],
        ops[..|ops| - 1], start, updated)
  }

  lemma {:induction false} ApplicableInside(ops: seq<Op>, start: nat, end: nat, updated: string)
    requires OpsInside(ops, updated)
    ensures OpsInside(Applicable(ops, start, end), updated)
  {
    if ops != [] {
      var n := |ops| - 1;
      assert OpsInside(ops[..n], updated);
      ApplicableInside(ops[..n], start, end, updated);
    }
  }

  ghost predicate Inside(diff: Diff) {
    forall a, b :: OpsInside(diff(a, b), b)
  }

  /** What a child's text becomes; None when a change leaves the child. */
  function ChildText(t: Tree, updated: string, ops: seq<Op>, k: nat): Option<string>
    requires k < |t.children| && OpsInside(ops, updated)
  {
    var start := Offset(t.children, k);
    var end := start + |t.children[k].text|;
    ApplicableInside(ops, start, end, updated);
    if Contained(Applicable(ops, start, end), start, end)
    then Some(Revise(t.children[k].text, Applicable(ops, start, end), start, updated)) else None
  }

  /** The repaired tree and whether the repair was ambiguous. */
  function Repaired(t: Tree, updated: string, diff: Diff): (Tree, bool)
    requires Inside(diff)
    decreases t, |t.children| + 1
  {
    if t.text == updated then (t, false)
    else if t.children == [] then
      var (runs, ambiguous) := Reconciled(t.runs, updated, diff(Visible(t.runs), updated));
      (t.(runs := runs, text := Visible(runs)), ambiguous)
    else if |t.text| > MAX_LENGTH || |updated| > MAX_LENGTH then (t, true)
    else WithChildren(t, RepairedChildren(t, updated, diff, |t.children|), updated)
  }

  /** Children repaired before the first ambiguous one stay; the text follows only when all are. */
  function WithChildren(t: Tree, done: seq<Tree>, updated: string): (Tree, bool)
    requires |done| <= |t.children|
  {
    var children := done + t.children[|done|..];
    if |done| < |t.children| then (t.(children := children), true)
    else (t.(children := children, text := JoinTexts(children, "\n")), JoinTexts(children, "\n") != updated)
  }

  function RepairedChild(t: Tree, updated: string, diff: Diff, k: nat): Option<Tree>
    requires k < |t.children| && Inside(diff)
    decreases t, k
  {
    var revised := ChildText(t, updated, diff(t.text, updated), k);
    if revised.None? then None
    else
      var (child, unsure) := Repaired(t.children[k], revised.value, diff);
      if unsure then None else Some(child)
  }

  /** The children repaired among the first `k`, up to the first ambiguous one. */
  function RepairedChildren(t: Tree, updated: string, diff: Diff, k: nat): (done: seq<Tree>)
    requires k <= |t.children| && Inside(diff)
    ensures |done| <= k
    decreases t, k
  {
    if k == 0 then []
    else
      var done := RepairedChildren(t, updated, diff, k - 1);
      if |done| < k - 1 || RepairedChild(t, updated, diff, k - 1).None? then done
      else done + [RepairedChild(t, updated, diff, k - 1).value]
  }

  method ReconcileChild(t: Tree, updated: string, diff: Diff, k: nat) returns (r: Option<Tree>)
    requires k < |t.children| && Inside(diff)
    ensures r == RepairedChild(t, updated, diff, k)
    decreases t, 0
  {
    var revised := ChildText(t, updated, diff(t.text, updated), k);
    if revised.None? { return None; }
    var child, unsure := ReconcileTree(t.children[k], revised.value, diff);
    r := if unsure then None else Some(child);
  }

  method ReconcileChildren(t: Tree, updated: string, diff: Diff) returns (done: seq<Tree>)
    requires Inside(diff)
    ensures done == RepairedChildren(t, updated, diff, |t.children|)
    decreases t, 1
  {
    done := [];
    var k := 0;
    while k < |t.children|
      invariant 0 <= k <= |t.children| && RepairedChildren(t, updated, diff, k) == done && |done| == k
    {
      var child := ReconcileChild(t, updated, diff, k);
      k := k + 1;
      if child.None? {
        AmbiguousStays(t, updated, diff, k);
        return;
      }
      done := done + [child.value];
    }
  }

  /** `reconcile_tree`. */
  method ReconcileTree(t: Tree, updated: string, diff: Diff) returns (out: Tree, ambiguous: bool)
    requires Inside(diff)
    ensures (out, ambiguous) == Repaired(t, updated, diff)
    decreases t, 2
  {
    if t.text == updated { return t, false; }
    if t.children == [] {
      var runs, unsure := ReconcileRuns(t.runs, updated, diff(Visible(t.runs), updated));
      return t.(runs := runs, text := Visible(runs)), unsure;
    }
    if |t.text| > MAX_LENGTH || |updated| > MAX_LENGTH { return t, true; }
    var done := ReconcileChildren(t, updated, diff);
    out := t.(children := done + t.children[|done|..]);
    if |done| < |t.children| { return out, true; }
    out := out.(text := JoinTexts(out.children, "\n"));
    ambiguous := out.text != updated;
  }

  lemma {:induction false} AmbiguousStays(t: Tree, updated: string, diff: Diff, k: nat)
    requires k <= |t.children| && Inside(diff) && |RepairedChildren(t, updated, diff, k)| < k
    ensures RepairedChildren(t, updated, diff, |t.children|) == RepairedChildren(t, updated, diff, k)
    decreases |t.children| - k
  {
    if k < |t.children| { AmbiguousStays(t, updated, diff, k + 1); }
  }

  /** A protected run lies only partly in the interval. */
  predicate Divides(runs: seq<Run>, i: int, j: int) {
    runs != [] &&
      ((Protected(runs[0]) && Piece(runs[0], i, j) != [] && Piece(runs[0], i, j) != [runs[0]])
        || Divides(runs[1..], i - |runs[0].text|, j - |runs[0].text|))
  }

  /** The part of a tree between two positions, if no protected run is divided. */
  function Slice(t: Tree, start: int, end: int): Option<Tree>
    decreases t, |t.children| + 1
  {
    if !(0 <= start <= end <= |t.text|) then None
    else if t.children != [] then
      var parts := SliceChildren(t, start, end, |t.children|);
      if parts.None? then None else Checked(t.(children := parts.value, text := JoinTexts(parts.value, "\n")),
        t.text[start..end])
    else if t.table || Divides(t.runs, start, end) then None
    else Checked(t.(runs := Cut(t.runs, start, end), text := Visible(Cut(t.runs, start, end))), t.text[start..end])
  }

  function Checked(t: Tree, text: string): Option<Tree> {
    if t.text == text then Some(t) else None
  }

  function SliceChildren(t: Tree, start: int, end: int, k: nat): Option<seq<Tree>>
    requires k <= |t.children|
    decreases t, k
  {
    if k == 0 then Some([])
    else
      var before := SliceChildren(t, start, end, k - 1);
      var child, offset := t.children[k - 1], Offset(t.children, k - 1);
      var a, b := Max(start - offset, 0), Min(end - offset, |child.text|);
      if before.None? then None
      else if a >= b then before
      else
        var part := Slice(child, a, b);
        if part.None? then None else Some(before.value + [part.value])
  }

  lemma {:induction false} SliceChildrenFail(t: Tree, start: int, end: int, k: nat)
    requires k <= |t.children| && SliceChildren(t, start, end, k).None?
    ensures SliceChildren(t, start, end, |t.children|).None?
    decreases |t.children| - k
  {
    if k < |t.children| { SliceChildrenFail(t, start, end, k + 1); }
  }

  lemma {:induction false} DividesStep(rest: seq<Run>, i: int, j: int)
    requires rest != []
    ensures Divides(rest, i, j) <==>
      ((Protected(rest[0]) && Piece(rest[0], i, j) != [] && Piece(rest[0], i, j) != [rest[0]])
        || Divides(rest[1..], i - |rest[0].text|, j - |rest[0].text|))
  {}

  /** One run of the loop: its piece, or None when a protected run would be divided. */
  method SliceRun(run: Run, i: int, j: int) returns (piece: Option<seq<Run>>)
    ensures piece.None? <==> Protected(run) && Piece(run, i, j) != [] && Piece(run, i, j) != [run]
    ensures piece.Some? ==> piece.value == Piece(run, i, j)
  {
    var a, b := Max(i, 0), Min(j, |run.text|);
    PieceIsWhole(run, i, j);
    if a >= b { return Some([]); }
    if Protected(run) && (a != 0 || b != |run.text|) { return None; }
    piece := Some([run.(text := run.text[a..b])]);
  }

  lemma {:induction false} CutDone(out: seq<Run>, rest: seq<Run>, i: int, j: int)
    requires rest == []
    ensures out + Cut(rest, i, j) == out && !Divides(rest, i, j)
  {}

  /** One turn of the run loop. */
  lemma {:induction false} SliceStep(out: seq<Run>, rest: seq<Run>, i: int, j: int, whole: seq<Run>)
    requires rest != [] && out + Cut(rest, i, j) == whole
    ensures var n, p := |rest[0].text|, Piece(rest[0], i, j); out + p + Cut(rest[1..], i - n, j - n) == whole
    ensures Divides(rest, i, j) <==>
      ((Protected(rest[0]) && Piece(rest[0], i, j) != [] && Piece(rest[0], i, j) != [rest[0]])
        || Divides(rest[1..], i - |rest[0].text|, j - |rest[0].text|))
  {
    DividesStep(rest, i, j);
    CutStep(out, rest, i, j, whole);
  }

  /** The run loop of `slice_semantics`, positions relative to the run at hand. */
  method SliceRuns(runs: seq<Run>, start: nat, end: nat) returns (r: Option<seq<Run>>)
    ensures r == if Divides(runs, start, end) then None else Some(Cut(runs, start, end))
  {
    var out: seq<Run> := [];
    var rest := runs;
    var i: int, j: int := start, end;
    ghost var whole, divided := Cut(runs, start, end), Divides(runs, start, end);
    while rest != []
      invariant out + Cut(rest, i, j) == whole && divided == Divides(rest, i, j)
      decreases |rest|
    {
      SliceStep(out, rest, i, j, whole);
      var run := rest[0];
      var piece := SliceRun(run, i, j);
      if piece.None? { return None; }
      out, rest := out + piece.value, rest[1..];
      i, j := i - |run.text|, j - |run.text|;
    }
    CutDone(out, rest, i, j);
    r := Some(out);
  }

  lemma {:induction false} PieceIsWhole(r: Run, i: int, j: int)
    ensures Piece(r, i, j) != [] ==> (Piece(r, i, j) == [r] <==> Max(i, 0) == 0 && Min(j, |r.text|) == |r.text|)
  {
    if Piece(r, i, j) != [] {
      assert |Clip(r.text, i, j)| == Min(j, |r.text|) - Max(i, 0);
      if Max(i, 0) == 0 && Min(j, |r.text|) == |r.text| { assert Clip(r.text, i, j) == r.text; }
      if Piece(r, i, j) == [r] { assert Piece(r, i, j)[0].text == r.text; }
    }
  }

  method SlicePart(t: Tree, start: int, end: int, k: nat, offset: nat, parts: seq<Tree>) returns (r: Option<seq<Tree>>)
    requires k < |t.children| && offset == Offset(t.children, k) && SliceChildren(t, start, end, k) == Some(parts)
    ensures r == SliceChildren(t, start, end, k + 1)
    decreases t, 0
  {
    var child := t.children[k];
    var a, b := Max(start - offset, 0), Min(end - offset, |child.text|);
    if a >= b { return Some(parts); }
    var part := SliceSemantics(child, a, b);
    r := if part.None? then None else Some(parts + [part.value]);
  }

  /** The child loop of `slice_semantics`. */
  method SliceParts(t: Tree, start: int, end: int) returns (r: Option<seq<Tree>>)
    ensures r == SliceChildren(t, start, end, |t.children|)
    decreases t, 1
  {
    var parts: seq<Tree> := [];
    var offset := 0;
    var k := 0;
    while k < |t.children|
      invariant 0 <= k <= |t.children| && offset == Offset(t.children, k)
      invariant SliceChildren(t, start, end, k) == Some(parts)
    {
      var part := SlicePart(t, start, end, k, offset, parts);
      k := k + 1;
      if part.None? {
        SliceChildrenFail(t, start, end, k);
        return None;
      }
      parts := part.value;
      offset := offset + |t.children[k - 1].text| + 1;
    }
    r := Some(parts);
  }

  /** `slice_semantics`. */
  method SliceSemantics(t: Tree, start: int, end: int) returns (r: Option<Tree>)
    ensures r == Slice(t, start, end)
    decreases t, 2
  {
    if !(0 <= start <= end <= |t.text|) { return None; }
    var result := t;
    if t.children != [] {
      var parts := SliceParts(t, start, end);
      if parts.None? { return None; }
      result := result.(children := parts.value, text := JoinTexts(parts.value, "\n"));
    } else if t.table {
      return None;
    } else {
      var runs := SliceRuns(t.runs, start, end);
      if runs.None? { return None; }
      result := result.(runs := runs.value, text := Visible(runs.value));
    }
    r := if result.text == t.text[start..end] then Some(result) else None;
  }

  function PlainText(text: string): seq<Run> {
    [Run(Plain, text, 0)]
  }

  /** Two trees joined: prose runs on, anything else becomes a group. */
  function Merged(a: Tree, b: Tree, separator: string): Tree {
    var sameProse := a.kind == b.kind && a.kind in {ParagraphNode, ReferenceNode};
    var continuation := a.kind == ListItemNode && b.kind == ParagraphNode;
    if (sameProse || continuation) && a.children == [] && b.children == [] then
      var runs := a.runs + (if separator != "" then PlainText(separator) else []) + b.runs;
      a.(runs := runs, text := Visible(runs))
    else Tree(GroupNode, [], [a, b], JoinTexts([a, b], "\n"), false)
  }

  /** `merge_semantics`: an item without a tree counts as one plain paragraph. */
  function MergeSemantics(a: Option<Tree>, first: string, b: Option<Tree>, second: string,
      separator: string): Option<Tree> {
    if a.None? && b.None? then None
    else Some(Merged(OrPlain(a, first), OrPlain(b, second), separator))
  }

  function OrPlain(t: Option<Tree>, text: string): Tree {
    if t.Some? then t.value else Tree(ParagraphNode, PlainText(text), [], text, false)
  }

  datatype Interval = Interval(start: nat, end: nat)

  function MergeAll(parts: seq<Tree>): Tree
    requires parts != []
  {
    if |parts| == 1 then parts[0] else Merged(MergeAll(parts[..|parts| - 1]), parts[|parts| - 1], " ")
  }

  function Slices(t: Tree, spans: seq<Interval>): Option<seq<Tree>> {
    if spans == [] then Some([])
    else
      var before, last := Slices(t, spans[..|spans| - 1]), Slice(t, spans[|spans| - 1].start, spans[|spans| - 1].end);
      if before.None? || last.None? then None else Some(before.value + [last.value])
  }

  /** `carry_retained_spans`; None is the plain fallback with its ambiguity mark. */
  function Carried(t: Tree, original: string, spans: seq<Interval>, diff: Diff): Option<Tree>
    requires Inside(diff)
  {
    var (tree, ambiguous) := Repaired(t, original, diff);
    var parts := Slices(tree, spans);
    if ambiguous || spans == [] || parts.None? || parts.value == [] then None else Some(MergeAll(parts.value))
  }

  method CarryRetainedSpans(t: Tree, original: string, spans: seq<Interval>, diff: Diff) returns (r: Option<Tree>)
    requires Inside(diff)
    ensures r == Carried(t, original, spans, diff)
  {
    var tree, ambiguous := ReconcileTree(t, original, diff);
    if ambiguous || spans == [] { return None; }
    var parts: seq<Tree> := [];
    var k := 0;
    while k < |spans|
      invariant 0 <= k <= |spans| && Slices(tree, spans[..k]) == Some(parts) && |parts| == k
    {
      assert spans[..k + 1][..k] == spans[..k];
      var part := SliceSemantics(tree, spans[k].start, spans[k].end);
      k := k + 1;
      if part.None? {
        SlicesFail(tree, spans, k);
        return None;
      }
      parts := parts + [part.value];
    }
    assert spans[..k] == spans;
    var merged := parts[0];
    k := 1;
    while k < |parts|
      invariant 1 <= k <= |parts| && merged == MergeAll(parts[..k])
    {
      assert parts[..k + 1][..k] == parts[..k];
      merged := Merged(merged, parts[k], " ");
      k := k + 1;
    }
    assert parts[..k] == parts;
    r := Some(merged);
  }

  lemma {:induction false} SlicesFail(t: Tree, spans: seq<Interval>, k: nat)
    requires k <= |spans| && Slices(t, spans[..k]).None?
    ensures Slices(t, spans).None?
    decreases |spans| - k
  {
    if k < |spans| {
      assert spans[..k + 1][..k] == spans[..k];
      SlicesFail(t, spans, k + 1);
    } else {
      assert spans[..k] == spans;
    }
  }
}
