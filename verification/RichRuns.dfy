/** Formatted runs carried across a text repair (src/packages/parsers/rich_ir.py, `reconcile_runs`). */
module RichRuns {
  import opened Wrappers
  import opened EditScripts

  datatype RunKind = Plain | Linked | Referring | MathRun | CodeRun | ControlRun

  /** `style` stands for marks, address and every other attribute apart from the text. */
  datatype Run = Run(kind: RunKind, text: string, style: int)

  const MAX_LENGTH := 8192

  predicate Protected(r: Run) {
    r.kind in {MathRun, CodeRun, ControlRun}
  }

  predicate SameFormat(a: Run, b: Run) {
    a.kind == b.kind && a.style == b.style
  }

  /** The visible text. */
  function Visible(runs: seq<Run>): string {
    if runs == [] then "" else runs[0].text + Visible(runs[1..])
  }

  /** `s[i..j]`, positions outside the text cut off. */
  function Clip(s: string, i: int, j: int): string {
    if Max(i, 0) < Min(j, |s|) then s[Max(i, 0)..Min(j, |s|)] else ""
  }

  /** The part of a run between two positions, when there is one. */
  function Piece(r: Run, i: int, j: int): seq<Run> {
    if Max(i, 0) < Min(j, |r.text|) then [r.(text := Clip(r.text, i, j))] else []
  }

  /** The runs between two positions of their visible text. */
  function Cut(runs: seq<Run>, i: int, j: int): seq<Run> {
    if runs == [] then []
    else Piece(runs[0], i, j) + Cut(runs[1..], i - |runs[0].text|, j - |runs[0].text|)
  }

  /** Runs that share a character with `i..j`, or hold `i` strictly inside when the interval is empty. */
  function Owners(runs: seq<Run>, i: int, j: int): seq<Run> {
    if runs == [] then []
    else
      (if 0 < j && |runs[0].text| > i then [runs[0]] else [])
        + Owners(runs[1..], i - |runs[0].text|, j - |runs[0].text|)
  }

  /** Runs that touch position `i`. */
  function Neighbours(runs: seq<Run>, i: int): seq<Run> {
    if runs == [] then []
    else (if 0 <= i <= |runs[0].text| then [runs[0]] else []) + Neighbours(runs[1..], i - |runs[0].text|)
  }

  predicate HasProtected(runs: seq<Run>) {
    exists k :: 0 <= k < |runs| && Protected(runs[k])
  }

  predicate OneFormat(runs: seq<Run>) {
    forall k :: 0 <= k < |runs| ==> SameFormat(runs[0], runs[k])
  }

  function Attributed(runs: seq<Run>, op: Op): seq<Run> {
    var owners := Owners(runs, op.i, op.j);
    if owners == [] then Neighbours(runs, op.i) else owners
  }

  /** The runs one opcode contributes; None is an ambiguous repair. */
  function OpRuns(runs: seq<Run>, updated: string, op: Op): Option<seq<Run>>
    requires op.x <= op.y <= |updated|
  {
    match op.tag
    case Equal => Some(Cut(runs, op.i, op.j))
    case Deleted => if HasProtected(Owners(runs, op.i, op.j)) then None else Some([])
    case _ =>
      var owners := Attributed(runs, op);
      if !OneFormat(owners) || HasProtected(owners) then None
      else Some([(if owners != [] then owners[0] else Run(Plain, "", 0)).(text := updated[op.x..op.y])])
  }

  ghost predicate OpsInside(ops: seq<Op>, updated: string) {
    forall k :: 0 <= k < |ops| ==> ops[k].x <= ops[k].y <= |updated|
  }

  function OpParts(runs: seq<Run>, updated: string, ops: seq<Op>): (parts: seq<Option<seq<Run>>>)
    requires OpsInside(ops, updated)
    ensures |parts| == |ops| && forall m :: 0 <= m < |parts| ==> parts[m] == OpRuns(runs, updated, ops[m])
  {
    seq(|ops|, m requires 0 <= m < |ops| => OpRuns(runs, updated, ops[m]))
  }

  /** The first `k` parts together; None when one is ambiguous. */
  function Collected(parts: seq<Option<seq<Run>>>, k: nat): Option<seq<Run>>
    requires k <= |parts|
  {
    if k == 0 then Some([])
    else
      var before := Collected(parts, k - 1);
      if before.None? || parts[k - 1].None? then None else Some(before.value + parts[k - 1].value)
  }

  /** The repaired runs and whether the repair was ambiguous; `ops` is the edit script. */
  function Reconciled(runs: seq<Run>, updated: string, ops: seq<Op>): (seq<Run>, bool)
    requires OpsInside(ops, updated)
  {
    var before := Visible(runs);
    if before == updated then (runs, false)
    else if |before| > MAX_LENGTH || |updated| > MAX_LENGTH then (runs, true)
    else
      var r := Collected(OpParts(runs, updated, ops), |ops|);
      if r.None? then (runs, true) else (r.value, false)
  }

  lemma {:induction false} CollectedFails(parts: seq<Option<seq<Run>>>, k: nat)
    requires k <= |parts| && Collected(parts, k).None?
    ensures Collected(parts, |parts|).None?
    decreases |parts| - k
  {
    if k < |parts| { CollectedFails(parts, k + 1); }
  }

  /** A run and where it lies in the visible text. */
  datatype Placed = Placed(start: nat, end: nat, run: Run)

  ghost predicate Ranges(ranges: seq<Placed>, runs: seq<Run>, from: nat)
    decreases runs
  {
    |ranges| == |runs| && (runs == [] ||
      (ranges[0] == Placed(from, from + |runs[0].text|, runs[0])
        && Ranges(ranges[1..], runs[1..], from + |runs[0].text|)))
  }

  lemma {:induction false} RangesStep(ranges: seq<Placed>, runs: seq<Run>, from: nat, r: Run)
    requires Ranges(ranges, runs, from)
    ensures Ranges(ranges + [Placed(from + |Visible(runs)|, from + |Visible(runs)| + |r.text|, r)], runs + [r], from)
  {
    if runs == [] {
      assert Visible(runs) == "";
    } else {
      var more := ranges + [Placed(from + |Visible(runs)|, from + |Visible(runs)| + |r.text|, r)];
      RangesStep(ranges[1..], runs[1..], from + |runs[0].text|, r);
      assert more[1..] == ranges[1..] + [Placed(from + |Visible(runs)|, from + |Visible(runs)| + |r.text|, r)];
      assert (runs + [r])[1..] == runs[1..] + [r];
    }
  }

  /** `for run in runs: ranges.append(...)`. */
  method PlaceRuns(runs: seq<Run>) returns (ranges: seq<Placed>)
    ensures Ranges(ranges, runs, 0)
  {
    ranges := [];
    var pos := 0;
    for k := 0 to |runs|
      invariant Ranges(ranges, runs[..k], 0) && pos == |Visible(runs[..k])|
    {
      assert runs[..k + 1] == runs[..k] + [runs[k]];
      RangesStep(ranges, runs[..k], 0, runs[k]);
      VisibleConcat(runs[..k], [runs[k]]);
      assert Visible([runs[k]]) == runs[k].text;
      ranges := ranges + [Placed(pos, pos + |runs[k].text|, runs[k])];
      pos := pos + |runs[k].text|;
    }
    assert runs[..|runs|] == runs;
  }

  lemma {:induction false} VisibleConcat(a: seq<Run>, b: seq<Run>)
    ensures Visible(a + b) == Visible(a) + Visible(b)
  {
    if a == [] {
      assert a + b == b;
    } else {
      assert (a + b)[1..] == a[1..] + b;
      VisibleConcat(a[1..], b);
    }
  }

  lemma {:induction false} CutStep(out: seq<Run>, rest: seq<Run>, i: int, j: int, whole: seq<Run>)
    requires rest != [] && out + Cut(rest, i, j) == whole
    ensures out + Piece(rest[0], i, j) + Cut(rest[1..], i - |rest[0].text|, j - |rest[0].text|) == whole
  {}

  method CutRange(r: Placed, i: nat, j: nat) returns (piece: seq<Run>)
    requires r.end == r.start + |r.run.text|
    ensures piece == Piece(r.run, i - r.start, j - r.start)
  {
    var l, h := Max(i, r.start), Min(j, r.end);
    piece := if l < h then [r.run.(text := r.run.text[l - r.start..h - r.start])] else [];
  }

  lemma {:induction false} NextRange(ranges: seq<Placed>, k: nat, rest: seq<Run>, from: nat)
    requires k < |ranges| && Ranges(ranges[k..], rest, from)
    ensures rest != [] && ranges[k] == Placed(from, from + |rest[0].text|, rest[0])
    ensures Ranges(ranges[k + 1..], rest[1..], ranges[k].end)
  {
    assert ranges[k..][0] == ranges[k] && ranges[k..][1..] == ranges[k + 1..];
  }

  /** The first `k` runs are cut, the rest remains. */
  ghost predicate Cutting(ranges: seq<Placed>, k: nat, rest: seq<Run>, from: nat, out: seq<Run>, i: nat, j: nat,
      whole: seq<Run>)
  {
    k <= |ranges| && Ranges(ranges[k..], rest, from) && out + Cut(rest, i - from, j - from) == whole
  }

  lemma {:induction false} RangeStep(ranges: seq<Placed>, k: nat, rest: seq<Run>, from: nat, out: seq<Run>,
      i: nat, j: nat, whole: seq<Run>)
    requires Cutting(ranges, k, rest, from, out, i, j, whole) && k < |ranges|
    ensures var r := ranges[k];
      && rest != [] && r.end == r.start + |r.run.text|
      && Cutting(ranges, k + 1, rest[1..], r.end, out + Piece(r.run, i - r.start, j - r.start), i, j, whole)
  {
    NextRange(ranges, k, rest, from);
    CutStep(out, rest, i - from, j - from, whole);
  }

  lemma {:induction false} RangesDone(ranges: seq<Placed>, rest: seq<Run>, from: nat, out: seq<Run>, i: nat, j: nat,
      whole: seq<Run>)
    requires Cutting(ranges, |ranges|, rest, from, out, i, j, whole)
    ensures out == whole
  {}

  lemma {:induction false} RangesStart(ranges: seq<Placed>, runs: seq<Run>, i: nat, j: nat)
    requires Ranges(ranges, runs, 0)
    ensures Cutting(ranges, 0, runs, 0, [], i, j, Cut(runs, i, j))
  {
    assert ranges[0..] == ranges;
  }

  /** The equal branch: one piece of every run that overlaps. */
  method CutRanges(ranges: seq<Placed>, ghost runs: seq<Run>, i: nat, j: nat) returns (out: seq<Run>)
    requires Ranges(ranges, runs, 0)
    ensures out == Cut(runs, i, j)
  {
    out := [];
    ghost var rest, from, whole := runs, 0, Cut(runs, i, j);
    var k := 0;
    RangesStart(ranges, runs, i, j);
    while k < |ranges|
      invariant Cutting(ranges, k, rest, from, out, i, j, whole)
    {
      var r := ranges[k];
      RangeStep(ranges, k, rest, from, out, i, j, whole);
      var piece := CutRange(r, i, j);
      out := out + piece;
      rest, from := rest[1..], r.end;
      k := k + 1;
    }
    RangesDone(ranges, rest, from, out, i, j, whole);
  }

  method OwnersOf(ranges: seq<Placed>, ghost runs: seq<Run>, i: nat, j: nat) returns (out: seq<Run>)
    requires Ranges(ranges, runs, 0)
    ensures out == Owners(runs, i, j)
  {
    out := [];
    ghost var rest, from := runs, 0;
    var k := 0;
    while k < |ranges|
      invariant 0 <= k <= |ranges| && Ranges(ranges[k..], rest, from)
      invariant out + Owners(rest, i - from, j - from) == Owners(runs, i, j)
    {
      var r := ranges[k];
      assert r == ranges[k..][0] && ranges[k..][1..] == ranges[k + 1..];
      if r.start < j && r.end > i { out := out + [r.run]; }
      rest, from := rest[1..], r.end;
      k := k + 1;
    }
  }

  method NeighboursOf(ranges: seq<Placed>, ghost runs: seq<Run>, i: nat) returns (out: seq<Run>)
    requires Ranges(ranges, runs, 0)
    ensures out == Neighbours(runs, i)
  {
    out := [];
    ghost var rest, from := runs, 0;
    var k := 0;
    while k < |ranges|
      invariant 0 <= k <= |ranges| && Ranges(ranges[k..], rest, from)
      invariant out + Neighbours(rest, i - from) == Neighbours(runs, i)
    {
      var r := ranges[k];
      assert r == ranges[k..][0] && ranges[k..][1..] == ranges[k + 1..];
      if r.start <= i <= r.end { out := out + [r.run]; }
      rest, from := rest[1..], r.end;
      k := k + 1;
    }
  }

  method ReconcileOp(ranges: seq<Placed>, ghost runs: seq<Run>, updated: string, op: Op) returns (out: Option<seq<Run>>)
    requires Ranges(ranges, runs, 0) && op.x <= op.y <= |updated|
    ensures out == OpRuns(runs, updated, op)
  {
    var owners := OwnersOf(ranges, runs, op.i, op.j);
    if op.tag == Equal {
      var pieces := CutRanges(ranges, runs, op.i, op.j);
      return Some(pieces);
    }
    if op.tag == Deleted {
      return if HasProtected(owners) then None else Some([]);
    }
    if owners == [] { owners := NeighboursOf(ranges, runs, op.i); }
    if !OneFormat(owners) || HasProtected(owners) { return None; }
    var copied := if owners != [] then owners[0] else Run(Plain, "", 0);
    return Some([copied.(text := updated[op.x..op.y])]);
  }

  /** `reconcile_runs`. */
  method ReconcileRuns(runs: seq<Run>, updated: string, ops: seq<Op>) returns (out: seq<Run>, ambiguous: bool)
    requires OpsInside(ops, updated)
    ensures (out, ambiguous) == Reconciled(runs, updated, ops)
  {
    var before := Visible(runs);
    if before == updated { return runs, false; }
    if |before| > MAX_LENGTH || |updated| > MAX_LENGTH { return runs, true; }
    var ranges := PlaceRuns(runs);
    ghost var parts := OpParts(runs, updated, ops);
    out := [];
    var k := 0;
    while k < |ops|
      invariant 0 <= k <= |ops| && Collected(parts, k) == Some(out)
    {
      var now := ReconcileOp(ranges, runs, updated, ops[k]);
      k := k + 1;
      if now.None? {
        CollectedFails(parts, k);
        return runs, true;
      }
      out := out + now.value;
    }
    ambiguous := false;
  }
}
