/** When the repair of a formatted tree is ambiguous (src/packages/parsers/rich_ir.py, `reconcile_tree`). */
module TreeChanges {
  import opened Wrappers
  import opened EditScripts
  import opened RichRuns
  import opened RichTrees
  import opened TreeRepair

  function End(trees: seq<Tree>, k: nat): nat
    requires k < |trees|
  {
    Offset(trees, k) + |trees[k].text|
  }

  lemma {:induction false} OffsetOfInit(trees: seq<Tree>, k: nat)
    requires trees != [] && k < |trees|
    ensures Offset(trees, k) == Offset(trees[..|trees| - 1], k)
  {
    if k > 0 { OffsetOfInit(trees, k - 1); }
  }

  /** Line `k` of a joined text is the text of child `k`, and a line break ends it unless it is the last. */
  ghost predicate LineOf(text: string, trees: seq<Tree>, k: nat)
    requires k < |trees|
  {
    var s, e := Offset(trees, k), End(trees, k);
    && e <= |text| && text[s..e] == trees[k].text
    && if k == |trees| - 1 then e == |text| else e < |text| && text[e] == '\n'
  }

  lemma {:induction false} LineAt(trees: seq<Tree>, k: nat)
    requires k < |trees|
    ensures LineOf(JoinTexts(trees, "\n"), trees, k)
    decreases |trees|
  {
    var n := |trees| - 1;
    if n > 0 {
      var init, last := trees[..n], trees[n].text;
      var text := JoinTexts(init, "\n") + "\n" + last;
      assert JoinTexts(trees, "\n") == text;
      LineAt(init, n - 1);
      OffsetOfInit(trees, n - 1);
      if k < n {
        LineAt(init, k);
        OffsetOfInit(trees, k);
        var s, e := Offset(trees, k), End(trees, k);
        assert text[s..e] == JoinTexts(init, "\n")[s..e];
      }
    }
  }

  /** For every line the change lies before it, behind it, or in it in front of its end. */
  predicate InOneLine(trees: seq<Tree>, op: Op) {
    forall k :: 0 <= k < |trees| ==> ClearOf(op, Offset(trees, k), End(trees, k))
  }

  predicate ClearOf(op: Op, start: nat, end: nat) {
    op.j < start || end < op.i || (start <= op.i < end && op.j <= end)
  }

  ghost predicate ChangesInLines(trees: seq<Tree>, ops: seq<Op>) {
    forall m :: 0 <= m < |ops| && ops[m].tag != Equal ==> InOneLine(trees, ops[m])
  }

  lemma {:induction false} AtAdvances(ops: seq<Op>, before: string, after: string, a: nat, b: nat)
    requires Script(ops, before, after) && a <= b <= |ops|
    ensures At(ops, a).0 <= At(ops, b).0 && At(ops, a).1 <= At(ops, b).1
    decreases b - a
  {
    if a < b {
      AtAdvances(ops, before, after, a, b - 1);
      assert Entry(ops, b - 1, before, after);
    }
  }

  /** The entry that covers a place of the old text. */
  lemma {:induction false} CoverAt(ops: seq<Op>, before: string, after: string, p: nat, m: nat) returns (c: nat)
    requires Script(ops, before, after) && m <= |ops| && p < At(ops, m).0
    ensures c < m && ops[c].i <= p < ops[c].j
  {
    assert Entry(ops, m - 1, before, after);
    if p >= ops[m - 1].i { c := m - 1; } else { c := CoverAt(ops, before, after, p, m - 1); }
  }

  /** Where a place of the old text went, if an equal part covers it. */
  function ImageOf(ops: seq<Op>, p: nat): nat {
    if ops == [] then 0
    else
      var op := ops[|ops| - 1];
      if op.i <= p < op.j then op.x + (p - op.i) else ImageOf(ops[..|ops| - 1], p)
  }

  lemma {:induction false} ImageAt(ops: seq<Op>, before: string, after: string, p: nat, c: nat, m: nat)
    requires Script(ops, before, after) && c < m <= |ops| && ops[c].i <= p < ops[c].j
    ensures ImageOf(ops[..m], p) == ops[c].x + (p - ops[c].i)
    decreases m
  {
    assert ops[..m][..m - 1] == ops[..m - 1];
    if c < m - 1 {
      AtAdvances(ops, before, after, c + 1, m - 1);
      assert Entry(ops, m - 1, before, after);
      ImageAt(ops, before, after, p, c, m - 1);
    }
  }

  /** A line break lies in an equal part when all changes lie in lines. */
  lemma {:induction false} BreakIsKept(trees: seq<Tree>, ops: seq<Op>, before: string, after: string, k: nat)
      returns (c: nat)
    requires Script(ops, before, after) && ChangesInLines(trees, ops) && k < |trees| && End(trees, k) < |before|
    ensures c < |ops| && ops[c].tag == Equal && ops[c].i <= End(trees, k) < ops[c].j
    ensures ImageOf(ops, End(trees, k)) == ops[c].x + (End(trees, k) - ops[c].i) < |after|
    ensures after[ImageOf(ops, End(trees, k))] == before[End(trees, k)]
  {
    var e := End(trees, k);
    c := CoverAt(ops, before, after, e, |ops|);
    assert ops[c].tag == Equal || ClearOf(ops[c], Offset(trees, k), e);
    assert Entry(ops, c, before, after);
    ImageAt(ops, before, after, e, c, |ops|);
    assert ops[..|ops|] == ops;
    assert before[ops[c].i..ops[c].j][e - ops[c].i] == after[ops[c].x..ops[c].y][e - ops[c].i];
  }

  /** Entries `a` to `m` change the line `start..end` only, those before `a` leave it alone. */
  ghost predicate LineScript(ops: seq<Op>, before: string, after: string, start: nat, end: nat, a: nat, m: nat) {
    && Script(ops, before, after) && a <= m <= |ops| && start <= At(ops, a).0 && At(ops, m).0 <= |before|
    && Applicable(ops[..a], start, end) == []
    && forall c :: a <= c < m && ops[c].tag != Equal ==> ChangesLine(ops[c], start, end)
  }

  predicate ChangesLine(op: Op, start: nat, end: nat) {
    start <= op.i < end && op.j <= end
  }

  lemma {:induction false} ApplicableStep(ops: seq<Op>, m: nat, start: nat, end: nat)
    requires m < |ops|
    ensures Applicable(ops[..m + 1], start, end)
      == Applicable(ops[..m], start, end) + if Applies(ops[m], start, end) then [ops[m]] else []
  {
    assert ops[..m + 1][..m] == ops[..m];
  }

  lemma {:induction false} ScriptInside(ops: seq<Op>, before: string, after: string, m: nat, start: nat, end: nat)
    requires Script(ops, before, after) && m <= |ops|
    ensures OpsInside(Applicable(ops[..m], start, end), after)
  {
    forall k | 0 <= k < m ensures ops[k].x <= ops[k].y <= |after| {
      assert Entry(ops, k, before, after);
    }
    ApplicableInside(ops[..m], start, end, after);
  }

  /** The edits up to entry `m` turn the line up to there into the new text from `from` on. */
  ghost predicate Reaches(ops: seq<Op>, before: string, after: string, start: nat, end: nat, m: nat, from: nat,
      tail: string)
    requires m <= |ops|
  {
    var edits := Applicable(ops[..m], start, end);
    && start <= At(ops, m).0 <= |before| && from <= At(ops, m).1 <= |after| && OpsInside(edits, after)
    && Revise(before[start..At(ops, m).0] + tail, edits, start, after) == after[from..At(ops, m).1] + tail
  }

  lemma {:induction false} PartJoins(s: string, from: nat, i: nat, j: nat, tail: string)
    requires from <= i <= j <= |s|
    ensures s[from..j] == s[from..i] + s[i..j]
    ensures s[from..i] + (s[i..j] + tail) == s[from..j] + tail
  {}

  lemma {:induction false} EqualReaches(ops: seq<Op>, before: string, after: string, start: nat, end: nat, m: nat,
      from: nat, tail: string)
    requires m < |ops| && OpFits(ops[m], before, after) && At(ops, m) == (ops[m].i, ops[m].x) && ops[m].tag == Equal
    requires Reaches(ops, before, after, start, end, m, from, after[ops[m].x..ops[m].y] + tail)
    ensures Reaches(ops, before, after, start, end, m + 1, from, tail)
  {
    var op := ops[m];
    ApplicableStep(ops, m, start, end);
    var edits := Applicable(ops[..m], start, end);
    assert Applicable(ops[..m + 1], start, end) == edits;
    PartJoins(after, from, op.x, op.y, tail);
    PartJoins(before, start, op.i, op.j, tail);
  }

  lemma {:induction false} ChangeReaches(ops: seq<Op>, before: string, after: string, start: nat, end: nat, m: nat,
      from: nat, tail: string)
    requires m < |ops| && OpFits(ops[m], before, after) && At(ops, m) == (ops[m].i, ops[m].x) && ops[m].tag != Equal
    requires ChangesLine(ops[m], start, end)
    requires Reaches(ops, before, after, start, end, m, from, after[ops[m].x..ops[m].y] + tail)
    ensures Reaches(ops, before, after, start, end, m + 1, from, tail)
  {
    var op := ops[m];
    var edits := Applicable(ops[..m], start, end);
    ApplicableStep(ops, m, start, end);
    assert Applicable(ops[..m + 1], start, end) == edits + [op];
    PartJoins(after, from, op.x, op.y, tail);
    PartJoins(before, start, op.i, op.j, tail);
    OneMoreInside(edits, op, after);
    ReviseLast(before[start..op.i], before[op.i..op.j], tail, edits, op, start, after);
  }

  lemma {:induction false} OneMoreInside(ops: seq<Op>, op: Op, updated: string)
    requires OpsInside(ops, updated) && op.x <= op.y <= |updated|
    ensures OpsInside(ops + [op], updated)
  {}

  lemma {:induction false} NextReaches(ops: seq<Op>, before: string, after: string, start: nat, end: nat, a: nat,
      b: nat, m: nat, from: nat, tail: string)
    requires LineScript(ops, before, after, start, end, a, b) && a <= m < b && ops[m].x <= ops[m].y <= |after|
    requires Reaches(ops, before, after, start, end, m, from, after[ops[m].x..ops[m].y] + tail)
    ensures Reaches(ops, before, after, start, end, m + 1, from, tail)
  {
    assert Entry(ops, m, before, after);
    if ops[m].tag == Equal { EqualReaches(ops, before, after, start, end, m, from, tail); }
    else { ChangeReaches(ops, before, after, start, end, m, from, tail); }
  }

  lemma {:induction false} FirstReaches(ops: seq<Op>, before: string, after: string, start: nat, end: nat, a: nat,
      b: nat, from: nat, tail: string)
    requires LineScript(ops, before, after, start, end, a, b)
    requires from <= At(ops, a).1 <= |after| && At(ops, a).0 <= |before|
    requires before[start..At(ops, a).0] == after[from..At(ops, a).1]
    ensures Reaches(ops, before, after, start, end, a, from, tail)
  {}

  /** Edits from the last to the first turn the part of the line up to an entry into the part of the new
      text up to it. */
  lemma {:induction false} RevisedTo(ops: seq<Op>, before: string, after: string, start: nat, end: nat, a: nat, b: nat,
      m: nat, from: nat, tail: string)
    requires LineScript(ops, before, after, start, end, a, b) && a <= m <= b
    requires from <= At(ops, a).1 <= |after| && At(ops, a).0 <= |before|
    requires before[start..At(ops, a).0] == after[from..At(ops, a).1]
    ensures Reaches(ops, before, after, start, end, m, from, tail)
    decreases m - a
  {
    if a < m {
      EntryFits(ops, before, after, m - 1);
      var op := ops[m - 1];
      RevisedTo(ops, before, after, start, end, a, b, m - 1, from, after[op.x..op.y] + tail);
      NextReaches(ops, before, after, start, end, a, b, m - 1, from, tail);
    } else {
      FirstReaches(ops, before, after, start, end, a, b, from, tail);
    }
  }

  lemma {:induction false} EntryFits(ops: seq<Op>, before: string, after: string, m: nat)
    requires Script(ops, before, after) && m < |ops|
    ensures ops[m].x <= ops[m].y <= |after|
  {
    assert Entry(ops, m, before, after);
  }

  lemma {:induction false} ReviseLast(head: string, gone: string, tail: string, ops: seq<Op>, op: Op, start: nat,
      updated: string)
    requires OpsInside(ops + [op], updated) && OpsInside(ops, updated) && op.x <= op.y <= |updated|
    requires op.i == start + |head| && op.j == op.i + |gone|
    ensures Revise(head + gone + tail, ops + [op], start, updated)
      == Revise(head + (updated[op.x..op.y] + tail), ops, start, updated)
  {
    var text := head + gone + tail;
    assert (ops + [op])[..|ops|] == ops;
    assert text[..|head|] == head && text[|head| + |gone|..] == tail;
    assert head + updated[op.x..op.y] + tail == head + (updated[op.x..op.y] + tail);
  }

  lemma {:induction false} NoneBefore(ops: seq<Op>, a: nat, start: nat, end: nat)
    requires a <= |ops| && forall m :: 0 <= m < a ==> ops[m].tag == Equal || ops[m].j < start
    ensures Applicable(ops[..a], start, end) == []
  {
    if a > 0 {
      NoneBefore(ops, a - 1, start, end);
      ApplicableStep(ops, a - 1, start, end);
    }
  }

  lemma {:induction false} NoneBehind(ops: seq<Op>, b: nat, n: nat, start: nat, end: nat)
    requires b <= n <= |ops| && forall m :: b <= m < n ==> ops[m].tag == Equal || end < ops[m].i
    ensures Applicable(ops[..n], start, end) == Applicable(ops[..b], start, end)
    decreases n - b
  {
    if b < n {
      NoneBehind(ops, b, n - 1, start, end);
      ApplicableStep(ops, n - 1, start, end);
    }
  }

  lemma {:induction false} AppliedIsContained(ops: seq<Op>, m: nat, start: nat, end: nat)
    requires m <= |ops| && forall c :: 0 <= c < m && ops[c].tag != Equal ==> ClearOf(ops[c], start, end)
    ensures Contained(Applicable(ops[..m], start, end), start, end)
  {
    if m > 0 {
      AppliedIsContained(ops, m - 1, start, end);
      ApplicableStep(ops, m - 1, start, end);
    }
  }

  /** Where line `k` starts and ends in the new text. */
  function From(trees: seq<Tree>, ops: seq<Op>, k: nat): nat
    requires k < |trees|
  {
    if k == 0 then 0 else ImageOf(ops, End(trees, k - 1)) + 1
  }

  function To(trees: seq<Tree>, ops: seq<Op>, updated: string, k: nat): nat
    requires k < |trees|
  {
    if k == |trees| - 1 then |updated| else ImageOf(ops, End(trees, k))
  }

  /** The first entry that may change line `k`; the line break before it is behind entry `a - 1`. */
  lemma {:induction false} LineStarts(trees: seq<Tree>, ops: seq<Op>, before: string, after: string, k: nat)
      returns (a: nat)
    requires Script(ops, before, after) && ChangesInLines(trees, ops) && k < |trees|
    requires before == JoinTexts(trees, "\n")
    ensures a <= |ops| && Offset(trees, k) <= At(ops, a).0 <= |before| && From(trees, ops, k) <= At(ops, a).1 <= |after|
    ensures before[Offset(trees, k)..At(ops, a).0] == after[From(trees, ops, k)..At(ops, a).1]
    ensures forall m :: 0 <= m < a ==> ops[m].tag == Equal || ops[m].j < Offset(trees, k)
    ensures a > 0 ==> ops[a - 1].i < Offset(trees, k)
  {
    if k == 0 {
      a := 0;
    } else {
      LineAt(trees, k - 1);
      var c := BreakIsKept(trees, ops, before, after, k - 1);
      a := c + 1;
      assert Entry(ops, c, before, after);
      var e, op := End(trees, k - 1), ops[c];
      assert before[e + 1..op.j] == before[op.i..op.j][e + 1 - op.i..];
      assert after[op.x + (e + 1 - op.i)..op.y] == after[op.x..op.y][e + 1 - op.i..];
      forall m | 0 <= m < a ensures ops[m].tag == Equal || ops[m].j < Offset(trees, k) {
        if m < c { AtAdvances(ops, before, after, m + 1, c); }
      }
    }
  }

  /** The entry that holds the break behind line `k`, or the end of the script. */
  lemma {:induction false} LineEnds(trees: seq<Tree>, ops: seq<Op>, before: string, after: string, k: nat)
      returns (b: nat)
    requires Script(ops, before, after) && ChangesInLines(trees, ops) && k < |trees|
    requires before == JoinTexts(trees, "\n")
    ensures b <= |ops| && At(ops, b).0 <= End(trees, k) <= |before|
    ensures At(ops, b).1 <= To(trees, ops, after, k) <= |after|
    ensures before[At(ops, b).0..End(trees, k)] == after[At(ops, b).1..To(trees, ops, after, k)]
    ensures forall m :: b <= m < |ops| ==> ops[m].tag == Equal || End(trees, k) < ops[m].i
    ensures forall m :: 0 <= m < b ==> ops[m].j <= End(trees, k)
    ensures b < |ops| ==> ops[b].i <= End(trees, k) < ops[b].j && ops[b].tag == Equal
  {
    LineAt(trees, k);
    var e := End(trees, k);
    if k == |trees| - 1 {
      b := |ops|;
      forall m | 0 <= m < b ensures ops[m].j <= e { AtAdvances(ops, before, after, m + 1, b); }
    } else {
      b := BreakIsKept(trees, ops, before, after, k);
      var op := ops[b];
      assert Entry(ops, b, before, after);
      assert before[op.i..e] == before[op.i..op.j][..e - op.i];
      assert after[op.x..op.x + (e - op.i)] == after[op.x..op.y][..e - op.i];
      forall m | 0 <= m < b ensures ops[m].j <= e { AtAdvances(ops, before, after, m + 1, b); }
      forall m | b < m < |ops| ensures e < ops[m].i {
        AtAdvances(ops, before, after, b + 1, m);
        assert Entry(ops, m, before, after);
      }
    }
  }

  /** The line lies within one equal part. */
  lemma {:induction false} LineUntouched(before: string, after: string, op: Op, start: nat, end: nat, from: nat,
    to: nat)
    requires OpFits(op, before, after) && op.tag == Equal && op.i <= start <= end < op.j
    requires from <= op.y && before[start..op.j] == after[from..op.y]
    requires op.x <= to <= |after| && before[op.i..end] == after[op.x..to]
    ensures from <= to && before[start..end] == after[from..to]
  {
    assert |before[start..op.j]| == |after[from..op.y]| && |before[op.i..end]| == |after[op.x..to]|;
    assert |before[op.i..op.j]| == |after[op.x..op.y]|;
    assert before[start..end] == before[start..op.j][..end - start];
    assert after[from..to] == after[from..op.y][..end - start];
  }

  /** The revised text of a line is its part of the new text. */
  ghost predicate Revised(trees: seq<Tree>, ops: seq<Op>, text: string, after: string, k: nat)
    requires k < |trees|
  {
    var edits := Applicable(ops, Offset(trees, k), End(trees, k));
    && From(trees, ops, k) <= To(trees, ops, after, k) <= |after| && OpsInside(edits, after)
    && Revise(text, edits, Offset(trees, k), after) == after[From(trees, ops, k)..To(trees, ops, after, k)]
  }

  lemma {:induction false} LineContained(trees: seq<Tree>, ops: seq<Op>, k: nat)
    requires ChangesInLines(trees, ops) && k < |trees|
    ensures Contained(Applicable(ops, Offset(trees, k), End(trees, k)), Offset(trees, k), End(trees, k))
  {
    assert ops[..|ops|] == ops;
    AppliedIsContained(ops, |ops|, Offset(trees, k), End(trees, k));
  }

  lemma {:induction false} LineRevised(trees: seq<Tree>, ops: seq<Op>, before: string, after: string, k: nat)
    requires Script(ops, before, after) && ChangesInLines(trees, ops) && k < |trees|
    requires before == JoinTexts(trees, "\n")
    ensures Revised(trees, ops, trees[k].text, after, k)
  {
    var s, e := Offset(trees, k), End(trees, k);
    LineAt(trees, k);
    assert ops[..|ops|] == ops;
    ScriptInside(ops, before, after, |ops|, s, e);
    var a := LineStarts(trees, ops, before, after, k);
    var b := LineEnds(trees, ops, before, after, k);
    NoneBefore(ops, a, s, e);
    if a <= b {
      NoneBehind(ops, b, |ops|, s, e);
      ScriptOfLine(ops, before, after, s, e, a, b);
      ChangedLine(ops, before, after, s, e, a, b, From(trees, ops, k), To(trees, ops, after, k));
    } else {
      KeptLine(ops, before, after, s, e, a, b, From(trees, ops, k), To(trees, ops, after, k));
    }
  }

  lemma {:induction false} KeptLine(ops: seq<Op>, before: string, after: string, s: nat, e: nat, a: nat, b: nat,
      from: nat, to: nat)
    requires Script(ops, before, after) && b < a <= |ops| && Applicable(ops[..a], s, e) == []
    requires s <= e <= |before| && s <= At(ops, a).0 <= |before| && from <= At(ops, a).1 <= |after|
    requires before[s..At(ops, a).0] == after[from..At(ops, a).1] && ops[a - 1].i < s
    requires At(ops, b).0 <= e && At(ops, b).1 <= to <= |after|
    requires before[At(ops, b).0..e] == after[At(ops, b).1..to]
    requires ops[b].i <= e < ops[b].j && ops[b].tag == Equal
    requires forall m :: b <= m < |ops| ==> ops[m].tag == Equal || e < ops[m].i
    ensures from <= to && Applicable(ops, s, e) == [] && before[s..e] == after[from..to]
  {
    SamePart(ops, before, after, a - 1, b, s, e);
    NoneBehind(ops, a, |ops|, s, e);
    assert ops[..|ops|] == ops && Entry(ops, b, before, after);
    LineUntouched(before, after, ops[b], s, e, from, to);
  }

  lemma {:induction false} SamePart(ops: seq<Op>, before: string, after: string, a: nat, b: nat, s: nat, e: nat)
    requires Script(ops, before, after) && b <= a < |ops| && ops[a].i < s <= e && e < ops[b].j
    ensures a == b
  {
    assert Entry(ops, a, before, after);
    if b < a { AtAdvances(ops, before, after, b + 1, a); }
  }

  lemma {:induction false} ScriptOfLine(ops: seq<Op>, before: string, after: string, s: nat, e: nat, a: nat, b: nat)
    requires Script(ops, before, after) && a <= b <= |ops|
    requires s <= At(ops, a).0 && At(ops, b).0 <= |before| && Applicable(ops[..a], s, e) == []
    requires forall m :: 0 <= m < b ==> ops[m].j <= e
    requires forall m :: 0 <= m < |ops| && ops[m].tag != Equal ==> ClearOf(ops[m], s, e)
    ensures LineScript(ops, before, after, s, e, a, b)
  {
    forall c | a <= c < b && ops[c].tag != Equal ensures ChangesLine(ops[c], s, e) {
      AtAdvances(ops, before, after, a, c);
      assert Entry(ops, c, before, after);
    }
  }

  lemma {:induction false} Rejoins(text: string, i: nat, j: nat, k: nat)
    requires i <= j <= k <= |text|
    ensures text[i..j] + text[j..k] == text[i..k]
  {}

  lemma {:induction false} ChangedLine(ops: seq<Op>, before: string, after: string, s: nat, e: nat, a: nat, b: nat,
      from: nat, to: nat)
    requires LineScript(ops, before, after, s, e, a, b)
    requires from <= At(ops, a).1 <= |after| && At(ops, a).0 <= |before|
    requires before[s..At(ops, a).0] == after[from..At(ops, a).1]
    requires At(ops, b).0 <= e <= |before| && At(ops, b).1 <= to <= |after|
    requires before[At(ops, b).0..e] == after[At(ops, b).1..to]
    ensures s <= e && from <= to && OpsInside(Applicable(ops[..b], s, e), after)
    ensures Revise(before[s..e], Applicable(ops[..b], s, e), s, after) == after[from..to]
  {
    var tail := before[At(ops, b).0..e];
    RevisedTo(ops, before, after, s, e, a, b, b, from, tail);
    Rejoins(before, s, At(ops, b).0, e);
    Rejoins(after, from, At(ops, b).1, to);
  }

  /** A line break follows each line of the new text but the last, which ends it. */
  lemma {:induction false} BreaksFollow(trees: seq<Tree>, ops: seq<Op>, before: string, after: string, k: nat)
    requires Script(ops, before, after) && ChangesInLines(trees, ops) && k < |trees|
    requires before == JoinTexts(trees, "\n")
    ensures k < |trees| - 1 ==> To(trees, ops, after, k) < |after| && after[To(trees, ops, after, k)] == '\n'
  {
    LineAt(trees, k);
    if k < |trees| - 1 { var _ := BreakIsKept(trees, ops, before, after, k); }
  }

  /** The parts of the lines make up the new text. */
  lemma {:induction false} PartsJoin(trees: seq<Tree>, ops: seq<Op>, before: string, after: string, done: seq<Tree>,
      n: nat)
    requires Script(ops, before, after) && ChangesInLines(trees, ops) && 0 < n <= |trees| && |done| == |trees|
    requires before == JoinTexts(trees, "\n")
    requires forall k :: 0 <= k < n ==> PartOf(trees, ops, after, done, k)
    ensures To(trees, ops, after, n - 1) <= |after|
    ensures JoinTexts(done[..n], "\n") == after[..To(trees, ops, after, n - 1)]
  {
    assert PartOf(trees, ops, after, done, n - 1);
    if n > 1 {
      PartsJoin(trees, ops, before, after, done, n - 1);
      BreaksFollow(trees, ops, before, after, n - 2);
      assert done[..n][..n - 1] == done[..n - 1];
      var to := To(trees, ops, after, n - 2);
      assert after[..to] + "\n" + after[to + 1..To(trees, ops, after, n - 1)] == after[..To(trees, ops, after, n - 1)];
    }
  }

  ghost predicate PartOf(trees: seq<Tree>, ops: seq<Op>, after: string, done: seq<Tree>, k: nat)
    requires k < |trees| == |done|
  {
    var from, to := From(trees, ops, k), To(trees, ops, after, k);
    from <= to <= |after| && done[k].text == after[from..to]
  }

  /** Child `k` can be brought to its part of the new text. */
  ghost predicate ChildRepairs(t: Tree, updated: string, diff: Diff, k: nat)
    requires k < |t.children| && Inside(diff)
  {
    var ops := diff(t.text, updated);
    var from, to := From(t.children, ops, k), To(t.children, ops, updated, k);
    from <= to <= |updated| && !Repaired(t.children[k], LinePart(t.children, ops, updated, k), diff).1
  }

  /** The repair of an inner node is at hand: its size allows it and every change lies in one line. */
  ghost predicate Ready(t: Tree, updated: string, diff: Diff) {
    && Diffs(diff) && Inside(diff) && Consistent(t) && t.children != [] && t.text != updated
    && |t.text| <= 8192 && |updated| <= 8192 && ChangesInLines(t.children, diff(t.text, updated))
  }

  function LinePart(trees: seq<Tree>, ops: seq<Op>, updated: string, k: nat): string
    requires k < |trees| && From(trees, ops, k) <= To(trees, ops, updated, k) <= |updated|
  {
    updated[From(trees, ops, k)..To(trees, ops, updated, k)]
  }

  lemma {:induction false} ChildPart(t: Tree, updated: string, diff: Diff, k: nat)
    requires Ready(t, updated, diff) && k < |t.children|
    ensures var ops := diff(t.text, updated);
      && From(t.children, ops, k) <= To(t.children, ops, updated, k) <= |updated|
      && ChildText(t, updated, ops, k) == Some(LinePart(t.children, ops, updated, k))
  {
    LineRevised(t.children, diff(t.text, updated), t.text, updated, k);
    LineContained(t.children, diff(t.text, updated), k);
  }

  lemma {:induction false} ChildIsRepaired(t: Tree, updated: string, diff: Diff, k: nat)
    requires Ready(t, updated, diff) && k < |t.children|
    ensures RepairedChild(t, updated, diff, k).Some? <==> ChildRepairs(t, updated, diff, k)
    ensures RepairedChild(t, updated, diff, k).Some? ==>
      var ops := diff(t.text, updated);
      && From(t.children, ops, k) <= To(t.children, ops, updated, k) <= |updated|
      && RepairedChild(t, updated, diff, k).value.text == LinePart(t.children, ops, updated, k)
  {
    var ops := diff(t.text, updated);
    ChildPart(t, updated, diff, k);
    var part := LinePart(t.children, ops, updated, k);
    assert AllConsistent(t.children);
    if !Repaired(t.children[k], part, diff).1 { TreeShowsUpdate(t.children[k], part, diff); }
  }

  ghost predicate Done(t: Tree, updated: string, diff: Diff, k: nat)
    requires Inside(diff) && k < |t.children|
  {
    RepairedChild(t, updated, diff, k).Some?
  }

  lemma {:induction false} AllDone(t: Tree, updated: string, diff: Diff, k: nat)
    requires Inside(diff) && k <= |t.children|
    ensures |RepairedChildren(t, updated, diff, k)| == k <==> forall i :: 0 <= i < k ==> Done(t, updated, diff, i)
  {
    if k > 0 {
      AllDone(t, updated, diff, k - 1);
      assert |RepairedChildren(t, updated, diff, k)| == k
        <==> |RepairedChildren(t, updated, diff, k - 1)| == k - 1 && Done(t, updated, diff, k - 1);
    }
  }

  lemma {:induction false} DoneAt(t: Tree, updated: string, diff: Diff, k: nat, n: nat)
    requires Inside(diff) && k < n <= |t.children|
    ensures k < |RepairedChildren(t, updated, diff, n)| ==>
      RepairedChild(t, updated, diff, k) == Some(RepairedChildren(t, updated, diff, n)[k])
    decreases n
  {
    if k < n - 1 { DoneAt(t, updated, diff, k, n - 1); }
  }

  /** A repair whose changes each lie in one child is ambiguous exactly when the repair of some child to
      its own part of the new text is. */
  lemma {:induction false} AmbiguousInChild(t: Tree, updated: string, diff: Diff)
    requires Ready(t, updated, diff)
    ensures Repaired(t, updated, diff).1 <==> exists k :: 0 <= k < |t.children| && !ChildRepairs(t, updated, diff, k)
  {
    var n := |t.children|;
    AllDone(t, updated, diff, n);
    forall k | 0 <= k < n ensures Done(t, updated, diff, k) <==> ChildRepairs(t, updated, diff, k) {
      ChildIsRepaired(t, updated, diff, k);
    }
    if |RepairedChildren(t, updated, diff, n)| == n {
      AllShow(t, updated, diff);
    } else {
      var k :| 0 <= k < n && !Done(t, updated, diff, k);
      assert !ChildRepairs(t, updated, diff, k);
    }
  }

  lemma {:induction false} AllShow(t: Tree, updated: string, diff: Diff)
    requires Ready(t, updated, diff) && |RepairedChildren(t, updated, diff, |t.children|)| == |t.children|
    ensures !Repaired(t, updated, diff).1
  {
    var ops, n := diff(t.text, updated), |t.children|;
    var done := RepairedChildren(t, updated, diff, n);
    forall k | 0 <= k < n ensures PartOf(t.children, ops, updated, done, k) {
      DoneAt(t, updated, diff, k, n);
      ChildIsRepaired(t, updated, diff, k);
    }
    PartsJoin(t.children, ops, t.text, updated, done, n);
    assert done[..n] == done && done + t.children[n..] == done;
  }

  /** A change that reaches across the end of a child makes the repair ambiguous. */
  lemma {:induction false} CrossingIsAmbiguous(t: Tree, updated: string, diff: Diff, m: nat, k: nat)
    requires Inside(diff) && t.children != [] && t.text != updated && k < |t.children|
    requires var ops := diff(t.text, updated); m < |ops| && Crosses(ops[m], Offset(t.children, k), End(t.children, k))
    ensures Repaired(t, updated, diff).1
  {
    var ops := diff(t.text, updated);
    var s, e := Offset(t.children, k), End(t.children, k);
    AppliedIsListed(ops, m, |ops|, s, e);
    assert ops[..|ops|] == ops;
    assert RepairedChild(t, updated, diff, k).None?;
    StopsAt(t, updated, diff, k, |t.children|);
  }

  /** The change takes part of the line and something outside it. */
  predicate Crosses(op: Op, start: nat, end: nat) {
    op.tag != Equal && op.i < end && start < op.j && (op.i < start || end < op.j)
  }

  lemma {:induction false} AppliedIsListed(ops: seq<Op>, m: nat, n: nat, start: nat, end: nat)
    requires m < n <= |ops| && Applies(ops[m], start, end)
    ensures ops[m] in Applicable(ops[..n], start, end)
    decreases n
  {
    ApplicableStep(ops, n - 1, start, end);
    if m < n - 1 { AppliedIsListed(ops, m, n - 1, start, end); }
  }

  lemma {:induction false} StopsAt(t: Tree, updated: string, diff: Diff, k: nat, n: nat)
    requires Inside(diff) && k < n <= |t.children| && RepairedChild(t, updated, diff, k).None?
    ensures |RepairedChildren(t, updated, diff, n)| <= k
    decreases n
  {
    if k < n - 1 { StopsAt(t, updated, diff, k, n - 1); }
  }

  /** The change leaves the line alone: it lies behind its last character or in front of its first. */
  predicate OffLine(op: Op, start: nat, end: nat) {
    end <= op.i || op.j < start || (op.j == start && op.i < start)
  }

  lemma {:induction false} NothingApplies(ops: seq<Op>, n: nat, start: nat, end: nat)
    requires n <= |ops| && forall m :: 0 <= m < n && ops[m].tag != Equal ==> OffLine(ops[m], start, end)
    ensures Applicable(ops[..n], start, end) == []
  {
    if n > 0 {
      NothingApplies(ops, n - 1, start, end);
      ApplicableStep(ops, n - 1, start, end);
    }
  }

  /** Changes that belong to no line, such as text appended to one, make the repair ambiguous. */
  lemma {:induction false} AppendedIsAmbiguous(t: Tree, updated: string, diff: Diff)
    requires Inside(diff) && t.children != [] && t.text != updated && t.text == JoinTexts(t.children, "\n")
    requires forall m, k | 0 <= m < |diff(t.text, updated)| && 0 <= k < |t.children| ::
      diff(t.text, updated)[m].tag == Equal
        || OffLine(diff(t.text, updated)[m], Offset(t.children, k), End(t.children, k))
    ensures Repaired(t, updated, diff).1
  {
    var ops, n := diff(t.text, updated), |t.children|;
    assert ops[..|ops|] == ops;
    forall k | 0 <= k < n ensures RepairedChild(t, updated, diff, k) == Some(t.children[k]) {
      NothingApplies(ops, |ops|, Offset(t.children, k), End(t.children, k));
    }
    var done := RepairedChildren(t, updated, diff, n);
    forall k | 0 <= k < |done| ensures done[k] == t.children[k] { DoneAt(t, updated, diff, k, n); }
    assert done + t.children[|done|..] == t.children;
  }

  /** What no change applies to stays as it was. */
  lemma {:induction false} UntouchedStays(t: Tree, updated: string, diff: Diff, k: nat)
    requires Inside(diff) && t.children != [] && k < |t.children|
    requires Applicable(diff(t.text, updated), Offset(t.children, k), End(t.children, k)) == []
    ensures RepairedChild(t, updated, diff, k) == Some(t.children[k])
    ensures k < |Repaired(t, updated, diff).0.children| && Repaired(t, updated, diff).0.children[k] == t.children[k]
  {
    DoneAt(t, updated, diff, k, |t.children|);
  }

  /** The same nodes in the same places. */
  ghost predicate SameShape(a: Tree, b: Tree) {
    && a.kind == b.kind && a.table == b.table && |a.children| == |b.children|
    && forall k :: 0 <= k < |a.children| ==> SameShape(a.children[k], b.children[k])
  }

  lemma {:induction false} SameShapeSelf(t: Tree)
    ensures SameShape(t, t)
  {
    forall k | 0 <= k < |t.children| ensures SameShape(t.children[k], t.children[k]) {
      SameShapeSelf(t.children[k]);
    }
  }

  /** A repair changes texts and runs, never the nodes. */
  lemma {:induction false} RepairKeepsShape(t: Tree, updated: string, diff: Diff)
    requires Inside(diff)
    ensures SameShape(Repaired(t, updated, diff).0, t)
    decreases t
  {
    SameShapeSelf(t);
    if t.text != updated && t.children != [] && |t.text| <= MAX_LENGTH && |updated| <= MAX_LENGTH {
      var n := |t.children|;
      var done := RepairedChildren(t, updated, diff, n);
      forall k | 0 <= k < |done| ensures SameShape(done[k], t.children[k]) {
        DoneAt(t, updated, diff, k, n);
        RepairKeepsShape(t.children[k], ChildText(t, updated, diff(t.text, updated), k).value, diff);
      }
    }
  }
}
