/** The format of changed text, and when a repair of formatted runs is ambiguous
    (src/packages/parsers/rich_ir.py, `reconcile_runs`). */
module RunFormats {
  import opened Wrappers
  import opened EditScripts
  import opened RichRuns
  import opened RunRepair

  /** Where run `k` starts in the visible text. */
  function Start(runs: seq<Run>, k: nat): nat
    requires k <= |runs|
  {
    if k == 0 then 0 else Start(runs, k - 1) + |runs[k - 1].text|
  }

  /** Run `k` shares text with `i..j`, or holds place `i` strictly inside when the interval is empty. */
  ghost predicate Overlaps(runs: seq<Run>, k: nat, i: int, j: int)
    requires k < |runs|
  {
    Start(runs, k) < j && i < Start(runs, k) + |runs[k].text|
  }

  /** Run `k` ends at, starts at or holds place `i`. */
  ghost predicate Touches(runs: seq<Run>, k: nat, i: int)
    requires k < |runs|
  {
    Start(runs, k) <= i <= Start(runs, k) + |runs[k].text|
  }

  lemma {:induction false} StartTail(runs: seq<Run>, k: nat)
    requires 0 < k <= |runs|
    ensures Start(runs, k) == |runs[0].text| + Start(runs[1..], k - 1)
  {
    if k > 1 {
      StartTail(runs, k - 1);
      assert runs[1..][k - 2] == runs[k - 1];
    }
  }

  lemma {:induction false} OwnerIsListed(runs: seq<Run>, i: int, j: int, k: nat)
    requires k < |runs| && Overlaps(runs, k, i, j)
    ensures runs[k] in Owners(runs, i, j)
  {
    if k > 0 {
      StartTail(runs, k);
      OwnerIsListed(runs[1..], i - |runs[0].text|, j - |runs[0].text|, k - 1);
    }
  }

  lemma {:induction false} ListedOverlaps(runs: seq<Run>, i: int, j: int, r: Run) returns (k: nat)
    requires r in Owners(runs, i, j)
    ensures k < |runs| && Overlaps(runs, k, i, j) && runs[k] == r
  {
    var n := |runs[0].text|;
    if r in Owners(runs[1..], i - n, j - n) {
      k := ListedOverlaps(runs[1..], i - n, j - n, r);
      k := k + 1;
      StartTail(runs, k);
    } else {
      k := 0;
    }
  }

  /** The runs collected for an interval are exactly those that overlap it. */
  lemma {:induction false} OwnersOverlap(runs: seq<Run>, i: int, j: int)
    ensures forall k :: 0 <= k < |runs| && Overlaps(runs, k, i, j) ==> runs[k] in Owners(runs, i, j)
    ensures forall r :: r in Owners(runs, i, j) ==> exists k ::
      0 <= k < |runs| && Overlaps(runs, k, i, j) && runs[k] == r
  {
    forall k | 0 <= k < |runs| && Overlaps(runs, k, i, j) ensures runs[k] in Owners(runs, i, j) {
      OwnerIsListed(runs, i, j, k);
    }
    forall r | r in Owners(runs, i, j) ensures exists k ::
      0 <= k < |runs| && Overlaps(runs, k, i, j) && runs[k] == r {
      var k := ListedOverlaps(runs, i, j, r);
    }
  }

  lemma {:induction false} NeighbourIsListed(runs: seq<Run>, i: int, k: nat)
    requires k < |runs| && Touches(runs, k, i)
    ensures runs[k] in Neighbours(runs, i)
  {
    if k > 0 {
      StartTail(runs, k);
      NeighbourIsListed(runs[1..], i - |runs[0].text|, k - 1);
    }
  }

  lemma {:induction false} ListedTouches(runs: seq<Run>, i: int, r: Run) returns (k: nat)
    requires r in Neighbours(runs, i)
    ensures k < |runs| && Touches(runs, k, i) && runs[k] == r
  {
    var n := |runs[0].text|;
    if r in Neighbours(runs[1..], i - n) {
      k := ListedTouches(runs[1..], i - n, r);
      k := k + 1;
      StartTail(runs, k);
    } else {
      k := 0;
    }
  }

  lemma {:induction false} NeighboursTouch(runs: seq<Run>, i: int)
    ensures forall k :: 0 <= k < |runs| && Touches(runs, k, i) ==> runs[k] in Neighbours(runs, i)
    ensures forall r :: r in Neighbours(runs, i) ==> exists k :: 0 <= k < |runs| && Touches(runs, k, i) && runs[k] == r
  {
    forall k | 0 <= k < |runs| && Touches(runs, k, i) ensures runs[k] in Neighbours(runs, i) {
      NeighbourIsListed(runs, i, k);
    }
    forall r | r in Neighbours(runs, i) ensures exists k :: 0 <= k < |runs| && Touches(runs, k, i) && runs[k] == r {
      var k := ListedTouches(runs, i, r);
    }
  }

  /** A change at `i..j` is attributed to run `k`: the change overlaps it, or overlaps none and touches it. */
  ghost predicate Attributes(runs: seq<Run>, k: nat, i: int, j: int)
    requires k < |runs|
  {
    Overlaps(runs, k, i, j) || ((forall q :: 0 <= q < |runs| ==> !Overlaps(runs, q, i, j)) && Touches(runs, k, i))
  }

  lemma {:induction false} AttributedAre(runs: seq<Run>, op: Op)
    ensures forall k :: 0 <= k < |runs| && Attributes(runs, k, op.i, op.j) ==> runs[k] in Attributed(runs, op)
    ensures forall r :: r in Attributed(runs, op) ==>
      exists k :: 0 <= k < |runs| && Attributes(runs, k, op.i, op.j) && runs[k] == r
  {
    OwnersOverlap(runs, op.i, op.j);
    NeighboursTouch(runs, op.i);
    var owners := Owners(runs, op.i, op.j);
    if owners == [] {
      forall r | r in Neighbours(runs, op.i) ensures exists k ::
        0 <= k < |runs| && Attributes(runs, k, op.i, op.j) && runs[k] == r {
        var k :| 0 <= k < |runs| && Touches(runs, k, op.i) && runs[k] == r;
        assert Attributes(runs, k, op.i, op.j);
      }
    } else {
      assert owners[0] in owners;
      forall r | r in owners ensures exists k :: 0 <= k < |runs| && Attributes(runs, k, op.i, op.j) && runs[k] == r {
        var k :| 0 <= k < |runs| && Overlaps(runs, k, op.i, op.j) && runs[k] == r;
        assert Attributes(runs, k, op.i, op.j);
      }
    }
  }

  /** One opcode can be carried out on the runs: it deletes nothing protected, and it writes only where all
      runs it is attributed to are of one format and none is protected. */
  ghost predicate Clear(runs: seq<Run>, op: Op) {
    match op.tag
    case Equal => true
    case Deleted => forall k :: 0 <= k < |runs| && Overlaps(runs, k, op.i, op.j) ==> !Protected(runs[k])
    case _ =>
      && (forall k :: 0 <= k < |runs| && Attributes(runs, k, op.i, op.j) ==> !Protected(runs[k]))
      && (forall k, q | 0 <= k < |runs| && 0 <= q < |runs|
            && Attributes(runs, k, op.i, op.j) && Attributes(runs, q, op.i, op.j) :: SameFormat(runs[k], runs[q]))
  }

  lemma {:induction false} DeletedIsClear(runs: seq<Run>, op: Op)
    requires op.tag == Deleted
    ensures HasProtected(Owners(runs, op.i, op.j)) <==> !Clear(runs, op)
  {
    OwnersOverlap(runs, op.i, op.j);
    var owners := Owners(runs, op.i, op.j);
    if HasProtected(owners) {
      var m :| 0 <= m < |owners| && Protected(owners[m]);
      assert owners[m] in owners;
    }
    if !Clear(runs, op) {
      var k :| 0 <= k < |runs| && Overlaps(runs, k, op.i, op.j) && Protected(runs[k]);
      assert runs[k] in owners;
    }
  }

  lemma {:induction false} WrittenIsClear(runs: seq<Run>, op: Op)
    requires op.tag == Replaced || op.tag == Inserted
    ensures OneFormat(Attributed(runs, op)) && !HasProtected(Attributed(runs, op)) <==> Clear(runs, op)
  {
    AttributedAre(runs, op);
    var a := Attributed(runs, op);
    if OneFormat(a) && !HasProtected(a) {
      forall k | 0 <= k < |runs| && Attributes(runs, k, op.i, op.j)
        ensures !Protected(runs[k]) && SameFormat(a[0], runs[k])
      {
        assert runs[k] in a;
      }
    }
    if Clear(runs, op) {
      forall m | 0 <= m < |a| ensures !Protected(a[m]) && SameFormat(a[0], a[m]) {
        assert a[m] in a && a[0] in a;
      }
    }
  }

  /** An opcode fails exactly where it is not clear. */
  lemma {:induction false} OpIsClear(runs: seq<Run>, updated: string, op: Op)
    requires op.x <= op.y <= |updated|
    ensures OpRuns(runs, updated, op).Some? <==> Clear(runs, op)
  {
    if op.tag == Deleted { DeletedIsClear(runs, op); }
    else if op.tag != Equal { WrittenIsClear(runs, op); }
  }

  lemma {:induction false} CollectedIff(parts: seq<Option<seq<Run>>>, k: nat)
    requires k <= |parts|
    ensures Collected(parts, k).Some? <==> forall m :: 0 <= m < k ==> parts[m].Some?
  {
    if k > 0 { CollectedIff(parts, k - 1); }
  }

  /** A repair is ambiguous exactly if the text changed and is too long or some opcode is not clear. */
  lemma {:induction false} AmbiguousExactly(runs: seq<Run>, updated: string, ops: seq<Op>)
    requires OpsInside(ops, updated)
    ensures Reconciled(runs, updated, ops).1 <==>
      Visible(runs) != updated
      && (|Visible(runs)| > 8192 || |updated| > 8192 || exists m :: 0 <= m < |ops| && !Clear(runs, ops[m]))
    ensures Reconciled(runs, updated, ops).1 || Visible(runs) == updated ==> Reconciled(runs, updated, ops).0 == runs
  {
    CollectedIff(OpParts(runs, updated, ops), |ops|);
    forall m | 0 <= m < |ops| ensures OpRuns(runs, updated, ops[m]).Some? <==> Clear(runs, ops[m]) {
      OpIsClear(runs, updated, ops[m]);
    }
  }

  lemma {:induction false} VisibleStart(runs: seq<Run>)
    ensures |Visible(runs)| == Start(runs, |runs|)
  {
    if runs != [] {
      VisibleStart(runs[1..]);
      StartTail(runs, |runs|);
    }
  }

  /** Character `p` carries the format of the run that shows it. */
  lemma {:induction false} EntryWrites(ops: seq<Op>, before: string, after: string, m: nat)
    requires Script(ops, before, after) && m < |ops|
    ensures OpFits(ops[m], before, after)
  {
    assert Entry(ops, m, before, after);
  }

  lemma {:induction false} CharacterOf(runs: seq<Run>, k: nat, p: nat)
    requires k < |runs| && Start(runs, k) <= p < Start(runs, k) + |runs[k].text|
    ensures p < |StyledRuns(runs)|
    ensures StyledRuns(runs)[p] == Styled(runs[k].text[p - Start(runs, k)], runs[k].kind, runs[k].style)
  {
    if k > 0 {
      StartTail(runs, k);
      CharacterOf(runs[1..], k - 1, p - |runs[0].text|);
    }
  }

  lemma {:induction false} RunOf(runs: seq<Run>, p: nat) returns (k: nat)
    requires p < |Visible(runs)|
    ensures k < |runs| && Start(runs, k) <= p < Start(runs, k) + |runs[k].text|
  {
    if p < |runs[0].text| {
      k := 0;
    } else {
      var q := RunOf(runs[1..], p - |runs[0].text|);
      StartTail(runs, q + 1);
      k := q + 1;
    }
  }

  ghost predicate HasFormat(c: Styled, r: Run) {
    c.kind == r.kind && c.style == r.style
  }

  ghost predicate SameStyle(c: Styled, d: Styled) {
    c.kind == d.kind && c.style == d.style
  }

  /** The characters a change replaces, or the ones beside an insertion. */
  ghost predicate Near(op: Op, p: int) {
    if op.tag == Replaced then op.i <= p < op.j else p == op.i - 1 || p == op.i
  }

  /** Each of them belongs to a run the change is attributed to. */
  lemma {:induction false} NearIsAttributed(runs: seq<Run>, op: Op, p: nat) returns (k: nat)
    requires op.i <= op.j && (op.tag == Inserted ==> op.i == op.j) && (op.tag == Replaced || op.tag == Inserted)
    requires Near(op, p) && p < |Visible(runs)|
    ensures k < |runs| && Attributes(runs, k, op.i, op.j) && HasFormat(StyledRuns(runs)[p], runs[k])
  {
    if q :| 0 <= q < |runs| && op.tag == Inserted && Overlaps(runs, q, op.i, op.j) {
      k := q;
    } else {
      k := RunOf(runs, p);
    }
    CharacterOf(runs, k, p);
  }

  /** Some run touches every place of the text, unless there is no run at all. */
  lemma {:induction false} SomeRunAttributed(runs: seq<Run>, i: nat, j: nat)
    requires runs != [] && i <= j <= |Visible(runs)|
    ensures exists k :: 0 <= k < |runs| && Attributes(runs, k, i, j)
  {
    if q :| 0 <= q < |runs| && Overlaps(runs, q, i, j) {
      assert Attributes(runs, q, i, j);
    } else if i < |Visible(runs)| {
      var k := RunOf(runs, i);
      assert Attributes(runs, k, i, j);
    } else {
      VisibleStart(runs);
      assert Attributes(runs, |runs| - 1, i, j);
    }
  }

  lemma {:induction false} WrittenRun(runs: seq<Run>, updated: string, op: Op)
    requires OpFits(op, Visible(runs), updated) && (op.tag == Replaced || op.tag == Inserted)
    requires OpRuns(runs, updated, op).Some?
    ensures var part := OpRuns(runs, updated, op).value;
      && |part| == 1 && part[0].text == updated[op.x..op.y]
      && (forall k :: 0 <= k < |runs| && Attributes(runs, k, op.i, op.j) ==> SameFormat(part[0], runs[k]))
      && (runs == [] ==> part[0].kind == Plain && part[0].style == 0)
  {
    AttributedAre(runs, op);
    var a := Attributed(runs, op);
    forall k | 0 <= k < |runs| && Attributes(runs, k, op.i, op.j) ensures a != [] && SameFormat(a[0], runs[k]) {
      assert runs[k] in a;
    }
  }

  lemma {:induction false} OneStyled(r: Run)
    ensures StyledRuns([r]) == StyledText(r)
  {
    assert [r][1..] == [] && StyledRuns([]) == [];
  }

  /** A changed character comes from the one run its entry writes. */
  lemma {:induction false} ChangedCharacter(runs: seq<Run>, updated: string, ops: seq<Op>, m: nat, c: nat)
      returns (r: Run)
    requires Script(ops, Visible(runs), updated) && m < |ops| && OpsInside(ops, updated)
    requires ops[m].tag == Replaced || ops[m].tag == Inserted
    requires Visible(runs) != updated && !Reconciled(runs, updated, ops).1 && ops[m].x <= c < ops[m].y
    ensures OpRuns(runs, updated, ops[m]) == Some([r])
    ensures var out := StyledRuns(Reconciled(runs, updated, ops).0);
      c < |out| && out[c].c == updated[c] && HasFormat(out[c], r)
  {
    EntryWrites(ops, Visible(runs), updated, m);
    r := WrittenPart(runs, updated, ops, m);
    CopiedCharacter(StyledRuns(Reconciled(runs, updated, ops).0), updated, ops[m], r, c);
  }

  lemma {:induction false} CopiedCharacter(out: seq<Styled>, updated: string, op: Op, r: Run, c: nat)
    requires HasSlice(out, op.x, op.y, StyledText(r)) && op.x <= c < op.y <= |updated| && r.text == updated[op.x..op.y]
    ensures c < |out| && out[c].c == updated[c] && HasFormat(out[c], r)
  {
    WrittenCharacter(out, op, r, c);
  }

  lemma {:induction false} WrittenPart(runs: seq<Run>, updated: string, ops: seq<Op>, m: nat) returns (r: Run)
    requires Script(ops, Visible(runs), updated) && m < |ops| && OpsInside(ops, updated)
    requires OpFits(ops[m], Visible(runs), updated) && (ops[m].tag == Replaced || ops[m].tag == Inserted)
    requires Visible(runs) != updated && !Reconciled(runs, updated, ops).1
    ensures OpRuns(runs, updated, ops[m]) == Some([r]) && r.text == updated[ops[m].x..ops[m].y]
    ensures HasSlice(StyledRuns(Reconciled(runs, updated, ops).0), ops[m].x, ops[m].y, StyledText(r))
  {
    var parts := OpParts(runs, updated, ops);
    RepairCollects(runs, updated, ops, parts);
    PartAt(runs, updated, ops, m, parts);
    r := OnlyRun(runs, updated, ops[m]);
  }

  lemma {:induction false} RepairCollects(runs: seq<Run>, updated: string, ops: seq<Op>, parts: seq<Option<seq<Run>>>)
    requires OpsInside(ops, updated) && parts == OpParts(runs, updated, ops)
    requires Visible(runs) != updated && !Reconciled(runs, updated, ops).1
    ensures Collected(parts, |ops|).Some? && Reconciled(runs, updated, ops).0 == Collected(parts, |ops|).value
    ensures CollectedStyle(parts, |ops|) == StyledRuns(Reconciled(runs, updated, ops).0)
  {
  }

  lemma {:induction false} OnlyRun(runs: seq<Run>, updated: string, op: Op) returns (r: Run)
    requires OpFits(op, Visible(runs), updated) && (op.tag == Replaced || op.tag == Inserted)
    requires OpRuns(runs, updated, op).Some?
    ensures OpRuns(runs, updated, op) == Some([r]) && r.text == updated[op.x..op.y] && StyledRuns([r]) == StyledText(r)
  {
    WrittenRun(runs, updated, op);
    r := OpRuns(runs, updated, op).value[0];
    OneStyled(r);
  }

  /** Changed text has the format of every run it is attributed to: replaced text that of every character it
      replaces, inserted text that of the characters on both sides. The plain default is used only in a text
      without any run. */
  lemma {:induction false} ChangedTextFormat(runs: seq<Run>, updated: string, ops: seq<Op>, m: nat, c: nat)
    requires Script(ops, Visible(runs), updated) && m < |ops| && OpsInside(ops, updated)
    requires ops[m].tag == Replaced || ops[m].tag == Inserted
    requires Visible(runs) != updated && !Reconciled(runs, updated, ops).1 && ops[m].x <= c < ops[m].y
    ensures var op, out := ops[m], StyledRuns(Reconciled(runs, updated, ops).0);
      && c < |out| && out[c].c == updated[c]
      && (forall k :: 0 <= k < |runs| && Attributes(runs, k, op.i, op.j) ==> HasFormat(out[c], runs[k]))
      && (forall p :: 0 <= p < |StyledRuns(runs)| && Near(op, p) ==> SameStyle(out[c], StyledRuns(runs)[p]))
      && ((exists k :: 0 <= k < |runs| && Attributes(runs, k, op.i, op.j)) <==> runs != [])
      && (runs == [] ==> out[c].kind == Plain && out[c].style == 0)
  {
    var op, out := ops[m], StyledRuns(Reconciled(runs, updated, ops).0);
    assert Entry(ops, m, Visible(runs), updated);
    var r := ChangedCharacter(runs, updated, ops, m, c);
    WrittenRun(runs, updated, op);
    if runs != [] { SomeRunAttributed(runs, op.i, op.j); }
    forall p | 0 <= p < |StyledRuns(runs)| && Near(op, p) ensures SameStyle(out[c], StyledRuns(runs)[p]) {
      var k := NearIsAttributed(runs, op, p);
    }
  }

  lemma {:induction false} WrittenCharacter(out: seq<Styled>, op: Op, r: Run, c: nat)
    requires HasSlice(out, op.x, op.y, StyledText(r)) && op.x <= c < op.y
    ensures c < |out| && HasFormat(out[c], r) && c - op.x < |r.text| && out[c].c == r.text[c - op.x]
  {
    assert out[op.x..op.y][c - op.x] == out[c];
  }
}
