/** What a repair of formatted runs keeps: the text, the protected runs, the formatting of equal text. */
module RunRepair {
  import opened Wrappers
  import opened EditScripts
  import opened RichRuns

  /** One character with its format. */
  datatype Styled = Styled(c: char, kind: RunKind, style: int)

  function StyledText(r: Run): (s: seq<Styled>)
    ensures |s| == |r.text| && forall k :: 0 <= k < |s| ==> s[k] == Styled(r.text[k], r.kind, r.style)
  {
    seq(|r.text|, k requires 0 <= k < |r.text| => Styled(r.text[k], r.kind, r.style))
  }

  function StyledRuns(runs: seq<Run>): (s: seq<Styled>)
    ensures |s| == |Visible(runs)|
    ensures forall k :: 0 <= k < |s| ==> s[k].c == Visible(runs)[k]
  {
    if runs == [] then [] else StyledText(runs[0]) + StyledRuns(runs[1..])
  }

  function Clamp(i: int, n: nat): nat {
    if i < 0 then 0 else if i > n then n else i
  }

  function ClipStyled(s: seq<Styled>, i: int, j: int): seq<Styled>
    requires i <= j
  {
    s[Clamp(i, |s|)..Clamp(j, |s|)]
  }

  lemma {:induction false} StyledConcat(a: seq<Run>, b: seq<Run>)
    ensures StyledRuns(a + b) == StyledRuns(a) + StyledRuns(b)
  {
    if a == [] {
      assert a + b == b;
    } else {
      assert (a + b)[1..] == a[1..] + b;
      StyledConcat(a[1..], b);
    }
  }

  lemma {:induction false} SliceSum(a: seq<Styled>, b: seq<Styled>, x: nat, y: nat, x': nat, y': nat)
    requires x <= x' <= |a| && y <= y' <= |b| && (y == 0 || x == |a|) && (y' == 0 || x' == |a|)
    ensures (a + b)[x + y..x' + y'] == a[x..x'] + b[y..y']
  {
    if y' == 0 {
      assert b[y..y'] == [];
    } else if y == 0 {
      assert a[x..x'] == a[x..];
    } else {
      assert a[x..x'] == [];
    }
  }

  lemma {:induction false} ClampSum(i: int, m: nat, n: nat)
    ensures Clamp(i, m + n) == Clamp(i, m) + Clamp(i - m, n) && (Clamp(i - m, n) == 0 || Clamp(i, m) == m)
  {}

  lemma {:induction false} ClipConcat(a: seq<Styled>, b: seq<Styled>, i: int, j: int)
    requires i <= j
    ensures ClipStyled(a + b, i, j) == ClipStyled(a, i, j) + ClipStyled(b, i - |a|, j - |a|)
  {
    ClampSum(i, |a|, |b|);
    ClampSum(j, |a|, |b|);
    SliceSum(a, b, Clamp(i, |a|), Clamp(i - |a|, |b|), Clamp(j, |a|), Clamp(j - |a|, |b|));
  }

  lemma {:induction false} PieceStyled(r: Run, i: int, j: int)
    requires i <= j
    ensures StyledRuns(Piece(r, i, j)) == ClipStyled(StyledText(r), i, j)
  {
    if Max(i, 0) < Min(j, |r.text|) {
      assert StyledRuns([]) == [];
      assert Piece(r, i, j)[1..] == [];
      assert Max(i, 0) == Clamp(i, |r.text|) && Min(j, |r.text|) == Clamp(j, |r.text|);
    }
  }

  lemma {:induction false} CutCons(runs: seq<Run>, i: int, j: int)
    requires runs != []
    ensures var n := |runs[0].text|;
      StyledRuns(Cut(runs, i, j)) == StyledRuns(Piece(runs[0], i, j)) + StyledRuns(Cut(runs[1..], i - n, j - n))
  {
    StyledConcat(Piece(runs[0], i, j), Cut(runs[1..], i - |runs[0].text|, j - |runs[0].text|));
  }

  lemma {:induction false} ClipCons(runs: seq<Run>, i: int, j: int)
    requires runs != [] && i <= j
    ensures var n := |runs[0].text|;
      ClipStyled(StyledRuns(runs), i, j) ==
        ClipStyled(StyledText(runs[0]), i, j) + ClipStyled(StyledRuns(runs[1..]), i - n, j - n)
  {
    ClipConcat(StyledText(runs[0]), StyledRuns(runs[1..]), i, j);
  }

  /** Cutting keeps every character's format. */
  lemma {:induction false} CutStyled(runs: seq<Run>, i: int, j: int)
    requires i <= j
    ensures StyledRuns(Cut(runs, i, j)) == ClipStyled(StyledRuns(runs), i, j)
  {
    if runs != [] {
      CutStyled(runs[1..], i - |runs[0].text|, j - |runs[0].text|);
      PieceStyled(runs[0], i, j);
      CutCons(runs, i, j);
      ClipCons(runs, i, j);
    }
  }

  lemma {:induction false} SameCharacters(a: seq<Styled>, s: string, b: seq<Styled>, t: string)
    requires |a| == |s| && |b| == |t| && a == b
    requires (forall k :: 0 <= k < |a| ==> a[k].c == s[k]) && (forall k :: 0 <= k < |b| ==> b[k].c == t[k])
    ensures s == t
  {
    assert forall k :: 0 <= k < |s| ==> s[k] == a[k].c == b[k].c == t[k];
  }

  lemma {:induction false} CutText(runs: seq<Run>, i: nat, j: nat)
    requires i <= j <= |Visible(runs)|
    ensures Visible(Cut(runs, i, j)) == Visible(runs)[i..j]
  {
    CutStyled(runs, i, j);
    assert ClipStyled(StyledRuns(runs), i, j) == StyledRuns(runs)[i..j];
    SameCharacters(StyledRuns(Cut(runs, i, j)), Visible(Cut(runs, i, j)), StyledRuns(runs)[i..j], Visible(runs)[i..j]);
  }

  lemma {:induction false} OneRun(r: Run)
    ensures Visible([r]) == r.text
  {
    assert Visible([r][1..]) == "";
  }

  /** An opcode's runs show exactly its part of the new text. */
  lemma {:induction false} OpText(runs: seq<Run>, updated: string, op: Op)
    requires OpFits(op, Visible(runs), updated) && OpRuns(runs, updated, op).Some?
    ensures Visible(OpRuns(runs, updated, op).value) == updated[op.x..op.y]
  {
    match op.tag {
      case Equal => CutText(runs, op.i, op.j);
      case Deleted =>
      case _ =>
        var owners := Attributed(runs, op);
        OneRun((if owners != [] then owners[0] else Run(Plain, "", 0)).(text := updated[op.x..op.y]));
    }
  }

  lemma {:induction false} ScriptStep(ops: seq<Op>, before: string, updated: string, k: nat)
    requires Script(ops, before, updated) && 0 < k <= |ops|
    ensures OpFits(ops[k - 1], before, updated)
    ensures At(ops, k - 1) == (ops[k - 1].i, ops[k - 1].x) && At(ops, k) == (ops[k - 1].j, ops[k - 1].y)
  {
    assert Entry(ops, k - 1, before, updated);
  }

  lemma {:induction false} TextStep(before: seq<Run>, now: seq<Run>, updated: string, x: nat, y: nat)
    requires x <= y <= |updated| && Visible(before) == updated[..x] && Visible(now) == updated[x..y]
    ensures Visible(before + now) == updated[..y]
  {
    VisibleConcat(before, now);
    assert updated[..x] + updated[x..y] == updated[..y];
  }

  lemma {:induction false} CollectedTextStep(parts: seq<Option<seq<Run>>>, k: nat, updated: string, x: nat, y: nat)
    requires 0 < k <= |parts| && Collected(parts, k).Some? && x <= y <= |updated|
    requires Visible(Collected(parts, k - 1).value) == updated[..x] && Visible(parts[k - 1].value) == updated[x..y]
    ensures Visible(Collected(parts, k).value) == updated[..y]
  {
    TextStep(Collected(parts, k - 1).value, parts[k - 1].value, updated, x, y);
  }

  ghost predicate ShowsPart(part: Option<seq<Run>>, op: Op, updated: string) {
    part.Some? && op.x <= op.y <= |updated| ==> Visible(part.value) == updated[op.x..op.y]
  }

  ghost predicate AllShow(parts: seq<Option<seq<Run>>>, ops: seq<Op>, updated: string) {
    |parts| == |ops| && forall m :: 0 <= m < |parts| ==> ShowsPart(parts[m], ops[m], updated)
  }

  /** Parts that show their opcodes' text show the updated text together. */
  lemma {:induction false} CollectedText(parts: seq<Option<seq<Run>>>, ops: seq<Op>, before: string, updated: string,
      k: nat)
    requires Script(ops, before, updated) && OpsInside(ops, updated) && |parts| == |ops| && k <= |ops|
    requires Collected(parts, k).Some?
    requires AllShow(parts, ops, updated)
    ensures At(ops, k).1 <= |updated| && Visible(Collected(parts, k).value) == updated[..At(ops, k).1]
  {
    if k > 0 {
      ScriptStep(ops, before, updated, k);
      CollectedText(parts, ops, before, updated, k - 1);
      assert ShowsPart(parts[k - 1], ops[k - 1], updated);
      CollectedTextStep(parts, k, updated, ops[k - 1].x, ops[k - 1].y);
    }
  }

  lemma {:induction false} PartsShow(runs: seq<Run>, updated: string, ops: seq<Op>)
    requires Script(ops, Visible(runs), updated) && OpsInside(ops, updated)
    ensures AllShow(OpParts(runs, updated, ops), ops, updated)
  {
    var parts := OpParts(runs, updated, ops);
    forall m | 0 <= m < |parts| ensures ShowsPart(parts[m], ops[m], updated) {
      assert Entry(ops, m, Visible(runs), updated);
      if parts[m].Some? { OpText(runs, updated, ops[m]); }
    }
  }

  lemma {:induction false} ScriptIsInside(ops: seq<Op>, before: string, updated: string)
    requires Script(ops, before, updated)
    ensures OpsInside(ops, updated)
  {
    forall k | 0 <= k < |ops| ensures ops[k].x <= ops[k].y <= |updated| {
      assert Entry(ops, k, before, updated);
    }
  }

  /** Unless the repair is ambiguous the visible text is the updated text, for every edit script. */
  lemma {:induction false} RepairShowsUpdate(runs: seq<Run>, updated: string, ops: seq<Op>)
    requires Script(ops, Visible(runs), updated)
    ensures OpsInside(ops, updated)
    ensures var (out, ambiguous) := Reconciled(runs, updated, ops); !ambiguous ==> Visible(out) == updated
  {
    ScriptIsInside(ops, Visible(runs), updated);
    if Collected(OpParts(runs, updated, ops), |ops|).Some? {
      PartsShow(runs, updated, ops);
      CollectedText(OpParts(runs, updated, ops), ops, Visible(runs), updated, |ops|);
      assert updated[..|updated|] == updated;
    }
  }

  /** The protected runs that show something, in order. */
  function Guarded(runs: seq<Run>): seq<Run> {
    if runs == [] then []
    else (if Protected(runs[0]) && runs[0].text != "" then [runs[0]] else []) + Guarded(runs[1..])
  }

  lemma {:induction false} GuardedConcat(a: seq<Run>, b: seq<Run>)
    ensures Guarded(a + b) == Guarded(a) + Guarded(b)
  {
    if a == [] {
      assert a + b == b;
    } else {
      assert (a + b)[1..] == a[1..] + b;
      GuardedConcat(a[1..], b);
    }
  }

  /** No protected run holds position `i` strictly inside. */
  predicate Unbroken(runs: seq<Run>, i: int) {
    runs == [] || (!(Protected(runs[0]) && 0 < i < |runs[0].text|) && Unbroken(runs[1..], i - |runs[0].text|))
  }

  lemma {:induction false} OwnersTail(runs: seq<Run>, i: int, j: int)
    requires runs != [] && !HasProtected(Owners(runs, i, j))
    ensures !HasProtected(Owners(runs[1..], i - |runs[0].text|, j - |runs[0].text|))
    ensures Protected(runs[0]) ==> !(0 < j && |runs[0].text| > i)
  {
    var head := if 0 < j && |runs[0].text| > i then [runs[0]] else [];
    var tail := Owners(runs[1..], i - |runs[0].text|, j - |runs[0].text|);
    assert forall k :: 0 <= k < |tail| ==> tail[k] == (head + tail)[|head| + k];
    if head != [] { assert (head + tail)[0] == runs[0]; }
  }

  lemma {:induction false} FreePiece(r: Run, i: int, j: int)
    requires i <= j && (Protected(r) ==> !(0 < j && |r.text| > i))
    ensures !(Protected(r) && 0 < i < |r.text|) && !(Protected(r) && 0 < j < |r.text|) && Guarded(Piece(r, i, j)) == []
  {
    GuardedPiece(r, i, j);
  }

  lemma {:induction false} FreeHead(runs: seq<Run>, i: int, j: int)
    requires runs != [] && i <= j && !HasProtected(Owners(runs, i, j))
    requires var tail, n := runs[1..], |runs[0].text|;
      Unbroken(tail, i - n) && Unbroken(tail, j - n) && Guarded(Cut(tail, i - n, j - n)) == []
    ensures Unbroken(runs, i) && Unbroken(runs, j) && Guarded(Cut(runs, i, j)) == []
  {
    OwnersTail(runs, i, j);
    FreePiece(runs[0], i, j);
    GuardedCons(runs, i, j);
  }

  /** Without protected owners an interval neither breaks nor shows a protected run. */
  lemma {:induction false} FreeInterval(runs: seq<Run>, i: int, j: int)
    requires i <= j && !HasProtected(Owners(runs, i, j))
    ensures Unbroken(runs, i) && Unbroken(runs, j) && Guarded(Cut(runs, i, j)) == []
  {
    if runs != [] {
      OwnersTail(runs, i, j);
      FreeInterval(runs[1..], i - |runs[0].text|, j - |runs[0].text|);
      FreeHead(runs, i, j);
    }
  }

  lemma {:induction false} PieceSplits(r: Run, lo: int, i: int, j: int)
    requires lo <= i <= j && lo <= 0 && !(Protected(r) && 0 < i < |r.text|)
    ensures Guarded(Piece(r, lo, j)) == Guarded(Piece(r, lo, i)) + Guarded(Piece(r, i, j))
  {
    GuardedPiece(r, lo, i);
    GuardedPiece(r, i, j);
    GuardedPiece(r, lo, j);
    if Protected(r) && 0 < Min(j, |r.text|) {
      if i <= 0 {
        assert Clip(r.text, i, j) == Clip(r.text, lo, j);
      } else {
        assert Clip(r.text, lo, i) == Clip(r.text, lo, j) == r.text;
      }
    }
  }

  lemma {:induction false} GuardedPiece(r: Run, i: int, j: int)
    ensures Guarded(Piece(r, i, j)) == if Protected(r) then Piece(r, i, j) else []
  {
    if Max(i, 0) < Min(j, |r.text|) {
      assert Piece(r, i, j)[1..] == [];
    }
  }

  lemma {:induction false} Rearrange<T>(a: seq<T>, b: seq<T>, c: seq<T>, d: seq<T>)
    requires b == [] || c == []
    ensures (a + b) + (c + d) == (a + c) + (b + d)
  {
    if b == [] { assert a + b == a && b + d == d; }
    if c == [] { assert a + c == a && c + d == d; }
  }

  lemma {:induction false} Combine<T>(a: seq<T>, a1: seq<T>, a2: seq<T>, b: seq<T>, b1: seq<T>, b2: seq<T>)
    requires a == a1 + a2 && b == b1 + b2 && (a2 == [] || b1 == [])
    ensures a + b == (a1 + b1) + (a2 + b2)
  {
    Rearrange(a1, a2, b1, b2);
  }

  lemma {:induction false} SplitHead(head: Run, tail: seq<Run>, lo: int, i: int, j: int, n: nat)
    requires lo <= i <= j && lo <= 0 && n == |head.text| && !(Protected(head) && 0 < i < n)
    requires Guarded(Cut(tail, lo - n, j - n)) == Guarded(Cut(tail, lo - n, i - n)) + Guarded(Cut(tail, i - n, j - n))
    ensures Guarded(Piece(head, lo, j)) + Guarded(Cut(tail, lo - n, j - n)) ==
      (Guarded(Piece(head, lo, i)) + Guarded(Cut(tail, lo - n, i - n)))
        + (Guarded(Piece(head, i, j)) + Guarded(Cut(tail, i - n, j - n)))
  {
    PieceSplits(head, lo, i, j);
    OnOneSide(head, tail, lo, i, j, n);
    Combine(Guarded(Piece(head, lo, j)), Guarded(Piece(head, lo, i)), Guarded(Piece(head, i, j)),
      Guarded(Cut(tail, lo - n, j - n)), Guarded(Cut(tail, lo - n, i - n)), Guarded(Cut(tail, i - n, j - n)));
  }

  lemma {:induction false} SplitWhole(runs: seq<Run>, lo: int, i: int, j: int)
    requires runs != [] && lo <= i <= j && lo <= 0 && Unbroken(runs, i)
    requires var tail, n := runs[1..], |runs[0].text|;
      Guarded(Cut(tail, lo - n, j - n)) == Guarded(Cut(tail, lo - n, i - n)) + Guarded(Cut(tail, i - n, j - n))
    ensures Guarded(Cut(runs, lo, j)) == Guarded(Cut(runs, lo, i)) + Guarded(Cut(runs, i, j))
  {
    var n := |runs[0].text|;
    SplitHead(runs[0], runs[1..], lo, i, j, n);
    GuardedCons(runs, lo, j);
    GuardedCons(runs, lo, i);
    GuardedCons(runs, i, j);
  }

  lemma {:induction false} NothingToCut(lo: int, i: int, j: int)
    ensures Guarded(Cut([], lo, j)) == Guarded(Cut([], lo, i)) + Guarded(Cut([], i, j))
  {}

  lemma {:induction false} UnbrokenTail(runs: seq<Run>, i: int)
    requires runs != [] && Unbroken(runs, i)
    ensures Unbroken(runs[1..], i - |runs[0].text|)
  {}

  /** Behind a position that breaks no protected run, cutting at it loses none. */
  lemma {:induction false} CutSplits(runs: seq<Run>, lo: int, i: int, j: int)
    requires lo <= i <= j && lo <= 0 && Unbroken(runs, i)
    ensures Guarded(Cut(runs, lo, j)) == Guarded(Cut(runs, lo, i)) + Guarded(Cut(runs, i, j))
    decreases |runs|
  {
    if runs == [] {
      NothingToCut(lo, i, j);
    } else {
      var n := |runs[0].text|;
      UnbrokenTail(runs, i);
      CutSplits(runs[1..], lo - n, i - n, j - n);
      SplitWhole(runs, lo, i, j);
    }
  }

  lemma {:induction false} GuardedCons(runs: seq<Run>, i: int, j: int)
    requires runs != []
    ensures var n := |runs[0].text|;
      Guarded(Cut(runs, i, j)) == Guarded(Piece(runs[0], i, j)) + Guarded(Cut(runs[1..], i - n, j - n))
  {
    GuardedConcat(Piece(runs[0], i, j), Cut(runs[1..], i - |runs[0].text|, j - |runs[0].text|));
  }

  lemma {:induction false} OnOneSide(head: Run, tail: seq<Run>, lo: int, i: int, j: int, n: nat)
    requires n == |head.text|
    ensures Guarded(Piece(head, i, j)) == [] || Guarded(Cut(tail, lo - n, i - n)) == []
  {
    if i <= n { CutBehind(tail, lo - n, i - n); }
  }

  lemma {:induction false} CutBehind(runs: seq<Run>, i: int, j: int)
    requires j <= 0
    ensures Cut(runs, i, j) == []
  {
    if runs != [] { CutBehind(runs[1..], i - |runs[0].text|, j - |runs[0].text|); }
  }

  lemma {:induction false} CutEmpty(runs: seq<Run>, i: int)
    ensures Cut(runs, i, i) == []
  {
    if runs != [] { CutEmpty(runs[1..], i - |runs[0].text|); }
  }

  lemma {:induction false} WholePiece(r: Run, lo: int, j: int)
    requires lo <= 0 && j >= |r.text|
    ensures Guarded(Piece(r, lo, j)) == if Protected(r) && r.text != "" then [r] else []
  {
    GuardedPiece(r, lo, j);
    if r.text != "" { assert Clip(r.text, lo, j) == r.text; }
  }

  /** Cutting out everything drops empty runs only. */
  lemma {:induction false} CutWhole(runs: seq<Run>, lo: int, j: int)
    requires lo <= 0 && j >= |Visible(runs)|
    ensures Guarded(Cut(runs, lo, j)) == Guarded(runs)
  {
    if runs != [] {
      var n := |runs[0].text|;
      CutWhole(runs[1..], lo - n, j - n);
      GuardedCons(runs, lo, j);
      WholePiece(runs[0], lo, j);
    }
  }

  lemma {:induction false} ChangedRunIsPlain(runs: seq<Run>, updated: string, op: Op)
    requires op.x <= op.y <= |updated| && op.tag != Equal && OpRuns(runs, updated, op).Some?
    ensures Guarded(OpRuns(runs, updated, op).value) == [] && !HasProtected(Owners(runs, op.i, op.j))
  {
    var out := OpRuns(runs, updated, op).value;
    if out != [] {
      var owners := Attributed(runs, op);
      assert owners != [] ==> !Protected(owners[0]);
      assert !Protected(out[0]) && out[1..] == [];
    }
  }

  lemma {:induction false} StartIsUnbroken(runs: seq<Run>, i: int)
    requires i <= 0
    ensures Unbroken(runs, i)
  {
    if runs != [] { StartIsUnbroken(runs[1..], i - |runs[0].text|); }
  }

  /** An opcode's protected runs are those of the interval it replaces. */
  lemma {:induction false} OpGuarded(runs: seq<Run>, updated: string, op: Op)
    requires OpFits(op, Visible(runs), updated) && OpRuns(runs, updated, op).Some?
    ensures Guarded(OpRuns(runs, updated, op).value) == Guarded(Cut(runs, op.i, op.j))
  {
    if op.tag != Equal {
      ChangedRunIsPlain(runs, updated, op);
      FreeInterval(runs, op.i, op.j);
    }
  }

  lemma {:induction false} CollectedHas(parts: seq<Option<seq<Run>>>, k: nat, m: nat)
    requires m < k <= |parts| && Collected(parts, k).Some?
    ensures parts[m].Some?
  {
    if m < k - 1 { CollectedHas(parts, k - 1, m); }
  }

  /** Parts that keep their intervals' protected runs keep them all when no boundary breaks one. */
  lemma {:induction false} CollectedGuarded(runs: seq<Run>, parts: seq<Option<seq<Run>>>, ops: seq<Op>,
      updated: string, k: nat)
    requires Script(ops, Visible(runs), updated) && |parts| == |ops| && k <= |ops| && Collected(parts, k).Some?
    requires forall m :: 0 <= m < k ==> Unbroken(runs, ops[m].i)
    requires forall m :: 0 <= m < k && parts[m].Some? ==>
      Guarded(parts[m].value) == Guarded(Cut(runs, ops[m].i, ops[m].j))
    ensures Guarded(Collected(parts, k).value) == Guarded(Cut(runs, 0, At(ops, k).0))
  {
    if k == 0 {
      CutEmpty(runs, 0);
    } else {
      ScriptStep(ops, Visible(runs), updated, k);
      CollectedGuarded(runs, parts, ops, updated, k - 1);
      GuardedConcat(Collected(parts, k - 1).value, parts[k - 1].value);
      CutSplits(runs, 0, ops[k - 1].i, ops[k - 1].j);
    }
  }

  /** An opcode that changes text leaves no protected run broken at either end. */
  lemma {:induction false} ChangeIsUnbroken(runs: seq<Run>, updated: string, ops: seq<Op>, m: nat)
    requires OpsInside(ops, updated) && m < |ops| && ops[m].tag != Equal && ops[m].i <= ops[m].j
    requires Collected(OpParts(runs, updated, ops), |ops|).Some?
    ensures Unbroken(runs, ops[m].i) && Unbroken(runs, ops[m].j)
  {
    CollectedHas(OpParts(runs, updated, ops), |ops|, m);
    ChangedRunIsPlain(runs, updated, ops[m]);
    FreeInterval(runs, ops[m].i, ops[m].j);
  }

  lemma {:induction false} ScriptAlternates(ops: seq<Op>, before: string, updated: string, m: nat)
    requires Script(ops, before, updated) && 0 < m < |ops|
    ensures ops[m].i == ops[m - 1].j && ops[m - 1].i <= ops[m - 1].j && ops[m].i <= ops[m].j
    ensures ops[m].tag == Equal ==> ops[m - 1].tag != Equal
  {
    assert Entry(ops, m, before, updated) && Entry(ops, m - 1, before, updated);
  }

  lemma {:induction false} EntryIsUnbroken(runs: seq<Run>, updated: string, ops: seq<Op>, m: nat)
    requires Script(ops, Visible(runs), updated) && OpsInside(ops, updated) && m < |ops|
    requires Collected(OpParts(runs, updated, ops), |ops|).Some?
    ensures Unbroken(runs, ops[m].i)
  {
    if m == 0 {
      ScriptStep(ops, Visible(runs), updated, 1);
      StartIsUnbroken(runs, 0);
    } else {
      ScriptAlternates(ops, Visible(runs), updated, m);
      ChangeIsUnbroken(runs, updated, ops, if ops[m].tag == Equal then m - 1 else m);
    }
  }

  /** Unless the repair is ambiguous, every formula, code or control run that shows something survives
      whole, unchanged and in order. */
  lemma {:induction false} RepairKeepsProtected(runs: seq<Run>, updated: string, ops: seq<Op>)
    requires Script(ops, Visible(runs), updated) && OpsInside(ops, updated)
    ensures Guarded(Reconciled(runs, updated, ops).0) == Guarded(runs)
  {
    var parts := OpParts(runs, updated, ops);
    if Collected(parts, |ops|).Some? {
      forall m | 0 <= m < |ops|
        ensures Unbroken(runs, ops[m].i)
        ensures (parts[m].Some? ==> Guarded(parts[m].value) == Guarded(Cut(runs, ops[m].i, ops[m].j)))
      {
        EntryIsUnbroken(runs, updated, ops, m);
        assert Entry(ops, m, Visible(runs), updated);
        if parts[m].Some? { OpGuarded(runs, updated, ops[m]); }
      }
      CollectedGuarded(runs, parts, ops, updated, |ops|);
      CutWhole(runs, 0, |Visible(runs)|);
    }
  }

  /** Styled text of the first `k` parts. */
  ghost function CollectedStyle(parts: seq<Option<seq<Run>>>, k: nat): seq<Styled>
    requires k <= |parts| && Collected(parts, k).Some?
  {
    StyledRuns(Collected(parts, k).value)
  }

  lemma {:induction false} CollectedStep(parts: seq<Option<seq<Run>>>, k: nat)
    requires 0 < k <= |parts| && Collected(parts, k).Some?
    ensures Collected(parts, k - 1).Some? && parts[k - 1].Some?
    ensures CollectedStyle(parts, k) == CollectedStyle(parts, k - 1) + StyledRuns(parts[k - 1].value)
  {
    StyledConcat(Collected(parts, k - 1).value, parts[k - 1].value);
  }

  lemma {:induction false} CollectedSlice(parts: seq<Option<seq<Run>>>, k: nat, m: nat)
    requires m < k <= |parts| && Collected(parts, k).Some?
    ensures parts[m].Some? && Collected(parts, m).Some? && Collected(parts, m + 1).Some?
    ensures HasSlice(CollectedStyle(parts, k), |CollectedStyle(parts, m)|, |CollectedStyle(parts, m + 1)|,
      StyledRuns(parts[m].value))
  {
    CollectedStep(parts, k);
    if m < k - 1 {
      CollectedSlice(parts, k - 1, m);
      PrefixSlice(CollectedStyle(parts, k - 1), StyledRuns(parts[k - 1].value), |CollectedStyle(parts, m)|,
        |CollectedStyle(parts, m + 1)|);
    } else {
      SuffixSlice(CollectedStyle(parts, k - 1), StyledRuns(parts[k - 1].value), |CollectedStyle(parts, m)|,
        |CollectedStyle(parts, k)|);
    }
  }

  ghost predicate HasSlice(out: seq<Styled>, x: nat, y: nat, part: seq<Styled>) {
    x <= y <= |out| && out[x..y] == part
  }

  lemma {:induction false} CollectedLength(parts: seq<Option<seq<Run>>>, ops: seq<Op>, before: string, updated: string,
      k: nat)
    requires Script(ops, before, updated) && OpsInside(ops, updated) && k <= |ops| && AllShow(parts, ops, updated)
    requires Collected(parts, k).Some?
    ensures |CollectedStyle(parts, k)| == At(ops, k).1
  {
    CollectedText(parts, ops, before, updated, k);
  }

  /** Part `m` stands where its opcode puts it. */
  lemma {:induction false} PartSlice(parts: seq<Option<seq<Run>>>, ops: seq<Op>, before: string, updated: string,
      m: nat)
    requires Script(ops, before, updated) && m < |ops| && OpsInside(ops, updated) && AllShow(parts, ops, updated)
    requires Collected(parts, |ops|).Some?
    ensures parts[m].Some? && HasSlice(CollectedStyle(parts, |ops|), ops[m].x, ops[m].y, StyledRuns(parts[m].value))
  {
    ScriptStep(ops, before, updated, m + 1);
    CollectedSlice(parts, |ops|, m);
    CollectedLength(parts, ops, before, updated, m);
    CollectedLength(parts, ops, before, updated, m + 1);
  }

  lemma {:induction false} EqualPart(runs: seq<Run>, updated: string, op: Op, part: Option<seq<Run>>)
    requires OpFits(op, Visible(runs), updated) && op.tag == Equal && part == OpRuns(runs, updated, op)
    ensures part.Some? && StyledRuns(part.value) == StyledRuns(runs)[op.i..op.j]
  {
    CutStyled(runs, op.i, op.j);
  }

  lemma {:induction false} PartAt(runs: seq<Run>, updated: string, ops: seq<Op>, m: nat,
      parts: seq<Option<seq<Run>>>)
    requires Script(ops, Visible(runs), updated) && m < |ops| && OpsInside(ops, updated)
    requires parts == OpParts(runs, updated, ops) && Collected(parts, |ops|).Some?
    ensures |parts| == |ops| && parts[m].Some? && parts[m] == OpRuns(runs, updated, ops[m])
    ensures HasSlice(CollectedStyle(parts, |ops|), ops[m].x, ops[m].y, StyledRuns(parts[m].value))
  {
    PartsShow(runs, updated, ops);
    PartSlice(parts, ops, Visible(runs), updated, m);
  }

  /** Text the script calls equal keeps each character's format. */
  lemma {:induction false} EqualTextKeepsFormat(runs: seq<Run>, updated: string, ops: seq<Op>, m: nat,
      parts: seq<Option<seq<Run>>>)
    requires Script(ops, Visible(runs), updated) && m < |ops| && OpsInside(ops, updated) && ops[m].tag == Equal
    requires parts == OpParts(runs, updated, ops) && Collected(parts, |ops|).Some?
    ensures ops[m].i <= ops[m].j <= |StyledRuns(runs)|
    ensures HasSlice(StyledRuns(Collected(parts, |ops|).value), ops[m].x, ops[m].y,
      StyledRuns(runs)[ops[m].i..ops[m].j])
  {
    ScriptStep(ops, Visible(runs), updated, m + 1);
    PartAt(runs, updated, ops, m, parts);
    EqualPart(runs, updated, ops[m], parts[m]);
  }

  lemma {:induction false} PrefixSlice<T>(a: seq<T>, b: seq<T>, x: nat, y: nat)
    requires x <= y <= |a|
    ensures (a + b)[x..y] == a[x..y]
  {}

  lemma {:induction false} SuffixSlice<T>(a: seq<T>, b: seq<T>, x: nat, y: nat)
    requires x == |a| && y == |a| + |b|
    ensures (a + b)[x..y] == b
  {}
}
