/** Native punctuation carried into the layout text (src/packages/parsers/fidelity.py, `recover_native_text`). */
module NativeText {
  import opened Documents
  import opened EditScripts

  const MAX_LENGTH := 8192

  function NoSpace(s: string): string {
    if s == "" then ""
    else NoSpace(s[..|s| - 1]) + if Space(s[|s| - 1]) then "" else [s[|s| - 1]]
  }

  function OnlySpace(s: string): string {
    if s == "" then ""
    else OnlySpace(s[..|s| - 1]) + if Space(s[|s| - 1]) then [s[|s| - 1]] else ""
  }

  predicate Solid(s: string) {
    forall i :: 0 <= i < |s| ==> !Space(s[i])
  }

  lemma {:induction false} SplitConcat(a: string, b: string)
    ensures NoSpace(a + b) == NoSpace(a) + NoSpace(b)
    ensures OnlySpace(a + b) == OnlySpace(a) + OnlySpace(b)
  {
    if b == "" {
      assert a + b == a;
    } else {
      var n := |b| - 1;
      assert (a + b)[..|a + b| - 1] == a + b[..n];
      SplitConcat(a, b[..n]);
    }
  }

  lemma {:induction false} SolidText(s: string)
    requires Solid(s)
    ensures NoSpace(s) == s && OnlySpace(s) == ""
  {
    if s != "" {
      SolidText(s[..|s| - 1]);
      assert s == s[..|s| - 1] + [s[|s| - 1]];
    }
  }

  lemma {:induction false} BlankText(s: string)
    requires Blank(s)
    ensures NoSpace(s) == "" && OnlySpace(s) == s
  {
    if s != "" {
      BlankText(s[..|s| - 1]);
      assert s == s[..|s| - 1] + [s[|s| - 1]];
    }
  }

  /** White space and the two soft-hyphen markers are dropped from native text. */
  function NativeCore(s: string): (r: string)
    ensures Solid(r)
  {
    if s == "" then ""
    else
      var c := s[|s| - 1];
      NativeCore(s[..|s| - 1]) + if Space(c) || c == '\U{2}' || c == '\U{AD}' then "" else [c]
  }

  /** It keeps every other character, one by one and in order. */
  lemma {:induction false} NativeCoreKeeps(a: string, c: char, b: string)
    ensures NativeCore(a + [c] + b) ==
      NativeCore(a) + (if Space(c) || c in {'\U{2}', '\U{AD}'} then "" else [c]) + NativeCore(b)
  {
    if b == "" {
      assert a + [c] + b == a + [c] && (a + [c])[..|a|] == a;
    } else {
      var n := |b| - 1;
      assert (a + [c] + b)[..|a + [c] + b| - 1] == a + [c] + b[..n];
      NativeCoreKeeps(a, c, b[..n]);
    }
  }

  /** Places of the visible characters among the first `n`. */
  function Positions(layout: string, n: nat): (p: seq<nat>)
    requires n <= |layout|
    ensures forall k :: 0 <= k < |p| ==> p[k] < n && !Space(layout[p[k]])
    ensures forall j, k :: 0 <= j < k < |p| ==> p[j] < p[k]
  {
    if n == 0 then []
    else Positions(layout, n - 1) + if Space(layout[n - 1]) then [] else [n - 1]
  }

  function Compact(layout: string): (c: string) {
    seq(|Positions(layout, |layout|)|,
      k requires 0 <= k < |Positions(layout, |layout|)| => layout[Positions(layout, |layout|)[k]])
  }

  /** Behind the first `a` visible characters. */
  function Edge(positions: seq<nat>, a: nat): nat
    requires a <= |positions|
  {
    if a == 0 then 0 else positions[a - 1] + 1
  }

  function Ins(insertions: map<nat, string>, i: nat): string {
    if i in insertions then insertions[i] else ""
  }

  /** The first `p` entries, each behind its insertion, and the insertion at `p`. */
  function Emit(result: seq<string>, insertions: map<nat, string>, p: nat): string
    requires p <= |result|
  {
    if p == 0 then Ins(insertions, 0) else Emit(result, insertions, p - 1) + result[p - 1] + Ins(insertions, p)
  }

  function Join(parts: seq<string>): string {
    if parts == [] then "" else Join(parts[..|parts| - 1]) + parts[|parts| - 1]
  }

  lemma {:induction false} Append(a: string, b: string, c: string, d: string)
    requires d == ""
    ensures (a + b) + c + d == a + (b + c)
  {}

  lemma {:induction false} EmitQuiet(result: seq<string>, insertions: map<nat, string>, p: nat, q: nat)
    requires p <= q <= |result| && forall i :: p < i <= q ==> Ins(insertions, i) == ""
    ensures Emit(result, insertions, q) == Emit(result, insertions, p) + Join(result[p..q])
    decreases q
  {
    if p < q {
      EmitQuiet(result, insertions, p, q - 1);
      JoinUpTo(result, p, q);
      Append(Emit(result, insertions, p), Join(result[p..q - 1]), result[q - 1], Ins(insertions, q));
    } else {
      assert result[p..q] == [];
    }
  }

  lemma {:induction false} EmitFrame(r1: seq<string>, i1: map<nat, string>, r2: seq<string>, i2: map<nat, string>,
      p: nat)
    requires p <= |r1| && p <= |r2| && r1[..p] == r2[..p]
    requires forall i :: 0 <= i <= p ==> Ins(i1, i) == Ins(i2, i)
    ensures Emit(r1, i1, p) == Emit(r2, i2, p)
  {
    if p > 0 {
      assert r1[..p][..p - 1] == r1[..p - 1] && r2[..p][..p - 1] == r2[..p - 1] && r1[..p][p - 1] == r2[..p][p - 1];
      EmitFrame(r1, i1, r2, i2, p - 1);
    }
  }

  function Letters(s: string): (r: seq<string>)
    ensures |r| == |s| && forall i :: 0 <= i < |r| ==> r[i] == [s[i]]
  {
    seq(|s|, i requires 0 <= i < |s| => [s[i]])
  }

  lemma {:induction false} JoinLetters(s: string)
    ensures Join(Letters(s)) == s
  {
    if s != "" {
      var n := |s| - 1;
      assert Letters(s)[..n] == Letters(s[..n]);
      JoinLetters(s[..n]);
      assert s == s[..n] + [s[n]];
    }
  }

  lemma {:induction false} PositionsComplete(layout: string, n: nat, i: nat)
    requires i < n <= |layout| && !Space(layout[i])
    ensures i in Positions(layout, n)
  {
    if i < n - 1 {
      PositionsComplete(layout, n - 1, i);
    } else {
      assert Positions(layout, n)[|Positions(layout, n - 1)|] == i;
    }
  }

  /** Only white space lies between neighbouring visible characters and behind the last. */
  lemma {:induction false} GapIsBlank(layout: string, a: nat, i: nat)
    requires a <= |Positions(layout, |layout|)| && Edge(Positions(layout, |layout|), a) <= i < |layout|
    requires a < |Positions(layout, |layout|)| ==> i < Positions(layout, |layout|)[a]
    ensures Space(layout[i])
  {
    var p := Positions(layout, |layout|);
    if !Space(layout[i]) {
      PositionsComplete(layout, |layout|, i);
    }
  }

  lemma {:induction false} ThreeParts(a: string, b: string, c: string)
    ensures NoSpace(a + b + c) == NoSpace(a) + NoSpace(b) + NoSpace(c)
  {
    SplitConcat(a + b, c);
    SplitConcat(a, b);
  }

  lemma {:induction false} VisibleEnd(head: string, gap: string, last: string)
    requires Blank(gap) && Solid(last)
    ensures NoSpace(head + gap + last) == NoSpace(head) + last
  {
    ThreeParts(head, gap, last);
    BlankText(gap);
    SolidText(last);
  }

  lemma {:induction false} GapBefore(layout: string, b: nat)
    requires 0 < b <= |Positions(layout, |layout|)|
    ensures var p := Positions(layout, |layout|);
      Edge(p, b - 1) <= p[b - 1] && Blank(layout[Edge(p, b - 1)..p[b - 1]])
  {
    var p := Positions(layout, |layout|);
    forall i | Edge(p, b - 1) <= i < p[b - 1] ensures Space(layout[i]) { GapIsBlank(layout, b - 1, i); }
  }

  lemma {:induction false} SegmentStep(layout: string, from: nat, edge: nat, place: nat)
    requires from <= edge <= place < |layout| && Blank(layout[edge..place]) && !Space(layout[place])
    ensures NoSpace(layout[from..place + 1]) == NoSpace(layout[from..edge]) + [layout[place]]
  {
    assert layout[from..place + 1] == layout[from..edge] + layout[edge..place] + [layout[place]];
    VisibleEnd(layout[from..edge], layout[edge..place], [layout[place]]);
  }

  lemma {:induction false} CompactStep(layout: string, a: nat, b: nat)
    requires a < b <= |Positions(layout, |layout|)|
    ensures Compact(layout)[a..b] == Compact(layout)[a..b - 1] + [layout[Positions(layout, |layout|)[b - 1]]]
  {
    assert Compact(layout)[b - 1] == layout[Positions(layout, |layout|)[b - 1]];
  }

  lemma {:induction false} SegmentCompact(layout: string, a: nat, b: nat)
    requires a <= b <= |Positions(layout, |layout|)|
    ensures var p := Positions(layout, |layout|);
      Edge(p, a) <= Edge(p, b) <= |layout| && NoSpace(layout[Edge(p, a)..Edge(p, b)]) == Compact(layout)[a..b]
    decreases b
  {
    var p := Positions(layout, |layout|);
    if a < b {
      SegmentCompact(layout, a, b - 1);
      GapBefore(layout, b);
      SegmentStep(layout, Edge(p, a), Edge(p, b - 1), p[b - 1]);
      CompactStep(layout, a, b);
    } else {
      assert layout[Edge(p, a)..Edge(p, b)] == "";
    }
  }

  /** Entries `p..q` keep their white space and carry `t` at one visible place. */
  ghost predicate Carried(layout: string, result: seq<string>, p: nat, q: nat, place: nat, t: string)
    requires q <= |layout| && |result| == |layout|
  {
    forall i :: p <= i < q ==> result[i] == (if Space(layout[i]) then [layout[i]] else if i == place then t else "")
  }

  /** One more entry, its white space and its visible text. */
  lemma {:induction false} EntryStep(before: string, entry: string, c: char, t: string)
    requires Solid(t) && entry == if Space(c) then [c] else t
    ensures NoSpace(before + entry) == NoSpace(before) + if Space(c) then "" else t
    ensures OnlySpace(before + entry) == OnlySpace(before) + OnlySpace([c])
  {
    SplitConcat(before, entry);
    LastEntry(c, entry, t);
  }

  lemma {:induction false} LayoutStep(layout: string, p: nat, q: nat)
    requires p < q <= |layout|
    ensures OnlySpace(layout[p..q]) == OnlySpace(layout[p..q - 1]) + OnlySpace([layout[q - 1]])
  {
    assert layout[p..q] == layout[p..q - 1] + [layout[q - 1]];
    SplitConcat(layout[p..q - 1], [layout[q - 1]]);
  }

  lemma {:induction false} JoinUpTo(result: seq<string>, p: nat, q: nat)
    requires p < q <= |result|
    ensures Join(result[p..q]) == Join(result[p..q - 1]) + result[q - 1]
  {
    assert result[p..q][..q - p - 1] == result[p..q - 1] && result[p..q][q - p - 1] == result[q - 1];
  }

  lemma {:induction false} EmptyEnds(t: string)
    ensures "" + t == t && t + "" == t
  {}

  lemma {:induction false} NothingCarried(layout: string, result: seq<string>, p: nat)
    requires p <= |layout| == |result|
    ensures NoSpace(Join(result[p..p])) == "" && OnlySpace(Join(result[p..p])) == OnlySpace(layout[p..p])
  {
    assert result[p..p] == [] && layout[p..p] == "";
  }

  lemma {:induction false} CarriedSpaces(layout: string, result: seq<string>, p: nat, q: nat, place: nat, t: string)
    requires p <= q <= |layout| && |result| == |layout| && Solid(t) && Carried(layout, result, p, q, place, t)
    ensures OnlySpace(Join(result[p..q])) == OnlySpace(layout[p..q])
    decreases q
  {
    if p < q {
      CarriedSpaces(layout, result, p, q - 1, place, t);
      JoinUpTo(result, p, q);
      LayoutStep(layout, p, q);
      EntryStep(Join(result[p..q - 1]), result[q - 1], layout[q - 1], if q - 1 == place then t else "");
    } else {
      NothingCarried(layout, result, p);
    }
  }

  lemma {:induction false} CarriedVisible(layout: string, result: seq<string>, p: nat, q: nat, place: nat, t: string)
    requires p <= q <= |layout| && |result| == |layout| && Solid(t) && Carried(layout, result, p, q, place, t)
    requires p <= place ==> place < |layout| && !Space(layout[place])
    ensures NoSpace(Join(result[p..q])) == if p <= place < q then t else ""
    decreases q
  {
    if p < q {
      CarriedVisible(layout, result, p, q - 1, place, t);
      JoinUpTo(result, p, q);
      EntryStep(Join(result[p..q - 1]), result[q - 1], layout[q - 1], if q - 1 == place then t else "");
      EmptyEnds(t);
    } else {
      NothingCarried(layout, result, p);
    }
  }

  lemma {:induction false} LastEntry(c: char, entry: string, t: string)
    requires Solid(t) && entry == if Space(c) then [c] else t
    ensures NoSpace(entry) == if Space(c) then "" else t
    ensures OnlySpace(entry) == OnlySpace([c])
  {
    if Space(c) { BlankText([c]); } else { SolidText(t); SolidText([c]); }
  }

  /** What `Progress` says of the emitted text. */
  ghost predicate Emitted(text: string, native: string, c: nat, space: string)
    requires c <= |native|
  {
    NoSpace(text) == native[..c] && OnlySpace(text) == OnlySpace(space)
  }

  /** The first `a` visible characters have become the first `c` native ones; the rest is untouched. */
  ghost predicate Progress(layout: string, native: string, result: seq<string>, insertions: map<nat, string>, a: nat,
      c: nat) {
    var p := Positions(layout, |layout|);
    && |result| == |layout| && a <= |p| && c <= |native|
    && (forall i :: Edge(p, a) <= i < |layout| ==> result[i] == [layout[i]])
    && (forall i :: Edge(p, a) < i ==> Ins(insertions, i) == "")
    && Emitted(Emit(result, insertions, Edge(p, a)), native, c, layout[..Edge(p, a)])
  }

  lemma {:induction false} EqualProgress(layout: string, native: string, result: seq<string>, insertions: map<nat,
      string>, a: nat, b: nat, c: nat, d: nat)
    requires Progress(layout, native, result, insertions, a, c)
    requires a <= b <= |Positions(layout, |layout|)| && c <= d <= |native| && Compact(layout)[a..b] == native[c..d]
    ensures Progress(layout, native, result, insertions, b, d)
  {
    var p := Positions(layout, |layout|);
    SegmentCompact(layout, a, b);
    var from, to := Edge(p, a), Edge(p, b);
    EmitQuiet(result, insertions, from, to);
    assert result[from..to] == Letters(layout[from..to]);
    JoinLetters(layout[from..to]);
    ChangeEmitted(Emit(result, insertions, from), layout[from..to], native, c, d, layout, from, to);
  }

  lemma {:induction false} AppendText(before: string, more: string, native: string, c: nat, d: nat, space: string,
      moreSpace: string)
    requires c <= d <= |native| && NoSpace(before) == native[..c] && NoSpace(more) == native[c..d]
    requires OnlySpace(before) == OnlySpace(space) && OnlySpace(more) == OnlySpace(moreSpace)
    ensures NoSpace(before + more) == native[..d]
    ensures OnlySpace(before + more) == OnlySpace(space + moreSpace)
  {
    SplitConcat(before, more);
    SplitConcat(space, moreSpace);
    assert native[..c] + native[c..d] == native[..d];
  }

  /** `changed` differs from `result` only in carrying `t` for the visible characters `a..b`. */
  ghost predicate Changed(layout: string, result: seq<string>, changed: seq<string>, a: nat, b: nat, t: string) {
    var p := Positions(layout, |layout|);
    && a < b <= |p| && |changed| == |result| == |layout| && Edge(p, a) <= Edge(p, b) <= |layout|
    && (forall i :: 0 <= i < Edge(p, a) ==> changed[i] == result[i])
    && Carried(layout, changed, Edge(p, a), Edge(p, b), p[a], t)
    && (forall i :: Edge(p, b) <= i < |layout| ==> changed[i] == result[i])
  }

  lemma {:induction false} ChangedText(layout: string, result: seq<string>, changed: seq<string>, a: nat, b: nat,
      t: string)
    requires Changed(layout, result, changed, a, b, t) && Solid(t)
    ensures var p := Positions(layout, |layout|);
      && NoSpace(Join(changed[Edge(p, a)..Edge(p, b)])) == t
      && OnlySpace(Join(changed[Edge(p, a)..Edge(p, b)])) == OnlySpace(layout[Edge(p, a)..Edge(p, b)])
  {
    var p := Positions(layout, |layout|);
    assert Edge(p, a) <= p[a] < Edge(p, b) by {
      if a > 0 { assert p[a - 1] < p[a]; }
      if a < b - 1 { assert p[a] < p[b - 1]; }
    }
    CarriedVisible(layout, changed, Edge(p, a), Edge(p, b), p[a], t);
    CarriedSpaces(layout, changed, Edge(p, a), Edge(p, b), p[a], t);
  }

  lemma {:induction false} ChangedEmit(layout: string, native: string, result: seq<string>, changed: seq<string>,
      insertions: map<nat, string>, a: nat, b: nat, c: nat, t: string)
    requires Progress(layout, native, result, insertions, a, c) && Changed(layout, result, changed, a, b, t)
    ensures var p := Positions(layout, |layout|);
      Emit(changed, insertions, Edge(p, b)) ==
        Emit(result, insertions, Edge(p, a)) + Join(changed[Edge(p, a)..Edge(p, b)])
  {
    var p := Positions(layout, |layout|);
    assert changed[..Edge(p, a)] == result[..Edge(p, a)];
    EmitFrame(changed, insertions, result, insertions, Edge(p, a));
    EmitQuiet(changed, insertions, Edge(p, a), Edge(p, b));
  }

  lemma {:induction false} ChangeEmitted(before: string, more: string, native: string, c: nat, d: nat, layout: string,
      from: nat, to: nat)
    requires c <= d <= |native| && from <= to <= |layout| && Emitted(before, native, c, layout[..from])
    requires NoSpace(more) == native[c..d] && OnlySpace(more) == OnlySpace(layout[from..to])
    ensures Emitted(before + more, native, d, layout[..to])
  {
    AppendText(before, more, native, c, d, layout[..from], layout[from..to]);
    JoinHalves(layout, from, to);
  }

  lemma {:induction false} JoinHalves(s: string, from: nat, to: nat)
    requires from <= to <= |s|
    ensures s[..from] + s[from..to] == s[..to]
  {}

  lemma {:induction false} ChangeProgress(layout: string, native: string, result: seq<string>, changed: seq<string>,
      insertions: map<nat, string>, a: nat, b: nat, c: nat, d: nat)
    requires Progress(layout, native, result, insertions, a, c) && Solid(native) && c <= d <= |native|
    requires Changed(layout, result, changed, a, b, native[c..d])
    ensures Progress(layout, native, changed, insertions, b, d)
  {
    var p := Positions(layout, |layout|);
    var from, to := Edge(p, a), Edge(p, b);
    ChangedText(layout, result, changed, a, b, native[c..d]);
    ChangedEmit(layout, native, result, changed, insertions, a, b, c, native[c..d]);
    ChangeEmitted(Emit(result, insertions, from), Join(changed[from..to]), native, c, d, layout, from, to);
    assert Emitted(Emit(changed, insertions, to), native, d, layout[..to]);
  }

  lemma {:induction false} EmitInsert(result: seq<string>, insertions: map<nat, string>, p: nat, t: string)
    requires p <= |result|
    ensures Emit(result, insertions[p := Ins(insertions, p) + t], p) == Emit(result, insertions, p) + t
  {
    var more := insertions[p := Ins(insertions, p) + t];
    if p > 0 {
      EmitFrame(result, more, result, insertions, p - 1);
    }
  }

  lemma {:induction false} InsertEmitted(before: string, more: string, native: string, c: nat, d: nat, space: string)
    requires c <= d <= |native| && Solid(more) && more == native[c..d] && Emitted(before, native, c, space)
    ensures Emitted(before + more, native, d, space)
  {
    SolidText(more);
    SplitConcat(before, more);
    assert native[..c] + native[c..d] == native[..d];
  }

  lemma {:induction false} InsertProgress(layout: string, native: string, result: seq<string>, insertions: map<nat,
      string>, more: map<nat, string>, a: nat, c: nat, d: nat, at: nat)
    requires Progress(layout, native, result, insertions, a, c) && Solid(native) && c <= d <= |native|
    requires at == Edge(Positions(layout, |layout|), a) && more == insertions[at := Ins(insertions, at) + native[c..d]]
    ensures Progress(layout, native, result, more, a, d)
  {
    EmitInsert(result, insertions, at, native[c..d]);
    InsertEmitted(Emit(result, insertions, at), native[c..d], native, c, d, layout[..at]);
    forall i | at < i ensures Ins(more, i) == "" {
      assert Ins(insertions, i) == "";
    }
  }

  lemma {:induction false} OpProgress(layout: string, native: string, ops: seq<Op>, k: nat)
    requires Script(ops, Compact(layout), native) && k < |ops|
    ensures At(ops, k) == (ops[k].i, ops[k].x) && OpFits(ops[k], Compact(layout), native)
    ensures |Compact(layout)| == |Positions(layout, |layout|)|
  {
    assert Entry(ops, k, Compact(layout), native);
  }

  lemma {:induction false} TailIsBlank(layout: string)
    ensures var p := Positions(layout, |layout|); Edge(p, |p|) <= |layout| && Blank(layout[Edge(p, |p|)..])
  {
    var p := Positions(layout, |layout|);
    forall i | Edge(p, |p|) <= i < |layout| ensures Space(layout[i]) { GapIsBlank(layout, |p|, i); }
  }

  lemma {:induction false} DoneEmitted(before: string, more: string, native: string, layout: string, edge: nat)
    requires edge <= |layout| && Emitted(before, native, |native|, layout[..edge]) && more == layout[edge..]
    requires Blank(more)
    ensures NoSpace(before + more) == native && OnlySpace(before + more) == OnlySpace(layout)
  {
    BlankText(more);
    SplitConcat(before, more);
    SplitConcat(layout[..edge], more);
    assert layout[..edge] + more == layout;
    assert native[..|native|] == native;
  }

  lemma {:induction false} UntouchedText(layout: string, result: seq<string>, edge: nat)
    requires |result| == |layout| && edge <= |layout| && forall i :: edge <= i < |layout| ==> result[i] == [layout[i]]
    ensures Join(result[edge..|result|]) == layout[edge..]
  {
    assert result[edge..|result|] == Letters(layout[edge..]);
    JoinLetters(layout[edge..]);
  }

  lemma {:induction false} EmitToEnd(layout: string, result: seq<string>, insertions: map<nat, string>, edge: nat)
    requires |result| == |layout| && edge <= |layout| && forall i :: edge <= i < |layout| ==> result[i] == [layout[i]]
    requires forall i :: edge < i ==> Ins(insertions, i) == ""
    ensures Emit(result, insertions, |result|) == Emit(result, insertions, edge) + layout[edge..]
  {
    EmitQuiet(result, insertions, edge, |result|);
    UntouchedText(layout, result, edge);
  }

  /** At the end of the script the emitted text is the native text spread over the layout's white space. */
  lemma {:induction false} ScriptDone(layout: string, native: string, result: seq<string>, insertions: map<nat, string>)
    requires Progress(layout, native, result, insertions, |Positions(layout, |layout|)|, |native|)
    ensures |result| == |layout|
    ensures NoSpace(Emit(result, insertions, |result|)) == native
    ensures OnlySpace(Emit(result, insertions, |result|)) == OnlySpace(layout)
  {
    var edge := Edge(Positions(layout, |layout|), |Positions(layout, |layout|)|);
    TailIsBlank(layout);
    EmitToEnd(layout, result, insertions, edge);
    DoneEmitted(Emit(result, insertions, edge), layout[edge..], native, layout, edge);
  }

  /** `for index in positions[a:b]: result[index] = ''`. */
  method ClearPlaces(places: seq<nat>, result: seq<string>) returns (changed: seq<string>)
    requires forall k :: 0 <= k < |places| ==> places[k] < |result|
    ensures |changed| == |result| && forall i :: 0 <= i < |result| ==>
      changed[i] == if i in places then "" else result[i]
  {
    changed := result;
    for k := 0 to |places|
      invariant |changed| == |result|
      invariant forall i :: 0 <= i < |result| ==> changed[i] == if i in places[..k] then "" else result[i]
    {
      changed := changed[places[k] := ""];
      assert places[..k + 1] == places[..k] + [places[k]];
    }
    assert places[..|places|] == places;
  }

  /** The native text at the first cleared place. */
  method ReplaceSegment(layout: string, result: seq<string>, a: nat, b: nat, t: string) returns (changed: seq<string>)
    requires |result| == |layout| && a < b <= |Positions(layout, |layout|)|
    requires forall i :: Edge(Positions(layout, |layout|), a) <= i < |layout| ==> result[i] == [layout[i]]
    ensures Changed(layout, result, changed, a, b, t)
  {
    var p := Positions(layout, |layout|);
    changed := ClearPlaces(p[a..b], result);
    changed := changed[p[a] := t];
    SegmentChanged(layout, result, changed, a, b, t);
  }

  lemma {:induction false} SegmentChanged(layout: string, result: seq<string>, changed: seq<string>, a: nat, b: nat,
      t: string)
    requires |result| == |changed| == |layout| && a < b <= |Positions(layout, |layout|)|
    requires forall i :: Edge(Positions(layout, |layout|), a) <= i < |layout| ==> result[i] == [layout[i]]
    requires var p := Positions(layout, |layout|);
      forall i :: 0 <= i < |layout| ==> changed[i] == if i == p[a] then t else if i in p[a..b] then "" else result[i]
    ensures Changed(layout, result, changed, a, b, t)
  {
    var p := Positions(layout, |layout|);
    SegmentCompact(layout, a, b);
    forall i | Edge(p, a) <= i < Edge(p, b)
      ensures changed[i] == if Space(layout[i]) then [layout[i]] else if i == p[a] then t else ""
    {
      SegmentPlace(layout, a, b, i);
    }
    forall i | 0 <= i < Edge(p, a) || Edge(p, b) <= i < |layout| ensures changed[i] == result[i] {
      OutsidePlace(layout, a, b, i);
    }
  }

  lemma {:induction false} SegmentPlace(layout: string, a: nat, b: nat, i: nat)
    requires a < b <= |Positions(layout, |layout|)|
    requires Edge(Positions(layout, |layout|), a) <= i < Edge(Positions(layout, |layout|), b) <= |layout|
    ensures i in Positions(layout, |layout|)[a..b] <==> !Space(layout[i])
  {
    var p := Positions(layout, |layout|);
    if !Space(layout[i]) {
      PositionsComplete(layout, |layout|, i);
      var k :| 0 <= k < |p| && p[k] == i;
      assert a <= k < b;
      assert p[a..b][k - a] == i;
    }
  }

  lemma {:induction false} OutsidePlace(layout: string, a: nat, b: nat, i: nat)
    requires a < b <= |Positions(layout, |layout|)| && i < |layout|
    requires i < Edge(Positions(layout, |layout|), a) || Edge(Positions(layout, |layout|), b) <= i
    ensures i !in Positions(layout, |layout|)[a..b] && i != Positions(layout, |layout|)[a]
  {
    var p := Positions(layout, |layout|);
    forall k | a <= k < b ensures p[k] != i {
      if a > 0 { assert p[a - 1] < p[k]; }
      if k < b - 1 { assert p[k] < p[b - 1]; }
    }
  }

  /** One opcode; equal text stays as the layout has it. */
  method ApplyOp(layout: string, native: string, ops: seq<Op>, k: nat, result: seq<string>, insertions: map<nat,
      string>)
    returns (changed: seq<string>, more: map<nat, string>)
    requires Solid(native) && Script(ops, Compact(layout), native) && k < |ops|
    requires Progress(layout, native, result, insertions, ops[k].i, ops[k].x)
    ensures Progress(layout, native, changed, more, ops[k].j, ops[k].y)
  {
    var op, positions := ops[k], Positions(layout, |layout|);
    OpProgress(layout, native, ops, k);
    changed, more := result, insertions;
    if op.tag == Equal {
      EqualProgress(layout, native, result, insertions, op.i, op.j, op.x, op.y);
    } else if op.i < op.j {
      changed := ReplaceSegment(layout, result, op.i, op.j, native[op.x..op.y]);
      ChangeProgress(layout, native, result, changed, insertions, op.i, op.j, op.x, op.y);
    } else {
      var at := if op.i > 0 then positions[op.i - 1] + 1 else 0;
      more := insertions[at := Ins(insertions, at) + native[op.x..op.y]];
      InsertProgress(layout, native, result, insertions, more, op.i, op.x, op.y, at);
    }
  }

  method JoinAll(result: seq<string>, insertions: map<nat, string>) returns (text: string)
    ensures text == Emit(result, insertions, |result|)
  {
    text := "";
    var i := 0;
    while i < |result|
      invariant 0 <= i <= |result| && text + Ins(insertions, i) == Emit(result, insertions, i)
    {
      text := text + Ins(insertions, i) + result[i];
      i := i + 1;
    }
    text := text + Ins(insertions, |result|);
  }

  lemma {:induction false} ScriptStart(layout: string, native: string)
    ensures Progress(layout, native, Letters(layout), map[], 0, 0)
  {
    assert layout[..0] == "" && native[..0] == "";
  }

  /** The opcode loop and the final join. */
  method CarryNative(layout: string, native: string, ops: seq<Op>) returns (text: string)
    requires Solid(native) && Script(ops, Compact(layout), native)
    ensures NoSpace(text) == native && OnlySpace(text) == OnlySpace(layout)
  {
    var result := Letters(layout);
    var insertions: map<nat, string> := map[];
    ScriptStart(layout, native);
    ghost var a, c := 0, 0;
    var k := 0;
    while k < |ops|
      invariant 0 <= k <= |ops| && (a, c) == At(ops, k)
      invariant Progress(layout, native, result, insertions, a, c)
    {
      OpProgress(layout, native, ops, k);
      result, insertions := ApplyOp(layout, native, ops, k, result, insertions);
      a, c := ops[k].j, ops[k].y;
      k := k + 1;
    }
    ScriptDone(layout, native, result, insertions);
    text := JoinAll(result, insertions);
  }
}
