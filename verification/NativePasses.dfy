/** The arrow, decimal and accent passes over the carried text, and what they do to its white space
    (src/packages/parsers/fidelity.py, end of `recover_native_text`). */
module NativePasses {
  import opened Wrappers
  import opened Documents
  import opened EditScripts
  import opened NativeText

  const MINUS := '\U{2212}'
  const ARROW := '\U{2192}'

  /** What the three patterns match: a minus and an arrow apart, a decimal with gaps around its point, and
      an accented word with gaps. */
  datatype Match =
    | Arrow(gap: string)
    | Decimal(whole: string, before: string, after: string, fraction: string)
    | Accent(word: string, gaps: seq<string>)

  predicate Fits(m: Match) {
    match m
    case Arrow(gap) => gap != "" && Blank(gap)
    case Decimal(whole, before, after, fraction) =>
      whole != "" && fraction != "" && Solid(whole) && Solid(fraction) && Blank(before) && Blank(after)
    case Accent(word, gaps) => |word| == |gaps| + 1 && Solid(word) && forall k :: 0 <= k < |gaps| ==> Blank(gaps[k])
  }

  /** The word's letters with the gaps between them. */
  function Spaced(word: string, gaps: seq<string>): string
    requires |word| == |gaps| + 1
  {
    if gaps == [] then word
    else Spaced(word[..|gaps|], gaps[..|gaps| - 1]) + gaps[|gaps| - 1] + [word[|gaps|]]
  }

  function Matched(m: Match): string
    requires Fits(m)
  {
    match m
    case Arrow(gap) => [MINUS] + gap + [ARROW]
    case Decimal(whole, before, after, fraction) => whole + before + "." + after + fraction
    case Accent(word, gaps) => Spaced(word, gaps)
  }

  /** The original native text, and which characters count as letters, digits or underscores. */
  datatype Evidence = Evidence(native: string, word: char -> bool)

  /** The number stands in the native text in one piece, with no letter, digit or point beside it. */
  predicate StandsAlone(compact: string, e: Evidence) {
    exists i | 0 <= i <= |e.native| - |compact| :: AloneAt(compact, e, i)
  }

  predicate AloneAt(compact: string, e: Evidence, i: int) {
    && 0 <= i <= |e.native| - |compact| && e.native[i..i + |compact|] == compact
    && (i == 0 || !Beside(e.native[i - 1], e))
    && (i + |compact| == |e.native| || !Beside(e.native[i + |compact|], e))
  }

  predicate Beside(c: char, e: Evidence) {
    e.word(c) || c == '.'
  }

  predicate Proven(m: Match, e: Evidence) {
    m.Decimal? ==> StandsAlone(m.whole + "." + m.fraction, e)
  }

  /** What each pass writes instead. */
  function Replacement(m: Match, e: Evidence): string
    requires Fits(m)
  {
    match m
    case Arrow(_) => [MINUS, ARROW]
    case Decimal(whole, _, _, fraction) =>
      var compact := whole + "." + fraction;
      if StandsAlone(compact, e) then compact else Matched(m)
    case Accent(word, _) => word
  }

  lemma {:induction false} GapDrops(head: string, gap: string, tail: string)
    requires Blank(gap) && Solid(tail)
    ensures NoSpace(head + gap + tail) == NoSpace(head) + tail
  {
    ThreeParts(head, gap, tail);
    BlankText(gap);
    SolidText(tail);
    assert NoSpace(head) + "" == NoSpace(head);
  }

  lemma {:induction false} SpacedText(word: string, gaps: seq<string>)
    requires Fits(Accent(word, gaps))
    ensures NoSpace(Spaced(word, gaps)) == word
  {
    var n := |gaps|;
    if n == 0 {
      SolidText(word);
    } else {
      SpacedText(word[..n], gaps[..n - 1]);
      GapDrops(Spaced(word[..n], gaps[..n - 1]), gaps[n - 1], [word[n]]);
      assert word == word[..n] + [word[n]];
    }
  }

  lemma {:induction false} DecimalText(whole: string, before: string, after: string, fraction: string)
    requires Solid(whole) && Solid(fraction) && Blank(before) && Blank(after)
    ensures NoSpace(whole + before + "." + after + fraction) == whole + "." + fraction
  {
    GapDrops(whole, before, ".");
    SolidText(whole);
    GapDrops(whole + before + ".", after, fraction);
  }

  lemma {:induction false} DotText(whole: string, fraction: string)
    requires Solid(whole) && Solid(fraction)
    ensures NoSpace(whole + "." + fraction) == whole + "." + fraction
  {
    SolidText(whole + "." + fraction);
  }

  lemma {:induction false} ArrowText(gap: string)
    requires Blank(gap)
    ensures NoSpace([MINUS] + gap + [ARROW]) == [MINUS, ARROW]
  {
    SolidText([MINUS]);
    GapDrops([MINUS], gap, [ARROW]);
    assert [MINUS] + [ARROW] == [MINUS, ARROW];
  }

  /** Every replacement is the match without its white space, save an unproven decimal, which stays. */
  lemma {:induction false} ReplacementKeepsText(m: Match, e: Evidence)
    requires Fits(m)
    ensures Replacement(m, e) == (if Proven(m, e) then NoSpace(Matched(m)) else Matched(m))
    ensures NoSpace(Replacement(m, e)) == NoSpace(Matched(m))
  {
    if m.Arrow? {
      ArrowText(m.gap);
      SolidText([MINUS, ARROW]);
    } else if m.Decimal? {
      DecimalText(m.whole, m.before, m.after, m.fraction);
      DotText(m.whole, m.fraction);
    } else {
      SpacedText(m.word, m.gaps);
      SolidText(m.word);
    }
  }

  /** The white space before each visible character, and behind the last. */
  function Gaps(s: string): (g: seq<string>)
    ensures |g| == |NoSpace(s)| + 1
  {
    if s == "" then [""]
    else
      var before, c := Gaps(s[..|s| - 1]), s[|s| - 1];
      if Space(c) then before[|before| - 1 := before[|before| - 1] + [c]] else before + [""]
  }

  /** Visible characters with white space between them. */
  function Weave(visible: string, gaps: seq<string>): string
    requires |gaps| == |visible| + 1
  {
    if visible == "" then gaps[0]
    else Weave(visible[..|visible| - 1], gaps[..|visible|]) + [visible[|visible| - 1]] + gaps[|visible|]
  }

  /** A text is its visible characters and its gaps. */
  lemma {:induction false} TextIsWoven(s: string)
    ensures Weave(NoSpace(s), Gaps(s)) == s
  {
    if s != "" {
      var n := |s| - 1;
      var v, g := NoSpace(s[..n]), Gaps(s[..n]);
      TextIsWoven(s[..n]);
      if Space(s[n]) {
        assert NoSpace(s) == v + "" == v;
        LastGapGrows(v, g, [s[n]]);
      } else {
        assert NoSpace(s) == v + [s[n]] && (v + [s[n]])[..|v|] == v && (g + [""])[..|v| + 1] == g;
        assert Weave(v + [s[n]], g + [""]) == s[..n] + [s[n]] + "";
      }
      assert s == s[..n] + [s[n]];
    }
  }

  lemma {:induction false} LastGapGrows(v: string, g: seq<string>, more: string)
    requires |g| == |v| + 1
    ensures Weave(v, g[|v| := g[|v|] + more]) == Weave(v, g) + more
  {
    if v != "" { assert g[|v| := g[|v|] + more][..|v|] == g[..|v|]; }
  }

  /** The gaps of two texts in a row: the last of the first and the first of the second run together. */
  function JoinGaps(a: seq<string>, b: seq<string>): (g: seq<string>)
    requires a != [] && b != []
    ensures |g| == |a| + |b| - 1
  {
    a[..|a| - 1] + [a[|a| - 1] + b[0]] + b[1..]
  }

  lemma {:induction false} GapsConcat(a: string, b: string)
    ensures Gaps(a + b) == JoinGaps(Gaps(a), Gaps(b))
  {
    if b == "" {
      assert a + b == a;
      var g := Gaps(a);
      assert g[|g| - 1] + "" == g[|g| - 1];
    } else {
      var n := |b| - 1;
      assert (a + b)[..|a + b| - 1] == a + b[..n] && (a + b)[|a + b| - 1] == b[n];
      GapsConcat(a, b[..n]);
      JoinStep(Gaps(a), Gaps(b[..n]), b[n]);
    }
  }

  lemma {:induction false} JoinStep(a: seq<string>, b: seq<string>, c: char)
    requires a != [] && b != []
    ensures JoinGaps(a, b + [""]) == JoinGaps(a, b) + [""]
    ensures var j, m := JoinGaps(a, b), |b| - 1;
      JoinGaps(a, b[m := b[m] + [c]]) == j[|j| - 1 := j[|j| - 1] + [c]]
  {
    var j, m := JoinGaps(a, b), |b| - 1;
    if m == 0 {
      assert a[|a| - 1] + (b[0] + [c]) == a[|a| - 1] + b[0] + [c];
    } else {
      assert b[m := b[m] + [c]][1..] == b[1..][m - 1 := b[m] + [c]];
    }
  }

  /** No white space between the first and the last character. */
  ghost predicate Compacted(g: seq<string>) {
    forall k :: 0 <= k < |g| ==> g[k] == ""
  }

  lemma {:induction false} SolidGaps(s: string)
    requires Solid(s)
    ensures Compacted(Gaps(s))
  {
    if s != "" { SolidGaps(s[..|s| - 1]); }
  }

  /** A match and where it lies. */
  datatype Span = Span(start: nat, end: nat, found: Match)

  predicate Matches(spans: seq<Span>, from: nat, text: string) {
    if spans == [] then from <= |text|
    else
      && from <= spans[0].start <= spans[0].end <= |text| && Fits(spans[0].found)
      && text[spans[0].start..spans[0].end] == Matched(spans[0].found) && Matches(spans[1..], spans[0].end, text)
  }

  /** `re.sub`: each match gives way to its replacement. */
  function Substitute(text: string, spans: seq<Span>, from: nat, e: Evidence): string
    requires Matches(spans, from, text)
    decreases |spans|
  {
    if spans == [] then text[from..]
    else
      text[from..spans[0].start] + Replacement(spans[0].found, e) + Substitute(text, spans[1..], spans[0].end, e)
  }

  lemma {:induction false} CutInThree(text: string, from: nat, start: nat, end: nat)
    requires from <= start <= end <= |text|
    ensures text[from..] == text[from..start] + text[start..end] + text[end..]
  {}

  lemma {:induction false} SubstituteStep(head: string, mid: string, put: string, rest: string, tail: string)
    requires NoSpace(rest) == NoSpace(tail) && NoSpace(put) == NoSpace(mid)
    ensures NoSpace(head + put + rest) == NoSpace(head + mid + tail)
  {
    ThreeParts(head, put, rest);
    ThreeParts(head, mid, tail);
  }

  /** The passes delete white space only. */
  lemma {:induction false} SubstituteKeepsText(text: string, spans: seq<Span>, from: nat, e: Evidence)
    requires Matches(spans, from, text)
    ensures from <= |text| && NoSpace(Substitute(text, spans, from, e)) == NoSpace(text[from..])
    decreases |spans|
  {
    if spans != [] {
      var s := spans[0];
      SubstituteKeepsText(text, spans[1..], s.end, e);
      ReplacementKeepsText(s.found, e);
      SubstituteStep(text[from..s.start], text[s.start..s.end], Replacement(s.found, e),
        Substitute(text, spans[1..], s.end, e), text[s.end..]);
      CutInThree(text, from, s.start, s.end);
    }
  }

  /** Gap `k` of `text[from..]` lies strictly inside the match, and the evidence proves the match. */
  predicate Encloses(text: string, s: Span, from: nat, e: Evidence, k: nat) {
    && from <= s.start <= |text| && Fits(s.found) && Proven(s.found, e)
    && var h := |NoSpace(text[from..s.start])|; h < k < h + |NoSpace(Matched(s.found))|
  }

  ghost predicate Inside(text: string, spans: seq<Span>, from: nat, e: Evidence, k: nat) {
    exists j | 0 <= j < |spans| :: Encloses(text, spans[j], from, e, k)
  }

  lemma {:induction false} SpanLies(text: string, spans: seq<Span>, from: nat, j: nat)
    requires Matches(spans, from, text) && j < |spans|
    ensures from <= spans[j].start <= spans[j].end <= |text| && Fits(spans[j].found)
    ensures text[spans[j].start..spans[j].end] == Matched(spans[j].found)
    decreases |spans|
  {
    if j > 0 { SpanLies(text, spans[1..], spans[0].end, j - 1); }
  }

  lemma {:induction false} EnclosesFrom(text: string, s: Span, from: nat, mid: nat, e: Evidence, k: nat, n: nat)
    requires from <= mid <= s.start <= |text| && n == |NoSpace(text[from..mid])|
    ensures Encloses(text, s, from, e, k) <==> k >= n && Encloses(text, s, mid, e, k - n)
  {
    assert text[from..s.start] == text[from..mid] + text[mid..s.start];
    SplitConcat(text[from..mid], text[mid..s.start]);
  }

  lemma {:induction false} InsideFrom(text: string, spans: seq<Span>, from: nat, mid: nat, e: Evidence, k: nat, n: nat)
    requires from <= mid <= |text| && Matches(spans, mid, text) && n == |NoSpace(text[from..mid])|
    ensures Inside(text, spans, from, e, k) <==> k >= n && Inside(text, spans, mid, e, k - n)
  {
    forall j | 0 <= j < |spans|
      ensures Encloses(text, spans[j], from, e, k) <==> k >= n && Encloses(text, spans[j], mid, e, k - n)
    {
      SpanLies(text, spans, mid, j);
      EnclosesFrom(text, spans[j], from, mid, e, k, n);
    }
  }

  lemma {:induction false} InsideFirst(text: string, spans: seq<Span>, from: nat, e: Evidence, k: nat)
    requires spans != []
    ensures Inside(text, spans, from, e, k)
      <==> Encloses(text, spans[0], from, e, k) || Inside(text, spans[1..], from, e, k)
  {
    forall j | 1 <= j < |spans| ensures spans[j] == spans[1..][j - 1] {}
    if Inside(text, spans[1..], from, e, k) {
      var j :| 0 <= j < |spans| - 1 && Encloses(text, spans[1..][j], from, e, k);
      assert Encloses(text, spans[j + 1], from, e, k);
    }
  }

  /** A match begins and ends with a visible character. */
  lemma {:induction false} MatchEnds(m: Match)
    requires Fits(m)
    ensures var s := Matched(m); s != "" && !Space(s[0]) && !Space(s[|s| - 1])
  {
    if m.Accent? { SpacedEnds(m.word, m.gaps); }
  }

  lemma {:induction false} SpacedEnds(word: string, gaps: seq<string>)
    requires |word| == |gaps| + 1
    ensures var s := Spaced(word, gaps); s != "" && s[0] == word[0] && s[|s| - 1] == word[|gaps|]
  {
    if gaps != [] { SpacedEnds(word[..|gaps|], gaps[..|gaps| - 1]); }
  }

  lemma {:induction false} OuterGaps(s: string)
    requires s != "" && !Space(s[0]) && !Space(s[|s| - 1])
    ensures |Gaps(s)| >= 2 && Gaps(s)[0] == "" && Gaps(s)[|Gaps(s)| - 1] == ""
  {
    FirstGap(s);
    assert Gaps(s)[|Gaps(s)| - 1] == "";
  }

  lemma {:induction false} FirstGap(s: string)
    requires s != "" && !Space(s[0])
    ensures |Gaps(s)| >= 2 && Gaps(s)[0] == ""
  {
    if |s| > 1 { FirstGap(s[..|s| - 1]); } else { assert s[..0] == ""; }
  }

  lemma {:induction false} JoinThree(a: seq<string>, b: seq<string>, c: seq<string>, k: nat)
    requires a != [] && |b| >= 2 && c != [] && b[0] == "" && b[|b| - 1] == "" && k < |a| + |b| + |c| - 2
    ensures var h, m := |a| - 1, |b| - 1;
      JoinGaps(JoinGaps(a, b), c)[k]
        == if k <= h then a[k] else if k < h + m then b[k - h] else c[k - h - m]
  {
    assert a[|a| - 1] + "" == a[|a| - 1];
    assert "" + c[0] == c[0];
  }

  lemma {:induction false} GapsOfThree(a: string, b: string, c: string)
    ensures Gaps(a + b + c) == JoinGaps(JoinGaps(Gaps(a), Gaps(b)), Gaps(c))
  {
    GapsConcat(a, b);
    GapsConcat(a + b, c);
  }

  lemma {:induction false} ReplacementGaps(m: Match, e: Evidence, k: nat)
    requires Fits(m) && 0 < k < |NoSpace(Matched(m))|
    ensures var g := Gaps(Replacement(m, e));
      |g| == |Gaps(Matched(m))| && g[k] == if Proven(m, e) then "" else Gaps(Matched(m))[k]
  {
    ReplacementKeepsText(m, e);
    if Proven(m, e) {
      NoSpaceIsSolid(Matched(m));
      SolidGaps(NoSpace(Matched(m)));
    }
  }

  lemma {:induction false} NoSpaceIsSolid(s: string)
    ensures Solid(NoSpace(s))
  {
    if s != "" { NoSpaceIsSolid(s[..|s| - 1]); }
  }

  lemma {:induction false} ReplacementEnds(m: Match, e: Evidence)
    requires Fits(m)
    ensures var s, g := Gaps(Replacement(m, e)), Gaps(Matched(m));
      |s| == |g| >= 2 && s[0] == "" == g[0] && s[|s| - 1] == "" == g[|g| - 1]
  {
    MatchEnds(m);
    OuterGaps(Matched(m));
    ReplacementKeepsText(m, e);
    if Proven(m, e) {
      NoSpaceIsSolid(Matched(m));
      SolidGaps(NoSpace(Matched(m)));
    }
  }

  /** What one pass does to the white space: the gaps inside its proven matches close, and every other
      gap stays as it was. */
  ghost predicate Passed(text: string, spans: seq<Span>, from: nat, e: Evidence, r: string)
    requires Matches(spans, from, text)
  {
    && from <= |text| && NoSpace(r) == NoSpace(text[from..])
    && forall k :: 0 <= k < |Gaps(r)| ==> GapPassed(text, spans, from, e, r, k)
  }

  ghost predicate GapPassed(text: string, spans: seq<Span>, from: nat, e: Evidence, r: string, k: nat)
    requires Matches(spans, from, text) && from <= |text| && NoSpace(r) == NoSpace(text[from..])
      && k < |Gaps(r)|
  {
    Gaps(r)[k] == if Inside(text, spans, from, e, k) then "" else Gaps(text[from..])[k]
  }

  lemma {:induction false} SubstitutePasses(text: string, spans: seq<Span>, from: nat, e: Evidence)
    requires Matches(spans, from, text)
    ensures Passed(text, spans, from, e, Substitute(text, spans, from, e))
    decreases |spans|
  {
    SubstituteKeepsText(text, spans, from, e);
    if spans != [] {
      var s := spans[0];
      var rest := Substitute(text, spans[1..], s.end, e);
      SubstitutePasses(text, spans[1..], s.end, e);
      CutInThree(text, from, s.start, s.end);
      var r := Substitute(text, spans, from, e);
      forall k | 0 <= k < |Gaps(r)| ensures GapPassed(text, spans, from, e, r, k) {
        SubstituteGap(text, spans, from, e, k);
      }
    }
  }

  lemma {:induction false} SpanPlace(text: string, from: nat, s: Span, to: nat)
    requires from <= s.start <= s.end <= to <= |text| && Fits(s.found) && text[s.start..s.end] == Matched(s.found)
    ensures |NoSpace(text[from..to])|
      == |NoSpace(text[from..s.start])| + |NoSpace(Matched(s.found))| + |NoSpace(text[s.end..to])|
  {
    assert text[from..to] == text[from..s.start] + Matched(s.found) + text[s.end..to];
    ThreeParts(text[from..s.start], Matched(s.found), text[s.end..to]);
  }

  /** A gap lies inside the first match, or behind it inside a later one. */
  lemma {:induction false} InsideSplits(text: string, spans: seq<Span>, from: nat, e: Evidence, k: nat, h: nat, m: nat)
    requires Matches(spans, from, text) && spans != []
    requires h == |NoSpace(text[from..spans[0].start])| && m == |NoSpace(Matched(spans[0].found))|
    ensures Inside(text, spans, from, e, k) <==>
      if k <= h then false else if k < h + m then Proven(spans[0].found, e)
      else Inside(text, spans[1..], spans[0].end, e, k - h - m)
  {
    var s := spans[0];
    SpanPlace(text, from, s, s.end);
    assert text[s.end..s.end] == "";
    InsideFrom(text, spans[1..], from, s.end, e, k, h + m);
    InsideFirst(text, spans, from, e, k);
    if k >= h + m { NeverFirst(text, spans[1..], s.end, e); }
  }

  lemma {:induction false} NeverFirst(text: string, spans: seq<Span>, from: nat, e: Evidence)
    ensures !Inside(text, spans, from, e, 0)
  {}

  lemma {:induction false} SubstituteGap(text: string, spans: seq<Span>, from: nat, e: Evidence, k: nat)
    requires Matches(spans, from, text) && spans != [] && from <= |text|
    requires NoSpace(Substitute(text, spans, from, e)) == NoSpace(text[from..])
    requires k < |Gaps(Substitute(text, spans, from, e))|
    requires spans[0].end <= |text|
      && Passed(text, spans[1..], spans[0].end, e, Substitute(text, spans[1..], spans[0].end, e))
    ensures GapPassed(text, spans, from, e, Substitute(text, spans, from, e), k)
  {
    var s := spans[0];
    var rest := Substitute(text, spans[1..], s.end, e);
    var head, mid, put, tail := text[from..s.start], Matched(s.found), Replacement(s.found, e), text[s.end..];
    CutInThree(text, from, s.start, s.end);
    GapsOfThree(head, mid, tail);
    GapsOfThree(head, put, rest);
    ReplacementEnds(s.found, e);
    JoinThree(Gaps(head), Gaps(mid), Gaps(tail), k);
    JoinThree(Gaps(head), Gaps(put), Gaps(rest), k);
    var h, m := |NoSpace(head)|, |NoSpace(mid)|;
    InsideSplits(text, spans, from, e, k, h, m);
    if h < k < h + m { ReplacementGaps(s.found, e, k - h); }
    else if h + m <= k { assert GapPassed(text, spans[1..], s.end, e, rest, k - h - m); }
  }

  lemma {:induction false} SubstituteOnce(r: string, text: string, spans: seq<Span>, from: nat, e: Evidence,
      whole: string)
    requires Matches(spans, from, text) && spans != [] && r + Substitute(text, spans, from, e) == whole
    ensures r + (text[from..spans[0].start] + Replacement(spans[0].found, e))
      + Substitute(text, spans[1..], spans[0].end, e) == whole
  {}

  /** One pass over its matches. */
  method ReplaceMatches(text: string, spans: seq<Span>, e: Evidence) returns (r: string)
    requires Matches(spans, 0, text)
    ensures Passed(text, spans, 0, e, r)
  {
    ghost var whole := Substitute(text, spans, 0, e);
    var from: nat := 0;
    var rest := spans;
    r := "";
    while rest != []
      invariant Matches(rest, from, text) && r + Substitute(text, rest, from, e) == whole
      decreases |rest|
    {
      SubstituteOnce(r, text, rest, from, e, whole);
      r := r + (text[from..rest[0].start] + Replacement(rest[0].found, e));
      from := rest[0].end;
      rest := rest[1..];
    }
    r := r + text[from..];
    SubstitutePasses(text, spans, 0, e);
  }

  /** The last character that is no white space. */
  function LastVisible(s: string): (r: Option<char>) {
    if s == "" then None else if Space(s[|s| - 1]) then LastVisible(s[..|s| - 1]) else Some(s[|s| - 1])
  }

  /** Arrows with a minus before them, white space apart: what the pattern finds. */
  function JoinedArrows(s: string): nat {
    if s == "" then 0
    else
      var n := |s| - 1;
      JoinedArrows(s[..n]) + if s[n] == ARROW && LastVisible(s[..n]) == Some(MINUS) then 1 else 0
  }

  /** Adjoining minus and arrow glyphs. */
  function Composites(s: string): nat {
    if s == "" then 0
    else
      var n := |s| - 1;
      Composites(s[..n]) + if s[n] == ARROW && n > 0 && s[n - 1] == MINUS then 1 else 0
  }

  lemma {:induction false} LastVisibleText(s: string)
    ensures var v := NoSpace(s); LastVisible(s) == if v == "" then None else Some(v[|v| - 1])
  {
    if s != "" { LastVisibleText(s[..|s| - 1]); }
  }

  /** The pattern finds an arrow wherever the text has one when its white space is dropped. */
  lemma {:induction false} ArrowsAreComposites(s: string)
    ensures JoinedArrows(s) == Composites(NoSpace(s))
  {
    if s != "" {
      var n := |s| - 1;
      var v := NoSpace(s[..n]);
      ArrowsAreComposites(s[..n]);
      LastVisibleText(s[..n]);
      if Space(s[n]) { assert NoSpace(s) == v + "" == v; }
      else { assert NoSpace(s) == v + [s[n]] && (v + [s[n]])[..|v|] == v; }
    }
  }

  /** The first visible position at or behind `i`. */
  function NextVisible(text: string, i: nat): (j: nat)
    requires i <= |text|
    ensures i <= j <= |text| && Blank(text[i..j]) && (j < |text| ==> !Space(text[j]))
    decreases |text| - i
  {
    if i < |text| && Space(text[i]) then
      var j := NextVisible(text, i + 1);
      assert text[i..j] == [text[i]] + text[i + 1..j];
      j
    else i
  }

  /** The matches of the arrow pattern, left to right. */
  function ArrowSpans(text: string, from: nat): (spans: seq<Span>)
    requires from <= |text|
    decreases |text| - from
  {
    if from == |text| then []
    else
      var j := NextVisible(text, from + 1);
      if ArrowHere(text, from, j) then [ArrowSpan(text, from, j)] + ArrowSpans(text, j + 1)
      else ArrowSpans(text, from + 1)
  }

  predicate ArrowHere(text: string, i: nat, j: nat) {
    i + 1 < j < |text| && text[i] == MINUS && text[j] == ARROW
  }

  function ArrowSpan(text: string, i: nat, j: nat): Span
    requires ArrowHere(text, i, j)
  {
    Span(i, j + 1, Arrow(text[i + 1..j]))
  }

  lemma {:induction false} MatchesFirst(s: Span, rest: seq<Span>, from: nat, text: string)
    requires from <= s.start <= s.end <= |text| && Fits(s.found) && text[s.start..s.end] == Matched(s.found)
    requires Matches(rest, s.end, text)
    ensures Matches([s] + rest, from, text)
  {
    assert ([s] + rest)[1..] == rest;
  }

  lemma {:induction false} ArrowMatches(text: string, i: nat, j: nat)
    requires ArrowHere(text, i, j) && Blank(text[i + 1..j])
    ensures var m := ArrowSpan(text, i, j).found; Fits(m) && text[i..j + 1] == Matched(m)
  {
    assert text[i..j + 1] == [MINUS] + text[i + 1..j] + [ARROW];
  }

  lemma {:induction false} SpansUnfold(text: string, from: nat)
    requires from < |text|
    ensures var j := NextVisible(text, from + 1);
      ArrowSpans(text, from) == if ArrowHere(text, from, j) then [ArrowSpan(text, from, j)] + ArrowSpans(text, j + 1)
        else ArrowSpans(text, from + 1)
  {}

  ghost predicate ArrowsMatch(text: string, from: nat) {
    from <= |text| && Matches(ArrowSpans(text, from), from, text)
  }

  lemma {:induction false} HereMatches(text: string, from: nat, j: nat, spans: seq<Span>)
    requires ArrowHere(text, from, j) && j == NextVisible(text, from + 1) && Matches(spans, j + 1, text)
    ensures Matches([ArrowSpan(text, from, j)] + spans, from, text)
  {
    ArrowMatches(text, from, j);
    MatchesFirst(ArrowSpan(text, from, j), spans, from, text);
  }

  lemma {:induction false} SpansHere(text: string, from: nat, j: nat)
    requires ArrowHere(text, from, j) && j == NextVisible(text, from + 1) && ArrowsMatch(text, j + 1)
    ensures ArrowsMatch(text, from)
  {
    SpansUnfold(text, from);
    HereMatches(text, from, j, ArrowSpans(text, j + 1));
  }

  lemma {:induction false} SpansLater(text: string, from: nat)
    requires from < |text| && !ArrowHere(text, from, NextVisible(text, from + 1)) && ArrowsMatch(text, from + 1)
    ensures ArrowsMatch(text, from)
  {
    SpansUnfold(text, from);
    MatchesFromEarlier(ArrowSpans(text, from + 1), from, from + 1, text);
  }

  lemma {:induction false} SpansMatch(text: string, from: nat)
    requires from <= |text|
    ensures ArrowsMatch(text, from)
    decreases |text| - from
  {
    if from < |text| {
      var j := NextVisible(text, from + 1);
      if ArrowHere(text, from, j) {
        SpansMatch(text, j + 1);
        SpansHere(text, from, j);
      } else {
        SpansMatch(text, from + 1);
        SpansLater(text, from);
      }
    }
  }

  lemma {:induction false} MatchesFromEarlier(spans: seq<Span>, from: nat, mid: nat, text: string)
    requires from <= mid && Matches(spans, mid, text)
    ensures Matches(spans, from, text)
  {}

  lemma {:induction false} NextIs(text: string, i: nat, p: nat)
    requires i <= p < |text| && Blank(text[i..p]) && !Space(text[p])
    ensures NextVisible(text, i) == p
    decreases p - i
  {
    if i < p {
      assert Space(text[i..p][0]);
      assert text[i + 1..p] == text[i..p][1..];
      NextIs(text, i + 1, p);
    }
  }

  /** The arrow pattern reports every minus that white space keeps from its arrow. */
  lemma {:induction false} ArrowIsReported(text: string, from: nat, i: nat, p: nat)
    requires from <= i && ArrowHere(text, i, p) && Blank(text[i + 1..p])
    ensures ArrowSpan(text, i, p) in ArrowSpans(text, from)
    decreases i - from
  {
    var j := NextVisible(text, from + 1);
    if from == i {
      NextIs(text, i + 1, p);
    } else if ArrowHere(text, from, j) {
      NotBefore(text, from + 1, j, i);
      ArrowIsReported(text, j + 1, i, p);
    } else {
      ArrowIsReported(text, from + 1, i, p);
    }
  }

  lemma {:induction false} NotBefore(text: string, from: nat, j: nat, i: nat)
    requires from <= i < |text| && from <= j < |text| && Blank(text[from..j]) && text[i] == MINUS && text[j] == ARROW
    ensures j < i
  {}

  /** Where a visible character lies. */
  lemma {:induction false} VisiblePlace(text: string, k: nat) returns (p: nat)
    requires k < |NoSpace(text)|
    ensures p < |text| && text[p] == NoSpace(text)[k] && !Space(text[p]) && |NoSpace(text[..p])| == k
  {
    var n := |text| - 1;
    if k < |NoSpace(text[..n])| {
      p := VisiblePlace(text[..n], k);
      assert text[..p] == text[..n][..p];
    } else {
      p := n;
    }
  }

  lemma {:induction false} CountTo(text: string, i: nat, p: nat)
    requires i <= p <= |text|
    ensures |NoSpace(text[..p])| == |NoSpace(text[..i])| + |NoSpace(text[i..p])|
  {
    assert text[..p] == text[..i] + text[i..p];
    SplitConcat(text[..i], text[i..p]);
  }

  lemma {:induction false} OneText(s: string)
    requires |s| == 1
    ensures NoSpace(s) == if Space(s[0]) then "" else s
  {
    assert s[..0] == "";
  }

  lemma {:induction false} NothingVisible(s: string)
    requires NoSpace(s) == ""
    ensures Blank(s)
  {
    if s != "" {
      NothingVisible(s[..|s| - 1]);
      assert s == s[..|s| - 1] + [s[|s| - 1]];
    }
  }

  /** Between visible neighbours there is white space only. */
  lemma {:induction false} BlankBetween(text: string, i: nat, p: nat)
    requires i < |text| && p < |text| && !Space(text[i])
    requires |NoSpace(text[..p])| == |NoSpace(text[..i])| + 1
    ensures i < p && Blank(text[i + 1..p])
  {
    if p <= i { CountTo(text, p, i); }
    CountTo(text, i, i + 1);
    OneText(text[i..i + 1]);
    CountTo(text, i + 1, p);
    NothingVisible(text[i + 1..p]);
  }

  /** Adjoining visible characters have no gap between them. */
  lemma {:induction false} AdjoiningGap(text: string, p: nat)
    requires 0 < p < |text| && !Space(text[p - 1]) && !Space(text[p])
    ensures var k := |NoSpace(text[..p])|; k < |Gaps(text)| && Gaps(text)[k] == ""
  {
    assert text == text[..p] + text[p..];
    GapsConcat(text[..p], text[p..]);
    SplitConcat(text[..p], text[p..]);
    FirstGap(text[p..]);
    var g := Gaps(text[..p]);
    assert g[|g| - 1] == "";
    assert "" + "" == "";
  }

  /** A minus stands directly before an arrow at gap `k`, white space apart. */
  predicate ArrowAt(visible: string, k: nat) {
    0 < k < |visible| && visible[k - 1] == MINUS && visible[k] == ARROW
  }

  /** The arrow pass closes the gap between every minus and its arrow. */
  lemma {:induction false} ArrowIsClosed(text: string, e: Evidence, k: nat)
    requires ArrowAt(NoSpace(text), k)
    ensures Gaps(text)[k] == "" || Inside(text, ArrowSpans(text, 0), 0, e, k)
  {
    var i := VisiblePlace(text, k - 1);
    var p := VisiblePlace(text, k);
    BlankBetween(text, i, p);
    if p == i + 1 {
      AdjoiningGap(text, p);
    } else {
      ArrowIsReported(text, 0, i, p);
      ArrowEncloses(text, i, p, e);
      MemberEncloses(text, ArrowSpans(text, 0), ArrowSpan(text, i, p), e, k);
    }
  }

  lemma {:induction false} MemberEncloses(text: string, spans: seq<Span>, s: Span, e: Evidence, k: nat)
    requires s in spans && Encloses(text, s, 0, e, k)
    ensures Inside(text, spans, 0, e, k)
  {}

  lemma {:induction false} ArrowEncloses(text: string, i: nat, p: nat, e: Evidence)
    requires ArrowHere(text, i, p) && Blank(text[i + 1..p])
    ensures Encloses(text, ArrowSpan(text, i, p), 0, e, |NoSpace(text[..i])| + 1)
  {
    assert text[0..i] == text[..i];
    ArrowText(text[i + 1..p]);
  }

  /** From its visible place `h` on the text shows `piece` without a gap. */
  ghost predicate InOnePiece(text: string, h: nat, piece: string) {
    exists p | 0 <= p <= |text| - |piece| :: PieceAt(text, h, piece, p)
  }

  predicate PieceAt(text: string, h: nat, piece: string, p: int) {
    0 <= p <= |text| - |piece| && text[p..p + |piece|] == piece && |NoSpace(text[..p])| == h
  }

  /** Every gap strictly between the visible places is closed. */
  ghost predicate Closed(text: string, h: nat, m: nat)
    requires h + m <= |NoSpace(text)|
  {
    forall k :: h < k < h + m ==> Gaps(text)[k] == ""
  }

  /** Where every inner gap is closed, the text shows its characters in one piece. */
  lemma {:induction false} ClosedGaps(text: string, h: nat, m: nat) returns (p: nat)
    requires 0 < m && h + m <= |NoSpace(text)| && Closed(text, h, m)
    ensures PieceAt(text, h, NoSpace(text)[h..h + m], p)
    ensures h + m == |NoSpace(text)| && Gaps(text)[h + m] == "" ==> p + m == |text|
  {
    var n := |text| - 1;
    var init := text[..n];
    assert text == init + [text[n]];
    VisibleEnds(init, text[n], h, m);
    if h + m <= |NoSpace(init)| {
      ClosedBefore(text, h, m);
      p := ClosedGaps(init, h, m);
      PieceStays(init, text[n], h, NoSpace(init)[h..h + m], p);
      BlankEnd(text);
    } else if m == 1 {
      p := n;
    } else {
      ClosedBefore(text, h, m - 1);
      assert Gaps(text)[h + m - 1] == "";
      p := ClosedGaps(init, h, m - 1);
      PieceGrows(init, text[n], h, NoSpace(init)[h..h + m - 1], p);
    }
  }

  lemma {:induction false} ClosedBefore(text: string, h: nat, m: nat)
    requires text != "" && h + m <= |NoSpace(text[..|text| - 1])| <= |NoSpace(text)| && Closed(text, h, m)
    ensures Closed(text[..|text| - 1], h, m)
  {
    var init := text[..|text| - 1];
    assert forall k :: h < k < h + m ==> Gaps(init)[k] == Gaps(text)[k];
  }

  lemma {:induction false} BlankEnd(text: string)
    requires text != ""
    ensures Gaps(text)[|NoSpace(text)|] == "" ==> !Space(text[|text| - 1])
  {}

  lemma {:induction false} VisibleEnds(init: string, c: char, h: nat, m: nat)
    requires 0 < m && h + m <= |NoSpace(init + [c])|
    ensures NoSpace(init + [c])[h..h + m]
      == if h + m <= |NoSpace(init)| then NoSpace(init)[h..h + m] else NoSpace(init)[h..h + m - 1] + [c]
    ensures h + m > |NoSpace(init)| ==> !Space(c)
  {
    assert (init + [c])[..|init|] == init;
    var v := NoSpace(init);
    if Space(c) {
      assert v + "" == v;
    } else if h + m <= |v| {
      assert (v + [c])[h..h + m] == v[h..h + m];
    } else {
      assert (v + [c])[h..h + m] == v[h..] + [c] && v[h..h + m - 1] == v[h..];
    }
  }

  lemma {:induction false} PieceGrows(init: string, c: char, h: nat, piece: string, p: nat)
    requires PieceAt(init, h, piece, p) && p + |piece| == |init|
    ensures PieceAt(init + [c], h, piece + [c], p)
  {
    assert (init + [c])[..p] == init[..p];
    assert (init + [c])[p..] == init[p..] + [c];
  }

  lemma {:induction false} PieceStays(init: string, c: char, h: nat, piece: string, p: nat)
    requires PieceAt(init, h, piece, p)
    ensures PieceAt(init + [c], h, piece, p)
  {
    assert (init + [c])[..p] == init[..p];
    assert (init + [c])[p..p + |piece|] == init[p..p + |piece|];
  }

  /** Where a pass finds its pattern in a text. */
  type Finder = string -> seq<Span>

  ghost predicate Finds(f: Finder) {
    forall s :: Matches(f(s), 0, s)
  }

  /** The texts from pass to pass. */
  ghost predicate Stages(passes: seq<Finder>, e: Evidence, texts: seq<string>) {
    && |texts| == |passes| + 1 && (forall k :: 0 <= k < |passes| ==> Finds(passes[k]))
    && forall k :: 0 <= k < |passes| ==> StageAt(passes, e, texts, k)
  }

  ghost predicate StageAt(passes: seq<Finder>, e: Evidence, texts: seq<string>, k: nat)
    requires |texts| == |passes| + 1 && k < |passes| && Finds(passes[k])
  {
    Passed(texts[k], passes[k](texts[k]), 0, e, texts[k + 1])
  }

  /** Gap `k` lies strictly inside a proven match of pass `i`. */
  ghost predicate HitBy(passes: seq<Finder>, e: Evidence, texts: seq<string>, i: nat, k: nat)
    requires Stages(passes, e, texts) && i < |passes|
  {
    Inside(texts[i], passes[i](texts[i]), 0, e, k)
  }

  lemma {:induction false} StageKeeps(passes: seq<Finder>, e: Evidence, texts: seq<string>, i: nat)
    requires Stages(passes, e, texts) && i < |passes|
    ensures NoSpace(texts[i + 1]) == NoSpace(texts[i])
    ensures forall k :: 0 <= k < |Gaps(texts[i])| ==>
      Gaps(texts[i + 1])[k] == if HitBy(passes, e, texts, i, k) then "" else Gaps(texts[i])[k]
  {
    assert StageAt(passes, e, texts, i);
    assert texts[i][0..] == texts[i];
    forall k | 0 <= k < |Gaps(texts[i])|
      ensures Gaps(texts[i + 1])[k] == if HitBy(passes, e, texts, i, k) then "" else Gaps(texts[i])[k]
    {
      assert GapPassed(texts[i], passes[i](texts[i]), 0, e, texts[i + 1], k);
    }
  }

  lemma {:induction false} StagesKeepText(passes: seq<Finder>, e: Evidence, texts: seq<string>, i: nat, n: nat)
    requires Stages(passes, e, texts) && i <= n <= |passes|
    ensures NoSpace(texts[n]) == NoSpace(texts[i])
    decreases n - i
  {
    if i < n {
      StageKeeps(passes, e, texts, n - 1);
      StagesKeepText(passes, e, texts, i, n - 1);
    }
  }

  /** A gap that one pass closed stays closed. */
  lemma {:induction false} ClosedStays(passes: seq<Finder>, e: Evidence, texts: seq<string>, i: nat, n: nat, k: nat)
    requires Stages(passes, e, texts) && i <= n <= |passes| && k < |Gaps(texts[i])| && Gaps(texts[i])[k] == ""
    ensures k < |Gaps(texts[n])| && Gaps(texts[n])[k] == ""
    decreases n - i
  {
    if i < n {
      ClosedStays(passes, e, texts, i, n - 1, k);
      StageKeeps(passes, e, texts, n - 1);
    }
  }

  /** White space that lies in no proven match is what the carried text had there. */
  lemma {:induction false} OtherSpaceStays(passes: seq<Finder>, e: Evidence, texts: seq<string>, n: nat, k: nat)
    requires Stages(passes, e, texts) && n <= |passes| && k < |Gaps(texts[0])|
    requires forall i :: 0 <= i < n ==> !HitBy(passes, e, texts, i, k)
    ensures k < |Gaps(texts[n])| && Gaps(texts[n])[k] == Gaps(texts[0])[k]
  {
    if n > 0 {
      OtherSpaceStays(passes, e, texts, n - 1, k);
      StageKeeps(passes, e, texts, n - 1);
    }
  }

  /** Where no pass finds anything, the carried text stays as it is. */
  lemma {:induction false} NothingFound(passes: seq<Finder>, e: Evidence, texts: seq<string>, n: nat)
    requires Stages(passes, e, texts) && n <= |passes|
    requires forall i :: 0 <= i < n ==> passes[i](texts[i]) == []
    ensures texts[n] == texts[0]
  {
    if n > 0 {
      NothingFound(passes, e, texts, n - 1);
      StageKeeps(passes, e, texts, n - 1);
      assert Gaps(texts[n]) == Gaps(texts[n - 1]);
      TextIsWoven(texts[n]);
      TextIsWoven(texts[n - 1]);
    }
  }

  /** Whatever a pass reports and the evidence proves stands in one piece in the end, at the same place: a
      minus with its arrow, a decimal that stands alone in the native text, and every accented word. */
  lemma {:induction false} ReportedIsJoined(passes: seq<Finder>, e: Evidence, texts: seq<string>, i: nat, j: nat)
    requires Stages(passes, e, texts) && i < |passes| && j < |passes[i](texts[i])|
    ensures var s := passes[i](texts[i])[j];
      s.start <= |texts[i]| && Fits(s.found) &&
        var h, end := |NoSpace(texts[i][..s.start])|, texts[|passes|];
        match s.found
        case Arrow(_) => InOnePiece(end, h, [MINUS, ARROW])
        case Decimal(whole, _, _, fraction) =>
          StandsAlone(whole + "." + fraction, e) ==> InOnePiece(end, h, whole + "." + fraction)
        case Accent(word, _) => InOnePiece(end, h, word)
  {
    var spans := passes[i](texts[i]);
    SpanLies(texts[i], spans, 0, j);
    var m := spans[j].found;
    if Proven(m, e) { ProvenIsJoined(passes, e, texts, i, j); }
    if m.Arrow? { ArrowText(m.gap); }
    else if m.Decimal? { DecimalText(m.whole, m.before, m.after, m.fraction); }
    else { SpacedText(m.word, m.gaps); }
  }

  lemma {:induction false} ProvenIsJoined(passes: seq<Finder>, e: Evidence, texts: seq<string>, i: nat, j: nat)
    requires Stages(passes, e, texts) && i < |passes| && j < |passes[i](texts[i])|
    requires var s := passes[i](texts[i])[j]; s.start <= |texts[i]| && Fits(s.found) && Proven(s.found, e)
    ensures var s := passes[i](texts[i])[j];
      InOnePiece(texts[|passes|], |NoSpace(texts[i][..s.start])|, NoSpace(Matched(s.found)))
  {
    var text, spans := texts[i], passes[i](texts[i]);
    var s := spans[j];
    SpanLies(text, spans, 0, j);
    MatchEnds(s.found);
    OuterGaps(Matched(s.found));
    var h, piece := |NoSpace(text[0..s.start])|, NoSpace(Matched(s.found));
    var m := |piece|;
    CutInThree(text, 0, s.start, s.end);
    assert text[0..] == text;
    ThreeParts(text[0..s.start], Matched(s.found), text[s.end..]);
    StageKeeps(passes, e, texts, i);
    StagesKeepText(passes, e, texts, i, |passes|);
    forall k | h < k < h + m ensures Gaps(texts[|passes|])[k] == "" {
      assert Encloses(text, s, 0, e, k);
      assert HitBy(passes, e, texts, i, k);
      ClosedStays(passes, e, texts, i + 1, |passes|, k);
    }
    var p := ClosedGaps(texts[|passes|], h, m);
    assert NoSpace(texts[|passes|])[h..h + m] == piece;
  }

  /** The arrow pass as a finder. */
  function ArrowFinder(text: string): seq<Span> {
    ArrowSpans(text, 0)
  }

  lemma {:induction false} FinderFinds()
    ensures Finds(ArrowFinder)
  {
    forall s ensures Matches(ArrowFinder(s), 0, s) {
      SpansMatch(s, 0);
    }
  }

  /** After the arrow pass every minus adjoins the arrow behind it, whatever passes follow. */
  lemma {:induction false} ArrowsAdjoin(passes: seq<Finder>, e: Evidence, texts: seq<string>, k: nat)
    requires Stages(passes, e, texts) && passes != [] && passes[0] == ArrowFinder
    requires ArrowAt(NoSpace(texts[0]), k)
    ensures k < |Gaps(texts[|passes|])| && Gaps(texts[|passes|])[k] == ""
  {
    StageKeeps(passes, e, texts, 0);
    ArrowIsClosed(texts[0], e, k);
    ClosedStays(passes, e, texts, 1, |passes|, k);
  }

  lemma {:induction false} StageShift(f: Finder, text: string, passes: seq<Finder>, e: Evidence, texts: seq<string>,
      k: nat)
    requires |texts| == |passes| + 1 && k < |passes| && Finds(passes[k]) && StageAt(passes, e, texts, k)
    ensures Finds(([f] + passes)[k + 1]) && StageAt([f] + passes, e, [text] + texts, k + 1)
  {
    var all, lines := [f] + passes, [text] + texts;
    assert all[k + 1] == passes[k] && lines[k + 1] == texts[k] && lines[k + 2] == texts[k + 1];
  }

  /** A pass in front of others. */
  lemma {:induction false} StagesBefore(f: Finder, text: string, passes: seq<Finder>, e: Evidence, texts: seq<string>)
    requires Finds(f) && Stages(passes, e, texts) && Passed(text, f(text), 0, e, texts[0])
    ensures Stages([f] + passes, e, [text] + texts)
  {
    var all, lines := [f] + passes, [text] + texts;
    forall k | 0 <= k < |all| ensures Finds(all[k]) {}
    forall k: nat | k < |all| ensures StageAt(all, e, lines, k) {
      if k > 0 { StageShift(f, text, passes, e, texts, k - 1); }
    }
  }

  lemma {:induction false} StagesBehind(passes: seq<Finder>, e: Evidence, texts: seq<string>, f: Finder, text: string)
    requires Finds(f) && Stages(passes, e, texts) && Passed(texts[|passes|], f(texts[|passes|]), 0, e, text)
    ensures Stages(passes + [f], e, texts + [text])
  {
    forall k | 0 <= k < |passes| + 1 ensures Finds((passes + [f])[k]) {}
    forall k: nat | k < |passes| + 1 ensures StageAt(passes + [f], e, texts + [text], k) {
      if k < |passes| { assert StageAt(passes, e, texts, k); }
    }
  }

  /** The passes over the accented words, one a word. */
  method JoinAccents(text: string, e: Evidence, accents: seq<Finder>) returns (r: string, ghost texts: seq<string>)
    requires forall k :: 0 <= k < |accents| ==> Finds(accents[k])
    ensures Stages(accents, e, texts) && texts[0] == text && texts[|accents|] == r
  {
    r, texts := text, [text];
    for k := 0 to |accents|
      invariant Stages(accents[..k], e, texts) && texts[0] == text && texts[k] == r
    {
      ghost var last := r;
      r := ReplaceMatches(r, accents[k](r), e);
      StagesBehind(accents[..k], e, texts, accents[k], r);
      assert accents[..k] + [accents[k]] == accents[..k + 1];
      texts := texts + [r];
    }
    assert accents[..|accents|] == accents;
  }

  /** `recover_native_text`: `sameCore` says both texts have the same letters and digits, and some;
      `decimals` and `accents` find the matches of their patterns, one pass a word for the last. Whatever
      the edit script, a returned text is the native text, white space and soft-hyphen markers aside; its
      white space is the layout's but for the gaps the passes close, and the count that guards the arrow
      pass never holds it back. */
  method RecoverNativeText(layout: string, native: string, word: char -> bool, sameCore: bool, ops: seq<Op>,
      decimals: Finder, accents: seq<Finder>) returns (r: Option<string>, ghost texts: seq<string>)
    requires Script(ops, Compact(layout), NativeCore(native))
    requires Finds(decimals) && forall k :: 0 <= k < |accents| ==> Finds(accents[k])
    ensures r.None? <==> |layout| > 8192 || |native| > 8192 || !sameCore
    ensures r.Some? ==> NoSpace(r.value) == NativeCore(native)
    ensures r.Some? ==>
      && Stages([ArrowFinder] + ([decimals] + accents), Evidence(native, word), texts)
      && OnlySpace(texts[0]) == OnlySpace(layout) && texts[|accents| + 2] == r.value
    ensures r.Some? ==> forall k: nat :: ArrowAt(NativeCore(native), k) ==> Gaps(r.value)[k] == ""
  {
    texts := [];
    if |layout| > MAX_LENGTH || |native| > MAX_LENGTH || !sameCore { return None, texts; }
    var e := Evidence(native, word);
    var text := CarryNative(layout, NativeCore(native), ops);
    ghost var carried := text;
    ArrowsAreComposites(text);
    FinderFinds();
    if Composites(NativeCore(native)) == JoinedArrows(text) {
      text := ReplaceMatches(text, ArrowFinder(text), e);
    }
    ghost var adjoined := text;
    text := ReplaceMatches(text, decimals(text), e);
    text, texts := JoinAccents(text, e, accents);
    StagesBefore(decimals, adjoined, accents, e, texts);
    StagesBefore(ArrowFinder, carried, [decimals] + accents, e, [adjoined] + texts);
    texts := [carried] + ([adjoined] + texts);
    Recovered(carried, [ArrowFinder] + ([decimals] + accents), e, texts);
    r := Some(text);
  }

  lemma {:induction false} Recovered(carried: string, passes: seq<Finder>, e: Evidence, texts: seq<string>)
    requires Stages(passes, e, texts) && texts[0] == carried && passes != [] && passes[0] == ArrowFinder
    ensures NoSpace(texts[|passes|]) == NoSpace(carried)
    ensures forall k: nat :: ArrowAt(NoSpace(carried), k) ==> Gaps(texts[|passes|])[k] == ""
  {
    StagesKeepText(passes, e, texts, 0, |passes|);
    forall k: nat | ArrowAt(NoSpace(carried), k) ensures Gaps(texts[|passes|])[k] == "" {
      ArrowsAdjoin(passes, e, texts, k);
    }
  }
}
