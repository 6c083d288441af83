/** The reading-order repair loop (src/packages/parsers/layout_recovery.py, `recover_layout`). */
module LayoutOrder {
  import opened Wrappers

  /** A text region whose order native lines prove: its box, its page and the extent of those lines. */
  datatype Region = Region(page: int, width: real, left: real, top: real, right: real, bottom: real, proofTop: real,
      proofBottom: real)

  /** A layout item; `rank` is its place before repair. Pictures, tables, formulas and code have no region. */
  datatype Item = Item(rank: nat, region: Option<Region>)

  predicate SameColumn(a: Region, b: Region) {
    || (a.right <= a.width * 0.55 && b.right <= a.width * 0.55)
    || (a.left >= a.width * 0.45 && b.left >= a.width * 0.45)
  }

  /** `second` provably stands above `first` in the same column. */
  predicate Inverted(first: Item, second: Item) {
    first.region.Some? && second.region.Some? &&
      var a, b := first.region.value, second.region.value;
      a.page == b.page && SameColumn(a, b) && b.bottom <= a.top && b.proofBottom <= a.proofTop
  }

  /** Items of `s` that `y` stands above. */
  function Passed(s: seq<Item>, y: Item): nat {
    if s == [] then 0 else Passed(s[..|s| - 1], y) + One(Inverted(s[|s| - 1], y))
  }

  /** Pairs in the wrong order. */
  function Inversions(s: seq<Item>): nat {
    if s == [] then 0 else Inversions(s[..|s| - 1]) + Passed(s[..|s| - 1], s[|s| - 1])
  }

  function Swap(s: seq<Item>, k: nat): seq<Item>
    requires k + 1 < |s|
  {
    s[k := s[k + 1]][k + 1 := s[k]]
  }

  lemma {:induction false} SwapLast(t: seq<Item>, x: Item, y: Item)
    ensures Passed(t + [x], y) == Passed(t, y) + One(Inverted(x, y))
    ensures Inversions(t + [x] + [y]) == Inversions(t) + Passed(t, x) + Passed(t, y) + One(Inverted(x, y))
  {
    assert (t + [x])[..|t|] == t && (t + [x] + [y])[..|t| + 1] == t + [x];
  }

  lemma {:induction false} PassedSwap(s: seq<Item>, k: nat, y: Item)
    requires k + 1 < |s|
    ensures Passed(Swap(s, k), y) == Passed(s, y)
  {
    var n := |s| - 1;
    if k + 1 == n {
      var t := s[..k];
      assert s == t + [s[k]] + [s[n]] && Swap(s, k) == t + [s[n]] + [s[k]];
      assert s[..n] == t + [s[k]] && Swap(s, k)[..n] == t + [s[n]];
      SwapLast(t, s[k], y);
      SwapLast(t, s[n], y);
    } else {
      assert Swap(s, k)[..n] == Swap(s[..n], k) && Swap(s, k)[n] == s[n];
      PassedSwap(s[..n], k, y);
    }
  }

  /** Exchanging neighbours changes the order of that one pair. */
  lemma {:induction false} SwapInversions(s: seq<Item>, k: nat)
    requires k + 1 < |s|
    ensures Inversions(Swap(s, k)) + One(Inverted(s[k], s[k + 1])) == Inversions(s) + One(Inverted(s[k + 1], s[k]))
  {
    var n := |s| - 1;
    if k + 1 == n {
      var t := s[..k];
      assert s == t + [s[k]] + [s[n]] && Swap(s, k) == t + [s[n]] + [s[k]];
      SwapLast(t, s[k], s[n]);
      SwapLast(t, s[n], s[k]);
    } else {
      assert Swap(s, k)[..n] == Swap(s[..n], k) && Swap(s, k)[n] == s[n];
      SwapInversions(s[..n], k);
      PassedSwap(s[..n], k, s[n]);
    }
  }

  /** No two items stand above each other. */
  ghost predicate Asymmetric(s: seq<Item>) {
    forall i, j :: 0 <= i < |s| && 0 <= j < |s| && Inverted(s[i], s[j]) ==> !Inverted(s[j], s[i])
  }

  predicate Tall(x: Item) {
    x.region.Some? ==> x.region.value.top < x.region.value.bottom
  }

  /** Boxes of positive height never stand above each other. */
  lemma {:induction false} TallIsAsymmetric(s: seq<Item>)
    requires forall i :: 0 <= i < |s| ==> Tall(s[i])
    ensures Asymmetric(s)
  {
    forall i, j | 0 <= i < |s| && 0 <= j < |s| && Inverted(s[i], s[j]) ensures !Inverted(s[j], s[i]) {
      assert Tall(s[i]) && Tall(s[j]);
    }
  }

  lemma {:induction false} SwapKeepsItems(s: seq<Item>, k: nat)
    requires k + 1 < |s|
    ensures multiset(Swap(s, k)) == multiset(s)
    ensures Asymmetric(s) ==> Asymmetric(Swap(s, k))
  {
    var t := Swap(s, k);
    assert t == s[..k] + [s[k + 1]] + [s[k]] + s[k + 2..];
    assert s == s[..k] + [s[k]] + [s[k + 1]] + s[k + 2..];
    if Asymmetric(s) {
      forall i, j | 0 <= i < |t| && 0 <= j < |t| && Inverted(t[i], t[j]) ensures !Inverted(t[j], t[i]) {
        var a := if i == k then k + 1 else if i == k + 1 then k else i;
        var b := if j == k then k + 1 else if j == k + 1 then k else j;
        assert t[i] == s[a] && t[j] == s[b];
      }
    }
  }

  /** Two items stand in their old order unless the first provably stands above the second. */
  ghost predicate Justified(s: seq<Item>) {
    forall i, j :: 0 <= i < j < |s| ==> s[i].rank < s[j].rank || Inverted(s[j], s[i])
  }

  lemma {:induction false} SwapKeepsJustified(s: seq<Item>, k: nat)
    requires k + 1 < |s| && Justified(s) && Inverted(s[k], s[k + 1])
    ensures Justified(Swap(s, k))
  {
    var t := Swap(s, k);
    forall i, j | 0 <= i < j < |t| ensures t[i].rank < t[j].rank || Inverted(t[j], t[i]) {
      var a := if i == k then k + 1 else if i == k + 1 then k else i;
      var b := if j == k then k + 1 else if j == k + 1 then k else j;
      assert t[i] == s[a] && t[j] == s[b];
      if !(i == k && j == k + 1) { assert a < b; }
    }
  }

  /** Items without a region keep their places. */
  ghost predicate FixedStay(s: seq<Item>, start: seq<Item>) {
    |s| == |start| && forall k :: 0 <= k < |s| && (s[k].region.None? || start[k].region.None?) ==> s[k] == start[k]
  }

  ghost predicate Settled(s: seq<Item>) {
    forall k :: 0 <= k < |s| - 1 ==> !Inverted(s[k], s[k + 1])
  }

  /** What repair may have done to `start`. */
  ghost predicate Repaired(s: seq<Item>, start: seq<Item>) {
    multiset(s) == multiset(start) && FixedStay(s, start) && Justified(s) && (Asymmetric(start) ==> Asymmetric(s))
  }

  ghost predicate Places(visible: seq<nat>, n: nat) {
    forall i :: 0 <= i < |visible| ==> visible[i] < n && forall j :: 0 <= j < i ==> visible[j] < visible[i]
  }

  ghost function Shown(items: seq<Item>, visible: seq<nat>): (s: seq<Item>)
    requires Places(visible, |items|)
    ensures |s| == |visible| && forall k :: 0 <= k < |s| ==> s[k] == items[visible[k]]
  {
    seq(|visible|, k requires 0 <= k < |visible| => items[visible[k]])
  }

  /** Nothing outside the visible places moves. */
  ghost predicate OthersStay(now: seq<Item>, before: seq<Item>, visible: seq<nat>) {
    |now| == |before| && forall i :: 0 <= i < |now| && i !in visible ==> now[i] == before[i]
  }

  lemma {:induction false} ShownSwap(items: seq<Item>, after: seq<Item>, visible: seq<nat>, k: nat)
    requires Places(visible, |items|) && k + 1 < |visible|
    requires after == items[visible[k] := items[visible[k + 1]]][visible[k + 1] := items[visible[k]]]
    ensures Shown(after, visible) == Swap(Shown(items, visible), k) && OthersStay(after, items, visible)
  {
    forall i | 0 <= i < |visible| ensures after[visible[i]] == Swap(Shown(items, visible), k)[i] {
      if i != k && i != k + 1 { assert visible[i] != visible[k] && visible[i] != visible[k + 1]; }
    }
  }

  lemma {:induction false} OthersStayOn(now: seq<Item>, between: seq<Item>, before: seq<Item>, visible: seq<nat>)
    requires OthersStay(now, between, visible) && OthersStay(between, before, visible)
    ensures OthersStay(now, before, visible)
  {}

  /** Exchanges one provable inversion; `visible[k]` and `visible[k + 1]` are neighbours in reading order. */
  method Repair(items: array<Item>, visible: seq<nat>, k: nat, ghost row: seq<Item>,
      ghost before: seq<Item>) returns (changed: bool)
    requires Places(visible, items.Length) && k + 1 < |visible| && row == Shown(items[..], visible)
    requires OthersStay(items[..], before, visible)
    modifies items
    ensures changed == Inverted(row[k], row[k + 1])
    ensures Shown(items[..], visible) == if changed then Swap(row, k) else row
    ensures OthersStay(items[..], before, visible)
  {
    var first, second := items[visible[k]], items[visible[k + 1]];
    changed := Inverted(first, second);
    if changed {
      items[visible[k]], items[visible[k + 1]] := second, first;
      ShownSwap(old(items[..]), items[..], visible, k);
      OthersStayOn(items[..], old(items[..]), before, visible);
    }
  }

  /** The first `k` comparisons of a pass. */
  function PassTo(s: seq<Item>, k: nat): (r: seq<Item>)
    requires k == 0 || k < |s|
    ensures |r| == |s|
  {
    if k == 0 then s
    else
      var before := PassTo(s, k - 1);
      if Inverted(before[k - 1], before[k]) then Swap(before, k - 1) else before
  }

  /** One pass over the neighbours. */
  function Pass(s: seq<Item>): (r: seq<Item>)
    ensures |r| == |s|
  {
    if s == [] then s else PassTo(s, |s| - 1)
  }

  function Passes(s: seq<Item>, n: nat): (r: seq<Item>)
    ensures |r| == |s|
  {
    if n == 0 then s else Pass(Passes(s, n - 1))
  }

  /** Some number of passes leaves no provable inversion between neighbours: the loop ends. */
  ghost predicate Settles(s: seq<Item>) {
    exists n: nat :: Settled(Passes(s, n))
  }

  ghost predicate SettledTo(s: seq<Item>, k: nat) {
    forall j :: 0 <= j < k && j + 1 < |s| ==> !Inverted(s[j], s[j + 1])
  }

  lemma {:induction false} PassKeepsSettled(s: seq<Item>, k: nat)
    requires (k == 0 || k < |s|) && SettledTo(s, k)
    ensures PassTo(s, k) == s
  {
    if k > 0 { PassKeepsSettled(s, k - 1); }
  }

  /** A pass exchanges something exactly when its list was not settled. */
  lemma {:induction false} UnsettledIsChanged(s: seq<Item>, k: nat)
    requires k + 1 < |s| && SettledTo(s, k)
    ensures SettledTo(s, k + 1) <==> !Inverted(PassTo(s, k)[k], PassTo(s, k)[k + 1])
  {
    PassKeepsSettled(s, k);
  }

  /** One comparison of a pass. */
  lemma {:induction false} PassStep(s: seq<Item>, k: nat)
    requires k + 1 < |s|
    ensures var row := PassTo(s, k); var swaps := Inverted(row[k], row[k + 1]);
      && PassTo(s, k + 1) == (if swaps then Swap(row, k) else row)
      && (SettledTo(s, k + 1) <==> SettledTo(s, k) && !swaps)
  {
    if SettledTo(s, k) { UnsettledIsChanged(s, k); }
  }

  lemma {:induction false} PassKeepsJustified(s: seq<Item>, k: nat)
    requires (k == 0 || k < |s|) && Justified(s)
    ensures Justified(PassTo(s, k))
  {
    if k > 0 {
      var row := PassTo(s, k - 1);
      PassKeepsJustified(s, k - 1);
      if Inverted(row[k - 1], row[k]) { SwapKeepsJustified(row, k - 1); }
    }
  }

  /** One comparison keeps the items. */
  lemma {:induction false} StepKeepsItems(row: seq<Item>, k: nat)
    requires k + 1 < |row|
    ensures var next := if Inverted(row[k], row[k + 1]) then Swap(row, k) else row;
      multiset(next) == multiset(row) && (Asymmetric(row) ==> Asymmetric(next))
  {
    SwapKeepsItems(row, k);
  }

  lemma {:induction false} PassKeepsMultiset(s: seq<Item>, k: nat)
    requires k == 0 || k < |s|
    ensures multiset(PassTo(s, k)) == multiset(s)
  {
    if k > 0 {
      PassKeepsMultiset(s, k - 1);
      StepKeepsItems(PassTo(s, k - 1), k - 1);
    }
  }

  lemma {:induction false} PassKeepsAsymmetric(s: seq<Item>, k: nat)
    requires (k == 0 || k < |s|) && Asymmetric(s)
    ensures Asymmetric(PassTo(s, k))
  {
    if k > 0 {
      PassKeepsAsymmetric(s, k - 1);
      StepKeepsItems(PassTo(s, k - 1), k - 1);
    }
  }

  lemma {:induction false} PassKeepsFixed(s: seq<Item>, k: nat)
    requires k == 0 || k < |s|
    ensures FixedStay(PassTo(s, k), s)
  {
    if k > 0 { PassKeepsFixed(s, k - 1); }
  }

  lemma {:induction false} RepairedBy(s: seq<Item>, r: seq<Item>, start: seq<Item>)
    requires Repaired(s, start) && Justified(r) && FixedStay(r, s)
    requires multiset(r) == multiset(s) && (Asymmetric(s) ==> Asymmetric(r))
    ensures Repaired(r, start)
  {}

  lemma {:induction false} PassToRepairs(s: seq<Item>, k: nat)
    requires (k == 0 || k < |s|) && Justified(s)
    ensures Justified(PassTo(s, k)) && FixedStay(PassTo(s, k), s)
    ensures multiset(PassTo(s, k)) == multiset(s) && (Asymmetric(s) ==> Asymmetric(PassTo(s, k)))
  {
    PassKeepsJustified(s, k);
    PassKeepsMultiset(s, k);
    PassKeepsFixed(s, k);
    if Asymmetric(s) { PassKeepsAsymmetric(s, k); }
  }

  lemma {:induction false} PassRepairs(s: seq<Item>, start: seq<Item>)
    requires Repaired(s, start)
    ensures Repaired(Pass(s), start)
  {
    if s != [] {
      PassToRepairs(s, |s| - 1);
      RepairedBy(s, PassTo(s, |s| - 1), start);
    }
  }

  lemma {:induction false} StartsRepaired(s: seq<Item>)
    requires Justified(s)
    ensures Repaired(s, s)
  {}

  /** Passes move provable inversions only and permute the items that have a region. */
  lemma {:induction false} PassesRepair(s: seq<Item>, n: nat)
    requires Justified(s)
    ensures Repaired(Passes(s, n), s)
  {
    if n > 0 {
      PassesRepair(s, n - 1);
      PassRepairs(Passes(s, n - 1), s);
    } else {
      StartsRepaired(s);
    }
  }

  /** A pass that exchanged nothing leaves a settled list. */
  lemma {:induction false} PassIsDone(s: seq<Item>, k: nat)
    requires (k == 0 || k < |s|) && |s| <= k + 1
    ensures Pass(s) == PassTo(s, k) && (SettledTo(s, k) <==> Settled(s))
  {}

  /** The first `k` comparisons are done in place. */
  ghost predicate InPass(now: seq<Item>, before: seq<Item>, visible: seq<nat>, k: nat, changed: bool) {
    && |now| == |before| && Places(visible, |now|) && (k == 0 || k < |visible|)
    && Shown(now, visible) == PassTo(Shown(before, visible), k) && OthersStay(now, before, visible)
    && (changed <==> !SettledTo(Shown(before, visible), k))
  }

  lemma {:induction false} InPassStep(now: seq<Item>, next: seq<Item>, before: seq<Item>, visible: seq<nat>, k: nat,
      changed: bool, swapped: bool)
    requires InPass(now, before, visible, k, changed) && k + 1 < |visible| && |next| == |now|
    requires var row := Shown(now, visible);
      && swapped == Inverted(row[k], row[k + 1]) && Shown(next, visible) == if swapped then Swap(row, k) else row
    requires OthersStay(next, before, visible)
    ensures InPass(next, before, visible, k + 1, changed || swapped)
  {
    PassStep(Shown(before, visible), k);
  }

  lemma {:induction false} PassBegins(items: seq<Item>, visible: seq<nat>)
    requires Places(visible, |items|)
    ensures InPass(items, items, visible, 0, false)
  {}

  lemma {:induction false} PassEnds(now: seq<Item>, before: seq<Item>, visible: seq<nat>, k: nat, changed: bool)
    requires InPass(now, before, visible, k, changed) && |visible| <= k + 1
    ensures Shown(now, visible) == Pass(Shown(before, visible)) && OthersStay(now, before, visible)
    ensures changed == !Settled(Shown(before, visible))
  {
    PassIsDone(Shown(before, visible), k);
  }

  /** A pass of the loop computes `Pass` in place and says whether there was anything to do. */
  method RepairPass(items: array<Item>, visible: seq<nat>) returns (changed: bool)
    requires Places(visible, items.Length)
    modifies items
    ensures Shown(items[..], visible) == Pass(old(Shown(items[..], visible)))
    ensures OthersStay(items[..], old(items[..]), visible)
    ensures changed == !Settled(old(Shown(items[..], visible)))
  {
    changed := false;
    ghost var before := items[..];
    var k := 0;
    PassBegins(before, visible);
    while k + 1 < |visible|
      invariant InPass(items[..], before, visible, k, changed)
    {
      ghost var now := items[..];
      var swapped := Repair(items, visible, k, Shown(now, visible), before);
      InPassStep(now, items[..], before, visible, k, changed, swapped);
      changed := changed || swapped;
      k := k + 1;
    }
    PassEnds(items[..], before, visible, k, changed);
  }

  lemma {:induction false} OldOrderIsJustified(s: seq<Item>)
    requires forall k :: 0 <= k < |s| ==> s[k].rank == k
    ensures Justified(s)
  {}

  lemma {:induction false} LoopIsDone(s: seq<Item>, done: nat)
    requires (forall k :: 0 <= k < |s| ==> s[k].rank == k) && done > 0 && Settled(Passes(s, done - 1))
    ensures Repaired(Passes(s, done), s) && Settled(Passes(s, done))
  {
    SettledStays(s, done - 1, done);
    OldOrderIsJustified(s);
    PassesRepair(s, done);
  }

  /** Whenever the loop ends it has permuted the visible items, left unproved items and places alone, moved
      only provable inversions and left none between neighbours; the result is that of the passes. */
  method RepairOrder(items: array<Item>, visible: seq<nat>)
    requires Places(visible, items.Length)
    requires forall k :: 0 <= k < |visible| ==> items[visible[k]].rank == k
    requires Settles(Shown(items[..], visible))
    modifies items
    ensures Repaired(Shown(items[..], visible), old(Shown(items[..], visible)))
    ensures Settled(Shown(items[..], visible))
    ensures exists n: nat :: Shown(items[..], visible) == Passes(old(Shown(items[..], visible)), n)
    ensures OthersStay(items[..], old(items[..]), visible)
  {
    ghost var start, before := Shown(items[..], visible), items[..];
    ghost var n: nat :| Settled(Passes(start, n));
    ghost var done: nat := 0;
    var changed := true;
    while changed
      invariant Shown(items[..], visible) == Passes(start, done) && OthersStay(items[..], before, visible)
      invariant if changed then done <= n else done > 0 && Settled(Passes(start, done - 1))
      decreases n + 1 - done + One(changed)
    {
      ghost var between := items[..];
      changed := RepairPass(items, visible);
      OthersStayOn(items[..], between, before, visible);
      done := done + 1;
    }
    LoopIsDone(start, done);
  }

  lemma {:induction false} SwapShrinks(s: seq<Item>, k: nat)
    requires k + 1 < |s| && Asymmetric(s) && Inverted(s[k], s[k + 1])
    ensures Asymmetric(Swap(s, k)) && Inversions(Swap(s, k)) + 1 == Inversions(s)
  {
    SwapInversions(s, k);
    SwapKeepsItems(s, k);
  }

  lemma {:induction false} PassToShrinks(s: seq<Item>, k: nat)
    requires (k == 0 || k < |s|) && Asymmetric(s)
    ensures Asymmetric(PassTo(s, k)) && Inversions(PassTo(s, k)) <= Inversions(s)
    ensures !SettledTo(s, k) ==> Inversions(PassTo(s, k)) < Inversions(s)
  {
    if k > 0 {
      var before := PassTo(s, k - 1);
      PassToShrinks(s, k - 1);
      PassStep(s, k - 1);
      if Inverted(before[k - 1], before[k]) { SwapShrinks(before, k - 1); }
    }
  }

  /** The passes after the first. */
  lemma {:induction false} PassesFirst(s: seq<Item>, n: nat)
    ensures Passes(Pass(s), n) == Passes(s, n + 1)
  {
    if n > 0 { PassesFirst(s, n - 1); }
  }

  /** Every exchange removes one wrong pair, so the loop ends unless two items stand above each other. */
  lemma {:induction false} AsymmetricSettles(s: seq<Item>)
    requires Asymmetric(s)
    ensures Settles(s)
    decreases Inversions(s)
  {
    if Settled(s) {
      assert Settled(Passes(s, 0));
    } else {
      PassToShrinks(s, |s| - 1);
      AsymmetricSettles(Pass(s));
      var n: nat :| Settled(Passes(Pass(s), n));
      PassesFirst(s, n);
    }
  }

  /** A settled list stays as it is, so the loop ends at the first settled one. */
  lemma {:induction false} SettledStays(s: seq<Item>, n: nat, m: nat)
    requires n <= m && Settled(Passes(s, n))
    ensures Passes(s, m) == Passes(s, n)
  {
    if n < m {
      SettledStays(s, n, m - 1);
      if s != [] { PassKeepsSettled(Passes(s, n), |s| - 1); }
    }
  }

  lemma {:induction false} PassOfTwo(s: seq<Item>)
    requires |s| == 2
    ensures Pass(s) == if Inverted(s[0], s[1]) then [s[1], s[0]] else s
  {
    assert PassTo(s, 0) == s;
  }

  lemma {:induction false} FlatItemsKeepMoving(s: seq<Item>, n: nat)
    requires |s| == 2 && Inverted(s[0], s[1]) && Inverted(s[1], s[0])
    ensures Passes(s, n) == s || Passes(s, n) == [s[1], s[0]]
  {
    if n > 0 {
      FlatItemsKeepMoving(s, n - 1);
      PassOfTwo(Passes(s, n - 1));
    }
  }

  /** Not every list settles: two neighbours do exactly when they do not stand above each other, as boxes
      without height at one position do. */
  lemma {:induction false} PairSettles(s: seq<Item>)
    requires |s| == 2
    ensures Settles(s) <==> !(Inverted(s[0], s[1]) && Inverted(s[1], s[0]))
  {
    if Inverted(s[0], s[1]) && Inverted(s[1], s[0]) {
      forall n: nat ensures !Settled(Passes(s, n)) {
        FlatItemsKeepMoving(s, n);
        assert Inverted(Passes(s, n)[0], Passes(s, n)[1]);
      }
    } else {
      PassOfTwo(s);
      assert Passes(s, 0) == s && Passes(s, 1) == Pass(s);
      assert Settled(Passes(s, 0)) || Settled(Passes(s, 1));
    }
  }

  function Flat(rank: nat): Item {
    Item(rank, Some(Region(1, 600.0, 50.0, 100.0, 250.0, 100.0, 100.0, 100.0)))
  }

  /** Two flat boxes at one position are such neighbours. */
  lemma {:induction false} FlatBoxesNeverSettle()
    ensures Asymmetric([Flat(0), Flat(1)]) == false
    ensures !Settles([Flat(0), Flat(1)])
  {
    var s := [Flat(0), Flat(1)];
    assert Inverted(s[0], s[1]) && Inverted(s[1], s[0]);
    PairSettles(s);
  }

  /** Both lie within the left 55 hundredths of the page, or both within the right. */
  predicate OneColumn(a: Region, b: Region) {
    a.page == b.page && ((100.0 * a.right <= 55.0 * a.width && 100.0 * b.right <= 55.0 * a.width)
      || (100.0 * a.left >= 45.0 * a.width && 100.0 * b.left >= 45.0 * a.width))
  }

  /** The box of `a` and the lines that prove it end where those of `b` start, or above. */
  predicate EndsAbove(a: Region, b: Region) {
    a.bottom <= b.top && a.proofBottom <= b.proofTop
  }

  /** In a repaired list, what overtook an earlier item ends above it in one column of one page, by its box
      and by its lines; and no item ends above the one it directly follows there. Items without a region
      keep their places. */
  lemma {:induction false} RepairReadsDown(s: seq<Item>, start: seq<Item>, i: nat, j: nat)
    requires Repaired(s, start) && Settled(s) && i < j < |s|
    ensures s[j].rank <= s[i].rank && s[i].rank != s[j].rank ==>
      && s[i].region.Some? && s[j].region.Some? && OneColumn(s[j].region.value, s[i].region.value)
      && EndsAbove(s[i].region.value, s[j].region.value)
    ensures j == i + 1 && s[i].region.Some? && s[j].region.Some? && OneColumn(s[i].region.value, s[j].region.value) ==>
      !EndsAbove(s[j].region.value, s[i].region.value)
    ensures s[i].region.None? ==> s[i] == start[i]
  {}
}
