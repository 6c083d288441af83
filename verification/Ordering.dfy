/** The adapter's reading order and heading pass (src/packages/parsers/source_adapter.py, `SourceAdapter.adapt`). */
module Ordering {
  import opened Wrappers
  import opened Documents

  /** Owners form a forest: `depth` counts the owners above a block. */
  ghost predicate Forest(blocks: seq<Block>, depth: map<Id, nat>) {
    && DistinctIds(blocks)
    && forall i :: 0 <= i < |blocks| ==> GroundedAt(blocks, i, depth)
  }

  ghost predicate GroundedAt(blocks: seq<Block>, i: nat, depth: map<Id, nat>)
    requires i < |blocks|
  {
    var b := blocks[i];
    && b.id in depth && depth[b.id] <= |blocks|
    && (b.owner.None? ==> depth[b.id] == 0)
    && (b.owner.Some? ==>
         Find(blocks, b.owner.value).Some? && b.owner.value in depth && depth[b.id] == depth[b.owner.value] + 1)
  }

  /** Reading order names every root once. */
  ghost predicate NamesRoots(blocks: seq<Block>, readingOrder: seq<Id>) {
    && (forall i, j :: 0 <= i < j < |readingOrder| ==> readingOrder[i] != readingOrder[j])
    && (forall i :: 0 <= i < |readingOrder| ==>
      Find(blocks, readingOrder[i]).Some? && Find(blocks, readingOrder[i]).value.owner.None?)
    && forall i :: 0 <= i < |blocks| && blocks[i].owner.None? ==> blocks[i].id in readingOrder
  }

  ghost predicate AllFound(blocks: seq<Block>, ids: seq<Id>) {
    forall i :: 0 <= i < |ids| ==> Find(blocks, ids[i]).Some?
  }

  ghost function Height(blocks: seq<Block>, depth: map<Id, nat>, id: Id): nat {
    if id in depth && depth[id] <= |blocks| then |blocks| + 1 - depth[id] else 0
  }

  /** A block and everything it owns, owner first. */
  ghost function Visit(blocks: seq<Block>, depth: map<Id, nat>, id: Id): seq<Id>
    requires Forest(blocks, depth) && Find(blocks, id).Some?
    decreases Height(blocks, depth, id), |blocks| + 1
  {
    [id] + Owned(blocks, depth, id, |blocks|)
  }

  /** What the first `k` blocks contribute below an owner. */
  ghost function Owned(blocks: seq<Block>, depth: map<Id, nat>, id: Id, k: nat): seq<Id>
    requires Forest(blocks, depth) && k <= |blocks| && Find(blocks, id).Some?
    decreases Height(blocks, depth, id), k
  {
    if k == 0 then []
    else if blocks[k - 1].owner == Some(id) then
      assert GroundedAt(blocks, k - 1, depth);
      Owned(blocks, depth, id, k - 1) + Visit(blocks, depth, blocks[k - 1].id)
    else Owned(blocks, depth, id, k - 1)
  }

  /** The whole order: the roots' containers one after another. */
  ghost function Preorder(blocks: seq<Block>, depth: map<Id, nat>, readingOrder: seq<Id>): seq<Id>
    requires Forest(blocks, depth) && AllFound(blocks, readingOrder)
  {
    if readingOrder == [] then []
    else
      Preorder(blocks, depth, readingOrder[..|readingOrder| - 1])
        + Visit(blocks, depth, readingOrder[|readingOrder| - 1])
  }

  /** `append_container`. */
  method AppendContainer(blocks: seq<Block>, ghost depth: map<Id, nat>, id: Id,
      ordered: seq<Id>) returns (after: seq<Id>)
    requires Forest(blocks, depth) && Find(blocks, id).Some?
    ensures after == ordered + Visit(blocks, depth, id)
    decreases Height(blocks, depth, id)
  {
    after := ordered + [id];
    ghost var base := after;
    var i := 0;
    while i < |blocks|
      invariant 0 <= i <= |blocks| && after == base + Owned(blocks, depth, id, i)
    {
      if blocks[i].owner == Some(id) {
        assert GroundedAt(blocks, i, depth);
        Regroup(base, Owned(blocks, depth, id, i), Visit(blocks, depth, blocks[i].id));
        after := AppendContainer(blocks, depth, blocks[i].id, after);
      }
      i := i + 1;
    }
    Regroup(ordered, [id], Owned(blocks, depth, id, i));
  }

  lemma {:induction false} Regroup(a: seq<Id>, b: seq<Id>, c: seq<Id>)
    ensures (a + b) + c == a + (b + c)
  {}

  lemma {:induction false} PreorderStep(blocks: seq<Block>, depth: map<Id, nat>, readingOrder: seq<Id>, i: nat)
    requires Forest(blocks, depth) && AllFound(blocks, readingOrder) && i < |readingOrder|
    ensures Preorder(blocks, depth, readingOrder[..i + 1]) ==
      Preorder(blocks, depth, readingOrder[..i]) + Visit(blocks, depth, readingOrder[i])
  {
    assert readingOrder[..i + 1][..i] == readingOrder[..i];
  }

  method OrderBlocks(blocks: seq<Block>, ghost depth: map<Id, nat>, readingOrder: seq<Id>) returns (ordered: seq<Id>)
    requires Forest(blocks, depth) && NamesRoots(blocks, readingOrder)
    ensures ordered == Preorder(blocks, depth, readingOrder)
  {
    ordered := [];
    var i := 0;
    while i < |readingOrder|
      invariant 0 <= i <= |readingOrder| && ordered == Preorder(blocks, depth, readingOrder[..i])
    {
      PreorderStep(blocks, depth, readingOrder, i);
      ordered := AppendContainer(blocks, depth, readingOrder[i], ordered);
      i := i + 1;
    }
    assert readingOrder[..i] == readingOrder;
  }

  lemma {:induction false} CountConcat(a: seq<Id>, b: seq<Id>, y: Id)
    ensures multiset(a + b)[y] == multiset(a)[y] + multiset(b)[y]
  {
    assert multiset(a + b) == multiset(a) + multiset(b);
  }

  /** Appearances of a block, and of its owner. */
  function Seen(s: seq<Id>, b: Block): nat {
    multiset(s)[b.id]
  }

  function OwnerSeen(s: seq<Id>, b: Block): nat {
    if b.owner.Some? then multiset(s)[b.owner.value] else 0
  }

  lemma {:induction false} SeenConcat(a: seq<Id>, b: seq<Id>, y: Block)
    ensures Seen(a + b, y) == Seen(a, y) + Seen(b, y) && OwnerSeen(a + b, y) == OwnerSeen(a, y) + OwnerSeen(b, y)
  {
    CountConcat(a, b, y.id);
    if y.owner.Some? { CountConcat(a, b, y.owner.value); }
  }

  lemma {:induction false} SeenOnce(id: Id, y: Block)
    ensures Seen([id], y) == One(y.id == id) && OwnerSeen([id], y) == One(y.owner == Some(id))
  {}

  /** A block appears once for the call that starts at it and once for every appearance of its owner. */
  lemma {:induction false} CountVisit(blocks: seq<Block>, depth: map<Id, nat>, id: Id, y: nat)
    requires Forest(blocks, depth) && Find(blocks, id).Some? && y < |blocks|
    ensures Seen(Visit(blocks, depth, id), blocks[y]) ==
      One(blocks[y].id == id) + OwnerSeen(Visit(blocks, depth, id), blocks[y])
    decreases Height(blocks, depth, id), |blocks| + 1
  {
    CountOwned(blocks, depth, id, |blocks|, y);
    SeenConcat([id], Owned(blocks, depth, id, |blocks|), blocks[y]);
    SeenOnce(id, blocks[y]);
  }

  lemma {:induction false} OwnedNext(before: seq<Id>, now: seq<Id>, child: Id, y: Block, earlier: nat)
    requires Seen(before, y) == earlier + OwnerSeen(before, y)
    requires Seen(now, y) == One(y.id == child) + OwnerSeen(now, y)
    ensures Seen(before + now, y) == earlier + One(y.id == child) + OwnerSeen(before + now, y)
  {
    SeenConcat(before, now, y);
  }

  lemma {:induction false} CountOwned(blocks: seq<Block>, depth: map<Id, nat>, id: Id, k: nat, y: nat)
    requires Forest(blocks, depth) && k <= |blocks| && Find(blocks, id).Some? && y < |blocks|
    ensures Seen(Owned(blocks, depth, id, k), blocks[y]) ==
      One(y < k && blocks[y].owner == Some(id)) + OwnerSeen(Owned(blocks, depth, id, k), blocks[y])
    decreases Height(blocks, depth, id), k
  {
    if k == 0 {
      NothingSeen(blocks[y]);
    } else {
      CountOwned(blocks, depth, id, k - 1, y);
      if blocks[k - 1].owner == Some(id) {
        assert GroundedAt(blocks, k - 1, depth);
        CountVisit(blocks, depth, blocks[k - 1].id, y);
        OwnedNext(Owned(blocks, depth, id, k - 1), Visit(blocks, depth, blocks[k - 1].id), blocks[k - 1].id, blocks[y],
          One(y < k - 1 && blocks[y].owner == Some(id)));
        SameIdSamePlace(blocks, y, k - 1);
      }
    }
  }

  lemma {:induction false} SameIdSamePlace(blocks: seq<Block>, i: nat, j: nat)
    requires DistinctIds(blocks) && i < |blocks| && j < |blocks|
    ensures blocks[i].id == blocks[j].id <==> i == j
  {}

  lemma {:induction false} NothingSeen(y: Block)
    ensures Seen([], y) == 0 && OwnerSeen([], y) == 0
  {}

  lemma {:induction false} CountNext(before: seq<Id>, now: seq<Id>, order: seq<Id>, id: Id, y: Block)
    requires Seen(before, y) == Seen(order, y) + OwnerSeen(before, y)
    requires Seen(now, y) == One(y.id == id) + OwnerSeen(now, y)
    ensures Seen(before + now, y) == Seen(order + [id], y) + OwnerSeen(before + now, y)
  {
    SeenConcat(before, now, y);
    SeenConcat(order, [id], y);
    SeenOnce(id, y);
  }

  lemma {:induction false} LastApart(ids: seq<Id>)
    requires ids != []
    ensures ids == ids[..|ids| - 1] + [ids[|ids| - 1]]
  {}

  lemma {:induction false} CountPreorder(blocks: seq<Block>, depth: map<Id, nat>, readingOrder: seq<Id>, y: nat)
    requires Forest(blocks, depth) && y < |blocks|
    requires AllFound(blocks, readingOrder)
    ensures Seen(Preorder(blocks, depth, readingOrder), blocks[y]) ==
      Seen(readingOrder, blocks[y]) + OwnerSeen(Preorder(blocks, depth, readingOrder), blocks[y])
  {
    if readingOrder != [] {
      var n := |readingOrder| - 1;
      CountPreorder(blocks, depth, readingOrder[..n], y);
      CountVisit(blocks, depth, readingOrder[n], y);
      CountNext(Preorder(blocks, depth, readingOrder[..n]), Visit(blocks, depth, readingOrder[n]), readingOrder[..n],
        readingOrder[n], blocks[y]);
      LastApart(readingOrder);
    } else {
      NothingSeen(blocks[y]);
    }
  }

  lemma {:induction false} DistinctCount(s: seq<Id>, y: Id)
    requires forall i, j :: 0 <= i < j < |s| ==> s[i] != s[j]
    ensures multiset(s)[y] == One(y in s)
  {
    if s != [] {
      var n := |s| - 1;
      assert s == s[..n] + [s[n]];
      DistinctCount(s[..n], y);
      CountConcat(s[..n], [s[n]], y);
      assert y in s <==> y in s[..n] || y == s[n];
    }
  }

  /** Every block appears exactly once. */
  lemma {:induction false} EveryBlockOnce(blocks: seq<Block>, depth: map<Id, nat>, readingOrder: seq<Id>, y: nat)
    requires Forest(blocks, depth) && NamesRoots(blocks, readingOrder) && y < |blocks|
    ensures multiset(Preorder(blocks, depth, readingOrder))[blocks[y].id] == 1
    decreases if blocks[y].id in depth then depth[blocks[y].id] else 0
  {
    assert GroundedAt(blocks, y, depth);
    CountPreorder(blocks, depth, readingOrder, y);
    DistinctCount(readingOrder, blocks[y].id);
    if blocks[y].owner.Some? {
      var p :| 0 <= p < |blocks| && blocks[p].id == blocks[y].owner.value;
      EveryBlockOnce(blocks, depth, readingOrder, p);
      assert blocks[y].id !in readingOrder by { FindAt(blocks, y); }
    }
  }

  lemma {:induction false} VisitNamesBlocks(blocks: seq<Block>, depth: map<Id, nat>, id: Id)
    requires Forest(blocks, depth) && Find(blocks, id).Some?
    ensures forall x :: x in Visit(blocks, depth, id) ==> Find(blocks, x).Some?
    decreases Height(blocks, depth, id), |blocks| + 1
  {
    OwnedNamesBlocks(blocks, depth, id, |blocks|);
  }

  lemma {:induction false} OwnedNamesBlocks(blocks: seq<Block>, depth: map<Id, nat>, id: Id, k: nat)
    requires Forest(blocks, depth) && k <= |blocks| && Find(blocks, id).Some?
    ensures forall x :: x in Owned(blocks, depth, id, k) ==> Find(blocks, x).Some?
    decreases Height(blocks, depth, id), k
  {
    if k > 0 {
      OwnedNamesBlocks(blocks, depth, id, k - 1);
      if blocks[k - 1].owner == Some(id) {
        assert GroundedAt(blocks, k - 1, depth);
        VisitNamesBlocks(blocks, depth, blocks[k - 1].id);
      }
    }
  }

  lemma {:induction false} PreorderNamesBlocks(blocks: seq<Block>, depth: map<Id, nat>, readingOrder: seq<Id>)
    requires Forest(blocks, depth)
    requires AllFound(blocks, readingOrder)
    ensures forall x :: x in Preorder(blocks, depth, readingOrder) ==> Find(blocks, x).Some?
  {
    if readingOrder != [] {
      PreorderNamesBlocks(blocks, depth, readingOrder[..|readingOrder| - 1]);
      VisitNamesBlocks(blocks, depth, readingOrder[|readingOrder| - 1]);
    }
  }

  /** Within `s`, after `base`, every owner stands before what it owns. */
  ghost predicate OwnersFirst(blocks: seq<Block>, s: seq<Id>, base: set<Id>) {
    forall i :: 0 <= i < |s| ==> OwnerBefore(blocks, s, i, base)
  }

  ghost predicate OwnerBefore(blocks: seq<Block>, s: seq<Id>, i: nat, base: set<Id>)
    requires i < |s|
  {
    var b := Find(blocks, s[i]);
    b.Some? && b.value.owner.Some? ==> b.value.owner.value in base || b.value.owner.value in s[..i]
  }

  lemma {:induction false} OwnersFirstConcat(blocks: seq<Block>, a: seq<Id>, b: seq<Id>, base: set<Id>, more: set<Id>)
    requires OwnersFirst(blocks, a, base) && OwnersFirst(blocks, b, more)
    requires forall x :: x in more ==> x in base || x in a
    ensures OwnersFirst(blocks, a + b, base)
  {
    forall i | 0 <= i < |a + b| ensures OwnerBefore(blocks, a + b, i, base) {
      if i < |a| {
        assert OwnerBefore(blocks, a, i, base) && (a + b)[..i] == a[..i];
      } else {
        assert OwnerBefore(blocks, b, i - |a|, more) && (a + b)[..i] == a + b[..i - |a|];
      }
    }
  }

  lemma {:induction false} VisitOwnersFirst(blocks: seq<Block>, depth: map<Id, nat>, id: Id, base: set<Id>)
    requires Forest(blocks, depth) && Find(blocks, id).Some?
    requires Find(blocks, id).value.owner.Some? ==> Find(blocks, id).value.owner.value in base
    ensures OwnersFirst(blocks, Visit(blocks, depth, id), base)
    decreases Height(blocks, depth, id), |blocks| + 1
  {
    OwnedOwnersFirst(blocks, depth, id, |blocks|);
    OwnersFirstConcat(blocks, [id], Owned(blocks, depth, id, |blocks|), base, {id});
  }

  lemma {:induction false} OwnedOwnersFirst(blocks: seq<Block>, depth: map<Id, nat>, id: Id, k: nat)
    requires Forest(blocks, depth) && k <= |blocks| && Find(blocks, id).Some?
    ensures OwnersFirst(blocks, Owned(blocks, depth, id, k), {id})
    decreases Height(blocks, depth, id), k
  {
    if k > 0 {
      OwnedOwnersFirst(blocks, depth, id, k - 1);
      if blocks[k - 1].owner == Some(id) {
        assert GroundedAt(blocks, k - 1, depth);
        FindAt(blocks, k - 1);
        VisitOwnersFirst(blocks, depth, blocks[k - 1].id, {id});
        OwnersFirstConcat(blocks, Owned(blocks, depth, id, k - 1), Visit(blocks, depth, blocks[k - 1].id), {id}, {id});
      }
    }
  }

  /** Every owner stands before its owned blocks. */
  lemma {:induction false} PreorderOwnersFirst(blocks: seq<Block>, depth: map<Id, nat>, readingOrder: seq<Id>)
    requires Forest(blocks, depth)
    requires forall i :: 0 <= i < |readingOrder| ==>
      Find(blocks, readingOrder[i]).Some? && Find(blocks, readingOrder[i]).value.owner.None?
    ensures OwnersFirst(blocks, Preorder(blocks, depth, readingOrder), {})
  {
    if readingOrder != [] {
      var n := |readingOrder| - 1;
      PreorderOwnersFirst(blocks, depth, readingOrder[..n]);
      VisitOwnersFirst(blocks, depth, readingOrder[n], {});
      OwnersFirstConcat(blocks, Preorder(blocks, depth, readingOrder[..n]), Visit(blocks, depth, readingOrder[n]), {},
        {});
    }
  }

  lemma {:induction false} PreorderPrefix(blocks: seq<Block>, depth: map<Id, nat>, readingOrder: seq<Id>, k: nat)
    requires Forest(blocks, depth) && k <= |readingOrder|
    requires AllFound(blocks, readingOrder)
    ensures Preorder(blocks, depth, readingOrder[..k]) <= Preorder(blocks, depth, readingOrder)
  {
    if k == |readingOrder| {
      assert readingOrder[..k] == readingOrder;
    } else {
      var shorter := readingOrder[..|readingOrder| - 1];
      assert shorter[..k] == readingOrder[..k];
      PreorderPrefix(blocks, depth, shorter, k);
    }
  }

  /** Roots stand in reading order: each starts where the containers before it end. */
  lemma {:induction false} RootPosition(blocks: seq<Block>, depth: map<Id, nat>, readingOrder: seq<Id>, k: nat)
    requires Forest(blocks, depth) && k < |readingOrder|
    requires AllFound(blocks, readingOrder)
    ensures var at, next := |Preorder(blocks, depth, readingOrder[..k])|, |Preorder(blocks, depth,
      readingOrder[..k + 1])|;
      at < next <= |Preorder(blocks, depth, readingOrder)| && Preorder(blocks, depth, readingOrder)[at] ==
        readingOrder[k]
  {
    var through := readingOrder[..k + 1];
    assert through[..k] == readingOrder[..k] && through[k] == readingOrder[k];
    PreorderPrefix(blocks, depth, readingOrder, k + 1);
    var at := |Preorder(blocks, depth, readingOrder[..k])|;
    assert Preorder(blocks, depth, through)[at] == readingOrder[k];
  }

  /** `t` stands in `s` from place `p` on. */
  predicate StandsAt(s: seq<Id>, t: seq<Id>, p: nat) {
    p + |t| <= |s| && s[p..p + |t|] == t
  }

  lemma {:induction false} StandsBefore(s: seq<Id>, b: seq<Id>, t: seq<Id>, p: nat)
    requires StandsAt(s, t, p)
    ensures StandsAt(s + b, t, p)
  {
    assert (s + b)[p..p + |t|] == s[p..p + |t|];
  }

  lemma {:induction false} StandsBehind(a: seq<Id>, s: seq<Id>, t: seq<Id>, p: nat)
    requires StandsAt(s, t, p)
    ensures StandsAt(a + s, t, |a| + p)
  {
    assert (a + s)[|a| + p..|a| + p + |t|] == s[p..p + |t|];
  }

  lemma {:induction false} StandsInPart(whole: seq<Id>, s: seq<Id>, at: nat, t: seq<Id>, p: nat)
    requires StandsAt(whole, s, at) && StandsAt(s, t, p)
    ensures StandsAt(whole, t, at + p)
  {
    forall k | 0 <= k < |t| ensures whole[at + p..at + p + |t|][k] == t[k] {
      assert whole[at..at + |s|][p + k] == s[p + k] == s[p..p + |t|][k];
    }
  }

  /** What an owner lists holds each child's container as a whole. */
  lemma {:induction false} ChildStands(blocks: seq<Block>, depth: map<Id, nat>, id: Id, k: nat, i: nat) returns (p: nat)
    requires Forest(blocks, depth) && i < k <= |blocks| && Find(blocks, id).Some? && blocks[i].owner == Some(id)
    ensures StandsAt(Owned(blocks, depth, id, k), Visit(blocks, depth, blocks[i].id), p)
    decreases k
  {
    if i == k - 1 {
      assert GroundedAt(blocks, i, depth);
      p := |Owned(blocks, depth, id, k - 1)|;
    } else {
      p := ChildStands(blocks, depth, id, k - 1, i);
      OwnedGrows(blocks, depth, id, k, Visit(blocks, depth, blocks[i].id), p);
    }
  }

  lemma {:induction false} OwnedGrows(blocks: seq<Block>, depth: map<Id, nat>, id: Id, k: nat, t: seq<Id>, p: nat)
    requires Forest(blocks, depth) && 0 < k <= |blocks| && Find(blocks, id).Some?
    requires StandsAt(Owned(blocks, depth, id, k - 1), t, p)
    ensures StandsAt(Owned(blocks, depth, id, k), t, p)
  {
    var before := Owned(blocks, depth, id, k - 1);
    if blocks[k - 1].owner == Some(id) {
      assert GroundedAt(blocks, k - 1, depth);
      StandsBefore(before, Visit(blocks, depth, blocks[k - 1].id), t, p);
    }
  }

  /** The containers of two children follow one another as the children do. */
  lemma {:induction false} ChildrenStand(blocks: seq<Block>, depth: map<Id, nat>, id: Id, k: nat, i: nat, j: nat)
      returns (p: nat, q: nat)
    requires Forest(blocks, depth) && i < j < k <= |blocks| && Find(blocks, id).Some?
    requires blocks[i].owner == Some(id) && blocks[j].owner == Some(id)
    ensures p + |Visit(blocks, depth, blocks[i].id)| <= q
    ensures StandsAt(Owned(blocks, depth, id, k), Visit(blocks, depth, blocks[i].id), p)
    ensures StandsAt(Owned(blocks, depth, id, k), Visit(blocks, depth, blocks[j].id), q)
    decreases k
  {
    if j == k - 1 {
      assert GroundedAt(blocks, j, depth);
      p := ChildStands(blocks, depth, id, k - 1, i);
      q := |Owned(blocks, depth, id, k - 1)|;
      OwnedGrows(blocks, depth, id, k, Visit(blocks, depth, blocks[i].id), p);
    } else {
      p, q := ChildrenStand(blocks, depth, id, k - 1, i, j);
      OwnedGrows(blocks, depth, id, k, Visit(blocks, depth, blocks[i].id), p);
      OwnedGrows(blocks, depth, id, k, Visit(blocks, depth, blocks[j].id), q);
    }
  }

  lemma {:induction false} RootStands(blocks: seq<Block>, depth: map<Id, nat>, readingOrder: seq<Id>, r: nat)
    requires Forest(blocks, depth) && AllFound(blocks, readingOrder) && r < |readingOrder|
    ensures StandsAt(Preorder(blocks, depth, readingOrder), Visit(blocks, depth, readingOrder[r]),
      |Preorder(blocks, depth, readingOrder[..r])|)
  {
    PreorderStep(blocks, depth, readingOrder, r);
    PreorderPrefix(blocks, depth, readingOrder, r + 1);
    InPrefix(Preorder(blocks, depth, readingOrder[..r]), Visit(blocks, depth, readingOrder[r]),
      Preorder(blocks, depth, readingOrder));
  }

  lemma {:induction false} InPrefix(a: seq<Id>, t: seq<Id>, whole: seq<Id>)
    requires a + t <= whole
    ensures StandsAt(whole, t, |a|)
  {
    assert whole[|a|..|a| + |t|] == (a + t)[|a|..|a| + |t|];
  }

  lemma {:induction false} OwnerOf(blocks: seq<Block>, depth: map<Id, nat>, y: nat) returns (o: nat)
    requires Forest(blocks, depth) && y < |blocks| && blocks[y].owner.Some?
    ensures o < |blocks| && blocks[o].id == blocks[y].owner.value && Find(blocks, blocks[o].id).Some?
    ensures blocks[y].id in depth && blocks[o].id in depth && depth[blocks[y].id] == depth[blocks[o].id] + 1
  {
    assert GroundedAt(blocks, y, depth);
    o :| 0 <= o < |blocks| && blocks[o].id == blocks[y].owner.value;
  }

  lemma {:induction false} RootIsNamed(blocks: seq<Block>, readingOrder: seq<Id>, y: nat) returns (r: nat)
    requires NamesRoots(blocks, readingOrder) && y < |blocks| && blocks[y].owner.None?
    ensures r < |readingOrder| && readingOrder[r] == blocks[y].id
  {
    r :| 0 <= r < |readingOrder| && readingOrder[r] == blocks[y].id;
  }

  /** A container stands in the order as a whole: a block and everything below it, with nothing else between. */
  lemma {:induction false} ContainerStands(blocks: seq<Block>, depth: map<Id, nat>, readingOrder: seq<Id>, y: nat)
      returns (p: nat)
    requires Forest(blocks, depth) && NamesRoots(blocks, readingOrder) && AllFound(blocks, readingOrder)
    requires y < |blocks| && Find(blocks, blocks[y].id).Some?
    ensures StandsAt(Preorder(blocks, depth, readingOrder), Visit(blocks, depth, blocks[y].id), p)
    decreases if blocks[y].id in depth then depth[blocks[y].id] else 0
  {
    if blocks[y].owner.None? {
      var r := RootIsNamed(blocks, readingOrder, y);
      RootStands(blocks, depth, readingOrder, r);
      p := |Preorder(blocks, depth, readingOrder[..r])|;
    } else {
      var o := OwnerOf(blocks, depth, y);
      var at := ContainerStands(blocks, depth, readingOrder, o);
      p := ChildStands(blocks, depth, blocks[o].id, |blocks|, y);
      StandsBelow(Preorder(blocks, depth, readingOrder), blocks[o].id, Owned(blocks, depth, blocks[o].id, |blocks|), at,
        Visit(blocks, depth, blocks[y].id), p);
      p := at + p + 1;
    }
  }

  lemma {:induction false} StandsBelow(whole: seq<Id>, id: Id, owned: seq<Id>, at: nat, t: seq<Id>, p: nat)
    requires StandsAt(whole, [id] + owned, at) && StandsAt(owned, t, p)
    ensures StandsAt(whole, t, at + p + 1)
  {
    StandsBehind([id], owned, t, p);
    StandsInPart(whole, [id] + owned, at, t, p + 1);
  }

  lemma {:induction false} StartsAt(s: seq<Id>, t: seq<Id>, p: nat)
    requires t != [] && StandsAt(s, t, p)
    ensures p < |s| && s[p] == t[0]
  {
    assert s[p..p + |t|][0] == t[0];
  }

  lemma {:induction false} BothStandBelow(whole: seq<Id>, id: Id, owned: seq<Id>, at: nat, a: seq<Id>, b: seq<Id>,
      p: nat, q: nat)
    requires StandsAt(whole, [id] + owned, at) && StandsAt(owned, a, p) && StandsAt(owned, b, q) && b != []
    ensures StandsAt(whole, a, at + p + 1) && at + q + 1 < |whole| && whole[at + q + 1] == b[0]
  {
    StandsBelow(whole, id, owned, at, a, p);
    StandsBelow(whole, id, owned, at, b, q);
    StartsAt(whole, b, at + q + 1);
  }

  lemma {:induction false} OwnerStands(blocks: seq<Block>, depth: map<Id, nat>, readingOrder: seq<Id>, i: nat, id: Id)
      returns (at: nat)
    requires Forest(blocks, depth) && NamesRoots(blocks, readingOrder) && AllFound(blocks, readingOrder)
    requires i < |blocks| && blocks[i].owner == Some(id)
    ensures Find(blocks, id).Some?
    ensures StandsAt(Preorder(blocks, depth, readingOrder), [id] + Owned(blocks, depth, id, |blocks|), at)
  {
    var o := OwnerOf(blocks, depth, i);
    at := ContainerStands(blocks, depth, readingOrder, o);
  }

  lemma {:induction false} SiblingsStand(blocks: seq<Block>, depth: map<Id, nat>, whole: seq<Id>, i: nat, j: nat,
      id: Id, at: nat) returns (p: nat, q: nat)
    requires Forest(blocks, depth) && i < j < |blocks| && Find(blocks, id).Some?
    requires blocks[i].owner == Some(id) == blocks[j].owner
    requires Find(blocks, blocks[i].id).Some? && Find(blocks, blocks[j].id).Some?
    requires StandsAt(whole, [id] + Owned(blocks, depth, id, |blocks|), at)
    ensures var t := Visit(blocks, depth, blocks[i].id);
      p + |t| <= q < |whole| && StandsAt(whole, t, p) && whole[q] == blocks[j].id
  {
    var a, b := Visit(blocks, depth, blocks[i].id), Visit(blocks, depth, blocks[j].id);
    p, q := ChildrenStand(blocks, depth, id, |blocks|, i, j);
    BothStandBelow(whole, id, Owned(blocks, depth, id, |blocks|), at, a, b, p, q);
    p, q := at + p + 1, at + q + 1;
  }

  /** Blocks with one owner stand in the order they come in, each with everything it owns before the next. */
  lemma {:induction false} SiblingsInOrder(blocks: seq<Block>, depth: map<Id, nat>, readingOrder: seq<Id>, i: nat,
      j: nat, id: Id) returns (p: nat, q: nat)
    requires Forest(blocks, depth) && NamesRoots(blocks, readingOrder) && AllFound(blocks, readingOrder)
    requires i < j < |blocks| && blocks[i].owner == Some(id) == blocks[j].owner
    requires Find(blocks, blocks[i].id).Some? && Find(blocks, blocks[j].id).Some?
    ensures var s, t := Preorder(blocks, depth, readingOrder), Visit(blocks, depth, blocks[i].id);
      p + |t| <= q < |s| && StandsAt(s, t, p) && s[q] == blocks[j].id
  {
    var at := OwnerStands(blocks, depth, readingOrder, i, id);
    p, q := SiblingsStand(blocks, depth, Preorder(blocks, depth, readingOrder), i, j, id, at);
  }
}
