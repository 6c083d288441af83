/** The adapter's order passes the validator's order, owner and parent checks. */
module AdapterOrder {
  import opened Wrappers
  import opened Documents
  import opened Validator
  import opened Ordering
  import opened Outline

  ghost function Order(blocks: seq<Block>, depth: map<Id, nat>, readingOrder: seq<Id>): (s: seq<Id>)
    requires Forest(blocks, depth) && NamesRoots(blocks, readingOrder)
    ensures forall i :: 0 <= i < |s| ==> Find(blocks, s[i]).Some?
  {
    PreorderNamesBlocks(blocks, depth, readingOrder);
    Preorder(blocks, depth, readingOrder)
  }

  /** The blocks the adapter hands on. */
  ghost function Adapted(blocks: seq<Block>, depth: map<Id, nat>, readingOrder: seq<Id>, title: Option<Id>,
      references: ReferenceTitle): seq<Block>
    requires Forest(blocks, depth) && NamesRoots(blocks, readingOrder)
  {
    Outlined(Arranged(blocks, Order(blocks, depth, readingOrder)), title, references)
  }

  /** Ordering and heading pass of `adapt`. */
  method Adapt(blocks: seq<Block>, ghost depth: map<Id, nat>, readingOrder: seq<Id>, title: Option<Id>,
      references: ReferenceTitle) returns (out: seq<Block>)
    requires Forest(blocks, depth) && NamesRoots(blocks, readingOrder)
    ensures out == Adapted(blocks, depth, readingOrder, title, references)
  {
    ghost var order := Order(blocks, depth, readingOrder);
    var ordered := OrderBlocks(blocks, depth, readingOrder);
    assert ordered == order;
    var arranged := AssignOrder(blocks, ordered);
    out := HeadingPass(arranged, title, references);
  }

  lemma {:induction false} TwiceCounts(s: seq<Id>, i: nat, j: nat)
    requires i < j < |s| && s[i] == s[j]
    ensures multiset(s)[s[i]] >= 2
  {
    assert s == s[..j] + s[j..];
    CountConcat(s[..j], s[j..], s[i]);
    assert s[i] in s[..j] && s[i] in s[j..] by {
      assert s[..j][i] == s[i] && s[j..][0] == s[j];
    }
  }

  /** The order lists every block exactly once. */
  lemma {:induction false} OrderIsPermutation(blocks: seq<Block>, depth: map<Id, nat>, readingOrder: seq<Id>)
    requires Forest(blocks, depth) && NamesRoots(blocks, readingOrder)
    ensures var s := Order(blocks, depth, readingOrder);
      && (forall i, j :: 0 <= i < j < |s| ==> s[i] != s[j])
      && (forall y :: 0 <= y < |blocks| ==> blocks[y].id in s)
  {
    var s := Order(blocks, depth, readingOrder);
    forall i, j | 0 <= i < j < |s| ensures s[i] != s[j] {
      var y :| 0 <= y < |blocks| && blocks[y].id == s[i];
      EveryBlockOnce(blocks, depth, readingOrder, y);
      if s[i] == s[j] { TwiceCounts(s, i, j); }
    }
    forall y | 0 <= y < |blocks| ensures blocks[y].id in s {
      EveryBlockOnce(blocks, depth, readingOrder, y);
      assert multiset(s)[blocks[y].id] == 1;
    }
  }

  lemma {:induction false} AdaptedShape(blocks: seq<Block>, depth: map<Id, nat>, readingOrder: seq<Id>,
      title: Option<Id>, references: ReferenceTitle, i: nat)
    requires Forest(blocks, depth) && NamesRoots(blocks, readingOrder) && i < |Order(blocks, depth, readingOrder)|
    ensures var s, out := Order(blocks, depth, readingOrder), Adapted(blocks, depth, readingOrder, title, references);
      |out| == |s| && out[i].id == s[i] && out[i].order == i && out[i].owner == Find(blocks, s[i]).value.owner
  {
    OutlinedShape(Arranged(blocks, Order(blocks, depth, readingOrder)), title, references, i);
  }

  lemma {:induction false} AdaptedDistinct(blocks: seq<Block>, depth: map<Id, nat>, readingOrder: seq<Id>,
      title: Option<Id>, references: ReferenceTitle)
    requires Forest(blocks, depth) && NamesRoots(blocks, readingOrder)
    ensures DistinctIds(Arranged(blocks, Order(blocks, depth, readingOrder)))
    ensures DistinctIds(Adapted(blocks, depth, readingOrder, title, references))
    ensures DistinctOrders(Adapted(blocks, depth, readingOrder, title, references))
  {
    OrderIsPermutation(blocks, depth, readingOrder);
    var out := Adapted(blocks, depth, readingOrder, title, references);
    OutlinedDistinct(Arranged(blocks, Order(blocks, depth, readingOrder)), title, references);
    forall i, j | 0 <= i < j < |out| ensures out[i].order != out[j].order {
      AdaptedShape(blocks, depth, readingOrder, title, references, i);
      AdaptedShape(blocks, depth, readingOrder, title, references, j);
    }
  }

  /** A block is found at its place in the order. */
  lemma {:induction false} FoundAt(blocks: seq<Block>, depth: map<Id, nat>, readingOrder: seq<Id>, title: Option<Id>,
      references: ReferenceTitle, i: nat)
    requires Forest(blocks, depth) && NamesRoots(blocks, readingOrder) && i < |Order(blocks, depth, readingOrder)|
    ensures var s, out := Order(blocks, depth, readingOrder), Adapted(blocks, depth, readingOrder, title, references);
      var b := Find(out, s[i]);
      b.Some? && b.value == out[i] && b.value.order == i && b.value.owner == Find(blocks, s[i]).value.owner
  {
    AdaptedDistinct(blocks, depth, readingOrder, title, references);
    AdaptedShape(blocks, depth, readingOrder, title, references, i);
    FindAt(Adapted(blocks, depth, readingOrder, title, references), i);
  }

  lemma {:induction false} RootFound(blocks: seq<Block>, depth: map<Id, nat>, readingOrder: seq<Id>, title: Option<Id>,
      references: ReferenceTitle, k: nat)
    requires Forest(blocks, depth) && NamesRoots(blocks, readingOrder) && k < |readingOrder|
    ensures var b := Find(Adapted(blocks, depth, readingOrder, title, references), readingOrder[k]);
      b.Some? && b.value.owner.None? && b.value.order == |Preorder(blocks, depth, readingOrder[..k])|
  {
    RootPosition(blocks, depth, readingOrder, k);
    FoundAt(blocks, depth, readingOrder, title, references, |Preorder(blocks, depth, readingOrder[..k])|);
  }

  lemma {:induction false} RootsInOrder(blocks: seq<Block>, depth: map<Id, nat>, readingOrder: seq<Id>, i: nat, j: nat)
    requires Forest(blocks, depth) && NamesRoots(blocks, readingOrder) && i < j < |readingOrder|
    ensures |Preorder(blocks, depth, readingOrder[..i])| < |Preorder(blocks, depth, readingOrder[..j])|
  {
    RootPosition(blocks, depth, readingOrder, i);
    assert readingOrder[..j][..i + 1] == readingOrder[..i + 1];
    PreorderPrefix(blocks, depth, readingOrder[..j], i + 1);
  }

  lemma {:induction false} RootsFollow(blocks: seq<Block>, depth: map<Id, nat>, readingOrder: seq<Id>,
      title: Option<Id>, references: ReferenceTitle, i: nat, j: nat)
    requires Forest(blocks, depth) && NamesRoots(blocks, readingOrder) && i < j < |readingOrder|
    ensures EarlierBlock(Adapted(blocks, depth, readingOrder, title, references), readingOrder[i], readingOrder[j])
  {
    RootFound(blocks, depth, readingOrder, title, references, i);
    RootFound(blocks, depth, readingOrder, title, references, j);
    RootsInOrder(blocks, depth, readingOrder, i, j);
  }

  lemma {:induction false} RootIsNamed(blocks: seq<Block>, depth: map<Id, nat>, readingOrder: seq<Id>,
      title: Option<Id>, references: ReferenceTitle, i: nat)
    requires Forest(blocks, depth) && NamesRoots(blocks, readingOrder) && i < |Order(blocks, depth, readingOrder)|
    ensures var out := Adapted(blocks, depth, readingOrder, title, references);
      out[i].owner.None? ==> out[i].id in readingOrder
  {
    AdaptedShape(blocks, depth, readingOrder, title, references, i);
    var y :| 0 <= y < |blocks| && blocks[y].id == Order(blocks, depth, readingOrder)[i];
    FindAt(blocks, y);
  }

  lemma {:induction false} AllRootsListed(blocks: seq<Block>, depth: map<Id, nat>, readingOrder: seq<Id>,
      title: Option<Id>, references: ReferenceTitle)
    requires Forest(blocks, depth) && NamesRoots(blocks, readingOrder)
    ensures RootsListed(Adapted(blocks, depth, readingOrder, title, references), readingOrder)
  {
    var out := Adapted(blocks, depth, readingOrder, title, references);
    forall k | 0 <= k < |readingOrder|
      ensures Find(out, readingOrder[k]).Some? && Find(out, readingOrder[k]).value.owner.None?
    {
      RootFound(blocks, depth, readingOrder, title, references, k);
    }
    forall b | b in out && b.owner.None? ensures b.id in readingOrder {
      var i :| 0 <= i < |out| && out[i] == b;
      RootIsNamed(blocks, depth, readingOrder, title, references, i);
    }
  }

  /** The validator finds the reading order in block order. */
  lemma {:induction false} ReadingOrderIsAccepted(source: Source, blocks: seq<Block>, depth: map<Id, nat>,
      title: Option<Id>, references: ReferenceTitle)
    requires Forest(blocks, depth) && NamesRoots(blocks, source.readingOrder)
    requires source.blocks == Adapted(blocks, depth, source.readingOrder, title, references)
    ensures ReadingOrderOk(source)
  {
    AllRootsListed(blocks, depth, source.readingOrder, title, references);
    forall i, j | 0 <= i < j < |source.readingOrder|
      ensures EarlierBlock(source.blocks, source.readingOrder[i], source.readingOrder[j])
    {
      RootsFollow(blocks, depth, source.readingOrder, title, references, i, j);
    }
  }

  /** Depth one more than the owner's, which is present. */
  ghost predicate Rooted(out: seq<Block>, depth: map<Id, nat>, i: nat)
    requires i < |out|
  {
    && out[i].id in depth
    && (out[i].owner.None? ==> depth[out[i].id] == 0)
    && (out[i].owner.Some? ==> exists p :: 0 <= p < |out| && OwnerAt(out, depth, i, p))
  }

  ghost predicate OwnerAt(out: seq<Block>, depth: map<Id, nat>, i: nat, p: nat)
    requires i < |out| && p < |out| && out[i].id in depth && out[i].owner.Some?
  {
    Find(out, out[i].owner.value) == Some(out[p]) && out[p].id in depth && depth[out[i].id] == depth[out[p].id] + 1
  }

  lemma {:induction false} AdaptedForest(blocks: seq<Block>, depth: map<Id, nat>, readingOrder: seq<Id>,
      title: Option<Id>, references: ReferenceTitle, i: nat)
    requires Forest(blocks, depth) && NamesRoots(blocks, readingOrder) && i < |Order(blocks, depth, readingOrder)|
    ensures Rooted(Adapted(blocks, depth, readingOrder, title, references), depth, i)
  {
    var s := Order(blocks, depth, readingOrder);
    var out := Adapted(blocks, depth, readingOrder, title, references);
    AdaptedShape(blocks, depth, readingOrder, title, references, i);
    var y :| 0 <= y < |blocks| && blocks[y].id == s[i];
    FindAt(blocks, y);
    assert GroundedAt(blocks, y, depth);
    if blocks[y].owner.Some? {
      OrderIsPermutation(blocks, depth, readingOrder);
      var p :| 0 <= p < |s| && s[p] == blocks[y].owner.value;
      FoundAt(blocks, depth, readingOrder, title, references, p);
      assert OwnerAt(out, depth, i, p);
    }
  }

  /** The validator's owner walk ends exactly when at most sixty-four owners stand above the block. */
  lemma {:induction false} OwnerWalk(out: seq<Block>, depth: map<Id, nat>, i: nat, seen: set<Id>)
    requires i < |out| && forall j :: 0 <= j < |out| ==> Rooted(out, depth, j)
    requires out[i].id in depth && forall x :: x in seen ==> x in depth && depth[x] > depth[out[i].id]
    ensures OwnersEnd(out, out[i], seen) <==> out[i].owner.None? || |seen| + depth[out[i].id] <= MAX_OWNERS
    decreases if out[i].id in depth then depth[out[i].id] else 0
  {
    assert Rooted(out, depth, i);
    if out[i].owner.Some? {
      var p :| 0 <= p < |out| && OwnerAt(out, depth, i, p);
      OwnerWalk(out, depth, p, seen + {out[i].id});
      assert Rooted(out, depth, p);
    }
  }

  /** An owner comes before everything it owns. */
  lemma {:induction false} OwnersComeFirst(blocks: seq<Block>, depth: map<Id, nat>, readingOrder: seq<Id>,
      title: Option<Id>, references: ReferenceTitle, i: nat)
    requires Forest(blocks, depth) && NamesRoots(blocks, readingOrder) && i < |Order(blocks, depth, readingOrder)|
    ensures var out := Adapted(blocks, depth, readingOrder, title, references);
      out[i].owner.Some? ==>
        Find(out, out[i].owner.value).Some? && Find(out, out[i].owner.value).value.order < out[i].order
  {
    var s := Order(blocks, depth, readingOrder);
    PreorderOwnersFirst(blocks, depth, readingOrder);
    assert OwnerBefore(blocks, s, i, {});
    AdaptedShape(blocks, depth, readingOrder, title, references, i);
    var out := Adapted(blocks, depth, readingOrder, title, references);
    if out[i].owner.Some? {
      var p :| 0 <= p < i && s[p] == out[i].owner.value;
      FoundAt(blocks, depth, readingOrder, title, references, p);
    }
  }

  /** Order, reading order and parents of the adapter's blocks pass the validator for every owner
      forest whose roots are the reading order; its owner walk passes exactly up to sixty-four owners. */
  lemma {:induction false} AdapterOrderIsAccepted(source: Source, blocks: seq<Block>, depth: map<Id, nat>,
      title: Option<Id>, references: ReferenceTitle)
    requires Forest(blocks, depth) && NamesRoots(blocks, source.readingOrder)
    requires source.blocks == Adapted(blocks, depth, source.readingOrder, title, references)
    requires TitleIsHeading(blocks, title)
    ensures DistinctIds(source.blocks) && DistinctOrders(source.blocks) && ReadingOrderOk(source)
    ensures forall i :: 0 <= i < |source.blocks| ==> ParentOk(source.blocks, source.blocks[i])
    ensures forall i :: 0 <= i < |source.blocks| ==> OwnersWithin(source.blocks, depth, i)
  {
    var order, out := source.readingOrder, source.blocks;
    var arranged := Arranged(blocks, Order(blocks, depth, order));
    AdaptedDistinct(blocks, depth, order, title, references);
    ReadingOrderIsAccepted(source, blocks, depth, title, references);
    TitleSurvives(blocks, depth, order, title);
    forall i | 0 <= i < |out| ensures ParentOk(out, out[i]) {
      ParentsAreAccepted(arranged, title, references, i);
    }
    forall i | 0 <= i < |out| ensures Rooted(out, depth, i) {
      AdaptedForest(blocks, depth, order, title, references, i);
    }
    forall i | 0 <= i < |out| ensures OwnersWithin(out, depth, i) {
      assert Rooted(out, depth, i);
      OwnerWalk(out, depth, i, {});
    }
  }

  /** The owner walk passes exactly when the block is at most sixty-four owners deep. */
  ghost predicate OwnersWithin(out: seq<Block>, depth: map<Id, nat>, i: nat)
    requires i < |out|
  {
    out[i].id in depth && (OwnersEnd(out, out[i], {}) <==> depth[out[i].id] <= MAX_OWNERS)
  }

  lemma {:induction false} TitleSurvives(blocks: seq<Block>, depth: map<Id, nat>, readingOrder: seq<Id>,
      title: Option<Id>)
    requires Forest(blocks, depth) && NamesRoots(blocks, readingOrder) && TitleIsHeading(blocks, title)
    ensures TitleIsHeading(Arranged(blocks, Order(blocks, depth, readingOrder)), title)
  {
    if title.Some? {
      var t :| 0 <= t < |blocks| && blocks[t].id == title.value && blocks[t].kind == Heading;
      OrderIsPermutation(blocks, depth, readingOrder);
      var s := Order(blocks, depth, readingOrder);
      var p :| 0 <= p < |s| && s[p] == blocks[t].id;
      FindAt(blocks, t);
      assert Arranged(blocks, s)[p].id == title.value && Arranged(blocks, s)[p].kind == Heading;
    }
  }
}
