/** The premises of the main results can be met: a small accepted source, and a diff. */
module Witnesses {
  import opened Wrappers
  import opened Documents
  import opened Validator
  import opened EditScripts
  import opened RichTrees

  const PLAIN := Attributes(1, [], [], [], None)

  function Sealed(b: Block, atoms: map<Id, Atom>): Block {
    b.(hash := BlockHash(b, atoms))
  }

  function Unsealed(id: Id, order: nat, parent: Option<Id>, owner: Option<Id>, kind: Kind, translatable: bool,
      text: string, inline: seq<Inline>, children: seq<Id>): Block {
    Block(id, order, parent, owner, kind, "en", translatable, text, text, [], inline, [1],
      SourceHash(kind, text, inline, PLAIN, map[]), PLAIN.(children := children))
  }

  /** A title, and a group that owns a paragraph showing one empty control. */
  function Sample(): Source {
    var atoms: map<Id, Atom> := map["c" := Atom(Control, "")];
    var title := Sealed(Unsealed("t", 0, None, None, Heading, true, "A", [Text("A")], []), atoms);
    var group := Sealed(Unsealed("g", 1, Some("t"), None, Group, false, "", [], ["p"]), atoms);
    var paragraph := Sealed(Unsealed("p", 2, Some("t"), Some("g"), Paragraph, false, "", [ProtectedRef("c")], []),
      atoms);
    Source("s", true, "t", ["t", "g"], atoms, [title, group, paragraph])
  }

  lemma {:induction false} SampleFinds()
    ensures var s := Sample();
      Find(s.blocks, "t") == Some(s.blocks[0]) && Find(s.blocks, "g") == Some(s.blocks[1]) && Find(s.blocks, "p") ==
        Some(s.blocks[2])
  {
    var s := Sample();
    ThreeDistinct(s.blocks);
    FindAt(s.blocks, 0);
    FindAt(s.blocks, 1);
    FindAt(s.blocks, 2);
  }

  lemma {:induction false} OneNode(n: Inline, atoms: map<Id, Atom>)
    ensures Flatten([n], atoms) == Shown(n, atoms)
  {
    assert [n][..0] == [];
    if Shown(n, atoms).Some? { assert "" + Shown(n, atoms).value == Shown(n, atoms).value; }
  }

  lemma {:induction false} UneditedText(source: Source, b: Block, safe: SafeUrl)
    requires b.edits == [] && b.raw == b.normalized && BlockHash(b, source.atoms) == b.hash
    requires Flatten(b.inline, source.atoms) == Some(b.normalized)
    requires forall k :: 0 <= k < |b.inline| ==> NodeResolves(b.inline[k], source.blocks, safe)
    ensures TextOk(source, b, safe)
  {
    FlattenKnown(b.inline, source.atoms);
    assert b.raw[0..] == b.raw;
  }

  lemma {:induction false} SampleText(safe: SafeUrl, i: nat)
    requires i < 3
    ensures TextOk(Sample(), Sample().blocks[i], safe)
  {
    var s := Sample();
    if i == 0 {
      OneNode(Text("A"), s.atoms);
    } else if i == 2 {
      OneNode(ProtectedRef("c"), s.atoms);
    }
    UneditedText(s, s.blocks[i], safe);
  }

  lemma {:induction false} OneStepUp(blocks: seq<Block>, b: Block, top: Block)
    requires b in blocks && top in blocks && top.parent.None?
    requires b.parent.Some? ==> Find(blocks, b.parent.value) == Some(top) && top.kind == Heading
    ensures ParentOk(blocks, b)
  {}

  lemma {:induction false} OneOwnerUp(source: Source, b: Block, top: Block)
    requires b in source.blocks && top in source.blocks && top.owner.None? && source.rich && top.kind == Group
    requires b.kind != TableCell
    requires b.owner.Some? ==> Find(source.blocks, b.owner.value) == Some(top)
    ensures OwnerOk(source, b)
  {}

  lemma {:induction false} SampleChains(i: nat)
    requires i < 3
    ensures ParentOk(Sample().blocks, Sample().blocks[i]) && OwnerOk(Sample(), Sample().blocks[i])
  {
    var s := Sample();
    SampleFinds();
    OneStepUp(s.blocks, s.blocks[i], s.blocks[0]);
    OneOwnerUp(s, s.blocks[i], s.blocks[1]);
  }

  lemma {:induction false} NamesDiffer()
    ensures "t" != "g" && "t" != "p" && "g" != "p"
  {
    assert "t"[0] != "g"[0] && "t"[0] != "p"[0] && "g"[0] != "p"[0];
  }

  lemma {:induction false} SampleProse(i: nat)
    requires i < 3
    ensures ProseOk(Sample(), Sample().blocks[i]) && TableOk(Sample(), Sample().blocks[i])
    ensures CaptionsOk(Sample(), Sample().blocks[i])
  {
    assert Sample().blocks[2].inline[0].ProtectedRef? && Sample().atoms["c"].kind == Control;
  }

  lemma {:induction false} SampleListed(i: nat)
    requires i < 3
    ensures ListedByOwner(Sample(), Sample().blocks[i])
  {
    SampleFinds();
  }

  lemma {:induction false} OnlyChild(blocks: seq<Block>)
    requires |blocks| == 3 && blocks[0].owner == None && blocks[1].owner == None && blocks[2].owner == Some("g")
    requires blocks[2].id == "p"
    ensures forall k :: 0 <= k < |blocks| && blocks[k].owner == Some("g") ==> blocks[k].id in ["p"]
  {}

  lemma {:induction false} SampleChildren(i: nat)
    requires i < 3
    ensures ChildrenOk(Sample(), Sample().blocks[i])
  {
    SampleFinds();
    if i == 1 {
      OnlyChild(Sample().blocks);
      assert OwnedBy(Sample().blocks, "p", "g");
    }
  }

  lemma {:induction false} SampleBlock(safe: SafeUrl, i: nat)
    requires i < 3
    ensures BlockAccepted(Sample(), Sample().blocks[i], safe)
  {
    SampleText(safe, i);
    SampleChains(i);
    SampleProse(i);
    SampleListed(i);
    SampleChildren(i);
  }

  lemma {:induction false} TwoRoots(blocks: seq<Block>, order: seq<Id>)
    requires |blocks| == 3 && order == ["t", "g"] && blocks[0].id == "t" && blocks[1].id == "g"
    requires blocks[0].owner.None? && blocks[1].owner.None? && blocks[2].owner.Some?
    requires Find(blocks, "t") == Some(blocks[0]) && Find(blocks, "g") == Some(blocks[1])
    ensures RootsListed(blocks, order)
  {
    assert order[0] == "t" && order[1] == "g";
  }

  lemma {:induction false} TwoInOrder(blocks: seq<Block>, order: seq<Id>)
    requires order == ["t", "g"] && EarlierBlock(blocks, "t", "g")
    ensures forall i, j :: 0 <= i < j < |order| ==> EarlierBlock(blocks, order[i], order[j])
  {}

  lemma {:induction false} SampleOrder()
    ensures ReadingOrderOk(Sample()) && TitleOk(Sample())
  {
    var s := Sample();
    SampleFinds();
    TwoRoots(s.blocks, s.readingOrder);
    TwoInOrder(s.blocks, s.readingOrder);
  }

  lemma {:induction false} ThreeDistinct(blocks: seq<Block>)
    requires |blocks| == 3 && blocks[0].id == "t" && blocks[1].id == "g" && blocks[2].id == "p"
    requires blocks[0].order == 0 && blocks[1].order == 1 && blocks[2].order == 2
    ensures DistinctIds(blocks) && DistinctOrders(blocks)
  {
    NamesDiffer();
  }

  /** The builder and checker agreement is about sources that exist. */
  lemma {:induction false} SampleIsAccepted(safe: SafeUrl)
    ensures SourceAccepted(Sample(), safe)
  {
    var s := Sample();
    ThreeDistinct(s.blocks);
    SampleOrder();
    forall b | b in s.blocks ensures BlockAccepted(s, b, safe) {
      var i :| 0 <= i < 3 && s.blocks[i] == b;
      SampleBlock(safe, i);
    }
  }

  /** The coarsest edit script. */
  function Whole(a: string, b: string): seq<Op> {
    if a == b then (if a == "" then [] else [Op(Equal, 0, |a|, 0, |b|)])
    else [Op(if a == "" then Inserted else if b == "" then Deleted else Replaced, 0, |a|, 0, |b|)]
  }

  /** The repair results are about diffs that exist. */
  lemma {:induction false} SomeDiff()
    ensures Diffs(Whole)
  {
    forall a, b ensures Script(Whole(a, b), a, b) {
      var ops := Whole(a, b);
      if ops != [] {
        assert a[0..|a|] == a && b[0..|b|] == b;
        assert Entry(ops, 0, a, b);
      }
    }
  }
}
