/** The document source: blocks, inline nodes, protected atoms (src/packages/ir/validator.py). */
module Documents {
  import opened Wrappers
  import opened Tables

  type Id = string

  datatype Kind = Heading | Paragraph | ListItem | Code | Math | Figure | Caption | Table | TableCell | Footnote
    | Reference | Group

  datatype Inline =
    | Text(text: string)
    | ProtectedRef(ref: Id)
    | CrossRef(target: Id, shown: string)
    | Link(href: string, text: string)

  datatype AtomKind = Number | MathAtom | CodeAtom | Citation | Variable | Control | Chemical

  datatype Atom = Atom(kind: AtomKind, value: string)

  /** A table cell of a structured table: its place, the block it shows, and its headers. */
  datatype CellEntry = CellEntry(content: Id, header: bool, headers: seq<Id>)

  datatype TableData =
    | Structured(grid: Grid, entries: seq<CellEntry>)
    | Picture

  datatype Attributes = Attributes(level: nat, children: seq<Id>, captions: seq<Id>, notes: seq<Id>,
      table: Option<TableData>)

  datatype Edit = Edit(start: int, end: int, replacement: string, evidenced: bool)

  /** A digest stands for what it digests, so different content never shares one. */
  datatype SourceHash = SourceHash(kind: Kind, normalized: string, inline: seq<Inline>, attributes: Attributes,
      atoms: map<Id, Atom>)

  datatype Block = Block(
    id: Id, order: nat, parent: Option<Id>, owner: Option<Id>, kind: Kind, language: string, translatable: bool,
    raw: string, normalized: string, edits: seq<Edit>, inline: seq<Inline>, pages: seq<nat>, hash: SourceHash,
    attributes: Attributes)

  /** `rich` is schema 4.0. */
  datatype Source = Source(id: Id, rich: bool, title: Id, readingOrder: seq<Id>, atoms: map<Id, Atom>,
      blocks: seq<Block>)

  /** The characters `str.strip` and `str.isspace` take for white space. */
  predicate Space(c: char) {
    || '\t' <= c <= '\r' || '\U{1C}' <= c <= ' ' || c == '\U{85}' || c == '\U{A0}' || c == '\U{1680}'
    || '\U{2000}' <= c <= '\U{200A}' || c == '\U{2028}' || c == '\U{2029}' || c == '\U{202F}' || c == '\U{205F}' || c ==
      '\U{3000}'
  }

  predicate Blank(s: string) {
    forall i :: 0 <= i < |s| ==> Space(s[i])
  }

  /** The first block with an id. */
  function Find(blocks: seq<Block>, id: Id): (r: Option<Block>)
    ensures r.Some? <==> exists i :: 0 <= i < |blocks| && blocks[i].id == id
    ensures r.Some? ==> r.value.id == id && r.value in blocks
  {
    if blocks == [] then None
    else if blocks[0].id == id then Some(blocks[0])
    else
      var rest := Find(blocks[1..], id);
      assert forall i :: 0 < i < |blocks| ==> blocks[i] == blocks[1..][i - 1];
      assert rest.Some? ==> exists i :: 0 <= i < |blocks[1..]| && blocks[1..][i].id == id;
      rest
  }

  ghost predicate DistinctIds(blocks: seq<Block>) {
    forall i, j :: 0 <= i < j < |blocks| ==> blocks[i].id != blocks[j].id
  }

  lemma {:induction false} FindAt(blocks: seq<Block>, i: nat)
    requires i < |blocks| && DistinctIds(blocks)
    ensures Find(blocks, blocks[i].id) == Some(blocks[i])
  {
    if i > 0 {
      assert blocks[0].id != blocks[i].id;
      assert blocks[1..][i - 1] == blocks[i];
      FindAt(blocks[1..], i - 1);
    }
  }

  function Shown(n: Inline, atoms: map<Id, Atom>): Option<string> {
    match n
    case Text(text) => Some(text)
    case Link(_, text) => Some(text)
    case CrossRef(_, shown) => Some(shown)
    case ProtectedRef(ref) => if ref in atoms then Some(atoms[ref].value) else None
  }

  /** The visible text; None names an unknown protected atom. */
  function Flatten(nodes: seq<Inline>, atoms: map<Id, Atom>): Option<string> {
    if nodes == [] then Some("")
    else
      var before, last := Flatten(nodes[..|nodes| - 1], atoms), Shown(nodes[|nodes| - 1], atoms);
      if before.None? || last.None? then None else Some(before.value + last.value)
  }

  /** Visible text reads node by node, from left to right. */
  lemma {:induction false} FlattenReads(a: seq<Inline>, b: seq<Inline>, atoms: map<Id, Atom>)
    ensures Flatten(a + b, atoms) ==
      if Flatten(a, atoms).Some? && Flatten(b, atoms).Some?
      then Some(Flatten(a, atoms).value + Flatten(b, atoms).value) else None
  {
    if b == [] {
      assert a + b == a;
      if Flatten(a, atoms).Some? { assert Flatten(a, atoms).value + "" == Flatten(a, atoms).value; }
    } else {
      var n := |b| - 1;
      assert (a + b)[..|a + b| - 1] == a + b[..n] && (a + b)[|a + b| - 1] == b[n];
      FlattenReads(a, b[..n], atoms);
      var x, y, last := Flatten(a, atoms), Flatten(b[..n], atoms), Shown(b[n], atoms);
      if x.Some? && y.Some? && last.Some? { assert x.value + (y.value + last.value) == x.value + y.value + last.value; }
    }
  }

  lemma {:induction false} FlattenOne(n: Inline, atoms: map<Id, Atom>)
    ensures Flatten([n], atoms) == Shown(n, atoms)
  {
    assert [n][..0] == [];
    if Shown(n, atoms).Some? { assert "" + Shown(n, atoms).value == Shown(n, atoms).value; }
  }

  /** Text and links show their text, a cross-reference its label, a protected reference its atom's value. */
  lemma {:induction false} FlattenNode(text: string, href: string, target: Id, ref: Id, atoms: map<Id, Atom>)
    ensures Flatten([Text(text)], atoms) == Some(text) && Flatten([Link(href, text)], atoms) == Some(text)
    ensures Flatten([CrossRef(target, text)], atoms) == Some(text)
    ensures Flatten([ProtectedRef(ref)], atoms) == if ref in atoms then Some(atoms[ref].value) else None
  {
    FlattenOne(Text(text), atoms);
    FlattenOne(Link(href, text), atoms);
    FlattenOne(CrossRef(target, text), atoms);
    FlattenOne(ProtectedRef(ref), atoms);
  }

  ghost predicate KnownAtoms(nodes: seq<Inline>, atoms: map<Id, Atom>) {
    forall i :: 0 <= i < |nodes| && nodes[i].ProtectedRef? ==> nodes[i].ref in atoms
  }

  lemma {:induction false} FlattenKnown(nodes: seq<Inline>, atoms: map<Id, Atom>)
    ensures Flatten(nodes, atoms).Some? <==> KnownAtoms(nodes, atoms)
  {
    if nodes != [] {
      var n := |nodes| - 1;
      FlattenKnown(nodes[..n], atoms);
      if KnownAtoms(nodes[..n], atoms) && Shown(nodes[n], atoms).Some? {
        forall i | 0 <= i < |nodes| && nodes[i].ProtectedRef? ensures nodes[i].ref in atoms {
          if i < n { assert nodes[..n][i] == nodes[i]; }
        }
      }
    }
  }

  lemma {:induction false} FlattenFails(nodes: seq<Inline>, atoms: map<Id, Atom>, k: nat)
    requires k <= |nodes| && Flatten(nodes[..k], atoms).None?
    ensures Flatten(nodes, atoms).None?
    decreases |nodes| - k
  {
    if k < |nodes| {
      assert nodes[..k + 1][..k] == nodes[..k];
      FlattenFails(nodes, atoms, k + 1);
    } else {
      assert nodes[..k] == nodes;
    }
  }

  /** `flatten_inline`. */
  method FlattenInline(nodes: seq<Inline>, atoms: map<Id, Atom>) returns (r: Option<string>)
    ensures r == Flatten(nodes, atoms)
  {
    var text := "";
    for i := 0 to |nodes|
      invariant Flatten(nodes[..i], atoms) == Some(text)
    {
      assert nodes[..i + 1][..i] == nodes[..i];
      match nodes[i] {
        case ProtectedRef(ref) =>
          if ref !in atoms {
            FlattenFails(nodes, atoms, i + 1);
            return None;
          }
          text := text + atoms[ref].value;
        case Text(t) => text := text + t;
        case Link(_, t) => text := text + t;
        case CrossRef(_, shown) => text := text + shown;
      }
    }
    assert nodes[..|nodes|] == nodes;
    r := Some(text);
  }

  /** What the model takes from outside: which addresses are safe links. */
  type SafeUrl = string -> bool

  predicate NodeResolves(n: Inline, blocks: seq<Block>, safe: SafeUrl) {
    && (n.CrossRef? ==> Find(blocks, n.target).Some?)
    && (n.Link? ==> safe(n.href))
  }

  /** `inline_refs`: known atoms, known cross-references, safe links. */
  ghost predicate RefsResolve(nodes: seq<Inline>, source: Source, safe: SafeUrl) {
    && KnownAtoms(nodes, source.atoms)
    && forall i :: 0 <= i < |nodes| ==> NodeResolves(nodes[i], source.blocks, safe)
  }

  method InlineRefs(nodes: seq<Inline>, source: Source, safe: SafeUrl) returns (ok: bool)
    ensures ok <==> RefsResolve(nodes, source, safe)
  {
    FlattenKnown(nodes, source.atoms);
    var text := FlattenInline(nodes, source.atoms);
    if text.None? { return false; }
    for i := 0 to |nodes|
      invariant forall j :: 0 <= j < i ==> NodeResolves(nodes[j], source.blocks, safe)
    {
      if nodes[i].CrossRef? && Find(source.blocks, nodes[i].target).None? { return false; }
      if nodes[i].Link? && !safe(nodes[i].href) { return false; }
    }
    return true;
  }

  predicate HasControl(nodes: seq<Inline>, atoms: map<Id, Atom>) {
    exists i :: 0 <= i < |nodes| && nodes[i].ProtectedRef? && nodes[i].ref in atoms && atoms[nodes[i].ref].kind ==
      Control
  }

  predicate EmptyTableCell(b: Block) {
    && b.kind == TableCell && Blank(b.raw) && Blank(b.normalized)
    && forall i :: 0 <= i < |b.inline| ==> b.inline[i].Text? && Blank(b.inline[i].text)
  }

  function RefAtoms(nodes: seq<Inline>, atoms: map<Id, Atom>): map<Id, Atom> {
    map i | 0 <= i < |nodes| && nodes[i].ProtectedRef? && nodes[i].ref in atoms :: nodes[i].ref := atoms[nodes[i].ref]
  }

  function BlockHash(b: Block, atoms: map<Id, Atom>): SourceHash {
    SourceHash(b.kind, b.normalized, b.inline, b.attributes, RefAtoms(b.inline, atoms))
  }

  predicate SameAtom(ref: Id, x: map<Id, Atom>, y: map<Id, Atom>) {
    (ref in x <==> ref in y) && (ref in x ==> x[ref] == y[ref])
  }

  /** Two blocks share a hash exactly when they say the same: kind, text, inline nodes, attributes and the
      atoms they refer to. */
  lemma {:induction false} HashIsContent(a: Block, x: map<Id, Atom>, b: Block, y: map<Id, Atom>)
    ensures BlockHash(a, x) == BlockHash(b, y) <==>
      && a.kind == b.kind && a.normalized == b.normalized && a.inline == b.inline && a.attributes == b.attributes
      && forall i :: 0 <= i < |a.inline| && a.inline[i].ProtectedRef? ==> SameAtom(a.inline[i].ref, x, y)
  {
    if a.inline == b.inline {
      if RefAtoms(a.inline, x) == RefAtoms(a.inline, y) {
        forall i | 0 <= i < |a.inline| && a.inline[i].ProtectedRef? ensures SameAtom(a.inline[i].ref, x, y) {
          assert a.inline[i].ref in x <==> a.inline[i].ref in RefAtoms(a.inline, x);
          assert a.inline[i].ref in y <==> a.inline[i].ref in RefAtoms(a.inline, y);
        }
      }
    }
  }
}
