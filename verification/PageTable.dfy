/**
 The nested page table as it lies in physical memory, on values.

 Physical memory is a map from allocated page frames to their 512 words.  A table is
 such a page; nothing in its contents marks it as one.  What makes a heap a page table
 is `Tree`, stated with a map from the path of indices that leads to a page to that page.
 */
module PageTable {
  import opened Words
  import opened Address

  datatype Option<+T> = None | Some(value: T)

  /** The value of a property that contracts carry whole. */
  datatype Verdict = Holds | Fails

  type Page = p: seq<Word> | |p| == PTRS_PER_PAGE witness seq(PTRS_PER_PAGE, _ => 0)

  function ZeroPage(): (page: Page)
    ensures forall i :: 0 <= i < PTRS_PER_PAGE ==> page[i] == 0
  {
    seq(PTRS_PER_PAGE, _ => 0)
  }

  type Heap = map<Pfn, Page>

  /** The indices taken from the root, outermost first. */
  datatype Path = Root | Child(parent: Path, index: nat)

  function Depth(p: Path): nat {
    match p case Root => 0 case Child(q, _) => Depth(q) + 1
  }

  /** The path of the first d indices of an address. */
  function PathOf(gpa: Word, d: nat): (p: Path)
    requires d <= PML4T
    ensures Depth(p) == d
  {
    if d == 0 then Root else Child(PathOf(gpa, d - 1), TableIndex(gpa, PML4T + 1 - d))
  }

  function LeafPath(gpa: Word): (p: Path)
    ensures Depth(p) == PML4T
  {
    PathOf(gpa, PML4T)
  }

  /** Leaf paths name guest pages. */
  lemma {:induction false} SameLeafIffSameGpn(a: Word, b: Word)
    ensures LeafPath(a) == LeafPath(b) <==> Gpn(a) == Gpn(b)
  {
    SameIndicesIffSameGpn(a, b);
    PathIndices(a);
    PathIndices(b);
    if LeafPath(a) == LeafPath(b) {
      forall level: Level
        ensures TableIndex(a, level) == TableIndex(b, level)
      {
        assert level == 1 || level == 2 || level == 3 || level == 4;
      }
    }
    if Gpn(a) == Gpn(b) {
      assert TableIndex(a, 1) == TableIndex(b, 1) && TableIndex(a, 2) == TableIndex(b, 2);
      assert TableIndex(a, 3) == TableIndex(b, 3) && TableIndex(a, 4) == TableIndex(b, 4);
    }
  }

  lemma {:induction false} PathIndices(gpa: Word)
    ensures LeafPath(gpa) == Child(Child(Child(Child(Root, TableIndex(gpa, 4)), TableIndex(gpa, 3)),
                                         TableIndex(gpa, 2)), TableIndex(gpa, 1))
  {
    assert PathOf(gpa, 1) == Child(Root, TableIndex(gpa, 4));
    assert PathOf(gpa, 2) == Child(PathOf(gpa, 1), TableIndex(gpa, 3));
    assert PathOf(gpa, 3) == Child(PathOf(gpa, 2), TableIndex(gpa, 2));
  }

  // The hardware.

  /**
   The nested walk of section 15.25 of the AMD64 Architecture Programmer's Manual, Volume 2,
   for a guest access, which is a user write at the nested level: every entry must be
   present, writable and user.
   */
  function WalkFrom(h: Heap, table: Pfn, gpa: Word, level: nat): Option<Pfn>
    requires level <= PML4T
    decreases level
  {
    if level == 0 then Some(table)
    else if table !in h then None
    else
      var e := h[table][TableIndex(gpa, level)];
      if Present(e) && Writable(e) && User(e) then WalkFrom(h, EntryPfn(e), gpa, level - 1) else None
  }

  function Walk(h: Heap, root: Pfn, gpa: Word): Option<Pfn> {
    WalkFrom(h, root, gpa, PML4T)
  }

  // The shape of a table.

  /** The pages of one table: `nodes` by path, and the leaves whose present bit is clear. */
  datatype Npt = Npt(root: Pfn, nodes: map<Path, Pfn>, hidden: set<Path>)

  ghost predicate Shape(t: Npt) {
    && Root in t.nodes && t.nodes[Root] == t.root
    && (forall p :: p in t.nodes ==> Depth(p) <= PML4T)
    && (forall p :: p in t.nodes && p.Child? ==> p.parent in t.nodes && p.index < PTRS_PER_PAGE)
    && (forall p :: p in t.hidden ==> p in t.nodes && Depth(p) == PML4T)
  }

  /** No page is reached by two paths: tables, and leaves, are all different pages. */
  ghost predicate Injective(nodes: map<Path, Pfn>) {
    forall p, q :: p in nodes && q in nodes && nodes[p] == nodes[q] ==> p == q
  }

  /** Entry e leads to this page, and the hardware follows it exactly when it is visible. */
  predicate Linked(e: Word, page: Pfn, visible: bool) {
    e < TWO_52 && e / PAGE_SIZE == page && Writable(e) && User(e) && Present(e) == visible
  }

  /** What an entry holds for the child on path p. */
  predicate EntryFor(e: Word, t: Npt, p: Path) {
    if p in t.nodes then Linked(e, t.nodes[p], p !in t.hidden) else e == 0
  }

  ghost predicate Entries(h: Heap, t: Npt) {
    && (forall p :: p in t.nodes ==> t.nodes[p] in h)
    && (forall p, i :: p in t.nodes && Depth(p) < PML4T && 0 <= i < PTRS_PER_PAGE ==>
          EntryFor(h[t.nodes[p]][i], t, Child(p, i)))
  }

  ghost predicate Tree(h: Heap, t: Npt) {
    Shape(t) && Injective(t.nodes) && Entries(h, t)
  }

  lemma {:induction false} LinkedEntry(e: Word, page: Pfn, visible: bool)
    requires Linked(e, page, visible)
    ensures e != 0 && EntryPfn(e) == page
  {
  }

  /** Prefixes of a path in the table are in the table. */
  lemma {:induction false} PrefixIn(t: Npt, gpa: Word, d: nat, k: nat)
    requires Shape(t) && k <= d <= PML4T && PathOf(gpa, d) in t.nodes
    ensures PathOf(gpa, k) in t.nodes
  {
    if k < d {
      PrefixIn(t, gpa, d - 1, k);
    }
  }

  /** The page on a path, unless there is none or its present bit is clear. */
  function LeafSeen(t: Npt, p: Path): Option<Pfn> {
    if p in t.nodes && p !in t.hidden then Some(t.nodes[p]) else None
  }

  lemma {:induction false} WalkFromNode(h: Heap, t: Npt, gpa: Word, level: nat)
    requires Tree(h, t) && level <= PML4T
    requires PathOf(gpa, PML4T - level) in t.nodes
    requires level == 0 ==> LeafPath(gpa) !in t.hidden
    ensures WalkFrom(h, t.nodes[PathOf(gpa, PML4T - level)], gpa, level)
            == LeafSeen(t, LeafPath(gpa))
    decreases level
  {
    if level > 0 {
      var p := PathOf(gpa, PML4T - level);
      var q := PathOf(gpa, PML4T - level + 1);
      var e := h[t.nodes[p]][TableIndex(gpa, level)];
      assert q == Child(p, TableIndex(gpa, level));
      assert EntryFor(e, t, q);
      if q in t.nodes {
        LinkedEntry(e, t.nodes[q], q !in t.hidden);
        if q !in t.hidden {
          WalkFromNode(h, t, gpa, level - 1);
        }
      } else if LeafPath(gpa) in t.nodes {
        PrefixIn(t, gpa, PML4T, PML4T - level + 1);
      }
    }
  }

  /** On a well-formed table the hardware finds exactly the visible leaves. */
  lemma {:induction false} WalkFindsLeaves(h: Heap, t: Npt, gpa: Word)
    requires Tree(h, t)
    ensures Walk(h, t.root, gpa) == LeafSeen(t, LeafPath(gpa))
  {
    WalkFromNode(h, t, gpa, PML4T);
  }

  /** Translation is injective on guest pages. */
  lemma {:induction false} TranslationInjective(h: Heap, t: Npt, a: Word, b: Word)
    requires Tree(h, t)
    requires Walk(h, t.root, a).Some? && Walk(h, t.root, a) == Walk(h, t.root, b)
    ensures Gpn(a) == Gpn(b)
  {
    WalkFindsLeaves(h, t, a);
    WalkFindsLeaves(h, t, b);
    SameLeafIffSameGpn(a, b);
  }

  /** The raw memory determines the table: two descriptions of one heap agree. */
  lemma {:induction false} NodesUnique(h: Heap, t: Npt, u: Npt, p: Path)
    requires Tree(h, t) && Tree(h, u) && t.root == u.root
    ensures p in t.nodes <==> p in u.nodes
    ensures p in t.nodes ==> t.nodes[p] == u.nodes[p] && (p in t.hidden <==> p in u.hidden)
  {
    match p
    case Root =>
    case Child(q, i) =>
      NodesUnique(h, t, u, q);
      if q in t.nodes && Depth(q) < PML4T && i < PTRS_PER_PAGE {
        var e := h[t.nodes[q]][i];
        assert EntryFor(e, t, p) && EntryFor(e, u, p);
      }
  }

  lemma {:induction false} TreeIsDetermined(h: Heap, t: Npt, u: Npt)
    requires Tree(h, t) && Tree(h, u) && t.root == u.root
    ensures t == u
  {
    forall p
      ensures p in t.nodes <==> p in u.nodes
      ensures p in t.nodes ==> t.nodes[p] == u.nodes[p] && (p in t.hidden <==> p in u.hidden)
    {
      NodesUnique(h, t, u, p);
    }
    assert t.nodes == u.nodes;
    assert t.hidden == u.hidden;
  }

  // What the driver, the guest and the hardware do to one word or one page.

  function SetEntry(h: Heap, table: Pfn, i: nat, e: Word): Heap
    requires table in h && i < PTRS_PER_PAGE
  {
    h[table := h[table][i := e]]
  }

  function AddNode(t: Npt, p: Path, page: Pfn): Npt {
    t.(nodes := t.nodes[p := page])
  }

  lemma {:induction false} PackedIsLinked(page: Pfn)
    ensures Linked(PackEntry(page), page, true)
  {
    UnpackEntry(page);
  }

  lemma {:induction false} ClearedIsLinked(e: Word, page: Pfn, visible: bool)
    requires Linked(e, page, visible)
    ensures Linked(ClearPresent(e), page, false)
  {
    var y := e / 2;
    assert ClearPresent(e) == 2 * y && 2 * y / 2 == y;
    SplitDivMod(e, 2, 2048);
    SplitDivMod(2 * y, 2, 2048);
    SplitDivMod(e, 2, 2);
    SplitDivMod(2 * y, 2, 2);
  }

  lemma {:induction false} MarkedIsLinked(e: Word, e': Word, page: Pfn, visible: bool)
    requires Linked(e, page, visible) && SameTarget(e, e')
    ensures Linked(e', page, visible)
  {
  }

  lemma {:induction false} AddNodeKeepsShape(t: Npt, p: Path, i: nat, page: Pfn)
    requires Shape(t) && Injective(t.nodes) && page !in t.nodes.Values
    requires p in t.nodes && Depth(p) < PML4T && i < PTRS_PER_PAGE && Child(p, i) !in t.nodes
    ensures Shape(AddNode(t, Child(p, i), page)) && Injective(AddNode(t, Child(p, i), page).nodes)
  {
  }

  /** Linking a fresh zeroed page below a table. */
  lemma {:induction false} LinkKeepsTree(h: Heap, t: Npt, p: Path, i: nat, page: Pfn)
    requires Tree(h, t) && page !in h
    requires p in t.nodes && Depth(p) < PML4T && i < PTRS_PER_PAGE && Child(p, i) !in t.nodes
    ensures Tree(SetEntry(h[page := ZeroPage()], t.nodes[p], i, PackEntry(page)), AddNode(t, Child(p, i), page))
  {
    var h' := SetEntry(h[page := ZeroPage()], t.nodes[p], i, PackEntry(page));
    var t' := AddNode(t, Child(p, i), page);
    AddNodeKeepsShape(t, p, i, page);
    PackedIsLinked(page);
    forall q, j | q in t'.nodes && Depth(q) < PML4T && 0 <= j < PTRS_PER_PAGE
      ensures EntryFor(h'[t'.nodes[q]][j], t', Child(q, j))
    {
      LinkedEntryFor(h, t, p, i, page, q, j);
    }
  }

  lemma {:induction false} LinkedEntryFor(h: Heap, t: Npt, p: Path, i: nat, page: Pfn, q: Path, j: nat)
    requires Tree(h, t) && page !in h
    requires p in t.nodes && Depth(p) < PML4T && i < PTRS_PER_PAGE && Child(p, i) !in t.nodes
    requires q in AddNode(t, Child(p, i), page).nodes && Depth(q) < PML4T && j < PTRS_PER_PAGE
    ensures EntryFor(SetEntry(h[page := ZeroPage()], t.nodes[p], i, PackEntry(page))
                       [AddNode(t, Child(p, i), page).nodes[q]][j], AddNode(t, Child(p, i), page), Child(q, j))
  {
    if q == Child(p, i) {
      assert Child(q, j) !in t.nodes;
    } else {
      assert EntryFor(h[t.nodes[q]][j], t, Child(q, j));
      PackedIsLinked(page);
    }
  }

  /** Overwriting one entry with one that says the same of every path but its own. */
  lemma {:induction false} ReplaceKeepsEntries(h: Heap, t: Npt, t': Npt, p: Path, i: nat, e: Word)
    requires Tree(h, t) && t'.nodes == t.nodes
    requires p in t.nodes && Depth(p) < PML4T && i < PTRS_PER_PAGE
    requires forall q :: q != Child(p, i) ==> (q in t.hidden <==> q in t'.hidden)
    requires EntryFor(e, t', Child(p, i))
    ensures Entries(SetEntry(h, t.nodes[p], i, e), t')
  {
    var h' := SetEntry(h, t.nodes[p], i, e);
    forall q, j | q in t'.nodes && Depth(q) < PML4T && 0 <= j < PTRS_PER_PAGE
      ensures EntryFor(h'[t'.nodes[q]][j], t', Child(q, j))
    {
      if q != p || j != i {
        assert h'[t.nodes[q]][j] == h[t.nodes[q]][j];
        assert EntryFor(h[t.nodes[q]][j], t, Child(q, j));
      }
    }
  }

  /** Clearing the present bit of a leaf. */
  lemma {:induction false} HideKeepsTree(h: Heap, t: Npt, p: Path)
    requires Tree(h, t) && p in t.nodes && Depth(p) == PML4T
    ensures Tree(SetEntry(h, t.nodes[p.parent], p.index, ClearPresent(h[t.nodes[p.parent]][p.index])),
                 t.(hidden := t.hidden + {p}))
  {
    var e := h[t.nodes[p.parent]][p.index];
    assert EntryFor(e, t, Child(p.parent, p.index));
    ClearedIsLinked(e, t.nodes[p], p !in t.hidden);
    ReplaceKeepsEntries(h, t, t.(hidden := t.hidden + {p}), p.parent, p.index, ClearPresent(e));
  }

  /** Writing anything at all into a leaf page. */
  lemma {:induction false} LeafWriteKeepsTree(h: Heap, t: Npt, p: Path, page: Page)
    requires Tree(h, t) && p in t.nodes && Depth(p) == PML4T
    ensures Tree(h[t.nodes[p] := page], t)
  {
    var h' := h[t.nodes[p] := page];
    forall q, j | q in t.nodes && Depth(q) < PML4T && 0 <= j < PTRS_PER_PAGE
      ensures EntryFor(h'[t.nodes[q]][j], t, Child(q, j))
    {
      assert EntryFor(h[t.nodes[q]][j], t, Child(q, j));
    }
  }

  /** The words that differ only in bits the walk of this table ignores, such as accessed and dirty. */
  predicate SameTarget(e: Word, e': Word) {
    && e < TWO_52 && e' < TWO_52 && e / PAGE_SIZE == e' / PAGE_SIZE
    && Present(e) == Present(e') && Writable(e) == Writable(e') && User(e) == User(e')
  }

  /** The hardware sets accessed and dirty bits in entries it walks. */
  lemma {:induction false} MarkKeepsTree(h: Heap, t: Npt, p: Path, i: nat, e: Word)
    requires Tree(h, t) && p in t.nodes && Depth(p) < PML4T && i < PTRS_PER_PAGE
    requires h[t.nodes[p]][i] != 0 && SameTarget(h[t.nodes[p]][i], e)
    ensures Tree(SetEntry(h, t.nodes[p], i, e), t)
  {
    var old_e := h[t.nodes[p]][i];
    assert EntryFor(old_e, t, Child(p, i));
    MarkedIsLinked(old_e, e, t.nodes[Child(p, i)], Child(p, i) !in t.hidden);
    ReplaceKeepsEntries(h, t, t, p, i, e);
  }

  /** Memory outside the table does not matter. */
  lemma {:induction false} FrameTree(h: Heap, h': Heap, t: Npt)
    requires Tree(h, t)
    requires forall p :: p in t.nodes ==> t.nodes[p] in h' && (Depth(p) < PML4T ==> h'[t.nodes[p]] == h[t.nodes[p]])
    ensures Tree(h', t)
  {
    forall q, j | q in t.nodes && Depth(q) < PML4T && 0 <= j < PTRS_PER_PAGE
      ensures EntryFor(h'[t.nodes[q]][j], t, Child(q, j))
    {
      assert EntryFor(h[t.nodes[q]][j], t, Child(q, j));
    }
  }
}
