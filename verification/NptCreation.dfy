/**
 What `yakvm_vmm_npt_create` does to memory, on values: the contract of the driver's
 method in module NestedPaging, and the steps of its proof.
 */
module NptCreation {
  import opened Words
  import opened Address
  import opened PageTable

  /** What a call of `yakvm_vmm_npt_create` ends in; a failed assertion halts the host. */
  datatype Outcome = Mapped(page: Pfn) | NoMemory | Panicked

  /**
   What the level loop may have done so far: it adds nodes on the path of this address
   only, each a page it just took, and writes to no page but tables and its own pages.
   */
  ghost predicate Grown(h: Heap, t: Npt, gpa: Word, h': Heap, t': Npt) {
    NodesGrown(h, t, gpa, t') && PagesGrown(h, h', t') && Untouched(h, t, h') && LeavesZeroed(t, h', t')
  }

  ghost predicate NodesGrown(h: Heap, t: Npt, gpa: Word, t': Npt) {
    && t'.root == t.root
    && (forall q :: q in t.nodes ==> q in t'.nodes && t'.nodes[q] == t.nodes[q])
    && (forall q :: q in t'.nodes && q !in t.nodes ==> t'.nodes[q] !in h && OnPath(q, gpa))
  }

  /** Pages are only taken, and every page taken is in the table. */
  ghost predicate PagesGrown(h: Heap, h': Heap, t': Npt) {
    && (forall x :: x in h ==> x in h')
    && (forall x :: x in h' && x !in h ==> x in t'.nodes.Values)
  }

  ghost predicate Untouched(h: Heap, t: Npt, h': Heap) {
    forall x :: x in h && !IsTable(t, x) ==> x in h' && h'[x] == h[x]
  }

  ghost predicate LeavesZeroed(t: Npt, h': Heap, t': Npt) {
    forall q :: q in t'.nodes && q !in t.nodes && Depth(q) == PML4T ==>
      t'.nodes[q] in h' && h'[t'.nodes[q]] == ZeroPage()
  }

  predicate OnPath(q: Path, gpa: Word) {
    Depth(q) <= PML4T && q == PathOf(gpa, Depth(q))
  }

  ghost predicate IsTable(t: Npt, x: Pfn) {
    exists p :: p in t.nodes && Depth(p) < PML4T && t.nodes[p] == x
  }

  /** The contract of `yakvm_vmm_npt_create` on the memory and the table before and after. */
  ghost predicate Created(h: Heap, t: Npt, gpa: Word, isMmio: bool, h': Heap, t': Npt, r: Outcome) {
    match r
    case Panicked =>
      LeafPath(gpa) in t.hidden && h' == h && t' == t
    case NoMemory =>
      Tree(h', t') && Grown(h, t, gpa, h', t') && t'.hidden == t.hidden && LeafPath(gpa) !in t'.nodes
    case Mapped(page) =>
      && Tree(h', t') && Grown(h, t, gpa, h', t') && LeafPath(gpa) in t'.nodes && page == t'.nodes[LeafPath(gpa)]
      && LeafPath(gpa) !in t.hidden
      && t'.hidden == (if isMmio then t.hidden + {LeafPath(gpa)} else t.hidden)
      && (LeafPath(gpa) in t.nodes && !isMmio ==> h' == h && t' == t)
  }

  /** One iteration that finds a zero entry and gets a page for path q below p. */
  lemma {:induction false} GrowOne(h: Heap, t: Npt, gpa: Word, h1: Heap, t1: Npt, p: Path, i: nat, page: Pfn)
    requires Shape(t1) && Injective(t1.nodes) && Grown(h, t, gpa, h1, t1) && page !in h1
    requires p in t1.nodes && t1.nodes[p] in h1 && Depth(p) < PML4T && i < PTRS_PER_PAGE
    requires Child(p, i) !in t1.nodes && OnPath(Child(p, i), gpa)
    ensures Grown(h, t, gpa, SetEntry(h1[page := ZeroPage()], t1.nodes[p], i, PackEntry(page)),
                  AddNode(t1, Child(p, i), page))
  {
    var h2 := h1[page := ZeroPage()];
    assert Untouched(h, t, h2);
    WriteKeepsUntouched(h, t, gpa, h2, t1, p, i, PackEntry(page));
    TakenIsReached(h, h1, t1, Child(p, i), page);
    TakenIsZeroed(t, h1, t1, p, i, page, PackEntry(page));
  }

  lemma {:induction false} TakenIsZeroed(t: Npt, h1: Heap, t1: Npt, p: Path, i: nat, page: Pfn, e: Word)
    requires Injective(t1.nodes) && LeavesZeroed(t, h1, t1) && page !in h1
    requires p in t1.nodes && t1.nodes[p] in h1 && Depth(p) < PML4T && i < PTRS_PER_PAGE && Child(p, i) !in t1.nodes
    ensures LeavesZeroed(t, SetEntry(h1[page := ZeroPage()], t1.nodes[p], i, e), AddNode(t1, Child(p, i), page))
  {
  }

  /** Writing to a table of the grown table touches no page that was there and was no table. */
  lemma {:induction false} WriteKeepsUntouched(h: Heap, t: Npt, gpa: Word, h1: Heap, t1: Npt, p: Path, i: nat, e: Word)
    requires NodesGrown(h, t, gpa, t1) && Untouched(h, t, h1)
    requires p in t1.nodes && t1.nodes[p] in h1 && Depth(p) < PML4T && i < PTRS_PER_PAGE
    ensures Untouched(h, t, SetEntry(h1, t1.nodes[p], i, e))
  {
    assert p in t.nodes ==> IsTable(t, t1.nodes[p]);
  }

  lemma {:induction false} TakenIsReached(h: Heap, h1: Heap, t1: Npt, q: Path, page: Pfn)
    requires PagesGrown(h, h1, t1) && q !in t1.nodes
    ensures PagesGrown(h, h1[page := ZeroPage()], AddNode(t1, q, page))
  {
    var t2 := AddNode(t1, q, page);
    assert t2.nodes[q] == page;
    forall x | x in t1.nodes.Values
      ensures x in t2.nodes.Values
    {
      var s :| s in t1.nodes && t1.nodes[s] == x;
      assert t2.nodes[s] == x;
    }
  }

  lemma {:induction false} HideKeepsGrown(h: Heap, t: Npt, gpa: Word, h1: Heap, t1: Npt)
    requires Tree(h1, t1) && Grown(h, t, gpa, h1, t1) && LeafPath(gpa) in t1.nodes
    ensures var leaf := LeafPath(gpa);
            var h2 := SetEntry(h1, t1.nodes[leaf.parent], leaf.index,
                ClearPresent(h1[t1.nodes[leaf.parent]][leaf.index]));
            Grown(h, t, gpa, h2, t1.(hidden := t1.hidden + {leaf}))
  {
    var leaf := LeafPath(gpa);
    WriteKeepsUntouched(h, t, gpa, h1, t1, leaf.parent, leaf.index,
        ClearPresent(h1[t1.nodes[leaf.parent]][leaf.index]));
  }

  /** Reading the entry for path q below p tells whether q is there and where. */
  lemma {:induction false} ReadEntry(h: Heap, t: Npt, p: Path, i: nat)
    requires Tree(h, t) && p in t.nodes && Depth(p) < PML4T && i < PTRS_PER_PAGE
    ensures h[t.nodes[p]][i] == 0 <==> Child(p, i) !in t.nodes
    ensures Child(p, i) in t.nodes ==> Follows(h[t.nodes[p]][i], t.nodes[Child(p, i)], Child(p, i) !in t.hidden)
  {
    var e := h[t.nodes[p]][i];
    assert EntryFor(e, t, Child(p, i));
    if Child(p, i) in t.nodes {
      LinkedEntry(e, t.nodes[Child(p, i)], Child(p, i) !in t.hidden);
    }
  }

  predicate Follows(e: Word, page: Pfn, visible: bool) {
    EntryPfn(e) == page && e / PAGE_SIZE == page && (visible <==> Present(e) && Writable(e) && User(e))
  }

  lemma {:induction false} StepPath(p: Path, gpa: Word, level: Level)
    requires OnPath(p, gpa) && Depth(p) == PML4T - level
    ensures OnPath(Child(p, TableIndex(gpa, level)), gpa)
  {
  }

  lemma {:induction false} PathInTable(t: Npt, q: Path, gpa: Word)
    requires Shape(t) && OnPath(q, gpa)
    ensures LeafPath(gpa) in t.nodes ==> q in t.nodes
  {
    if LeafPath(gpa) in t.nodes {
      PrefixIn(t, gpa, PML4T, Depth(q));
    }
  }

  // The three ways out of the level loop.

  lemma {:induction false} LoopRanOut(h: Heap, t: Npt, gpa: Word, h1: Heap, t1: Npt, q: Path)
    requires Tree(h1, t1) && Grown(h, t, gpa, h1, t1) && t1.hidden == t.hidden
    requires OnPath(q, gpa) && q !in t1.nodes
    ensures Created(h, t, gpa, false, h1, t1, NoMemory)
  {
    PathInTable(t1, q, gpa);
  }

  lemma {:induction false} LoopHitHidden(h: Heap, t: Npt, gpa: Word, h1: Heap, t1: Npt, q: Path)
    requires Tree(h, t) && t1.hidden == t.hidden && OnPath(q, gpa) && q in t1.hidden
    requires LeafPath(gpa) in t.nodes ==> h1 == h && t1 == t
    ensures Created(h, t, gpa, false, h1, t1, Panicked)
  {
    assert q == LeafPath(gpa);
  }

  lemma {:induction false} LoopReachedLeaf(h: Heap, t: Npt, gpa: Word, h1: Heap, t1: Npt)
    requires Tree(h, t) && Tree(h1, t1) && Grown(h, t, gpa, h1, t1) && t1.hidden == t.hidden
    requires LeafPath(gpa) in t1.nodes && LeafPath(gpa) !in t1.hidden
    requires LeafPath(gpa) in t.nodes ==> h1 == h && t1 == t
    ensures Created(h, t, gpa, false, h1, t1, Mapped(t1.nodes[LeafPath(gpa)]))
  {
  }

  /** Without a leaf there is nothing to hide. */
  lemma {:induction false} FailedAlike(h: Heap, t: Npt, gpa: Word, h1: Heap, t1: Npt, r: Outcome)
    requires !r.Mapped? && Created(h, t, gpa, false, h1, t1, r)
    ensures Created(h, t, gpa, true, h1, t1, r)
  {
  }

  /** Clearing the present bit of the leaf afterwards. */
  lemma {:induction false} HideCreated(h: Heap, t: Npt, gpa: Word, h1: Heap, t1: Npt, page: Pfn, index: nat, r: Outcome)
    requires Tree(h, t) && r.Mapped? && Created(h, t, gpa, false, h1, t1, r)
    requires index == LeafPath(gpa).index && page == t1.nodes[LeafPath(gpa).parent]
    ensures Created(h, t, gpa, true, SetEntry(h1, page, index, ClearPresent(h1[page][index])),
                    t1.(hidden := t1.hidden + {LeafPath(gpa)}), r)
  {
    HideKeepsTree(h1, t1, LeafPath(gpa));
    HideKeepsGrown(h, t, gpa, h1, t1);
  }

  // What the hardware sees of a creation.

  /**
   After a creation the walk is the old partial map plus at most this page; a failed one
   changes no translation.
   */
  lemma {:induction false} CreatedTranslation(h: Heap, t: Npt, gpa: Word, isMmio: bool, h': Heap, t': Npt, r: Outcome,
                                              g: Word)
    requires Tree(h, t) && Created(h, t, gpa, isMmio, h', t', r)
    ensures Tree(h', t')
    ensures Walk(h', t'.root, g) == (if r.Mapped? && Gpn(g) == Gpn(gpa) then (if isMmio then None else Some(r.page))
                                     else Walk(h, t.root, g))
  {
    CreatedNodes(h, t, gpa, isMmio, h', t', r);
    VisibleAfter(h, t, gpa, isMmio, t', r, LeafPath(g));
    WalkFindsLeaves(h, t, g);
    WalkFindsLeaves(h', t', g);
    SameLeafIffSameGpn(g, gpa);
  }

  /** What the change of the table does to one leaf. */
  lemma {:induction false} VisibleAfter(h: Heap, t: Npt, gpa: Word, isMmio: bool, t': Npt, r: Outcome, q: Path)
    requires NodesGrown(h, t, gpa, t') && Depth(q) == PML4T && TableChange(t, gpa, isMmio, t', r)
    ensures LeafSeen(t', q) == if !r.Mapped? || q != LeafPath(gpa) then LeafSeen(t, q)
                              else if isMmio then None else Some(r.page)
  {
    OldLeaf(h, t, gpa, t', q);
  }

  ghost predicate TableChange(t: Npt, gpa: Word, isMmio: bool, t': Npt, r: Outcome) {
    && t'.hidden == (if r.Mapped? && isMmio then t.hidden + {LeafPath(gpa)} else t.hidden)
    && (r.Mapped? ==> LeafPath(gpa) !in t.hidden && LeafPath(gpa) in t'.nodes && t'.nodes[LeafPath(gpa)] == r.page)
    && (!r.Mapped? ==> LeafPath(gpa) !in t'.nodes || t' == t)
  }

  lemma {:induction false} CreatedNodes(h: Heap, t: Npt, gpa: Word, isMmio: bool, h': Heap, t': Npt, r: Outcome)
    requires Tree(h, t) && Created(h, t, gpa, isMmio, h', t', r)
    ensures Tree(h', t') && NodesGrown(h, t, gpa, t') && TableChange(t, gpa, isMmio, t', r)
  {
  }

  lemma {:induction false} OldLeaf(h: Heap, t: Npt, gpa: Word, t': Npt, q: Path)
    requires NodesGrown(h, t, gpa, t') && Depth(q) == PML4T
    ensures q in t.nodes ==> q in t'.nodes && t'.nodes[q] == t.nodes[q]
    ensures q in t'.nodes && q != LeafPath(gpa) ==> q in t.nodes
  {
  }

  /** An existing page is returned as it is; a missing one is a fresh zeroed page. */
  lemma {:induction false} CreatedPage(h: Heap, t: Npt, gpa: Word, isMmio: bool, h': Heap, t': Npt, r: Outcome)
    requires Tree(h, t) && Created(h, t, gpa, isMmio, h', t', r) && r.Mapped?
    ensures Walk(h, t.root, gpa).Some? ==> Walk(h, t.root, gpa) == Some(r.page) && (!isMmio ==> h' == h)
    ensures Walk(h, t.root, gpa).None? ==> r.page !in h && r.page in h' && h'[r.page] == ZeroPage()
  {
    WalkFindsLeaves(h, t, gpa);
  }

  /** The contents of guest pages, and of every page of anyone else, survive. */
  lemma {:induction false} CreatedKeepsData(h: Heap, t: Npt, gpa: Word, isMmio: bool, h': Heap, t': Npt, r: Outcome,
                                            x: Pfn)
    requires Tree(h, t) && Created(h, t, gpa, isMmio, h', t', r)
    requires x in h && forall p :: p in t.nodes && t.nodes[p] == x ==> Depth(p) == PML4T
    ensures x in h' && h'[x] == h[x]
  {
  }

  /** Every page that the call took is reachable from the root, also when the call failed. */
  lemma {:induction false} CreatedTakesReachable(h: Heap, t: Npt, gpa: Word, isMmio: bool, h': Heap, t': Npt,
                                                 r: Outcome)
    requires Tree(h, t) && Created(h, t, gpa, isMmio, h', t', r)
    ensures h'.Keys - h.Keys == t'.nodes.Values - t.nodes.Values
  {
    forall x
      ensures x in h'.Keys - h.Keys <==> x in t'.nodes.Values - t.nodes.Values
    {
      if x in t'.nodes.Values {
        var q :| q in t'.nodes && t'.nodes[q] == x;
        assert q in t.nodes ==> t.nodes[q] == x;
      }
      if x in t.nodes.Values {
        var q :| q in t.nodes && t.nodes[q] == x;
        assert x in h;
      }
    }
  }

  /** The call halts the host exactly on the page whose leaf is hidden. */
  lemma {:induction false} PanicsIffHidden(h: Heap, t: Npt, gpa: Word, isMmio: bool, h': Heap, t': Npt, r: Outcome)
    requires Tree(h, t) && Created(h, t, gpa, isMmio, h', t', r)
    ensures r == Panicked <==> LeafPath(gpa) in t.hidden
  {
  }
}
