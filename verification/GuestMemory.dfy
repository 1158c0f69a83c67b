/**
 The memory of one virtual machine over whole runs: any order of YAKVM_MMAP_PAGE calls,
 faults on the userspace mapping, guest and userspace stores, and accessed and dirty bits
 set by the hardware, with page allocations failing at any point.
 */
module GuestMemory {
  import opened Words
  import opened Address
  import opened PageTable
  import opened NptCreation

  /** Physical memory, the nested table, and the page that each page of the userspace mapping shows. */
  datatype VmMemory = VmMemory(h: Heap, t: Npt, user: map<nat, Pfn>)

  /** What the guest reads at an address: demand paging shows zeroes where nothing is mapped. */
  function Contents(h: Heap, root: Pfn, gpa: Word): Page {
    match Walk(h, root, gpa)
    case Some(p) => if p in h then h[p] else ZeroPage()
    case None => ZeroPage()
  }

  datatype Event =
    | MmapPage(gpa: Word)
    | UserFault(offset: Word)
    | GuestStore(gpa: Word, index: nat, value: Word)
    | UserStore(offset: Word, index: nat, value: Word)
    | MarkEntry(path: Path, index: nat, value: Word)

  /** One event; a creation on the MMIO page halts the host and is no step. */
  ghost predicate Step(s: VmMemory, e: Event, s': VmMemory) {
    match e
    case MmapPage(gpa) =>
      exists r :: r != Panicked && Created(s.h, s.t, gpa, false, s'.h, s'.t, r) && s'.user == s.user
    case UserFault(o) =>
      exists r :: r != Panicked && Created(s.h, s.t, o, false, s'.h, s'.t, r)
                  && s'.user == if r.Mapped? then s.user[o / PAGE_SIZE := r.page] else s.user
    case GuestStore(gpa, i, w) =>
      && Walk(s.h, s.t.root, gpa).Some? && Walk(s.h, s.t.root, gpa).value in s.h && i < PTRS_PER_PAGE
      && s' == s.(h := SetEntry(s.h, Walk(s.h, s.t.root, gpa).value, i, w))
    case UserStore(o, i, w) =>
      && o / PAGE_SIZE in s.user && s.user[o / PAGE_SIZE] in s.h && i < PTRS_PER_PAGE
      && s' == s.(h := SetEntry(s.h, s.user[o / PAGE_SIZE], i, w))
    case MarkEntry(p, i, w) =>
      && p in s.t.nodes && Depth(p) < PML4T && i < PTRS_PER_PAGE && s.t.nodes[p] in s.h
      && s.h[s.t.nodes[p]][i] != 0 && SameTarget(s.h[s.t.nodes[p]][i], w)
      && s' == s.(h := SetEntry(s.h, s.t.nodes[p], i, w))
  }

  /** The table is well formed, only the MMIO page is hidden, and both views name the same pages. */
  ghost predicate Inv(s: VmMemory, mmio: Word) {
    && Tree(s.h, s.t)
    && s.t.hidden == {LeafPath(mmio)}
    && Coherent(s)
  }

  ghost predicate Coherent(s: VmMemory) {
    forall o: Word :: o / PAGE_SIZE in s.user ==> Walk(s.h, s.t.root, o) == Some(s.user[o / PAGE_SIZE])
  }

  // Single steps.

  /** A step translates every address as before, or maps one page that was missing. */
  ghost predicate Monotone(s: VmMemory, s': VmMemory) {
    forall g: Word :: Walk(s.h, s.t.root, g).Some? ==> Walk(s'.h, s'.t.root, g) == Walk(s.h, s.t.root, g)
  }

  lemma {:induction false} CreationIsMonotone(s: VmMemory, gpa: Word, s': VmMemory, r: Outcome)
    requires Tree(s.h, s.t) && Created(s.h, s.t, gpa, false, s'.h, s'.t, r)
    ensures Monotone(s, s')
  {
    forall g: Word | Walk(s.h, s.t.root, g).Some?
      ensures Walk(s'.h, s'.t.root, g) == Walk(s.h, s.t.root, g)
    {
      CreatedTranslation(s.h, s.t, gpa, false, s'.h, s'.t, r, g);
      if r.Mapped? && Gpn(g) == Gpn(gpa) {
        SameWalk(s.h, s.t, g, gpa);
        CreatedPage(s.h, s.t, gpa, false, s'.h, s'.t, r);
      }
    }
  }

  lemma {:induction false} SameWalk(h: Heap, t: Npt, a: Word, b: Word)
    requires Tree(h, t) && Gpn(a) == Gpn(b)
    ensures Walk(h, t.root, a) == Walk(h, t.root, b)
  {
    WalkFindsLeaves(h, t, a);
    WalkFindsLeaves(h, t, b);
    SameLeafIffSameGpn(a, b);
  }

  /** Memory writes that keep the table keep every translation. */
  lemma {:induction false} SameTableSameWalk(h: Heap, h': Heap, t: Npt, g: Word)
    requires Tree(h, t) && Tree(h', t)
    ensures Walk(h', t.root, g) == Walk(h, t.root, g)
  {
    WalkFindsLeaves(h, t, g);
    WalkFindsLeaves(h', t, g);
  }

  /** A page the guest can reach is a leaf. */
  lemma {:induction false} WalkEndsInLeaf(h: Heap, t: Npt, g: Word)
    requires Tree(h, t) && Walk(h, t.root, g).Some?
    ensures LeafPath(g) in t.nodes && Walk(h, t.root, g).value == t.nodes[LeafPath(g)]
    ensures Walk(h, t.root, g).value in h && !IsTable(t, Walk(h, t.root, g).value)
  {
    WalkFindsLeaves(h, t, g);
  }

  /** A store through any walk leaves the table well formed. */
  lemma {:induction false} StoreKeepsTree(h: Heap, t: Npt, g: Word, i: nat, w: Word)
    requires Tree(h, t) && Walk(h, t.root, g).Some? && i < PTRS_PER_PAGE
    ensures Walk(h, t.root, g).value in h && Tree(SetEntry(h, Walk(h, t.root, g).value, i, w), t)
  {
    WalkEndsInLeaf(h, t, g);
    var p := Walk(h, t.root, g).value;
    LeafWriteKeepsTree(h, t, LeafPath(g), h[p][i := w]);
  }

  lemma {:induction false} StepKeepsInv(s: VmMemory, e: Event, s': VmMemory, mmio: Word)
    requires Inv(s, mmio) && Step(s, e, s')
    ensures Inv(s', mmio) && Monotone(s, s') && s'.t.root == s.t.root
  {
    match e
    case MmapPage(gpa) =>
      var r :| r != Panicked && Created(s.h, s.t, gpa, false, s'.h, s'.t, r);
      CreationIsMonotone(s, gpa, s', r);
    case UserFault(o) =>
      var r :| r != Panicked && Created(s.h, s.t, o, false, s'.h, s'.t, r)
               && s'.user == if r.Mapped? then s.user[o / PAGE_SIZE := r.page] else s.user;
      CreationIsMonotone(s, o, s', r);
      FaultIsCoherent(s, o, s', r);
    case GuestStore(gpa, i, w) =>
      StoreKeepsTree(s.h, s.t, gpa, i, w);
      SameTable(s, s');
    case UserStore(o, i, w) =>
      StoreKeepsTree(s.h, s.t, o, i, w);
      SameTable(s, s');
    case MarkEntry(p, i, w) =>
      MarkKeepsTree(s.h, s.t, p, i, w);
      SameTable(s, s');
  }

  lemma {:induction false} SameTable(s: VmMemory, s': VmMemory)
    requires Tree(s.h, s.t) && Tree(s'.h, s.t) && s'.t == s.t && s'.user == s.user && Coherent(s)
    ensures Coherent(s') && Monotone(s, s')
  {
    forall g: Word
      ensures Walk(s'.h, s.t.root, g) == Walk(s.h, s.t.root, g)
    {
      SameTableSameWalk(s.h, s'.h, s.t, g);
    }
  }

  lemma {:induction false} FaultIsCoherent(s: VmMemory, o: Word, s': VmMemory, r: Outcome)
    requires Tree(s.h, s.t) && Created(s.h, s.t, o, false, s'.h, s'.t, r) && Coherent(s) && Monotone(s, s')
    requires s'.user == if r.Mapped? then s.user[o / PAGE_SIZE := r.page] else s.user
    ensures Coherent(s')
  {
    forall g: Word | g / PAGE_SIZE in s'.user
      ensures Walk(s'.h, s'.t.root, g) == Some(s'.user[g / PAGE_SIZE])
    {
      if r.Mapped? && g / PAGE_SIZE == o / PAGE_SIZE {
        CreatedTranslation(s.h, s.t, o, false, s'.h, s'.t, r, g);
      } else {
        assert g / PAGE_SIZE in s.user;
      }
    }
  }

  // Whole runs.

  ghost predicate Run(states: seq<VmMemory>, events: seq<Event>) {
    && |states| == |events| + 1
    && forall k :: 0 <= k < |events| ==> Step(states[k], events[k], states[k + 1])
  }

  /** In every run the table stays well formed and both views name the same pages. */
  lemma {:induction false} RunKeepsInv(states: seq<VmMemory>, events: seq<Event>, mmio: Word, k: nat)
    requires Run(states, events) && Inv(states[0], mmio) && k < |states|
    ensures Inv(states[k], mmio)
    ensures k > 0 ==> Monotone(states[k - 1], states[k])
    decreases k
  {
    if k > 0 {
      RunKeepsInv(states, events, mmio, k - 1);
      StepKeepsInv(states[k - 1], events[k - 1], states[k], mmio);
    }
  }

  /** In every run a page once mapped is never remapped. */
  lemma {:induction false} RunIsMonotone(states: seq<VmMemory>, events: seq<Event>, mmio: Word, j: nat, k: nat)
    requires Run(states, events) && Inv(states[0], mmio) && j <= k < |states|
    ensures Monotone(states[j], states[k])
  {
    forall n | j < n <= k
      ensures Monotone(states[n - 1], states[n])
    {
      RunKeepsInv(states, events, mmio, n);
    }
    MonotoneChain(states, j, k);
  }

  lemma {:induction false} MonotoneChain(states: seq<VmMemory>, j: nat, k: nat)
    requires j <= k < |states| && forall n :: j < n <= k ==> Monotone(states[n - 1], states[n])
    ensures Monotone(states[j], states[k])
    decreases k
  {
    if j < k {
      MonotoneChain(states, j, k - 1);
      MonotoneTrans(states[j], states[k - 1], states[k]);
    }
  }

  lemma {:induction false} MonotoneTrans(a: VmMemory, b: VmMemory, c: VmMemory)
    requires Monotone(a, b) && Monotone(b, c)
    ensures Monotone(a, c)
  {
  }

  lemma {:induction false} MmioStaysIntercepted(states: seq<VmMemory>, events: seq<Event>, mmio: Word, k: nat, g: Word)
    requires Run(states, events) && Inv(states[0], mmio) && k < |states| && Gpn(g) == Gpn(mmio)
    ensures Walk(states[k].h, states[k].t.root, g) == None
  {
    RunKeepsInv(states, events, mmio, k);
    WalkFindsLeaves(states[k].h, states[k].t, g);
    SameLeafIffSameGpn(g, mmio);
  }

  /** Both views of one page stay the same page for the rest of the run. */
  lemma {:induction false} ViewsStayTheSamePage(states: seq<VmMemory>, events: seq<Event>, mmio: Word, j: nat, k: nat,
                                                o: Word)
    requires Run(states, events) && Inv(states[0], mmio) && j <= k < |states| && o / PAGE_SIZE in states[j].user
    ensures Walk(states[k].h, states[k].t.root, o) == Some(states[j].user[o / PAGE_SIZE])
  {
    RunKeepsInv(states, events, mmio, j);
    RunIsMonotone(states, events, mmio, j, k);
  }

  // Demand paging is invisible.

  /** Creating a page changes what no address reads. */
  lemma {:induction false} CreationKeepsContents(h: Heap, t: Npt, gpa: Word, h': Heap, t': Npt, r: Outcome, g: Word)
    requires Tree(h, t) && Created(h, t, gpa, false, h', t', r)
    ensures Contents(h', t'.root, g) == Contents(h, t.root, g)
  {
    hide Tree, Created, Walk, LeafPath;
    CreatedTranslation(h, t, gpa, false, h', t', r, g);
    if r.Mapped? && Gpn(g) == Gpn(gpa) {
      SameWalk(h, t, g, gpa);
      CreatedPage(h, t, gpa, false, h', t', r);
    } else if Walk(h, t.root, g).Some? {
      MappedDataSurvives(h, t, gpa, h', t', r, g);
    }
  }

  lemma {:induction false} MappedDataSurvives(h: Heap, t: Npt, gpa: Word, h': Heap, t': Npt, r: Outcome, g: Word)
    requires Tree(h, t) && Created(h, t, gpa, false, h', t', r) && Walk(h, t.root, g).Some?
    ensures var p := Walk(h, t.root, g).value; p in h && p in h' && h'[p] == h[p]
  {
    WalkEndsInLeaf(h, t, g);
    CreatedKeepsData(h, t, gpa, false, h', t', r, Walk(h, t.root, g).value);
  }

  /** A guest store changes the page it names, in the word it names, and nothing else anyone reads. */
  lemma {:induction false} StoreChangesOnePage(h: Heap, t: Npt, gpa: Word, i: nat, w: Word, g: Word)
    requires Tree(h, t) && Walk(h, t.root, gpa).Some? && i < PTRS_PER_PAGE
    requires Walk(h, t.root, gpa).value in h
    ensures Contents(SetEntry(h, Walk(h, t.root, gpa).value, i, w), t.root, g)
            == if Gpn(g) == Gpn(gpa) then Contents(h, t.root, gpa)[i := w] else Contents(h, t.root, g)
  {
    var p := Walk(h, t.root, gpa).value;
    var h' := SetEntry(h, p, i, w);
    StoreKeepsTree(h, t, gpa, i, w);
    SameTableSameWalk(h, h', t, g);
    if Gpn(g) == Gpn(gpa) {
      SameWalk(h, t, g, gpa);
    } else if Walk(h, t.root, g) == Some(p) {
      TranslationInjective(h, t, g, gpa);
    }
  }

  /** Where an event stores. */
  function StoreAddress(e: Event): Word
    requires e.GuestStore? || e.UserStore?
  {
    if e.GuestStore? then e.gpa else e.offset
  }

  /**
   What the guest stores, userspace reads at the same offset of its mapping, and the other way
   round: after a store by either, both find the new word there, and all else as it was.
   */
  lemma {:induction false} StoresAreShared(s: VmMemory, e: Event, s': VmMemory, mmio: Word, g: Word)
    requires Inv(s, mmio) && Step(s, e, s') && (e.GuestStore? || e.UserStore?)
    ensures var a := StoreAddress(e);
            && e.index < PTRS_PER_PAGE
            && Contents(s'.h, s'.t.root, g)
               == if Gpn(g) == Gpn(a) then Contents(s.h, s.t.root, a)[e.index := e.value]
                  else Contents(s.h, s.t.root, g)
    ensures g / PAGE_SIZE in s'.user ==>
              s'.user[g / PAGE_SIZE] in s'.h && s'.h[s'.user[g / PAGE_SIZE]] == Contents(s'.h, s'.t.root, g)
  {
    hide Tree, Walk;
    var a := StoreAddress(e);
    StepKeepsInv(s, e, s', mmio);
    WalkEndsInLeaf(s.h, s.t, a);
    StoreChangesOnePage(s.h, s.t, a, e.index, e.value, g);
    if g / PAGE_SIZE in s'.user {
      BothViews(s', mmio, g);
    }
  }

  /** Where userspace has a page, it reads what the guest does. */
  lemma {:induction false} BothViews(s: VmMemory, mmio: Word, o: Word)
    requires Inv(s, mmio) && o / PAGE_SIZE in s.user
    ensures s.user[o / PAGE_SIZE] in s.h && s.h[s.user[o / PAGE_SIZE]] == Contents(s.h, s.t.root, o)
  {
    WalkEndsInLeaf(s.h, s.t, o);
  }

  /** Accessed and dirty bits change what no address reads. */
  lemma {:induction false} MarkKeepsContents(h: Heap, t: Npt, p: Path, i: nat, e: Word, g: Word)
    requires Tree(h, t) && p in t.nodes && Depth(p) < PML4T && i < PTRS_PER_PAGE
    requires h[t.nodes[p]][i] != 0 && SameTarget(h[t.nodes[p]][i], e)
    ensures Contents(SetEntry(h, t.nodes[p], i, e), t.root, g) == Contents(h, t.root, g)
  {
    MarkKeepsTree(h, t, p, i, e);
    SameTableSameWalk(h, SetEntry(h, t.nodes[p], i, e), t, g);
    if Walk(h, t.root, g).Some? {
      WalkEndsInLeaf(h, t, g);
    }
  }
}
