/**
 driver/memory.c: building and tearing down a nested page table in physical memory,
 with an allocator that may fail at any call.
 */
module NestedPaging {
  import opened Words
  import opened Address
  import opened PageTable
  import opened NptCreation
  import opened Teardown

  function Nth(b: Pfn, i: nat): Pfn
    requires b + i < FRAMES
  {
    b + i
  }

  /** The frames of an allocation of this order at b. */
  function Block(b: Pfn, order: nat): set<Pfn> {
    set i: nat | i < Pow2(order) && b + i < FRAMES :: Nth(b, i)
  }

  /** The heap with these frames taken and zeroed. */
  function Taking(h: Heap, frames: set<Pfn>): Heap {
    h + map p | p in frames :: ZeroPage()
  }

  /** Physical memory with the kernel's page and object allocators, and the number of page allocations asked for. */
  class PhysicalMemory {
    var pages: Heap
    var objects: set<nat>
    var calls: nat

    constructor ()
      ensures pages == map[] && objects == {} && calls == 0
    {
      pages, objects, calls := map[], {}, 0;
    }

    /** `alloc_page` with zeroing: any free frame, or failure at any time. */
    method AllocPage() returns (r: Option<Pfn>)
      modifies this`pages, this`calls
      ensures calls == old(calls) + 1
      ensures r.None? ==> pages == old(pages)
      ensures r.Some? ==> r.value !in old(pages) && pages == old(pages)[r.value := ZeroPage()]
    {
      calls := calls + 1;
      r := None;
      if * {
        if p: Pfn :| p !in pages {
          pages := pages[p := ZeroPage()];
          r := Some(p);
        }
      }
    }

    method FreePage(p: Pfn)
      requires p in pages
      modifies this`pages
      ensures pages == old(pages) - {p}
    {
      pages := pages - {p};
    }

    /** `alloc_pages`: 2^order contiguous free frames, zeroed, or failure at any time. */
    method AllocPages(order: nat) returns (r: Option<Pfn>)
      modifies this`pages, this`calls
      ensures calls == old(calls) + 1
      ensures r.None? ==> pages == old(pages)
      ensures r.Some? ==> r.value + Pow2(order) <= FRAMES && Block(r.value, order) !! old(pages).Keys
      ensures r.Some? ==> pages == Taking(old(pages), Block(r.value, order))
    {
      calls := calls + 1;
      r := None;
      if * {
        if b: Pfn :| b + Pow2(order) <= FRAMES && Block(b, order) !! pages.Keys {
          pages := Taking(pages, Block(b, order));
          r := Some(b);
        }
      }
    }

    method FreePages(b: Pfn, order: nat)
      requires Block(b, order) <= pages.Keys
      modifies this`pages
      ensures pages == old(pages) - Block(b, order)
    {
      pages := pages - Block(b, order);
    }

    /** `kmalloc`: a new object, or failure at any time. */
    method Kmalloc() returns (r: Option<nat>)
      modifies this`objects
      ensures r.None? ==> objects == old(objects)
      ensures r.Some? ==> r.value !in old(objects) && objects == old(objects) + {r.value}
    {
      r := None;
      if * {
        if o: nat :| o !in objects && o <= |objects| {
          objects := objects + {o};
          r := Some(o);
        }
      }
    }

    method Kfree(o: nat)
      requires o in objects
      modifies this`objects
      ensures objects == old(objects) - {o}
    {
      objects := objects - {o};
    }

    method WriteWord(p: Pfn, i: nat, w: Word)
      requires p in pages && i < PTRS_PER_PAGE
      modifies this`pages
      ensures pages == SetEntry(old(pages), p, i, w)
    {
      pages := SetEntry(pages, p, i, w);
    }
  }

  class Vmm {
    const handle: nat
    const mem: PhysicalMemory
    var ncr3: Word
    ghost var table: Npt

    ghost predicate Valid()
      reads this, mem
    {
      EntryPfn(ncr3) == table.root && Tree(mem.pages, table)
    }

    /** A table with nothing below its root. */
    constructor (mem: PhysicalMemory, handle: nat, pml4t: Pfn)
      requires pml4t in mem.pages && mem.pages[pml4t] == ZeroPage()
      ensures this.mem == mem && this.handle == handle && ncr3 == pml4t * PAGE_SIZE && Valid()
      ensures table == RootOnly(pml4t)
    {
      this.mem, this.handle := mem, handle;
      ncr3 := pml4t * PAGE_SIZE;
      table := RootOnly(pml4t);
    }

    /** The entry for the child of table p at this index, created if it is zero. */
    method EnsureEntry(page: Pfn, index: nat, ghost p: Path, ghost gpa: Word, ghost h: Heap, ghost t: Npt)
      returns (entry: Option<Word>)
      requires Valid() && Grown(h, t, gpa, mem.pages, table)
      requires p in table.nodes && page == table.nodes[p] && Depth(p) < PML4T && index < PTRS_PER_PAGE
      requires OnPath(Child(p, index), gpa)
      modifies this`table, mem`pages, mem`calls
      ensures mem.calls - |table.nodes| == old(mem.calls) - |old(table.nodes)| + (if entry.None? then 1 else 0)
      ensures Valid() && Grown(h, t, gpa, mem.pages, table) && table.hidden == old(table.hidden)
      ensures entry.None? || old(Child(p, index) in table.nodes) ==> mem.pages == old(mem.pages) && table == old(table)
      ensures entry.None? ==> Child(p, index) !in table.nodes
      ensures entry.Some? ==> p in table.nodes && table.nodes[p] == page && Child(p, index) in table.nodes
      ensures entry.Some? ==> Follows(entry.value, table.nodes[Child(p, index)], Child(p, index) !in table.hidden)
    {
      hide Grown;
      ReadEntry(mem.pages, table, p, index);
      entry := Some(mem.pages[page][index]);
      if entry.value == 0 {
        ghost var h1 := mem.pages;
        var got := mem.AllocPage();
        if got.None? {
          return None;
        }
        entry := Some(PackEntry(got.value));
        LinkPage(page, index, got.value, h1, p, gpa, h, t);
        UnpackEntry(got.value);
      }
    }

    /** Linking a page just taken (driver/memory.c:52-53). */
    method LinkPage(page: Pfn, index: nat, taken: Pfn, ghost h1: Heap, ghost p: Path, ghost gpa: Word,
                    ghost h: Heap, ghost t: Npt)
      requires EntryPfn(ncr3) == table.root && Tree(h1, table) && Grown(h, t, gpa, h1, table)
      requires taken !in h1 && mem.pages == h1[taken := ZeroPage()]
      requires p in table.nodes && page == table.nodes[p] && Depth(p) < PML4T && index < PTRS_PER_PAGE
      requires OnPath(Child(p, index), gpa) && Child(p, index) !in table.nodes
      modifies this`table, mem`pages
      ensures Valid() && Grown(h, t, gpa, mem.pages, table) && table == AddNode(old(table), Child(p, index), taken)
    {
      hide Grown;
      LinkKeepsTree(h1, table, p, index, taken);
      GrowOne(h, t, gpa, h1, table, p, index, taken);
      mem.WriteWord(page, index, PackEntry(taken));
      table := AddNode(table, Child(p, index), taken);
    }

    /** One iteration of the level loop: the next entry, or what the whole call ends in. */
    method DescendOne(gpa: Word, level: Level, page: Pfn, ghost p: Path, ghost h: Heap, ghost t: Npt)
      returns (r: Option<Outcome>, entry: Word)
      requires Valid() && Tree(h, t) && Grown(h, t, gpa, mem.pages, table) && table.hidden == t.hidden
      requires Depth(p) == PML4T - level && OnPath(p, gpa) && p in table.nodes && page == table.nodes[p]
      requires LeafPath(gpa) in t.nodes ==> mem.pages == h && table == t
      modifies this`table, mem`pages, mem`calls
      ensures mem.calls - |table.nodes| == old(mem.calls) - |old(table.nodes)| + (if r == Some(NoMemory) then 1 else 0)
      ensures Valid() && Grown(h, t, gpa, mem.pages, table) && table.hidden == t.hidden
      ensures LeafPath(gpa) in t.nodes ==> mem.pages == h && table == t
      ensures r.Some? ==> !r.value.Mapped? && Created(h, t, gpa, false, mem.pages, table, r.value)
      ensures r.None? ==>
                && var q := Child(p, TableIndex(gpa, level));
                && OnPath(q, gpa) && q in table.nodes && q !in table.hidden
                && Follows(entry, table.nodes[q], true) && page == table.nodes[p]
    {
      ghost var q := Child(p, TableIndex(gpa, level));
      StepPath(p, gpa, level);
      PathInTable(t, q, gpa);
      var e := EnsureEntry(page, TableIndex(gpa, level), p, gpa, h, t);
      if e.None? {
        LoopRanOut(h, t, gpa, mem.pages, table, q);
        return Some(NoMemory), 0;
      }
      if !(Present(e.value) && Writable(e.value) && User(e.value)) {
        LoopHitHidden(h, t, gpa, mem.pages, table, q);
        return Some(Panicked), 0;
      }
      return None, e.value;
    }

    /** The level loop (driver/memory.c:27-58): the leaf's page, and the table and index that hold its entry. */
    method DescendLevels(gpa: Word) returns (r: Outcome, page: Pfn, index: nat)
      requires Valid()
      modifies this`table, mem`pages, mem`calls
      ensures mem.calls - |table.nodes| == old(mem.calls) - |old(table.nodes)| + (if r == NoMemory then 1 else 0)
      ensures Valid()
      ensures Created(old(mem.pages), old(table), gpa, false, mem.pages, table, r)
      ensures r.Mapped? ==> index == LeafPath(gpa).index && page == table.nodes[LeafPath(gpa).parent]
    {
      ghost var h, t := mem.pages, table;
      ghost var p := Root;
      var entry: Word := ncr3;
      page, index := 0, 0;
      var level := PML4T;
      while level >= PT
        invariant level <= PML4T
        invariant Valid() && Grown(h, t, gpa, mem.pages, table) && table.hidden == t.hidden
        invariant Depth(p) == PML4T - level && OnPath(p, gpa) && p in table.nodes && p !in table.hidden
        invariant EntryPfn(entry) == table.nodes[p]
        invariant level < PML4T ==> entry / PAGE_SIZE == table.nodes[p]
        invariant level < PML4T ==> p.Child? && index == p.index && page == table.nodes[p.parent]
        invariant LeafPath(gpa) in t.nodes ==> mem.pages == h && table == t
        invariant mem.calls - |table.nodes| == old(mem.calls) - |t.nodes|
      {
        index := TableIndex(gpa, level);
        page := EntryPfn(entry);
        var stop;
        stop, entry := DescendOne(gpa, level, page, p, h, t);
        if stop.Some? {
          return stop.value, page, index;
        }
        p := Child(p, index);
        level := level - 1;
      }
      LoopReachedLeaf(h, t, gpa, mem.pages, table);
      r := Mapped(entry / PAGE_SIZE);
    }

    /** `yakvm_vmm_npt_create` (driver/memory.c:15-74). */
    method NptCreate(gpa: Word, isMmio: bool) returns (r: Outcome)
      requires Valid()
      modifies this`table, mem`pages, mem`calls
      ensures mem.calls - |table.nodes| == old(mem.calls) - |old(table.nodes)| + (if r == NoMemory then 1 else 0)
      ensures Valid()
      ensures Created(old(mem.pages), old(table), gpa, isMmio, mem.pages, table, r)
    {
      ghost var h, t := mem.pages, table;
      var page, index;
      r, page, index := DescendLevels(gpa);
      if isMmio {
        Hide(gpa, page, index, r, h, t);
      }
    }

    /** The MMIO case (driver/memory.c:60-68); without a leaf there is nothing to hide. */
    method Hide(gpa: Word, page: Pfn, index: nat, r: Outcome, ghost h: Heap, ghost t: Npt)
      requires Valid() && Tree(h, t) && Created(h, t, gpa, false, mem.pages, table, r)
      requires r.Mapped? ==> index == LeafPath(gpa).index && page == table.nodes[LeafPath(gpa).parent]
      modifies this`table, mem`pages
      ensures Valid() && table.nodes == old(table.nodes)
      ensures Created(h, t, gpa, true, mem.pages, table, r)
    {
      if r.Mapped? {
        HideCreated(h, t, gpa, mem.pages, table, page, index, r);
        HideLeaf(page, index, LeafPath(gpa));
      } else {
        FailedAlike(h, t, gpa, mem.pages, table, r);
      }
    }

    /** Clearing the present bit of a leaf's entry (driver/memory.c:67). */
    method HideLeaf(page: Pfn, index: nat, ghost p: Path)
      requires Valid() && p in table.nodes && Depth(p) == PML4T && index == p.index && page == table.nodes[p.parent]
      modifies this`table, mem`pages
      ensures Valid() && table == old(table.(hidden := table.hidden + {p}))
      ensures mem.pages == SetEntry(old(mem.pages), page, index, ClearPresent(old(mem.pages)[page][index]))
    {
      HideKeepsTree(mem.pages, table, p);
      mem.WriteWord(page, index, ClearPresent(mem.pages[page][index]));
      table := table.(hidden := table.hidden + {p});
    }

    /**
     `yakvm_vmm_destroy_table` (driver/memory.c:129-144).  Freeing a page that is not
     allocated, and reading one, are excluded by FreePage's precondition and by the
     reads of `mem.pages`.
     */
    method DestroyTable(page: Pfn, level: Level, ghost p: Path, ghost h: Heap)
      requires Tree(h, table) && Intact(mem.pages, h, table, p)
      requires p in table.nodes && page == table.nodes[p] && Depth(p) == PML4T - level
      modifies mem`pages
      ensures mem.pages == old(mem.pages) - PagesUnder(table, p)
      decreases level
    {
      hide Intact, PagesUnder, PagesBelow;
      ghost var m := mem.pages;
      BelowNone(table, p);
      var idx := 0;
      while idx < PTRS_PER_PAGE
        invariant idx <= PTRS_PER_PAGE
        invariant mem.pages == m - PagesBelow(table, p, idx)
      {
        EntryDuringTeardown(m, h, table, p, idx);
        var entry := mem.pages[page][idx];
        if entry != 0 {
          assert User(entry) && Writable(entry);
          if level == PT {
            LeafAlone(table, Child(p, idx));
            mem.FreePage(EntryPfn(entry));
          } else {
            DestroyTable(EntryPfn(entry), level - 1, Child(p, idx), h);
          }
        }
        idx := idx + 1;
      }
      BelowAll(table, p);
      IntactChild(m, h, table, p, PTRS_PER_PAGE);
      RemoveTwice(m, PagesBelow(table, p, PTRS_PER_PAGE), {page});
      mem.FreePage(page);
    }

    /** `yakvm_destroy_vmm` (driver/memory.c:146-150). */
    method Destroy()
      requires Valid() && handle in mem.objects
      modifies mem`pages, mem`objects
      ensures mem.pages == old(mem.pages) - table.nodes.Values
      ensures mem.objects == old(mem.objects) - {handle}
    {
      RootReachesAll(table);
      DestroyTable(EntryPfn(ncr3), PML4T, Root, mem.pages);
      mem.Kfree(handle);
    }
  }

  datatype VmmResult = Built(vmm: Vmm) | Failed

  /**
   `yakvm_create_vmm` (driver/memory.c:76-127).  A failure inside the creation of the MMIO
   leaf frees the root only: the tables linked below it by then stay allocated, and `left`
   describes them.
   */
  method CreateVmm(mem: PhysicalMemory, mmio: Word) returns (r: VmmResult, ghost left: Npt)
    modifies mem
    ensures r.Built? ==> fresh(r.vmm) && r.vmm.mem == mem && r.vmm.Valid() && left == r.vmm.table
    ensures r.Built? ==> left.hidden == {LeafPath(mmio)} && Taken(old(mem.pages), mem.pages, left.nodes.Values)
    ensures r.Built? ==> r.vmm.handle !in old(mem.objects) && mem.objects == old(mem.objects) + {r.vmm.handle}
    ensures r.Failed? ==> LeftBehind(left, mmio) && Taken(old(mem.pages), mem.pages, Rest(left))
    ensures r.Failed? ==> mem.objects == old(mem.objects)
    ensures r.Failed? ==> |Rest(left)| == LeftPages(mem.calls - old(mem.calls))
    ensures r.Failed? ==> (mem.pages == old(mem.pages) <==> mem.calls - old(mem.calls) <= 2)
  {
    hide Taken, LeftBehind;
    ghost var h := mem.pages;
    var pml4t;
    r, pml4t := NewRoot(mem);
    if r.Failed? {
      NothingLeft(h, mmio);
      return Failed, NoTable();
    }
    var ok;
    ok, left := Complete(r.vmm, mmio, pml4t, h);
    if !ok {
      r := Failed;
    }
  }

  /** The MMIO leaf, or the way back (driver/memory.c:111-124). */
  method Complete(vmm: Vmm, mmio: Word, pml4t: Pfn, ghost h: Heap) returns (ok: bool, ghost left: Npt)
    requires vmm.Valid() && vmm.table == RootOnly(pml4t) && vmm.handle in vmm.mem.objects
    requires pml4t !in h && vmm.mem.pages == h[pml4t := ZeroPage()]
    modifies vmm`table, vmm.mem
    ensures left == vmm.table
    ensures ok ==> vmm.Valid() && left.hidden == {LeafPath(mmio)} && Taken(h, vmm.mem.pages, left.nodes.Values)
    ensures ok ==> vmm.mem.objects == old(vmm.mem.objects)
    ensures !ok ==> LeftBehind(left, mmio) && Taken(h, vmm.mem.pages, Rest(left))
    ensures !ok ==> vmm.mem.objects == old(vmm.mem.objects) - {vmm.handle}
    ensures !ok ==> |Rest(left)| == vmm.mem.calls - old(vmm.mem.calls) - 1
    ensures !ok ==> (vmm.mem.pages == h <==> |Rest(left)| == 0)
  {
    hide Taken, LeftBehind, Rest;
    ok := HideMmio(vmm, mmio, pml4t, h);
    left := vmm.table;
    if !ok {
      GiveUp(vmm.mem, vmm.handle, pml4t, left, mmio, h);
    }
  }

  function NoTable(): Npt {
    Npt(0, map[], {})
  }

  lemma {:induction false} NothingLeft(h: Heap, mmio: Word)
    ensures LeftBehind(NoTable(), mmio) && Taken(h, h, Rest(NoTable())) && |Rest(NoTable())| == 0
  {
    assert Rest(NoTable()) == {};
  }

  /** The heap h' is h with these pages taken. */
  ghost predicate Taken(h: Heap, h': Heap, s: set<Pfn>) {
    s !! h.Keys && h'.Keys == h.Keys + s && forall x :: x in h ==> h'[x] == h[x]
  }

  function Rest(t: Npt): set<Pfn> {
    t.nodes.Values - {t.root}
  }

  /** The labels free_vmm and free_pml4 (driver/memory.c:121-124). */
  method GiveUp(mem: PhysicalMemory, handle: nat, pml4t: Pfn, ghost left: Npt, ghost mmio: Word, ghost h: Heap)
    requires handle in mem.objects && LeftBehind(left, mmio) && left.root == pml4t && pml4t in left.nodes.Values
    requires Taken(h, mem.pages, left.nodes.Values)
    modifies mem`pages, mem`objects
    ensures mem.objects == old(mem.objects) - {handle}
    ensures Taken(h, mem.pages, Rest(left)) && |Rest(left)| == |left.nodes| - 1
    ensures mem.pages == h <==> |Rest(left)| == 0
  {
    mem.Kfree(handle);
    WithoutRoot(h, mem.pages, left);
    mem.FreePage(pml4t);
    RestIsNodes(left);
    SameUnlessLeft(h, mem.pages, Rest(left));
  }

  lemma {:induction false} WithoutRoot(h: Heap, h': Heap, t: Npt)
    requires Taken(h, h', t.nodes.Values) && t.root in t.nodes.Values
    ensures Taken(h, h' - {t.root}, Rest(t))
  {
  }

  /**
   How many pages a failed creation leaves: the first page allocation is the root's, and the
   last one failed.
   */
  function LeftPages(calls: int): int {
    if calls <= 2 then 0 else calls - 2
  }

  /** The leaf of the MMIO page in a new table (driver/memory.c:111-117). */
  method HideMmio(vmm: Vmm, mmio: Word, ghost pml4t: Pfn, ghost h: Heap) returns (ok: bool)
    requires vmm.Valid() && vmm.table == RootOnly(pml4t)
    requires pml4t !in h && vmm.mem.pages == h[pml4t := ZeroPage()]
    modifies vmm`table, vmm.mem`pages, vmm.mem`calls
    ensures vmm.mem.calls == old(vmm.mem.calls) + |vmm.table.nodes| - 1 + (if ok then 0 else 1)
    ensures ok ==> vmm.Valid() && vmm.table.hidden == {LeafPath(mmio)}
    ensures !ok ==> LeftBehind(vmm.table, mmio)
    ensures vmm.table.root == pml4t && pml4t in vmm.table.nodes.Values
    ensures Taken(h, vmm.mem.pages, vmm.table.nodes.Values)
  {
    hide Taken, LeftBehind, Created, Tree;
    var r := vmm.NptCreate(mmio, true);
    FirstCreation(h, pml4t, mmio, vmm.mem.pages, vmm.table, r);
    ok := r.Mapped?;
  }

  /** The root page and the vmm object (driver/memory.c:93-109). */
  method NewRoot(mem: PhysicalMemory) returns (r: VmmResult, pml4t: Pfn)
    modifies mem
    ensures mem.calls == old(mem.calls) + 1
    ensures r.Failed? ==> mem.pages == old(mem.pages) && mem.objects == old(mem.objects)
    ensures r.Built? ==> fresh(r.vmm) && r.vmm.mem == mem && r.vmm.Valid()
    ensures r.Built? ==> pml4t !in old(mem.pages) && mem.pages == old(mem.pages)[pml4t := ZeroPage()]
    ensures r.Built? ==> r.vmm.table == RootOnly(pml4t)
    ensures r.Built? ==> r.vmm.handle !in old(mem.objects) && mem.objects == old(mem.objects) + {r.vmm.handle}
  {
    var page := mem.AllocPage();
    if page.None? {
      return Failed, 0;
    }
    pml4t := page.value;
    var handle := mem.Kmalloc();
    if handle.None? {
      mem.FreePage(pml4t);
      return Failed, 0;
    }
    var vmm := new Vmm(mem, handle.value, pml4t);
    r := Built(vmm);
  }

  /** What a failed creation leaves: tables on the MMIO path, and no leaf. */
  ghost predicate LeftBehind(left: Npt, mmio: Word) {
    && (forall q :: q in left.nodes ==> OnPath(q, mmio))
    && LeafPath(mmio) !in left.nodes
    && (left.nodes != map[] ==> Shape(left) && Injective(left.nodes))
  }

  lemma {:induction false} FirstCreation(h0: Heap, root: Pfn, mmio: Word, h': Heap, t': Npt, r: Outcome)
    requires root !in h0 && Created(h0[root := ZeroPage()], RootOnly(root), mmio, true, h', t', r)
    ensures r != Panicked
    ensures r == NoMemory ==> LeftBehind(t', mmio)
    ensures t'.root == root && root in t'.nodes.Values && Taken(h0, h', t'.nodes.Values)
  {
    hide Tree;
    var h, t := h0[root := ZeroPage()], RootOnly(root);
    RootOnlyIsTree(h0, root);
    CreatedTakesReachable(h, t, mmio, true, h', t', r);
    CreatedNodes(h, t, mmio, true, h', t', r);
    PanicsIffHidden(h, t, mmio, true, h', t', r);
    NewNodes(h0, h, t, mmio, t');
    FirstPages(h0, h, t, mmio, h', t');
    FirstKeeps(h0, h, t, mmio, h', t', r);
  }

  lemma {:induction false} RootOnlyIsTree(h: Heap, root: Pfn)
    ensures Tree(h[root := ZeroPage()], RootOnly(root))
  {
  }

  /** A table with nothing below its root. */
  function RootOnly(root: Pfn): Npt {
    Npt(root, map[Root := root], {})
  }

  lemma {:induction false} FirstKeeps(h0: Heap, h: Heap, t: Npt, mmio: Word, h': Heap, t': Npt, r: Outcome)
    requires t.root !in h0 && h == h0[t.root := ZeroPage()] && t.nodes == map[Root := t.root]
    requires Tree(h, t) && Created(h, t, mmio, true, h', t', r)
    ensures forall x :: x in h0 ==> x in h' && h'[x] == h0[x]
  {
    forall x | x in h0
      ensures x in h' && h'[x] == h0[x]
    {
      CreatedKeepsData(h, t, mmio, true, h', t', r, x);
    }
  }

  lemma {:induction false} FirstPages(h0: Heap, h: Heap, t: Npt, mmio: Word, h': Heap, t': Npt)
    requires t.root !in h0 && h == h0[t.root := ZeroPage()] && t == RootOnly(t.root)
    requires NodesGrown(h, t, mmio, t') && h'.Keys - h.Keys == t'.nodes.Values - t.nodes.Values
    requires h.Keys <= h'.Keys
    ensures t.root in t'.nodes.Values && h'.Keys == h0.Keys + t'.nodes.Values
  {
    assert t'.nodes[Root] == t.root;
    forall x
      ensures x in h'.Keys <==> x in h0.Keys + t'.nodes.Values
    {
      assert x in t.nodes.Values ==> x == t.root;
      assert x in h'.Keys - h.Keys <==> x in t'.nodes.Values - t.nodes.Values;
    }
  }

  /** A table that has grown from its root has nodes on one path only, on pages that were free. */
  lemma {:induction false} NewNodes(h0: Heap, h: Heap, t: Npt, mmio: Word, t': Npt)
    requires t.root !in h0 && h == h0[t.root := ZeroPage()]
    requires t == RootOnly(t.root) && NodesGrown(h, t, mmio, t')
    ensures forall q :: q in t'.nodes ==> OnPath(q, mmio) && t'.nodes[q] !in h0
  {
    forall q | q in t'.nodes
      ensures OnPath(q, mmio) && t'.nodes[q] !in h0
    {
      assert q in t.nodes ==> q == Root;
    }
  }

  /** The pages of a table besides its root are as many as its nodes, less one. */
  lemma {:induction false} RestIsNodes(t: Npt)
    requires Shape(t) && Injective(t.nodes)
    ensures |Rest(t)| == |t.nodes| - 1
  {
    ValuesAreNodes(t.nodes);
    assert t.nodes[Root] == t.root;
  }

  lemma {:induction false} ValuesAreNodes(nodes: map<Path, Pfn>)
    requires Injective(nodes)
    ensures |nodes.Values| == |nodes|
    decreases |nodes|
  {
    if nodes != map[] {
      var p :| p in nodes;
      var rest := nodes - {p};
      ValuesAreNodes(rest);
      assert rest.Values == nodes.Values - {nodes[p]} by {
        forall x
          ensures x in rest.Values <==> x in nodes.Values - {nodes[p]}
        {
          if x in nodes.Values && x != nodes[p] {
            var q :| q in nodes && nodes[q] == x;
            assert q in rest && rest[q] == x;
          }
        }
      }
    }
  }

  /** A failed creation leaves at most three pages: the tables between the root and the leaf. */
  lemma {:induction false} AtMostThreeLeft(left: Npt, mmio: Word)
    requires LeftBehind(left, mmio)
    ensures |Rest(left)| <= 3
  {
    if left.nodes == map[] {
      assert Rest(left) == {};
    } else {
      var tables := {PathOf(mmio, 0), PathOf(mmio, 1), PathOf(mmio, 2), PathOf(mmio, 3)};
      assert left.nodes.Keys <= tables;
      SubsetSize(left.nodes.Keys, tables);
      RestIsNodes(left);
    }
  }

  /** Memory is as it was exactly when nothing was left. */
  lemma {:induction false} SameUnlessLeft(h: Heap, h': Heap, left: set<Pfn>)
    requires Taken(h, h', left)
    ensures h' == h <==> |left| == 0
  {
    if h' == h {
      assert left == {};
    }
  }

  /**
   A creation that leaks: the second allocation below the root fails, and the table linked
   by the first stays allocated when the root is freed.
   */
  lemma {:induction false} SecondFailureLeaks(root: Pfn, page: Pfn, mmio: Word)
    requires root != page
    ensures var i := TableIndex(mmio, PML4T);
            var h := map[root := ZeroPage()];
            var t := RootOnly(root);
            var h' := SetEntry(h[page := ZeroPage()], root, i, PackEntry(page));
            var t' := AddNode(t, Child(Root, i), page);
            && Tree(h, t) && Created(h, t, mmio, true, h', t', NoMemory)
            && LeftBehind(t', mmio) && Rest(t') == {page}
  {
    var i := TableIndex(mmio, PML4T);
    var h: Heap := map[root := ZeroPage()];
    var t := RootOnly(root);
    var h' := SetEntry(h[page := ZeroPage()], root, i, PackEntry(page));
    var t' := AddNode(t, Child(Root, i), page);
    assert OnPath(Child(Root, i), mmio) by {
      assert PathOf(mmio, 1) == Child(PathOf(mmio, 0), i);
    }
    RootOnlyIsTree(map[], root);
    LinkKeepsTree(h, t, Root, i, page);
    GrowOne(h, t, mmio, h, t, Root, i, page);
    assert t'.nodes[Root] == root && t'.nodes[Child(Root, i)] == page;
    assert t'.nodes.Values == {root, page};
  }
}
