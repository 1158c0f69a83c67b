/**
 The set of pages below a node of the table, as the recursive teardown of driver/memory.c
 visits them, and why freeing child after child frees each page once.
 */
module Teardown {
  import opened Words
  import opened Address
  import opened PageTable

  /** Path q passes through path p. */
  predicate Under(q: Path, p: Path) {
    q == p || (q.Child? && Under(q.parent, p))
  }

  /** The index at which path q leaves path p. */
  function Branch(q: Path, p: Path): nat
    requires Under(q, p) && q != p
  {
    if q.parent == p then q.index else Branch(q.parent, p)
  }

  /** The page of p and all pages below it. */
  function PagesUnder(t: Npt, p: Path): set<Pfn> {
    set q | q in t.nodes && Under(q, p) :: t.nodes[q]
  }

  /** The pages below the first n entries of p. */
  function PagesBelow(t: Npt, p: Path, n: nat): set<Pfn> {
    set q | q in t.nodes && Under(q, p) && q != p && Branch(q, p) < n :: t.nodes[q]
  }

  lemma {:induction false} UnderDeepens(q: Path, p: Path)
    requires Under(q, p)
    ensures Depth(q) >= Depth(p)
    ensures Depth(q) == Depth(p) ==> q == p
  {
    if q != p {
      UnderDeepens(q.parent, p);
    }
  }

  lemma {:induction false} UnderRoot(q: Path)
    ensures Under(q, Root)
  {
    if q.Child? {
      UnderRoot(q.parent);
    }
  }

  /** Below p through entry i is at or below its child i. */
  lemma {:induction false} UnderChild(q: Path, p: Path, i: nat)
    ensures Under(q, Child(p, i)) <==> Under(q, p) && q != p && Branch(q, p) == i
  {
    if q.Child? {
      UnderChild(q.parent, p, i);
      if q.parent == p && Under(p, Child(p, i)) {
        UnderDeepens(p, Child(p, i));
      }
    }
    if q == p && Under(p, Child(p, i)) {
      UnderDeepens(p, Child(p, i));
    }
  }

  /** A page below p has its branching child in the table. */
  lemma {:induction false} BranchInTable(t: Npt, q: Path, p: Path)
    requires Shape(t) && q in t.nodes && Under(q, p) && q != p
    ensures Child(p, Branch(q, p)) in t.nodes && Branch(q, p) < PTRS_PER_PAGE
  {
    if q.parent != p {
      BranchInTable(t, q.parent, p);
    }
  }

  lemma {:induction false} BelowStep(t: Npt, p: Path, n: nat)
    requires Shape(t)
    ensures PagesBelow(t, p, n + 1)
            == PagesBelow(t, p, n) + (if Child(p, n) in t.nodes then PagesUnder(t, Child(p, n)) else {})
  {
    forall q | q in t.nodes
      ensures Under(q, p) && q != p && Branch(q, p) == n <==> Under(q, Child(p, n))
      ensures Under(q, Child(p, n)) ==> Child(p, n) in t.nodes
    {
      UnderChild(q, p, n);
      if Under(q, Child(p, n)) {
        BranchInTable(t, q, p);
      }
    }
  }

  lemma {:induction false} BelowNone(t: Npt, p: Path)
    ensures PagesBelow(t, p, 0) == {}
  {
  }

  lemma {:induction false} BelowAll(t: Npt, p: Path)
    requires Shape(t) && p in t.nodes
    ensures PagesUnder(t, p) == {t.nodes[p]} + PagesBelow(t, p, PTRS_PER_PAGE)
  {
    forall q | q in t.nodes && Under(q, p) && q != p
      ensures Branch(q, p) < PTRS_PER_PAGE
    {
      BranchInTable(t, q, p);
    }
  }

  /** Nothing is below a leaf. */
  lemma {:induction false} LeafAlone(t: Npt, p: Path)
    requires Shape(t) && p in t.nodes && Depth(p) == PML4T
    ensures PagesUnder(t, p) == {t.nodes[p]}
  {
    forall q | q in t.nodes && Under(q, p)
      ensures q == p
    {
      UnderDeepens(q, p);
    }
  }

  /** The pages that remain to be freed are still there when entry n is reached. */
  lemma {:induction false} NotBelowYet(t: Npt, p: Path, n: nat, q: Path)
    requires Shape(t) && Injective(t.nodes) && q in t.nodes && (q == p || Under(q, Child(p, n)))
    ensures t.nodes[q] !in PagesBelow(t, p, n)
  {
    UnderChild(q, p, n);
  }

  lemma {:induction false} RootReachesAll(t: Npt)
    ensures PagesUnder(t, Root) == t.nodes.Values
  {
    forall q | q in t.nodes
      ensures Under(q, Root)
    {
      UnderRoot(q);
    }
  }

  /** The part of table t at and below p is in memory m as it was in memory h. */
  ghost predicate Intact(m: Heap, h: Heap, t: Npt, p: Path) {
    forall q :: q in t.nodes && Under(q, p) ==>
      t.nodes[q] in m && t.nodes[q] in h && (Depth(q) < PML4T ==> m[t.nodes[q]] == h[t.nodes[q]])
  }

  /** Freeing the subtrees of the first n entries leaves entry n's subtree, and p itself, intact. */
  lemma {:induction false} IntactChild(m: Heap, h: Heap, t: Npt, p: Path, n: nat)
    requires Shape(t) && Injective(t.nodes) && p in t.nodes && Intact(m, h, t, p)
    ensures Intact(m - PagesBelow(t, p, n), h, t, Child(p, n))
    ensures t.nodes[p] in m - PagesBelow(t, p, n)
  {
    NotBelowYet(t, p, n, p);
    forall q | q in t.nodes && Under(q, Child(p, n))
      ensures Under(q, p) && t.nodes[q] !in PagesBelow(t, p, n)
    {
      UnderChild(q, p, n);
      NotBelowYet(t, p, n, q);
    }
  }

  lemma {:induction false} RemoveTwice(m: Heap, a: set<Pfn>, b: set<Pfn>)
    ensures m - a - b == m - (a + b)
  {
  }

  /** What the teardown of p finds at entry n, when memory m has lost the subtrees of the entries before. */
  lemma {:induction false} EntryDuringTeardown(m: Heap, h: Heap, t: Npt, p: Path, n: nat)
    requires Tree(h, t) && p in t.nodes && Depth(p) < PML4T && n < PTRS_PER_PAGE && Intact(m, h, t, p)
    ensures var m' := m - PagesBelow(t, p, n);
            && t.nodes[p] in m'
            && var e := m'[t.nodes[p]][n];
            && (e != 0 <==> Child(p, n) in t.nodes)
            && (e != 0 ==>
                  && EntryPfn(e) == t.nodes[Child(p, n)] && EntryPfn(e) in m' && User(e) && Writable(e)
                  && Intact(m', h, t, Child(p, n))
                  && m - PagesBelow(t, p, n + 1) == m' - PagesUnder(t, Child(p, n)))
            && (e == 0 ==> m - PagesBelow(t, p, n + 1) == m')
  {
    IntactChild(m, h, t, p, n);
    BelowStep(t, p, n);
    RemoveTwice(m, PagesBelow(t, p, n), PagesUnder(t, Child(p, n)));
    assert Under(p, p) && Under(Child(p, n), Child(p, n));
    var e := h[t.nodes[p]][n];
    assert EntryFor(e, t, Child(p, n));
    if Child(p, n) in t.nodes {
      LinkedEntry(e, t.nodes[Child(p, n)], Child(p, n) !in t.hidden);
    }
  }
}
