// The page allocator and user page tables (kernel/kalloc.c, kernel/vm.c) over physical memory.

module Kmem {
  import opened Pte
  import opened PageTree

  /** The page after the first `k` of the free list; 0 at its end. */
  function NextOf(free: seq<nat>, k: nat): nat {
    if k < |free| then free[k] else 0
  }

  /** `free` is what the list starting at address `head` runs through; each page's first word is the
      address of the next. */
  ghost predicate FreeOk(ram: Ram, head: nat, free: seq<nat>) {
    && head == NextOf(free, 0) * PGSIZE
    && (forall k | 0 <= k < |free| :: free[k] in ram && ram[free[k]][0] == NextOf(free, k + 1) * PGSIZE)
    && (forall j, k | 0 <= j < k < |free| :: free[j] != free[k])
  }

  function FreeSet(free: seq<nat>): set<nat> {
    set f | f in free
  }

  lemma {:induction false} FreeSetSize(free: seq<nat>)
    ensures |FreeSet(free)| <= |free|
  {
    if free == [] {
      assert FreeSet(free) == {};
    } else {
      FreeSetSize(free[1..]);
      assert FreeSet(free) == {free[0]} + FreeSet(free[1..]);
    }
  }
}

module KmemFacts {
  import opened Pte
  import opened PageTree
  import opened Kmem

  lemma Pushed(ram: Ram, head: Word, free: seq<nat>, f: nat, page: Page)
    requires FreeOk(ram, head, free) && f in ram && f !in free && page[0] == head
    ensures FreeOk(ram[f := page], f * PGSIZE, [f] + free)
    ensures FreeSet([f] + free) == FreeSet(free) + {f}
  {
    var ram', free' := ram[f := page], [f] + free;
    forall k | 0 <= k < |free'|
      ensures free'[k] in ram' && ram'[free'[k]][0] == NextOf(free', k + 1) * PGSIZE
    {
      assert k > 0 ==> free'[k] == free[k - 1];
      assert NextOf(free', k + 1) == NextOf(free, k);
    }
  }

  lemma Popped(ram: Ram, head: Word, free: seq<nat>, page: Page)
    requires FreeOk(ram, head, free) && 0 !in ram && free != []
    ensures head == free[0] * PGSIZE && free[0] in ram
    ensures FreeOk(ram[free[0] := page], ram[free[0]][0], free[1..])
    ensures FreeSet(free[1..]) == FreeSet(free) - {free[0]}
  {
    var free' := free[1..];
    assert free[0] !in free';
    forall k | 0 <= k < |free'|
      ensures free'[k] in ram && ram[free'[k]][0] == NextOf(free', k + 1) * PGSIZE && free'[k] != free[0]
    {
      assert free'[k] == free[k + 1] && NextOf(free', k + 1) == NextOf(free, k + 2);
    }
    forall f | f in FreeSet(free) - {free[0]} ensures f in free' {
      var k :| 0 <= k < |free| && free[k] == f;
      assert free'[k - 1] == f;
    }
  }

  lemma Elsewhere(ram: Ram, head: nat, free: seq<nat>, f: nat, page: Page)
    requires FreeOk(ram, head, free) && f !in free
    ensures FreeOk(ram[f := page], head, free)
  {
    forall k | 0 <= k < |free|
      ensures free[k] in ram[f := page] && ram[f := page][free[k]][0] == NextOf(free, k + 1) * PGSIZE
    {
      assert free[k] in free;
    }
  }

  lemma TwoElsewhere(ram: Ram, head: nat, free: seq<nat>, f: nat, page: Page, g: nat, page': Page)
    requires FreeOk(ram, head, free) && f !in free && g !in free
    ensures FreeOk(ram[f := page][g := page'], head, free)
  {
    Elsewhere(ram, head, free, f, page);
    Elsewhere(ram[f := page], head, free, g, page');
  }

  lemma Refilled(ram: Ram, f: nat, page: Page, page': Page)
    ensures ram[f := page][f := page'] == ram[f := page']
  {
  }
}

module Vm {
  import opened Pte
  import opened PageTree
  import opened PageMoves
  import opened VmViews
  import opened VmFacts
  import opened Kmem
  import opened KmemFacts

  const KERNBASE: nat := 0x8000_0000
  const PHYSTOP: nat := 0x8800_0000

  class Memory {
    var ram: Ram                    // the pages that can be allocated
    var freelist: Word              // kmem.freelist
    ghost var free: seq<nat>
    ghost var owner: map<nat, Place>

    ghost function View(): View
      reads this
    {
      PageTree.View(ram, owner, FreeSet(free))
    }

    ghost predicate Ok()
      reads this
    {
      TreeOk(View()) && FreeOk(ram, freelist, free)
    }

    /** kinit: every page of physical memory after the kernel goes on the free list. */
    constructor (memory: Ram, end: nat)
      requires KERNBASE <= end <= PHYSTOP
      requires forall f :: f in memory <==> end <= f * PGSIZE && (f + 1) * PGSIZE <= PHYSTOP
      ensures Ok() && owner == map[] && ram.Keys == memory.Keys
      ensures forall f :: f in memory <==> f in free
    {
      ram, freelist, free, owner := memory, 0, [], map[];
      new;
      FreeRange(end, PHYSTOP);
      assert FramesOk(View()) && OwnersOk(View());
      assert forall r :: !Live(View(), r);
    }

    method FreeRange(start: nat, end: nat)
      requires FreeOk(ram, freelist, free) && free == [] && end < 0x100_0000_0000
      requires forall f | start <= f * PGSIZE && (f + 1) * PGSIZE <= end :: f in ram
      modifies this`ram, this`freelist, this`free
      ensures FreeOk(ram, freelist, free) && ram.Keys == old(ram.Keys)
      ensures forall f :: f in free <==> start <= f * PGSIZE && (f + 1) * PGSIZE <= end
    {
      hide FreeOk, FreeSet, Filled;
      var p := PgRoundUp(start);
      while p + PGSIZE <= end
        invariant p % PGSIZE == 0 && start <= p
        invariant FreeOk(ram, freelist, free) && ram.Keys == old(ram.Keys)
        invariant forall f :: f in free <==> start <= f * PGSIZE && (f + 1) * PGSIZE <= end && f * PGSIZE < p
        decreases end - p
      {
        ghost var before := free;
        Kfree(p / PGSIZE);
        assert forall f :: f in free <==> f == p / PGSIZE || f in before;
        p := p + PGSIZE;
      }
    }

    /** Free a page of physical memory. */
    method Kfree(f: nat)
      requires FreeOk(ram, freelist, free) && f in ram && f !in free && f < MAXFRAME
      modifies this`ram, this`freelist, this`free
      ensures FreeOk(ram, freelist, free) && free == [f] + old(free) && FreeSet(free) == FreeSet(old(free)) + {f}
      ensures ram == old(ram)[f := Filled(1)[0 := old(freelist)]]
    {
      ram := ram[f := Filled(1)];              // junk, to catch dangling references
      ram := ram[f := ram[f][0 := freelist]];
      Pushed(old(ram), freelist, free, f, ram[f]);
      freelist := f * PGSIZE;
      free := [f] + free;
    }

    /** Allocate one page of physical memory; 0 if there is none. */
    method Kalloc() returns (f: nat)
      requires FreeOk(ram, freelist, free) && 0 !in ram
      modifies this`ram, this`freelist, this`free
      ensures f == 0 <==> old(free) == []
      ensures f == 0 ==> ram == old(ram) && freelist == old(freelist) && free == old(free)
      ensures f != 0 ==> && f in FreeSet(old(free)) && FreeOk(ram, freelist, free)
                         && free == old(free)[1..] && FreeSet(free) == FreeSet(old(free)) - {f} && f !in free
                         && ram == old(ram)[f := Filled(5)]
    {
      var r := freelist;
      if free != [] {
        Popped(ram, freelist, free, Filled(5));
        assert free[0] in free && free[0] != 0;
      }
      if r == 0 {
        return 0;
      }
      f := r / PGSIZE;
      freelist := ram[f][0];
      ram := ram[f := Filled(5)];
      free := free[1..];
      assert f !in FreeSet(free);
    }

    /** walk's missing table: a zeroed page whose entry is made; 0 if there is no page. */
    method AddTable(table: nat, i: nat, ghost p: Place) returns (b: nat)
      requires Ok() && Node(ram, p) == table && forall b | b in FreeSet(free) :: MayAdd(View(), p, i, b)
      requires table in ram && i < ENTRIES && table !in free
      modifies this`ram, this`freelist, this`free, this`owner
      ensures Ok() && Grown(old(View()), View(), RootOf(p))
      ensures b == 0 ==> free == [] && View() == old(View())
      ensures b != 0 ==> b in ram && Node(ram, Child(p, i)) == b
    {
      ghost var s := View();
      assert FramesOk(s);
      hide TreeOk, FreeOk, Extended, FreeSet, MayAdd, MayHang, Node, MkPte, Filled, RootOf;
      b := Kalloc();
      if b == 0 {
        ExtendedReflexive(s, RootOf(p), 0, 0);
        return;
      }
      TableAdded(s, p, i, b);
      TwoElsewhere(ram, freelist, free, b, Filled(0), table, s.ram[table][i := MkPte(b, 0)]);
      Refilled(s.ram, b, Filled(5), Filled(0));
      ram := ram[b := Filled(0)];
      ram := ram[table := ram[table][i := MkPte(b, 0)]];
      owner := owner[b := Child(p, i)];
    }

    /** Where the entry for virtual address `va` is: index `i` of table `table`; no table (0) if one is
        missing and is not to be, or cannot be, allocated. */
    method Walk(root: nat, va: nat, alloc: bool) returns (table: nat, i: nat)
      requires Ok() && Live(View(), root) && va < MAXVA
      modifies this`ram, this`freelist, this`free, this`owner
      ensures Ok() && Grown(old(View()), View(), root)
      ensures !alloc ==> View() == old(View()) && free == old(free)
      ensures i == PageNo(va) % 512 && PageNo(va) < NPAGES
      ensures table != 0 ==> table in ram && table == Node(ram, Leaf(root, PageNo(va)).up)
      ensures table == 0 ==> PteAt(ram, Leaf(root, PageNo(va))) == 0 && (alloc ==> free == [])
    {
      hide TreeOk, FreeOk, Extended, MayAdd, OnTheWay, Leaf, Live, Node;
      table, i := root, PX(0, va);
      ghost var s0 := View();
      ExtendedReflexive(s0, root, 0, 0);
      WalkStart(s0, root, va);
      var level: nat := 2;
      while level > 0
        invariant 0 <= level <= 2
        invariant Ok() && Grown(s0, View(), root) && AtLevel(View(), root, va, level, table)
        invariant !alloc ==> View() == s0 && free == old(free)
      {
        ghost var s := View();
        SameLive(s0, s, root, 0, 0, root);
        WalkStep(s, root, va, level, table);
        var pte := ram[table][PX(level, va)];
        if Valid(pte) {
          table := Frame(pte);
        } else {
          if !alloc {
            WalkFails(s, root, va, level - 1);
            return 0, i;
          }
          var b := AddTable(table, PX(level, va), OnTheWay(root, va, level));
          ExtendedTransitive(s0, s, View(), root, 0, 0, 0);
          if b == 0 {
            WalkFails(s, root, va, level - 1);
            return 0, i;
          }
          table := b;
        }
        level := level - 1;
      }
      WalkEnd(View(), root, va, table);
    }

    /** Physical page of a user virtual address; 0 if it is not mapped for users. */
    method WalkAddr(root: nat, va: nat) returns (f: nat)
      requires Ok() && Live(View(), root)
      modifies this`ram, this`freelist, this`free, this`owner
      ensures View() == old(View()) && Ok()
      ensures f == if va < MAXVA && User(PteAt(ram, Leaf(root, PageNo(va))))
                   then Frame(PteAt(ram, Leaf(root, PageNo(va)))) else 0
    {
      if va >= MAXVA {
        return 0;
      }
      var table, i := Walk(root, va, false);
      if table == 0 {
        return 0;
      }
      var pte := ram[table][i];
      if !Valid(pte) || !User(pte) {
        return 0;
      }
      f := Frame(pte);
    }

    /** One turn of mappages' loop, for the page numbered `v`. */
    method MapOne(root: nat, v: nat, f: nat, perm: nat) returns (ok: bool)
      requires Ok() && Live(View(), root) && v < NPAGES && LeafPerm(perm)
      requires Vacant(View(), root, v, v + 1) && Foreign(View(), f, 1)
      modifies this`ram, this`freelist, this`free, this`owner
      ensures Ok() && f < MAXFRAME
      ensures !ok ==> Grown(old(View()), View(), root) && free == []
      ensures ok ==> Extended(old(View()), View(), root, v, v + 1)
      ensures ok ==> PteAt(ram, Leaf(root, v)) == MkPte(f, perm)
    {
      hide TreeOk, FreeOk, Extended, Leaf, Live, Node, InRange, Vacant, PteAt, PageNo, MkPte;
      ghost var s := View();
      PageNoOf(v);
      var table, i := Walk(root, v * PGSIZE, true);
      if table == 0 {
        return false;
      }
      ghost var t := View();
      ReadyToMap(s, t, root, v, f);
      MapStep(t, root, v, table, i, f, perm);
      assert !Valid(ram[table][i]);             // the remap panic
      Elsewhere(ram, freelist, free, table, ram[table][i := MkPte(f, perm)]);
      ram := ram[table := ram[table][i := MkPte(f, perm)]];
      GrownThen(s, t, View(), root, v, v + 1);
      ok := true;
    }

    /** Map [va, va + size) to physical memory from page `f` on. -1 (false) when a table could not be
        allocated; what was mapped until then, [lo, mid), stays mapped. */
    method MapPages(root: nat, va: nat, size: nat, f: nat, perm: nat) returns (ok: bool, ghost mid: nat)
      requires Ok() && Live(View(), root) && LeafPerm(perm)
      requires size > 0 && va + size <= MAXVA
      requires PageNo(va) <= PageNo(va + size - 1)
      requires Vacant(View(), root, PageNo(va), PageNo(va + size - 1) + 1)
      requires Foreign(View(), f, PageNo(va + size - 1) + 1 - PageNo(va))
      modifies this`ram, this`freelist, this`free, this`owner
      ensures Ok() && PageNo(va) <= mid <= PageNo(va + size - 1) + 1
      ensures MappedSoFar(old(View()), View(), root, PageNo(va), mid, f, perm)
      ensures ok <==> mid == PageNo(va + size - 1) + 1
      ensures !ok ==> free == []
    {
      hide TreeOk, FreeOk, FreeSet, Live, Vacant, Foreign, MappedSoFar, LeafPerm, PgRoundDown;
      Rounding(va);
      Rounding(va + size - 1);
      PageNoOf(PageNo(va));
      PageNoOf(PageNo(va + size - 1));
      ok, mid := MapLoop(root, PageNo(PgRoundDown(va)), PageNo(PgRoundDown(va + size - 1)), f, perm);
    }

    /** mappages' loop over the pages first, ..., last. */
    method MapLoop(root: nat, first: nat, last: nat, f: nat, perm: nat) returns (ok: bool, ghost mid: nat)
      requires Ok() && Live(View(), root) && LeafPerm(perm) && first <= last < NPAGES
      requires Vacant(View(), root, first, last + 1) && Foreign(View(), f, last + 1 - first)
      modifies this`ram, this`freelist, this`free, this`owner
      ensures Ok() && first <= mid <= last + 1
      ensures MappedSoFar(old(View()), View(), root, first, mid, f, perm)
      ensures ok <==> mid == last + 1
      ensures !ok ==> free == []
    {
      hide TreeOk, FreeOk, FreeSet, Grown, Live, Vacant, Foreign, MappedSoFar, PteAt, LeafPerm;
      ghost var s := View();
      var a, pa := first, f;
      MayMap(s, root, first, last, f, perm);

      ok := true;
      while true
        invariant first <= a <= last && pa == f + (a - first)
        invariant Ok() && Live(View(), root) && MappedSoFar(s, View(), root, first, a, f, perm)
        invariant Vacant(View(), root, a, a + 1) && Foreign(View(), pa, 1)
        decreases last - a
      {
        ghost var t := View();
        mid := a;
        ok := MapOne(root, a, pa, perm);
        if !ok {
          MapStall(s, t, View(), root, first, a, f, perm);
          break;
        }
        MapTurn(s, t, View(), root, first, a, last + 1, f, perm);
        mid := a + 1;
        if a == last {
          break;
        }
        a := a + 1;
        pa := pa + 1;
      }
    }

    /** One turn of uvmunmap's loop, for the page numbered `v`; false is a panic. */
    method UnmapOne(root: nat, v: nat, doFree: bool) returns (ok: bool)
      requires Ok() && Live(View(), root) && v < NPAGES && OwnIfMapped(View(), root, v, v + 1, doFree)
      modifies this`ram, this`freelist, this`free, this`owner
      ensures Ok() && (ok <==> PteAt(old(ram), Leaf(root, v)) != 0)
      ensures ok ==> Removed(old(View()), View(), root, v, v + 1, doFree)
    {
      hide TreeOk, FreeOk, Removed, Leaf, Live, Node, InRange, Mapped, OwnIfMapped, PteAt, PageNo, MkPte, Grown;
      ghost var s := View();
      PageNoOf(v);
      var table, i := Walk(root, v * PGSIZE, false);
      if table == 0 {
        return false;
      }
      EntryIsThere(s, root, v, table, doFree);
      if !Valid(ram[table][i]) {
        return false;
      }
      ghost var junk := Filled(1)[0 := freelist];
      UnmapStep(s, root, v, table, i, doFree, junk);
      assert IsLeaf(ram[table][i]);          // the third panic is out of reach
      ghost var b := Frame(ram[table][i]);
      if doFree {
        Kfree(Frame(ram[table][i]));
        owner := owner - {b};
      }
      Elsewhere(ram, freelist, free, table, ram[table][i := 0]);
      ram := ram[table := ram[table][i := 0]];
      assert View() == UnmappedView(s, table, i, b, doFree, junk);
      ok := true;
    }

    /** uvmunmap of npages pages from va on: it panics if and only if one of them is not mapped. */
    method UvmUnmap(root: nat, va: nat, npages: nat, doFree: bool) returns (ok: bool)
      requires Ok() && Live(View(), root) && va % PGSIZE == 0 && PageNo(va) + npages <= NPAGES
      requires OwnIfMapped(View(), root, PageNo(va), PageNo(va) + npages, doFree)
      modifies this`ram, this`freelist, this`free, this`owner
      ensures Ok() && (ok <==> AllMapped(old(View()), root, PageNo(va), PageNo(va) + npages))
      ensures ok ==> Removed(old(View()), View(), root, PageNo(va), PageNo(va) + npages, doFree)
    {
      hide TreeOk, FreeOk, FreeSet, Removed, Live, OwnIfMapped, AllMapped, PageNo, PteAt, Leaf;
      ghost var s := View();
      var lo, a := PageNo(va), PageNo(va);
      RemovedNothing(s, root, lo, doFree);
      NoneToMap(s, root, lo);
      while a < lo + npages
        invariant lo <= a <= lo + npages
        invariant Ok() && Live(View(), root) && Removed(s, View(), root, lo, a, doFree)
        invariant OwnIfMapped(View(), root, a, lo + npages, doFree) && AllMapped(s, root, lo, a)
      {
        ghost var t := View();
        OwnPart(t, root, a, lo + npages, doFree, a);
        UnmappedSoFar(s, t, root, lo, a, lo + npages, doFree);
        ok := UnmapOne(root, a, doFree);
        if !ok {
          return;
        }
        RemovedTransitive(s, t, View(), root, lo, a, a + 1, doFree);
        OwnRest(t, View(), root, a, a + 1, lo + npages, doFree);
        a := a + 1;
      }
      ok := true;
    }

    /** A tree of one zeroed table, whose address space is empty; 0 if there is no page for it. */
    method UvmCreate() returns (root: nat)
      requires Ok()
      modifies this`ram, this`freelist, this`free, this`owner
      ensures Ok()
      ensures root == 0 <==> old(free) == []
      ensures root == 0 ==> View() == old(View())
      ensures root != 0 ==> && Live(View(), root) && !Live(old(View()), root)
                            && Space(ram, root) == map[] && owner == old(owner)[root := Root(root)]
                            && forall c | IsPage(c) && Live(old(View()), RootOf(c)) ::
                                 PteAt(ram, c) == PteAt(old(ram), c)
    {
      ghost var s := View();
      assert FramesOk(s);
      root := Kalloc();
      if root == 0 {
        return;
      }
      Created(s, root);
      Elsewhere(ram, freelist, free, root, Filled(0));
      Refilled(s.ram, root, Filled(5), Filled(0));
      ram := ram[root := Filled(0)];
      owner := owner[root := Root(root)];
    }

    /** A new page with these contents mapped at virtual page `v`: what uvmalloc's and uvmcopy's loops do
        with kalloc, memset or memmove, mappages, and kfree when mappages fails. */
    method MapFresh(root: nat, v: nat, data: Page, perm: nat) returns (ok: bool)
      requires Ok() && Live(View(), root) && v < NPAGES && LeafPerm(perm) && Vacant(View(), root, v, v + 1)
      modifies this`ram, this`freelist, this`free, this`owner
      ensures Ok()
      ensures ok ==> Extended(old(View()), View(), root, v, v + 1) && OwnPage(View(), Leaf(root, v), data, perm)
      ensures !ok ==> Grown(old(View()), View(), root) && |free| <= 1
    {
      hide TreeOk, FreeOk, Extended, MappedSoFar, Live, Vacant, Foreign, LeafPerm, PageNo, OwnPage, Leaf, Filled;
      ghost var s := View();
      FramesAreOk(s);
      var b := Kalloc();
      if b == 0 {
        ExtendedReflexive(s, root, 0, 0);
        return false;
      }
      FreshReady(s, root, v, b, data);
      Elsewhere(ram, freelist, free, b, data);
      Refilled(s.ram, b, Filled(5), data);
      ram := ram[b := data];
      ghost var t := View();
      assert t == Taken(s, b, data);
      OnePageBytes(v);
      ghost var mid;
      ok, mid := MapPages(root, v * PGSIZE, PGSIZE, b, perm);
      if !ok {
        FreshFailed(s, View(), root, v, b, data, perm, Filled(1)[0 := freelist]);
        Kfree(b);
      } else {
        FreshDone(s, View(), root, v, b, data, perm);
        owner := owner[b := Leaf(root, v)];
      }
    }

    /** Shrink a process from oldsz to newsz: the pages above the new size are unmapped and freed. It panics
        (ok is false) if and only if one of them is not mapped. */
    method UvmDealloc(root: nat, oldsz: nat, newsz: nat) returns (r: nat, ok: bool)
      requires Ok() && Live(View(), root)
      requires newsz < oldsz ==> oldsz <= MAXVA
      requires newsz < oldsz ==> OwnIfMapped(View(), root, PageNo(PgRoundUp(newsz)), PageNo(PgRoundUp(oldsz)), true)
      modifies this`ram, this`freelist, this`free, this`owner
      ensures Ok() && (ok ==> r == if newsz >= oldsz then oldsz else newsz)
      ensures newsz >= oldsz ==> ok && View() == old(View())
      ensures newsz < oldsz ==>
        (ok <==> AllMapped(old(View()), root, PageNo(PgRoundUp(newsz)), PageNo(PgRoundUp(oldsz))))
      ensures newsz < oldsz && ok ==>
        Removed(old(View()), View(), root, PageNo(PgRoundUp(newsz)), PageNo(PgRoundUp(oldsz)), true)
    {
      hide TreeOk, FreeOk, FreeSet, Removed, Live, OwnIfMapped, AllMapped;
      if newsz >= oldsz {
        return oldsz, true;
      }
      Rounding(newsz);
      Rounding(oldsz);
      RemovedNothing(View(), root, PageNo(PgRoundUp(newsz)), true);
      NoneToMap(View(), root, PageNo(PgRoundUp(newsz)));
      ok := true;
      if PgRoundUp(newsz) < PgRoundUp(oldsz) {
        var npages := (PgRoundUp(oldsz) - PgRoundUp(newsz)) / PGSIZE;
        ok := UvmUnmap(root, PgRoundUp(newsz), npages, true);
      }
      r := newsz;
    }

    /** Grow a process from oldsz to newsz; 0 on error, and then every page taken for data is back. */
    method UvmAlloc(root: nat, oldsz: nat, newsz: nat, xperm: nat) returns (r: nat, ghost failed: bool)
      requires Ok() && Live(View(), root) && newsz <= MAXVA
      requires xperm in {0, 4, 8, 12}        // PTE_W and PTE_X
      requires newsz >= oldsz ==> Vacant(View(), root, PageNo(PgRoundUp(oldsz)), PageNo(PgRoundUp(newsz)))
      modifies this`ram, this`freelist, this`free, this`owner
      ensures Ok() && LeafPerm(18 + xperm)
      ensures newsz < oldsz ==> r == oldsz && View() == old(View()) && !failed
      ensures failed ==> newsz >= oldsz && r == 0 && Grown(old(View()), View(), root)
      // It fails only for lack of memory: with all it took back, there are no more pages than it needs.
      ensures failed ==> |FreeSet(free)| <= PageNo(PgRoundUp(newsz)) - PageNo(PgRoundUp(oldsz))
      ensures newsz >= oldsz && !failed ==>
        && r == newsz
        && Extended(old(View()), View(), root, PageNo(PgRoundUp(oldsz)), PageNo(PgRoundUp(newsz)))
        && Zeroed(View(), root, PageNo(PgRoundUp(oldsz)), PageNo(PgRoundUp(newsz)), 18 + xperm)
    {
      hide TreeOk, FreeOk, FreeSet, Live, Vacant, PgRoundUp, PgRoundDown, PageNo, Extended, Zeroed;
      failed := false;
      assert LeafPerm(18 + xperm);
      if newsz < oldsz {
        return oldsz, false;
      }
      RoundingKeepsOrder(oldsz, newsz);
      var undone := GrowLoop(root, PageNo(PgRoundUp(oldsz)), PageNo(PgRoundUp(newsz)), 18 + xperm);
      failed := undone;
      r := if undone then 0 else newsz;
    }

    /** uvmalloc's loop over the pages lo, ..., hi - 1, and its way back. */
    method GrowLoop(root: nat, lo: nat, hi: nat, perm: nat) returns (failed: bool)
      requires Ok() && Live(View(), root) && lo <= hi <= NPAGES && LeafPerm(perm) && perm % 2 == 0
      requires Vacant(View(), root, lo, hi)
      modifies this`ram, this`freelist, this`free, this`owner
      ensures Ok()
      ensures failed ==> Grown(old(View()), View(), root) && |FreeSet(free)| <= hi - lo
      ensures !failed ==> Extended(old(View()), View(), root, lo, hi) && Zeroed(View(), root, lo, hi, perm)
    {
      hide TreeOk, FreeOk, FreeSet, Live, Vacant, Extended, GrowingTo, Zeroed, OwnPage, Mapped, Removed, LeafPerm, Leaf,
           OwnIfMapped, AllMapped;
      ghost var s := View();
      var a := lo;
      failed := false;
      GrowingStart(s, root, lo, hi, perm);
      while a < hi
        invariant lo <= a <= hi && Ok() && GrowingTo(s, View(), root, lo, a, hi, perm)
      {
        ghost var t := View();
        GrowingMay(s, t, root, lo, a, hi, perm);
        var ok := MapFresh(root, a, Filled(0), perm);
        if !ok {
          GrowingFails(s, t, View(), root, lo, a, hi, perm);
          ghost var u := View();
          FreeSetSize(free);
          PagesAreBytes(lo, a);
          MappedIff(u, root, lo, a, true);
          var _, fine := UvmDealloc(root, a * PGSIZE, lo * PGSIZE);
          assert fine;
          GrowingUndone(s, u, View(), root, lo, a, hi);
          RemovedFreesFew(u, View(), root, lo, a);
          failed := true;
          break;
        }
        GrowingTurn(s, t, View(), root, lo, a, hi, perm);
        a := a + 1;
      }
      if !failed {
        GrowingEnd(s, View(), root, lo, hi, perm);
      }
    }

    /** Give the child its own copy of the parent's first sz bytes' pages. */
    method UvmCopy(parent: nat, child: nat, sz: nat) returns (r: int)
      requires Ok() && Live(View(), parent) && Live(View(), child) && parent != child && sz <= MAXVA
      requires Mapped(View(), parent, 0, PageNo(PgRoundUp(sz)), true)
      requires Vacant(View(), child, 0, PageNo(PgRoundUp(sz)))
      modifies this`ram, this`freelist, this`free, this`owner
      ensures Ok() && (r == 0 || r == -1)
      ensures r == 0 ==> && Extended(old(View()), View(), child, 0, PageNo(PgRoundUp(sz)))
                         && Copied(View(), parent, child, PageNo(PgRoundUp(sz)))
      ensures r == -1 ==> Grown(old(View()), View(), child)
      // It fails only for lack of memory: with all it took back, there are no more pages than it needs.
      ensures r == -1 ==> |FreeSet(free)| <= PageNo(PgRoundUp(sz))
    {
      hide TreeOk, FreeOk, FreeSet, Live, Vacant, Mapped, PgRoundUp, PgRoundDown, PageNo, Extended, Copied;
      Rounding(sz);
      r := CopyLoop(parent, child, PageNo(PgRoundUp(sz)));
    }

    /** uvmcopy's loop over the pages 0, ..., n - 1, and its way back. */
    method CopyLoop(parent: nat, child: nat, n: nat) returns (r: int)
      requires Ok() && Live(View(), parent) && Live(View(), child) && parent != child && n <= NPAGES
      requires Mapped(View(), parent, 0, n, true) && Vacant(View(), child, 0, n)
      modifies this`ram, this`freelist, this`free, this`owner
      ensures Ok() && (r == 0 || r == -1)
      ensures r == 0 ==> Extended(old(View()), View(), child, 0, n) && Copied(View(), parent, child, n)
      ensures r == -1 ==> Grown(old(View()), View(), child) && |FreeSet(free)| <= n
    {
      hide TreeOk, FreeOk, FreeSet, Live, Vacant, Extended, CopyingTo, Copied, OwnPage, Mapped, Removed, LeafPerm, Leaf,
           Node, PteAt, OwnIfMapped, AllMapped;
      ghost var s := View();
      var i := 0;
      r := 0;
      CopyingStart(s, parent, child, n);
      while i < n
        invariant 0 <= i <= n && Ok() && CopyingTo(s, View(), parent, child, i, n)
      {
        ghost var t := View();
        CopyingMay(s, t, parent, child, i, n);
        var pte := ParentPte(parent, i);
        var ok := MapFresh(child, i, ram[Frame(pte)], Flags(pte));
        if !ok {
          CopyingFails(s, t, View(), parent, child, i, n);
          ghost var u := View();
          FreeSetSize(free);
          PagesAreBytes(0, i);
          MappedIff(u, child, 0, i, true);
          var fine := UvmUnmap(child, 0, i, true);
          assert fine;
          CopyingUndone(s, u, View(), parent, child, i, n);
          RemovedFreesFew(u, View(), child, 0, i);
          r := -1;
          break;
        }
        CopyingTurn(s, t, View(), parent, child, i, n);
        i := i + 1;
      }
      if r == 0 {
        CopyingEnd(s, View(), parent, child, n);
      }
    }

    /** The parent's entry for page `v`, which uvmcopy's two panics say is there. */
    method ParentPte(root: nat, v: nat) returns (pte: Word)
      requires Ok() && Live(View(), root) && v < NPAGES && ParentPage(View(), root, v)
      modifies this`ram, this`freelist, this`free, this`owner
      ensures View() == old(View()) && Ok()
      ensures pte == PteAt(ram, Leaf(root, v)) && Valid(pte) && Frame(pte) == Node(ram, Leaf(root, v))
      ensures Frame(pte) in ram && LeafPerm(Flags(pte))
    {
      PageNoOf(v);
      var table, i := Walk(root, v * PGSIZE, false);
      assert table != 0;
      pte := ram[table][i];
      assert Valid(pte);
    }

    /** The tables at and below this one, and no other page, go on the free list. `s` is the tree before the
        first of these calls, and `p` the place of the table in it. */
    method FreeWalk(table: nat, ghost s: View, ghost p: Place)
      requires FreeOk(ram, freelist, free)
      requires TreeOk(s) && IsTable(p) && Live(s, RootOf(p)) && NoPages(s, RootOf(p)) && table == Node(s.ram, p)
      requires StillThere(s, ram, FreeSet(free), p, 0)
      modifies this`ram, this`freelist, this`free
      ensures FreeOk(ram, freelist, free)
      ensures Felled(s, p, old(ram), FreeSet(old(free)), ram, FreeSet(free))
      decreases 3 - Depth(p)
    {
      hide TreeOk, FreeOk, Live, NoPages, StillThere, Pruned, Felled, Node, IsPlace, Depth;
      ghost var ram0, free0 := ram, FreeSet(free);
      PruneStart(s, p, ram0, free0);
      var i := 0;
      while i < ENTRIES
        invariant i <= ENTRIES && FreeOk(ram, freelist, free)
        invariant StillThere(s, ram, FreeSet(free), p, i) && Pruned(s, p, i, ram0, free0, ram, FreeSet(free))
      {
        EntryFound(s, p, i, ram, FreeSet(free));
        TableStands(s, p, i, ram, FreeSet(free));
        var pte := ram[table][i];
        if Valid(pte) && !IsLeaf(pte) {
          ghost var ram1, free1 := ram, FreeSet(free);
          FreeWalk(Frame(pte), s, Child(p, i));
          PruneTurn(s, p, i, ram0, free0, ram1, free1, ram, FreeSet(free));
          Elsewhere(ram, freelist, free, table, ram[table][i := 0]);
          ram := ram[table := ram[table][i := 0]];
        } else {
          assert !Valid(pte);                // the leaf panic
          PruneSkip(s, p, i, ram0, free0, ram, FreeSet(free));
        }
        i := i + 1;
      }
      PruneEnd(s, p, ram0, free0, ram, FreeSet(free), Filled(1)[0 := freelist]);
      Kfree(table);
    }

    /** Take a process's address space down: its tree disappears and every page of it is free again. */
    method UvmFree(root: nat, sz: nat)
      requires Ok() && Live(View(), root) && sz <= MAXVA
      requires Mapped(View(), root, 0, PageNo(PgRoundUp(sz)), true)
      requires Vacant(View(), root, PageNo(PgRoundUp(sz)), 2 * NPAGES)
      modifies this`ram, this`freelist, this`free, this`owner
      ensures Ok() && !Live(View(), root)
      // Every page of the tree, tables and data, is on the free list; nobody else notices.
      ensures forall g :: g in free <==> g in old(free) || (g in old(owner) && RootOf(old(owner)[g]) == root)
      ensures forall g :: g in owner <==> g in old(owner) && RootOf(old(owner)[g]) != root
      ensures forall c | IsPage(c) && Live(View(), RootOf(c)) :: PteAt(ram, c) == PteAt(old(ram), c)
    {
      hide TreeOk, FreeOk, Live, Mapped, Vacant, Removed, Felled, NoPages, Node, IsPlace, PgRoundUp, PageNo, PteAt,
           OwnIfMapped, AllMapped;
      ghost var s := View();
      Rounding(sz);
      PageNoOf(0);
      RemovedNothing(s, root, 0, true);
      if sz > 0 {
        MappedIff(s, root, 0, PageNo(PgRoundUp(sz)), true);
        var fine := UvmUnmap(root, 0, PgRoundUp(sz) / PGSIZE, true);
        assert fine;
      }
      ghost var t := View();
      EmptiedOut(s, t, root, PageNo(PgRoundUp(sz)));
      FreeWalk(root, t, Root(root));
      owner := map g | g in owner && RootOf(owner[g]) != root :: owner[g];
      FelledIsGone(t, View(), root);
      AllGone(s, t, View(), root, PageNo(PgRoundUp(sz)));
    }
  }
}
