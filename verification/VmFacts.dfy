// What the operations of kernel/vm.c and kernel/kalloc.c do to the trees of page tables as a whole, and
// how their effects add up over a loop.

module VmViews {
  import opened Pte
  import opened PageTree

  /** Place `c` is one of the virtual pages lo, ..., hi - 1 of a tree. */
  predicate InRange(c: Place, root: nat, lo: nat, hi: nat) {
    IsPage(c) && RootOf(c) == root && lo <= Vpn(c) < hi
  }

  /** Pages came off the free list into tree `root`: as tables anywhere in it, or mapped in [lo, hi).
      No page in use lost its contents. */
  ghost predicate Acquired(s: View, t: View, root: nat, lo: nat, hi: nat) {
    && t.ram.Keys == s.ram.Keys
    && (forall g | g in s.owner :: g in t.owner && t.owner[g] == s.owner[g])
    && (forall g | g in t.owner && g !in s.owner ::
          && g in s.free && RootOf(t.owner[g]) == root && Depth(t.owner[g]) > 0
          && (Depth(t.owner[g]) < 3 || InRange(t.owner[g], root, lo, hi)))
    && (forall g :: g in t.free <==> g in s.free && g !in t.owner)
    && (forall g | g in s.ram && g !in s.free && NoTable(s, g) :: t.ram[g] == s.ram[g])
  }

  /** No translation outside [lo, hi) of tree `root` changed. */
  ghost predicate SameElsewhere(s: View, t: View, root: nat, lo: nat, hi: nat) {
    forall c {:trigger PteAt(t.ram, c)} | IsPage(c) && Live(s, RootOf(c)) && !InRange(c, root, lo, hi) ::
      PteAt(t.ram, c) == PteAt(s.ram, c)
  }

  ghost predicate Extended(s: View, t: View, root: nat, lo: nat, hi: nat) {
    Acquired(s, t, root, lo, hi) && SameElsewhere(s, t, root, lo, hi)
  }

  /** Only tables were added: every translation is what it was. */
  ghost predicate Grown(s: View, t: View, root: nat) {
    Extended(s, t, root, 0, 0)
  }

  /** The pages of [lo, hi) of tree `root` are on the free list, if `doFree`; no page that is still in use,
      tables aside, lost its contents. */
  ghost predicate GivenUp(s: View, t: View, root: nat, lo: nat, hi: nat, doFree: bool) {
    && t.ram.Keys == s.ram.Keys
    && (forall g :: g in t.owner <==> g in s.owner && !(doFree && InRange(s.owner[g], root, lo, hi)))
    && (forall g | g in t.owner :: t.owner[g] == s.owner[g])
    && (forall g :: g in t.free <==> g in s.free || (g in s.owner && g !in t.owner))
    && (forall g | g in s.ram && g !in t.free && NoTable(s, g) :: t.ram[g] == s.ram[g])
  }

  /** The mappings of [lo, hi) of tree `root` are gone and all others are as they were. */
  ghost predicate Cut(s: View, t: View, root: nat, lo: nat, hi: nat) {
    forall c {:trigger PteAt(t.ram, c)} | IsPage(c) && Live(s, RootOf(c)) ::
      PteAt(t.ram, c) == if InRange(c, root, lo, hi) then 0 else PteAt(s.ram, c)
  }

  ghost predicate Removed(s: View, t: View, root: nat, lo: nat, hi: nat, doFree: bool) {
    GivenUp(s, t, root, lo, hi, doFree) && Cut(s, t, root, lo, hi)
  }

  /** Nothing is mapped in [lo, hi). */
  ghost predicate Vacant(s: View, root: nat, lo: nat, hi: nat) {
    forall c {:trigger PteAt(s.ram, c)} | InRange(c, root, lo, hi) :: PteAt(s.ram, c) == 0
  }

  ghost predicate AllMapped(s: View, root: nat, lo: nat, hi: nat) {
    forall c {:trigger PteAt(s.ram, c)} | InRange(c, root, lo, hi) :: PteAt(s.ram, c) != 0
  }

  /** What is mapped in [lo, hi) are pages of the tree's own iff `own`. */
  ghost predicate OwnIfMapped(s: View, root: nat, lo: nat, hi: nat, own: bool) {
    forall c {:trigger PteAt(s.ram, c)} | InRange(c, root, lo, hi) && PteAt(s.ram, c) != 0 ::
      own <==> Frame(PteAt(s.ram, c)) in s.owner
  }

  /** Every page of [lo, hi) is mapped, to a page that is the tree's own iff `own`. */
  ghost predicate Mapped(s: View, root: nat, lo: nat, hi: nat, own: bool) {
    forall c {:trigger PteAt(s.ram, c)} | InRange(c, root, lo, hi) ::
      PteAt(s.ram, c) != 0 && (own <==> Frame(PteAt(s.ram, c)) in s.owner)
  }

  /** Virtual pages lo, ..., hi - 1 are mapped to page `f` and the ones after it. */
  ghost predicate Entries(s: View, root: nat, lo: nat, hi: nat, f: nat, perm: nat)
    requires lo <= hi && f + (hi - lo) <= MAXFRAME && perm < 1024
  {
    forall c {:trigger PteAt(s.ram, c)} | InRange(c, root, lo, hi) ::
      PteAt(s.ram, c) == MkPte(f + (Vpn(c) - lo), perm)
  }

  /** Pages that are neither in a tree nor free. */
  predicate Foreign(s: View, f: nat, n: nat) {
    && 0 < f && f + n <= MAXFRAME
    && forall g | f <= g < f + n :: g !in s.owner && g !in s.free
  }

  /** A page of the tree's own, with these contents and permissions, is mapped at place `c`. */
  ghost predicate OwnPage(s: View, c: Place, data: Page, perm: nat)
    requires c.Child? && LeafPerm(perm)
  {
    var b := Node(s.ram, c);
    && b in s.owner && s.owner[b] == c && b in s.ram && b < MAXFRAME
    && PteAt(s.ram, c) == MkPte(b, perm) && s.ram[b] == data
  }

  /** The pages of [lo, hi) are the tree's own and hold zeros. */
  ghost predicate Zeroed(s: View, root: nat, lo: nat, hi: nat, perm: nat)
    requires LeafPerm(perm)
  {
    forall v {:trigger Leaf(root, v)} | lo <= v < hi :: OwnPage(s, Leaf(root, v), Filled(0), perm)
  }

  /** Tree `child` has its own copy of the page that tree `parent` has at virtual page `v`. */
  ghost predicate CopyOf(s: View, parent: nat, child: nat, v: nat) {
    var a, b, e := Node(s.ram, Leaf(parent, v)), Node(s.ram, Leaf(child, v)), PteAt(s.ram, Leaf(parent, v));
    && a in s.ram && LeafPerm(Flags(e)) && a != b && OwnPage(s, Leaf(child, v), s.ram[a], Flags(e))
  }

  ghost predicate Copied(s: View, parent: nat, child: nat, n: nat) {
    forall v {:trigger Leaf(child, v)} | 0 <= v < n :: CopyOf(s, parent, child, v)
  }

  /** The address space of one tree: virtual page number to page-table entry. */
  ghost function Space(ram: Ram, root: nat): map<nat, Word> {
    map v | 0 <= v < NPAGES && PteAt(ram, Leaf(root, v)) != 0 :: PteAt(ram, Leaf(root, v))
  }

  /** The place of the table that the walk for `va` is at, at each level. */
  ghost function OnTheWay(root: nat, va: nat, level: nat): Place
    requires level <= 2
  {
    if level == 2 then Root(root)
    else if level == 1 then Child(Root(root), PX(2, va))
    else Child(Child(Root(root), PX(2, va)), PX(1, va))
  }

  /** The walk has come to table `f` at a level. */
  ghost predicate AtLevel(s: View, root: nat, va: nat, level: nat, f: nat)
    requires level <= 2
  {
    f in s.ram && f == Node(s.ram, OnTheWay(root, va, level))
  }

  predicate Within(v: nat, lo: nat, hi: nat) {
    lo <= v < hi
  }

  /** Virtual pages lo, ..., hi - 1, mapped to page `f` and the ones after it. */
  ghost function Run(lo: nat, hi: nat, f: nat, perm: nat): map<nat, Word>
    requires lo <= hi && f + (hi - lo) <= MAXFRAME && perm < 1024
  {
    map v | lo <= v < hi && Within(v, lo, hi) :: MkPte(f + (v - lo), perm)
  }

  ghost function PageRange(lo: nat, hi: nat): set<nat> {
    set v | lo <= v < hi && Within(v, lo, hi)
  }

  /** A page taken off the free list and filled. */
  function Taken(s: View, b: nat, data: Page): View {
    View(s.ram[b := data], s.owner, s.free - {b})
  }

  function Released(s: View, b: nat, data: Page): View {
    View(s.ram[b := data], s.owner, s.free + {b})
  }
}

module VmFacts {
  import opened Pte
  import opened PageTree
  import opened PageMoves
  import opened VmViews

  lemma ExtendedReflexive(s: View, root: nat, lo: nat, hi: nat)
    requires TreeOk(s)
    ensures Extended(s, s, root, lo, hi)
  {
  }

  lemma SameLive(s: View, t: View, root: nat, lo: nat, hi: nat, r: nat)
    requires Extended(s, t, root, lo, hi)
    ensures Live(t, r) <==> Live(s, r)
  {
  }

  lemma ExtendedTransitive(s: View, t: View, u: View, root: nat, lo: nat, mid: nat, hi: nat)
    requires Extended(s, t, root, lo, mid) && Extended(t, u, root, mid, hi) && lo <= mid <= hi
    ensures Extended(s, u, root, lo, hi)
  {
    forall c | IsPage(c) && Live(s, RootOf(c)) && !InRange(c, root, lo, hi)
      ensures PteAt(u.ram, c) == PteAt(s.ram, c)
    {
      SameLive(s, t, root, lo, mid, RootOf(c));
      assert PteAt(t.ram, c) == PteAt(s.ram, c);
    }
    forall g | g in s.ram && g !in s.free && NoTable(s, g) ensures u.ram[g] == s.ram[g] {
      assert t.ram[g] == s.ram[g];
    }
  }

  lemma ExtendedWider(s: View, t: View, root: nat, lo: nat, hi: nat, lo': nat, hi': nat)
    requires Extended(s, t, root, lo, hi) && (lo == hi || lo' <= lo <= hi <= hi')
    ensures Extended(s, t, root, lo', hi')
  {
    forall c | IsPage(c) && Live(s, RootOf(c)) && !InRange(c, root, lo', hi')
      ensures PteAt(t.ram, c) == PteAt(s.ram, c)
    {
    }
  }

  lemma VacantRest(s: View, t: View, root: nat, lo: nat, mid: nat, hi: nat)
    requires Live(s, root) && Vacant(s, root, lo, hi) && Extended(s, t, root, lo, mid) && lo <= mid <= hi
    ensures Vacant(t, root, mid, hi)
  {
    forall c | InRange(c, root, mid, hi) ensures PteAt(t.ram, c) == 0 {
      assert PteAt(s.ram, c) == 0;
    }
  }

  lemma ForeignKept(s: View, t: View, root: nat, lo: nat, hi: nat, f: nat, n: nat)
    requires Foreign(s, f, n) && Extended(s, t, root, lo, hi)
    ensures Foreign(t, f, n)
  {
  }

  lemma EntriesStep(s: View, t: View, root: nat, lo: nat, mid: nat, f: nat, perm: nat)
    requires lo <= mid < NPAGES && f + (mid + 1 - lo) <= MAXFRAME && perm < 1024 && Live(s, root)
    requires Entries(s, root, lo, mid, f, perm) && Extended(s, t, root, mid, mid + 1)
    requires PteAt(t.ram, Leaf(root, mid)) == MkPte(f + (mid - lo), perm)
    ensures Entries(t, root, lo, mid + 1, f, perm)
  {
    forall c | InRange(c, root, lo, mid + 1) ensures PteAt(t.ram, c) == MkPte(f + (Vpn(c) - lo), perm) {
      OnePage(c, root, mid);
      if Vpn(c) < mid {
        assert PteAt(s.ram, c) == MkPte(f + (Vpn(c) - lo), perm);
      } else {
        LeafIsPage(root, mid);
      }
    }
  }

  lemma EntriesKept(s: View, t: View, root: nat, lo: nat, hi: nat, f: nat, perm: nat)
    requires lo <= hi && f + (hi - lo) <= MAXFRAME && perm < 1024 && Live(s, root)
    requires Entries(s, root, lo, hi, f, perm) && Grown(s, t, root)
    ensures Entries(t, root, lo, hi, f, perm)
  {
    forall c | InRange(c, root, lo, hi) ensures PteAt(t.ram, c) == PteAt(s.ram, c) {
    }
  }

  lemma EntriesNone(s: View, root: nat, lo: nat, f: nat, perm: nat)
    requires f <= MAXFRAME && perm < 1024
    ensures Entries(s, root, lo, lo, f, perm)
  {
  }

  /** What the rest of a range needs after part of it has been mapped. */
  lemma RestReady(s: View, t: View, root: nat, lo: nat, mid: nat, hi: nat, f: nat)
    requires lo <= mid < hi && Live(s, root) && Vacant(s, root, lo, hi) && Foreign(s, f, hi - lo)
    requires Extended(s, t, root, lo, mid)
    ensures Vacant(t, root, mid, mid + 1) && Foreign(t, f + (mid - lo), 1) && Live(t, root)
  {
    VacantRest(s, t, root, lo, mid, hi);
    ForeignKept(s, t, root, lo, mid, f, hi - lo);
    SameLive(s, t, root, lo, mid, root);
    assert f + (mid - lo) < f + (hi - lo);
  }

  /** After the walk, the entry it found may be made. */
  lemma ReadyToMap(s: View, t: View, root: nat, v: nat, f: nat)
    requires Live(s, root) && v < NPAGES && Vacant(s, root, v, v + 1) && Foreign(s, f, 1) && Grown(s, t, root)
    ensures Live(t, root) && PteAt(t.ram, Leaf(root, v)) == 0
    ensures 0 < f < MAXFRAME && f !in t.owner && f !in t.free
  {
    OnePage(Leaf(root, v), root, v);
    SameLive(s, t, root, 0, 0, root);
    assert PteAt(s.ram, Leaf(root, v)) == 0;
  }

  lemma RemovedNothing(s: View, root: nat, lo: nat, doFree: bool)
    ensures Removed(s, s, root, lo, lo, doFree)
  {
  }

  lemma RemovedLive(s: View, t: View, root: nat, lo: nat, hi: nat, doFree: bool, r: nat)
    requires Removed(s, t, root, lo, hi, doFree)
    ensures Live(t, r) <==> Live(s, r)
  {
  }

  lemma RemovedTransitive(s: View, t: View, u: View, root: nat, lo: nat, mid: nat, hi: nat, doFree: bool)
    requires Removed(s, t, root, lo, mid, doFree) && Removed(t, u, root, mid, hi, doFree) && lo <= mid <= hi
    ensures Removed(s, u, root, lo, hi, doFree)
  {
    forall c | IsPage(c) && Live(s, RootOf(c))
      ensures PteAt(u.ram, c) == if InRange(c, root, lo, hi) then 0 else PteAt(s.ram, c)
    {
      RemovedLive(s, t, root, lo, mid, doFree, RootOf(c));
      assert PteAt(t.ram, c) == if InRange(c, root, lo, mid) then 0 else PteAt(s.ram, c);
    }
    forall g | g in s.ram && g !in u.free && NoTable(s, g) ensures u.ram[g] == s.ram[g] {
      assert t.ram[g] == s.ram[g];
    }
  }

  lemma VacantOwner(s: View, root: nat, lo: nat, hi: nat, g: nat)
    requires TreeOk(s) && Vacant(s, root, lo, hi) && g in s.owner
    ensures !InRange(s.owner[g], root, lo, hi)
  {
    var c := s.owner[g];
    assert Node(s.ram, c) == g;
    assert c.Child? ==> PteAt(s.ram, c) != 0;
  }

  /** Removing what an extension mapped leaves only the tables it added. */
  lemma RemovedAfterExtended(s: View, t: View, u: View, root: nat, lo: nat, hi: nat)
    requires TreeOk(s) && Vacant(s, root, lo, hi)
    requires Extended(s, t, root, lo, hi) && Removed(t, u, root, lo, hi, true)
    ensures Grown(s, u, root)
  {
    forall g | g in s.owner ensures !InRange(s.owner[g], root, lo, hi) {
      VacantOwner(s, root, lo, hi, g);
    }
    forall c | IsPage(c) && Live(s, RootOf(c)) ensures PteAt(u.ram, c) == PteAt(s.ram, c) {
      SameLive(s, t, root, lo, hi, RootOf(c));
      assert !InRange(c, root, lo, hi) ==> PteAt(t.ram, c) == PteAt(s.ram, c);
    }
    forall g | g in s.ram && g !in s.free && NoTable(s, g) ensures u.ram[g] == s.ram[g] {
      assert t.ram[g] == s.ram[g];
    }
  }

  /** A page from the free list is mapped nowhere. */
  lemma TakenOk(s: View, b: nat, data: Page)
    requires TreeOk(s) && b in s.free
    ensures TreeOk(Taken(s, b, data)) && Unmapped(Taken(s, b, data), b)
    ensures forall c | IsPage(c) && Live(s, RootOf(c)) :: PteAt(s.ram[b := data], c) == PteAt(s.ram, c)
  {
    var t := s.(ram := s.ram[b := data]);
    StrayKeeps(s, b, data);
    var u := Taken(s, b, data);
    assert OwnersOk(t);
    forall q | IsTable(q) && Live(u, RootOf(q)) ensures TableAt(u, q) {
      assert Live(t, RootOf(q)) && TableAt(t, q);
    }
    forall q | IsPage(q) && Live(u, RootOf(q)) ensures PageAt(u, q) && Node(u.ram, q) != b {
      assert Live(t, RootOf(q)) && PageAt(t, q);
    }
  }

  lemma ReleasedOk(s: View, b: nat, data: Page)
    requires TreeOk(s) && b in s.ram && b !in s.owner && Unmapped(s, b)
    ensures TreeOk(Released(s, b, data))
    ensures forall c | IsPage(c) && Live(s, RootOf(c)) :: PteAt(s.ram[b := data], c) == PteAt(s.ram, c)
  {
    var t := s.(ram := s.ram[b := data]);
    StrayKeeps(s, b, data);
    var u := Released(s, b, data);
    assert OwnersOk(t);
    forall q | IsTable(q) && Live(u, RootOf(q)) ensures TableAt(u, q) {
      assert Live(t, RootOf(q)) && TableAt(t, q);
    }
    forall q | IsPage(q) && Live(u, RootOf(q)) ensures PageAt(u, q) {
      assert Live(t, RootOf(q)) && PageAt(t, q);
      assert Node(u.ram, q) == Node(s.ram, q) != b;
    }
  }

  lemma WalkStart(s: View, root: nat, va: nat)
    requires TreeOk(s) && Live(s, root)
    ensures AtLevel(s, root, va, 2, root)
  {
  }

  lemma WalkStep(s: View, root: nat, va: nat, level: nat, f: nat)
    requires TreeOk(s) && Live(s, root) && va < MAXVA && 0 < level <= 2 && AtLevel(s, root, va, level, f)
    ensures var p, e := OnTheWay(root, va, level), s.ram[f][PX(level, va)];
            && Child(p, PX(level, va)) == OnTheWay(root, va, level - 1)
            && (if Valid(e) then AtLevel(s, root, va, level - 1, Frame(e))
                else Node(s.ram, OnTheWay(root, va, level - 1)) == 0
                     && forall b | b in s.free :: MayAdd(s, p, PX(level, va), b))
    ensures RootOf(OnTheWay(root, va, level)) == root
    ensures Node(s.ram, OnTheWay(root, va, level)) == f && f in s.ram && f !in s.free && 0 !in s.ram
  {
    WalkIndices(root, va);
    var p := OnTheWay(root, va, level);
    var q := Child(p, PX(level, va));
    assert IsTable(p) && IsTable(q) && RootOf(q) == RootOf(p) == root;
    assert TableAt(s, q) && TableAt(s, p);
  }

  lemma WalkEnd(s: View, root: nat, va: nat, f: nat)
    requires TreeOk(s) && va < MAXVA && AtLevel(s, root, va, 0, f)
    ensures f != 0 && f == Node(s.ram, Leaf(root, PageNo(va)).up)
  {
    WalkIndices(root, va);
  }

  lemma WalkFails(s: View, root: nat, va: nat, level: nat)
    requires 0 !in s.ram && va < MAXVA && level < 2 && Node(s.ram, OnTheWay(root, va, level)) == 0
    ensures PteAt(s.ram, Leaf(root, PageNo(va))) == 0
  {
    WalkIndices(root, va);
  }

  predicate MayAdd(s: View, p: Place, i: nat, b: nat) {
    && b in s.free && IsTable(p) && Depth(p) < 2 && Live(s, RootOf(p))
    && Node(s.ram, p) in s.ram && i < ENTRIES && (Depth(p) == 0 ==> i < 256)
    && !Valid(s.ram[Node(s.ram, p)][i])
  }

  lemma AddedMayHang(s: View, p: Place, i: nat, b: nat)
    requires TreeOk(s) && MayAdd(s, p, i, b)
    ensures b < MAXFRAME && b !in s.owner && Node(s.ram[b := Filled(0)], p) == Node(s.ram, p) != b
    ensures MayHang(Taken(s, b, Filled(0)), p, i, b)
  {
    StrayKeeps(s, b, Filled(0));
    PteRoundTrip(b, 0);
    assert TableAt(s, p);
  }

  lemma AddedGrows(s: View, p: Place, i: nat, b: nat)
    requires TreeOk(s) && MayAdd(s, p, i, b)
    requires b < MAXFRAME && b !in s.owner && Node(s.ram[b := Filled(0)], p) == Node(s.ram, p) != b
    requires MayHang(Taken(s, b, Filled(0)), p, i, b)
    requires forall c | IsPage(c) && Live(s, RootOf(c)) ::
               PteAt(TablePut(Taken(s, b, Filled(0)), p, i, b).ram, c) == PteAt(s.ram, c)
    ensures Grown(s, TablePut(Taken(s, b, Filled(0)), p, i, b), RootOf(p))
  {
    AddedAcquires(s, p, i, b);
  }

  lemma AddedAcquires(s: View, p: Place, i: nat, b: nat)
    requires TreeOk(s) && MayAdd(s, p, i, b)
    requires b < MAXFRAME && b !in s.owner && Node(s.ram[b := Filled(0)], p) == Node(s.ram, p) != b
    requires MayHang(Taken(s, b, Filled(0)), p, i, b)
    ensures Acquired(s, TablePut(Taken(s, b, Filled(0)), p, i, b), RootOf(p), 0, 0)
  {
    assert TableAt(s, p);
    hide TreeOk, Node, IsPlace, MayAdd, MayHang, TableAt;
    HangAcquires(s, Node(s.ram, p), p, i, b, MkPte(b, 0));
  }

  lemma HangAcquires(s: View, f: nat, p: Place, i: nat, b: nat, e: Word)
    requires FramesOk(s) && b in s.free && f in s.owner && s.owner[f] == p && Depth(p) < 2 && i < ENTRIES
    ensures Acquired(s, View(Put(s.ram[b := Filled(0)], f, i, e), s.owner[b := Child(p, i)], s.free - {b}),
                     RootOf(p), 0, 0)
  {
  }

  /** walk's step that adds a table: a page from the free list, zeroed and hung at place Child(p, i). */
  lemma TableAdded(s: View, p: Place, i: nat, b: nat)
    requires TreeOk(s) && MayAdd(s, p, i, b)
    ensures b < MAXFRAME && b !in s.owner && Node(s.ram[b := Filled(0)], p) == Node(s.ram, p) != b
    ensures MayHang(Taken(s, b, Filled(0)), p, i, b)
    ensures var u := TablePut(Taken(s, b, Filled(0)), p, i, b);
            TreeOk(u) && Grown(s, u, RootOf(p)) && Node(u.ram, Child(p, i)) == b
  {
    var t := Taken(s, b, Filled(0));
    AddedMayHang(s, p, i, b);
    TakenOk(s, b, Filled(0));
    TablePutOk(t, p, i, b);
    TablePutMoves(t, p, i, b);
    var u := TablePut(t, p, i, b);
    forall c | IsPage(c) && Live(s, RootOf(c)) ensures PteAt(u.ram, c) == PteAt(s.ram, c) {
      assert Live(t, RootOf(c));
    }
    AddedGrows(s, p, i, b);
    assert IsPlace(Child(p, i)) && Live(t, RootOf(Child(p, i)));
  }

  /** mappages' step: one entry made, for a page that the tree does not own. */
  lemma EntryMade(s: View, root: nat, v: nat, f: nat, perm: nat)
    requires TreeOk(s) && Live(s, root) && v < NPAGES && Node(s.ram, Leaf(root, v).up) != 0
    requires 0 < f < MAXFRAME && LeafPerm(perm) && f !in s.owner && f !in s.free
    requires PteAt(s.ram, Leaf(root, v)) == 0
    ensures var c := Leaf(root, v);
            && MayPut(s, c.up, c.i, MkPte(f, perm))
            && (var u := LeafPut(s, c.up, c.i, MkPte(f, perm));
                && TreeOk(u) && Extended(s, u, root, v, v + 1) && u.owner == s.owner
                && PteAt(u.ram, c) == MkPte(f, perm))
  {
    var c := Leaf(root, v);
    LeafIsPage(root, v);
    PteRoundTrip(f, perm);
    assert IsTable(c.up) && RootOf(c.up) == root && TableAt(s, c.up);
    var e := MkPte(f, perm);
    LeafPutOk(s, c.up, c.i, e);
    LeafPutMoves(s, c.up, c.i, e);
    var u := LeafPut(s, c.up, c.i, e);
    assert Node(s.ram, c) == 0;
    forall d | IsPage(d) && Live(s, RootOf(d)) && !InRange(d, root, v, v + 1)
      ensures PteAt(u.ram, d) == PteAt(s.ram, d)
    {
      assert d != c;
    }
  }

  /** The same, in terms of the table and index that the walk returned. */
  lemma MapStep(s: View, root: nat, v: nat, table: nat, i: nat, f: nat, perm: nat)
    requires TreeOk(s) && Live(s, root) && v < NPAGES && table != 0
    requires table == Node(s.ram, Leaf(root, v).up) && i == v % 512
    requires 0 < f < MAXFRAME && LeafPerm(perm) && f !in s.owner && f !in s.free
    requires PteAt(s.ram, Leaf(root, v)) == 0
    ensures table in s.ram && table !in s.free && !Valid(s.ram[table][i])
    ensures var u := PageTree.View(Put(s.ram, table, i, MkPte(f, perm)), s.owner, s.free);
            TreeOk(u) && Extended(s, u, root, v, v + 1) && PteAt(u.ram, Leaf(root, v)) == MkPte(f, perm)
  {
    var c := Leaf(root, v);
    EntryMade(s, root, v, f, perm);
    LeafIsPage(root, v);
    assert IsTable(c.up) && RootOf(c.up) == root && TableAt(s, c.up);
  }

  lemma GrownThen(s: View, t: View, u: View, root: nat, lo: nat, hi: nat)
    requires Grown(s, t, root) && Extended(t, u, root, lo, hi) && lo <= hi
    ensures Extended(s, u, root, lo, hi)
  {
    ExtendedWider(s, t, root, 0, 0, lo, lo);
    ExtendedTransitive(s, t, u, root, lo, lo, hi);
  }

  lemma ThenGrown(s: View, t: View, u: View, root: nat, lo: nat, hi: nat)
    requires Extended(s, t, root, lo, hi) && Grown(t, u, root) && lo <= hi
    ensures Extended(s, u, root, lo, hi)
  {
    ExtendedWider(t, u, root, 0, 0, hi, hi);
    ExtendedTransitive(s, t, u, root, lo, hi, hi);
  }

  /** The part [lo, mid) of what mappages is to do is done. */
  ghost predicate MappedSoFar(s: View, t: View, root: nat, lo: nat, mid: nat, f: nat, perm: nat) {
    && lo <= mid <= NPAGES && f + (mid - lo) <= MAXFRAME && perm < 1024
    && Extended(s, t, root, lo, mid) && Entries(t, root, lo, mid, f, perm)
  }

  lemma MapStart(s: View, root: nat, lo: nat, f: nat, perm: nat)
    requires TreeOk(s) && lo <= NPAGES && f <= MAXFRAME && perm < 1024
    ensures MappedSoFar(s, s, root, lo, lo, f, perm)
  {
    ExtendedReflexive(s, root, lo, lo);
    EntriesNone(s, root, lo, f, perm);
  }

  lemma MayMap(s: View, root: nat, first: nat, last: nat, f: nat, perm: nat)
    requires TreeOk(s) && Live(s, root) && first <= last < NPAGES && LeafPerm(perm)
    requires Vacant(s, root, first, last + 1) && Foreign(s, f, last + 1 - first)
    ensures MappedSoFar(s, s, root, first, first, f, perm)
    ensures Vacant(s, root, first, first + 1) && Foreign(s, f, 1)
  {
    MapStart(s, root, first, f, perm);
    RestReady(s, s, root, first, first, last + 1, f);
  }

  lemma MapTurn(s: View, t: View, u: View, root: nat, lo: nat, mid: nat, hi: nat, f: nat, perm: nat)
    requires MappedSoFar(s, t, root, lo, mid, f, perm) && mid < NPAGES && mid < hi
    requires Live(s, root) && Live(t, root) && Vacant(s, root, lo, hi) && Foreign(s, f, hi - lo)
    requires Extended(t, u, root, mid, mid + 1) && f + (mid - lo) < MAXFRAME
    requires PteAt(u.ram, Leaf(root, mid)) == MkPte(f + (mid - lo), perm)
    ensures MappedSoFar(s, u, root, lo, mid + 1, f, perm) && Live(u, root)
    ensures mid + 1 < hi ==> Vacant(u, root, mid + 1, mid + 2) && Foreign(u, f + (mid + 1 - lo), 1)
  {
    ExtendedTransitive(s, t, u, root, lo, mid, mid + 1);
    EntriesStep(t, u, root, lo, mid, f, perm);
    SameLive(t, u, root, mid, mid + 1, root);
    if mid + 1 < hi {
      RestReady(s, u, root, lo, mid + 1, hi, f);
    }
  }

  lemma MapStall(s: View, t: View, u: View, root: nat, lo: nat, mid: nat, f: nat, perm: nat)
    requires MappedSoFar(s, t, root, lo, mid, f, perm) && Live(t, root) && Grown(t, u, root)
    ensures MappedSoFar(s, u, root, lo, mid, f, perm)
  {
    ThenGrown(s, t, u, root, lo, mid);
    EntriesKept(t, u, root, lo, mid, f, perm);
  }

  /** The memory after uvmunmap's step: one entry cleared, and its page freed if `doFree`. */
  ghost function Cleared(s: View, root: nat, v: nat, doFree: bool, data: Page): View
    requires MayPut(s, Leaf(root, v).up, v % 512, 0)
  {
    var t := LeafPut(s, Leaf(root, v).up, v % 512, 0);
    if doFree then Released(t, Node(s.ram, Leaf(root, v)), data) else t
  }

  lemma EntryMayBeCleared(s: View, root: nat, v: nat, doFree: bool)
    requires TreeOk(s) && Live(s, root) && v < NPAGES && Mapped(s, root, v, v + 1, doFree)
    ensures var c := Leaf(root, v);
            && IsPage(c) && RootOf(c) == root && IsTable(c.up) && RootOf(c.up) == root
            && Node(s.ram, c.up) in s.ram && MayPut(s, c.up, v % 512, 0)
            && s.ram[Node(s.ram, c.up)][v % 512] == PteAt(s.ram, c)
            && Valid(PteAt(s.ram, c)) && IsLeaf(PteAt(s.ram, c))
            && Frame(PteAt(s.ram, c)) == Node(s.ram, c) != 0
            && (doFree <==> Node(s.ram, c) in s.owner) && Node(s.ram, c) !in s.free
            && Node(s.ram, c) != Node(s.ram, c.up)
  {
    var c := Leaf(root, v);
    LeafIsPage(root, v);
    assert InRange(c, root, v, v + 1) && PteAt(s.ram, c) != 0;
    assert IsTable(c.up) && TableAt(s, c.up) && PageAt(s, c);
  }

  lemma ClearedOk(s: View, root: nat, v: nat, doFree: bool, data: Page)
    requires TreeOk(s) && Live(s, root) && v < NPAGES && Mapped(s, root, v, v + 1, doFree)
    requires MayPut(s, Leaf(root, v).up, v % 512, 0)
    ensures var u := Cleared(s, root, v, doFree, data);
            && TreeOk(u)
            && forall d | IsPage(d) && Live(s, RootOf(d)) ::
                 PteAt(u.ram, d) == if d == Leaf(root, v) then 0 else PteAt(s.ram, d)
  {
    EntryMayBeCleared(s, root, v, doFree);
    var c := Leaf(root, v);
    var b, t := Node(s.ram, c), LeafPut(s, c.up, c.i, 0);
    LeafPutOk(s, c.up, c.i, 0);
    LeafPutMoves(s, c.up, c.i, 0);
    if doFree {
      ClearedIsUnmapped(s, c, b, t);
      ReleasedOk(t, b, data);
      forall d | IsPage(d) && Live(s, RootOf(d))
        ensures PteAt(t.ram[b := data], d) == if d == c then 0 else PteAt(s.ram, d)
      {
        assert Live(t, RootOf(d));
        assert PteAt(t.ram, d) == if d == c then 0 else PteAt(s.ram, d);
      }
    }
  }

  lemma EntryCleared(s: View, root: nat, v: nat, doFree: bool, data: Page)
    requires TreeOk(s) && Live(s, root) && v < NPAGES && Mapped(s, root, v, v + 1, doFree)
    requires MayPut(s, Leaf(root, v).up, v % 512, 0)
    ensures var u := Cleared(s, root, v, doFree, data);
            TreeOk(u) && Removed(s, u, root, v, v + 1, doFree)
  {
    EntryMayBeCleared(s, root, v, doFree);
    ClearedOk(s, root, v, doFree, data);
    var c, b, u := Leaf(root, v), Node(s.ram, Leaf(root, v)), Cleared(s, root, v, doFree, data);
    forall d | IsPage(d) && Live(s, RootOf(d))
      ensures PteAt(u.ram, d) == if InRange(d, root, v, v + 1) then 0 else PteAt(s.ram, d)
    {
      OnePage(d, root, v);
    }
    ClearedGivesUp(s, root, v, doFree, data);
  }

  lemma ClearedGivesUp(s: View, root: nat, v: nat, doFree: bool, data: Page)
    requires TreeOk(s) && Live(s, root) && v < NPAGES && Mapped(s, root, v, v + 1, doFree)
    requires MayPut(s, Leaf(root, v).up, v % 512, 0)
    ensures GivenUp(s, Cleared(s, root, v, doFree, data), root, v, v + 1, doFree)
  {
    EntryMayBeCleared(s, root, v, doFree);
    ClearedOwners(s, root, v, Node(s.ram, Leaf(root, v)));
    assert TableAt(s, Leaf(root, v).up);
    assert Child(Leaf(root, v).up, v % 512) == Leaf(root, v);
    hide Node, IsPlace, Leaf;
  }

  lemma OnePage(d: Place, root: nat, v: nat)
    requires v < NPAGES
    ensures InRange(d, root, v, v + 1) <==> d == Leaf(root, v)
  {
    LeafIsPage(root, v);
    if IsPage(d) {
      PageIsLeaf(d);
    }
  }

  lemma ClearedOwners(s: View, root: nat, v: nat, b: nat)
    requires TreeOk(s) && v < NPAGES && Live(s, root) && Node(s.ram, Leaf(root, v)) == b != 0
    ensures forall g | g in s.owner :: InRange(s.owner[g], root, v, v + 1) <==> g == b
  {
    LeafIsPage(root, v);
    assert PageAt(s, Leaf(root, v));
    forall g | g in s.owner ensures InRange(s.owner[g], root, v, v + 1) <==> g == b {
      OnePage(s.owner[g], root, v);
      assert Node(s.ram, s.owner[g]) == g;
    }
  }

  lemma ClearedIsUnmapped(s: View, c: Place, b: nat, t: View)
    requires TreeOk(s) && IsPage(c) && Live(s, RootOf(c)) && Node(s.ram, c) == b && b in s.owner && b != 0
    requires Moved(s, t, c, 0)
    ensures Unmapped(t, b)
  {
    assert PageAt(s, c);
    forall d | IsPage(d) && Live(t, RootOf(d)) ensures Node(t.ram, d) != b {
      assert PageAt(s, d);
    }
  }

  // ---- a fresh page, filled and mapped ----

  /** A tree's new page: mapped at virtual page `v` by an entry with these permissions. */
  ghost function Owning(t: View, b: nat, c: Place): View {
    t.(owner := t.owner[b := c])
  }

  lemma StillUnmapped(s: View, t: View, root: nat, lo: nat, hi: nat, b: nat, d: Place)
    requires Unmapped(s, b) && b != 0 && Extended(s, t, root, lo, hi)
    requires IsPage(d) && Live(t, RootOf(d)) && !InRange(d, root, lo, hi)
    ensures Node(t.ram, d) != b
  {
    SameLive(s, t, root, lo, hi, RootOf(d));
    assert PteAt(t.ram, d) == PteAt(s.ram, d) && Node(s.ram, d) != b;
  }

  lemma FreshPageOk(s: View, t: View, root: nat, v: nat, b: nat, data: Page)
    requires TreeOk(s) && b in s.free && Live(s, root) && v < NPAGES
    requires TreeOk(t) && Extended(Taken(s, b, data), t, root, v, v + 1)
    requires b !in t.owner && Node(t.ram, Leaf(root, v)) == b
    ensures TreeOk(Owning(t, b, Leaf(root, v)))
  {
    var s1, c := Taken(s, b, data), Leaf(root, v);
    assert b != 0;
    TakenOk(s, b, data);
    LeafIsPage(root, v);
    SameLive(s1, t, root, v, v + 1, root);
    assert b in t.ram;
    hide Extended, TreeOk, Unmapped, IsPlace, Node;
    forall d | IsPage(d) && Live(t, RootOf(d)) && d != c ensures Node(t.ram, d) != b {
      OnePage(d, root, v);
      StillUnmapped(s1, t, root, v, v + 1, b, d);
    }
    Adopted(t, c, b);
  }

  lemma FreshPageExtends(s: View, t: View, root: nat, v: nat, b: nat, data: Page)
    requires TreeOk(s) && b in s.free && Live(s, root) && v < NPAGES
    requires Extended(Taken(s, b, data), t, root, v, v + 1) && b !in t.owner
    ensures b in t.ram && t.ram[b] == data
    ensures Extended(s, Owning(t, b, Leaf(root, v)), root, v, v + 1)
  {
    var s1, c := Taken(s, b, data), Leaf(root, v);
    TakenOk(s, b, data);
    OnePage(c, root, v);
    LeafIsPage(root, v);
    FreshPageAcquired(s, t, root, v, b, data);
    TakenThenElsewhere(s, t, root, v, v + 1, b, data);
  }

  lemma FreshPageAcquired(s: View, t: View, root: nat, v: nat, b: nat, data: Page)
    requires FramesOk(s) && b in s.free && InRange(Leaf(root, v), root, v, v + 1)
    requires Acquired(Taken(s, b, data), t, root, v, v + 1) && b !in t.owner
    ensures Acquired(s, Owning(t, b, Leaf(root, v)), root, v, v + 1)
  {
    assert Depth(Leaf(root, v)) > 0;
    hide Leaf, IsPlace;
  }

  lemma TakenThenElsewhere(s: View, t: View, root: nat, lo: nat, hi: nat, b: nat, data: Page)
    requires b in s.ram && SameElsewhere(Taken(s, b, data), t, root, lo, hi)
    requires forall c | IsPage(c) && Live(s, RootOf(c)) :: PteAt(s.ram[b := data], c) == PteAt(s.ram, c)
    ensures SameElsewhere(s, t, root, lo, hi)
  {
    var s1 := Taken(s, b, data);
    forall d | IsPage(d) && Live(s, RootOf(d)) && !InRange(d, root, lo, hi)
      ensures PteAt(t.ram, d) == PteAt(s.ram, d)
    {
      assert Live(s1, RootOf(d));
      assert PteAt(t.ram, d) == PteAt(s1.ram, d);
    }
  }

  /** A page that could not be mapped goes back. */
  lemma PageReturned(s: View, t: View, root: nat, b: nat, data: Page, junk: Page)
    requires TreeOk(s) && b in s.free && TreeOk(t) && Grown(Taken(s, b, data), t, root) && b !in t.owner
    ensures TreeOk(Released(t, b, junk)) && Grown(s, Released(t, b, junk), root)
  {
    var s1, u := Taken(s, b, data), Released(t, b, junk);
    assert b != 0 && b in t.ram;
    TakenOk(s, b, data);
    hide IsPlace, Node, TreeOk;
    forall d | IsPage(d) && Live(t, RootOf(d)) ensures Node(t.ram, d) != b {
      StillUnmapped(s1, t, root, 0, 0, b, d);
    }
    ReleasedOk(t, b, junk);
    GrownBack(s, t, root, b, data, junk);
  }

  lemma GrownBack(s: View, t: View, root: nat, b: nat, data: Page, junk: Page)
    requires FramesOk(s) && b in s.free && Grown(Taken(s, b, data), t, root) && b !in t.owner
    requires forall c | IsPage(c) && Live(s, RootOf(c)) :: PteAt(s.ram[b := data], c) == PteAt(s.ram, c)
    requires forall c | IsPage(c) && Live(t, RootOf(c)) :: PteAt(t.ram[b := junk], c) == PteAt(t.ram, c)
    ensures Grown(s, Released(t, b, junk), root)
  {
    var s1, u := Taken(s, b, data), Released(t, b, junk);
    hide IsPlace, Node;
    forall d | IsPage(d) && Live(s, RootOf(d)) ensures PteAt(u.ram, d) == PteAt(s.ram, d) {
      assert Live(s1, RootOf(d));
      SameLive(s1, t, root, 0, 0, RootOf(d));
      assert PteAt(t.ram, d) == PteAt(s1.ram, d);
    }
  }

  // ---- freeing a whole tree ----

  /** Place `q` is `p` or below it. */
  predicate Under(q: Place, p: Place) {
    q == p || (q.Child? && Under(q.up, p))
  }

  /** The entry of `p` that leads towards `q`. */
  function Branch(q: Place, p: Place): nat {
    match q
    case Root(_) => 0
    case Child(up, i) => if up == p then i else Branch(up, p)
  }

  lemma {:induction false} UnderIsDeeper(q: Place, p: Place)
    requires Under(q, p)
    ensures Depth(q) >= Depth(p) && RootOf(q) == RootOf(p) && (Depth(q) == Depth(p) ==> q == p)
  {
    if q != p {
      UnderIsDeeper(q.up, p);
    }
  }

  lemma {:induction false} UnderOneBranch(q: Place, p: Place, i: nat)
    ensures Under(q, Child(p, i)) <==> Under(q, p) && q != p && Branch(q, p) == i
  {
    if q.Child? {
      if q.up == p {
        if Under(q, Child(p, i)) && q != Child(p, i) {
          UnderIsDeeper(q.up, Child(p, i));
        }
      } else {
        UnderOneBranch(q.up, p, i);
      }
      if Under(q.up, p) {
        UnderIsDeeper(q.up, p);
      }
    }
  }

  lemma {:induction false} UnderRoot(q: Place, r: nat)
    ensures Under(q, Root(r)) <==> RootOf(q) == r
  {
    if q.Child? {
      UnderRoot(q.up, r);
    }
  }

  lemma {:induction false} UnderNothing(ram: Ram, q: Place, p: Place)
    requires 0 !in ram && Under(q, p) && Node(ram, p) == 0
    ensures Node(ram, q) == 0
  {
    if q != p {
      UnderNothing(ram, q.up, p);
    }
  }

  /** The part of tree `s` at and below `p`. */
  ghost predicate Below(s: View, p: Place, g: nat) {
    g in s.owner && Under(s.owner[g], p)
  }

  /** The part of tree `s` below the first `n` entries of `p`. */
  ghost predicate BelowFirst(s: View, p: Place, n: nat, g: nat) {
    Below(s, p, g) && s.owner[g] != p && Branch(s.owner[g], p) < n
  }

  lemma BelowStep(s: View, p: Place, n: nat, g: nat)
    ensures BelowFirst(s, p, n + 1, g) <==> BelowFirst(s, p, n, g) || Below(s, Child(p, n), g)
    ensures !(BelowFirst(s, p, n, g) && Below(s, Child(p, n), g))
  {
    if g in s.owner {
      UnderOneBranch(s.owner[g], p, n);
    }
  }

  lemma BelowEmptyEntry(s: View, p: Place, n: nat, g: nat)
    requires TreeOk(s) && Node(s.ram, Child(p, n)) == 0
    ensures !Below(s, Child(p, n), g)
  {
    assert g in s.owner ==> Node(s.ram, s.owner[g]) == g;
    if Below(s, Child(p, n), g) {
      UnderNothing(s.ram, s.owner[g], Child(p, n));
    }
  }

  lemma {:induction false} BranchBound(q: Place, p: Place)
    requires IsPlace(q) && Under(q, p) && q != p
    ensures Branch(q, p) < ENTRIES
  {
    if q.up != p {
      BranchBound(q.up, p);
    }
  }

  lemma BelowAll(s: View, p: Place, g: nat)
    requires TreeOk(s)
    ensures Below(s, p, g) <==> (g in s.owner && s.owner[g] == p) || BelowFirst(s, p, ENTRIES, g)
  {
    if Below(s, p, g) && s.owner[g] != p {
      BranchBound(s.owner[g], p);
    }
  }

  /** Tree `root` is no more, and its pages, `s`'s pages below it, are free. */
  ghost predicate Gone(s: View, t: View, root: nat) {
    && t.ram.Keys == s.ram.Keys
    && (forall g :: g in t.owner <==> g in s.owner && RootOf(s.owner[g]) != root)
    && (forall g | g in t.owner :: t.owner[g] == s.owner[g])
    && (forall g :: g in t.free <==> g in s.free || (g in s.owner && RootOf(s.owner[g]) == root))
    && (forall g | g in s.ram && !(g in s.owner && RootOf(s.owner[g]) == root) :: t.ram[g] == s.ram[g])
  }

  lemma {:induction false} GoneNode(s: View, t: View, root: nat, q: Place)
    requires TreeOk(s) && Gone(s, t, root) && IsPlace(q) && Live(s, RootOf(q)) && RootOf(q) != root
    ensures Node(t.ram, q) == Node(s.ram, q)
  {
    if q.Child? {
      GoneNode(s, t, root, q.up);
      assert TableAt(s, q.up);
    }
  }

  /** A page of another tree is not among those freed. */
  lemma GoneOk(s: View, t: View, root: nat)
    requires TreeOk(s) && Gone(s, t, root)
    ensures TreeOk(t)
    ensures forall r :: Live(t, r) <==> Live(s, r) && r != root
    ensures forall c | IsPage(c) && Live(t, RootOf(c)) :: PteAt(t.ram, c) == PteAt(s.ram, c)
  {
    forall r ensures Live(t, r) <==> Live(s, r) && r != root {
    }
    forall q | IsTable(q) && Live(t, RootOf(q)) ensures TableAt(t, q) {
      GoneNode(s, t, root, q);
      assert TableAt(s, q);
    }
    forall q | IsPage(q) && Live(t, RootOf(q)) ensures PageAt(t, q) {
      GoneNode(s, t, root, q);
      assert PageAt(s, q);
    }
    forall g | g in t.owner ensures Node(t.ram, t.owner[g]) == g {
      GoneNode(s, t, root, s.owner[g]);
    }
    forall c | IsPage(c) && Live(t, RootOf(c)) ensures PteAt(t.ram, c) == PteAt(s.ram, c) {
      GoneNode(s, t, root, c.up);
      assert TableAt(s, c.up);
    }
  }

  // ---- the operations' loops ----

  /** uvmunmap's step, in terms of the table and index that the walk returned. */
  ghost function UnmappedView(s: View, table: nat, i: nat, b: nat, doFree: bool, junk: Page): View
    requires table in s.ram && i < ENTRIES
  {
    if doFree then View(Put(s.ram[b := junk], table, i, 0), s.owner - {b}, s.free + {b})
    else View(Put(s.ram, table, i, 0), s.owner, s.free)
  }

  /** None of uvmunmap's panics can happen. */
  lemma UnmapStep(s: View, root: nat, v: nat, table: nat, i: nat, doFree: bool, junk: Page)
    requires TreeOk(s) && Live(s, root) && v < NPAGES && Mapped(s, root, v, v + 1, doFree)
    requires table != 0 ==> table == Node(s.ram, Leaf(root, v).up)
    requires table == 0 ==> PteAt(s.ram, Leaf(root, v)) == 0
    requires i == v % 512
    ensures table != 0 && table in s.ram && table !in s.free
    ensures Valid(s.ram[table][i]) && IsLeaf(s.ram[table][i])
    ensures var b := Frame(s.ram[table][i]);
            && b != table && b !in s.free && (doFree ==> b in s.ram && b < MAXFRAME)
            && (var u := UnmappedView(s, table, i, b, doFree, junk);
                TreeOk(u) && Removed(s, u, root, v, v + 1, doFree))
  {
    var c := Leaf(root, v);
    EntryMayBeCleared(s, root, v, doFree);
    EntryCleared(s, root, v, doFree, junk);
    UnmapView(s, root, v, table, i, doFree, junk);
    assert TableAt(s, c.up);
  }

  lemma UnmapView(s: View, root: nat, v: nat, table: nat, i: nat, doFree: bool, junk: Page)
    requires MayPut(s, Leaf(root, v).up, i, 0) && i == v % 512 && table == Node(s.ram, Leaf(root, v).up)
    requires doFree <==> Node(s.ram, Leaf(root, v)) in s.owner
    requires table != Node(s.ram, Leaf(root, v))
    ensures UnmappedView(s, table, i, Node(s.ram, Leaf(root, v)), doFree, junk) == Cleared(s, root, v, doFree, junk)
  {
    var b := Node(s.ram, Leaf(root, v));
    assert Child(Leaf(root, v).up, i) == Leaf(root, v);
    assert !doFree ==> s.owner - {b} == s.owner;
    assert s.ram[b := junk][table := s.ram[table][i := 0]] == s.ram[table := s.ram[table][i := 0]][b := junk];
  }

  lemma NoneToMap(s: View, root: nat, lo: nat)
    ensures AllMapped(s, root, lo, lo)
  {
  }

  lemma MappedIff(s: View, root: nat, lo: nat, hi: nat, own: bool)
    ensures Mapped(s, root, lo, hi, own) <==> AllMapped(s, root, lo, hi) && OwnIfMapped(s, root, lo, hi, own)
  {
  }

  lemma OwnPart(s: View, root: nat, lo: nat, hi: nat, own: bool, v: nat)
    requires OwnIfMapped(s, root, lo, hi, own) && lo <= v < hi
    ensures OwnIfMapped(s, root, v, v + 1, own)
  {
    forall c | InRange(c, root, v, v + 1) && PteAt(s.ram, c) != 0 ensures own <==> Frame(PteAt(s.ram, c)) in s.owner {
      assert InRange(c, root, lo, hi);
    }
  }

  lemma OwnRest(s: View, t: View, root: nat, lo: nat, mid: nat, hi: nat, own: bool)
    requires TreeOk(s) && Live(s, root) && OwnIfMapped(s, root, lo, hi, own) && lo <= mid <= hi
    requires Removed(s, t, root, lo, mid, own)
    ensures OwnIfMapped(t, root, mid, hi, own) && Live(t, root)
  {
    RemovedLive(s, t, root, lo, mid, own, root);
    forall c | InRange(c, root, mid, hi) && PteAt(t.ram, c) != 0 ensures own <==> Frame(PteAt(t.ram, c)) in t.owner {
      assert PteAt(t.ram, c) == PteAt(s.ram, c) && PageAt(s, c);
    }
  }

  /** The walk has found the entry of virtual page `v`, or that there is none. */
  lemma EntryIsThere(s: View, root: nat, v: nat, table: nat, doFree: bool)
    requires TreeOk(s) && Live(s, root) && v < NPAGES && OwnIfMapped(s, root, v, v + 1, doFree)
    requires table in s.ram && table == Node(s.ram, Leaf(root, v).up)
    ensures Valid(s.ram[table][v % 512]) <==> PteAt(s.ram, Leaf(root, v)) != 0
    ensures Valid(s.ram[table][v % 512]) ==> Mapped(s, root, v, v + 1, doFree)
  {
    OnePage(Leaf(root, v), root, v);
    forall c | InRange(c, root, v, v + 1) ensures PteAt(s.ram, c) == PteAt(s.ram, Leaf(root, v)) {
      OnePage(c, root, v);
    }
  }

  /** uvmunmap has come to page `mid`, which is mapped or is not. */
  lemma UnmappedSoFar(s: View, t: View, root: nat, lo: nat, mid: nat, hi: nat, own: bool)
    requires Live(s, root) && lo <= mid < hi <= NPAGES
    requires Removed(s, t, root, lo, mid, own) && AllMapped(s, root, lo, mid)
    ensures PteAt(t.ram, Leaf(root, mid)) != 0 <==> AllMapped(s, root, lo, mid + 1)
    ensures PteAt(t.ram, Leaf(root, mid)) == 0 ==> !AllMapped(s, root, lo, hi)
  {
    OnePage(Leaf(root, mid), root, mid);
    LeafIsPage(root, mid);
    assert PteAt(t.ram, Leaf(root, mid)) == PteAt(s.ram, Leaf(root, mid));
    forall c | InRange(c, root, lo, mid + 1) ensures InRange(c, root, lo, mid) || c == Leaf(root, mid) {
      OnePage(c, root, mid);
    }
  }

  lemma MappedPart(s: View, root: nat, lo: nat, hi: nat, own: bool, lo': nat, hi': nat)
    requires Mapped(s, root, lo, hi, own) && lo <= lo' && hi' <= hi
    ensures Mapped(s, root, lo', hi', own)
  {
    forall c | InRange(c, root, lo', hi')
      ensures PteAt(s.ram, c) != 0 && (own <==> Frame(PteAt(s.ram, c)) in s.owner)
    {
      assert InRange(c, root, lo, hi);
    }
  }

  /** A page fresh from the free list may be mapped where nothing is. */
  lemma FreshReady(s: View, root: nat, v: nat, b: nat, data: Page)
    requires TreeOk(s) && b in s.free && Live(s, root) && v < NPAGES && Vacant(s, root, v, v + 1)
    ensures var t := Taken(s, b, data);
            TreeOk(t) && Live(t, root) && Vacant(t, root, v, v + 1) && Foreign(t, b, 1)
    ensures 0 < b < MAXFRAME
  {
    var t := Taken(s, b, data);
    TakenOk(s, b, data);
    forall c | InRange(c, root, v, v + 1) ensures PteAt(t.ram, c) == 0 {
      assert PteAt(s.ram, c) == 0;
    }
  }

  lemma FreshDone(s: View, t: View, root: nat, v: nat, b: nat, data: Page, perm: nat)
    requires TreeOk(s) && b in s.free && Live(s, root) && v < NPAGES && LeafPerm(perm) && b < MAXFRAME
    requires TreeOk(t) && MappedSoFar(Taken(s, b, data), t, root, v, v + 1, b, perm)
    ensures var u := Owning(t, b, Leaf(root, v));
            TreeOk(u) && Extended(s, u, root, v, v + 1) && OwnPage(u, Leaf(root, v), data, perm)
  {
    OnePage(Leaf(root, v), root, v);
    LeafIsPage(root, v);
    assert PteAt(t.ram, Leaf(root, v)) == MkPte(b, perm);
    PteRoundTrip(b, perm);
    FreshPageOk(s, t, root, v, b, data);
    FreshPageExtends(s, t, root, v, b, data);
  }

  lemma FreshFailed(s: View, t: View, root: nat, v: nat, b: nat, data: Page, perm: nat, junk: Page)
    requires TreeOk(s) && b in s.free
    requires TreeOk(t) && MappedSoFar(Taken(s, b, data), t, root, v, v, b, perm)
    ensures TreeOk(Released(t, b, junk)) && Grown(s, Released(t, b, junk), root)
    ensures b in t.ram && b !in t.free && b !in t.owner && b < MAXFRAME
  {
    ExtendedWider(Taken(s, b, data), t, root, v, v, 0, 0);
    PageReturned(s, t, root, b, data, junk);
  }

  /** A page of the tree's own stays as it is when the tree is extended elsewhere. */
  lemma OwnPageKept(s: View, t: View, root: nat, lo: nat, hi: nat, c: Place, data: Page, perm: nat)
    requires TreeOk(s) && IsPage(c) && Live(s, RootOf(c)) && LeafPerm(perm) && OwnPage(s, c, data, perm)
    requires Extended(s, t, root, lo, hi) && !InRange(c, root, lo, hi)
    ensures OwnPage(t, c, data, perm) && Node(t.ram, c) == Node(s.ram, c)
  {
    var b := Node(s.ram, c);
    assert PteAt(t.ram, c) == PteAt(s.ram, c);
    assert NoTable(s, b) && b !in s.free;
  }

  lemma ZeroedStep(s: View, t: View, root: nat, lo: nat, mid: nat, perm: nat)
    requires TreeOk(s) && Live(s, root) && LeafPerm(perm) && lo <= mid < NPAGES
    requires Zeroed(s, root, lo, mid, perm) && Extended(s, t, root, mid, mid + 1)
    requires OwnPage(t, Leaf(root, mid), Filled(0), perm)
    ensures Zeroed(t, root, lo, mid + 1, perm)
  {
    forall v | lo <= v < mid + 1 ensures OwnPage(t, Leaf(root, v), Filled(0), perm) {
      if v < mid {
        LeafIsPage(root, v);
        OwnPageKept(s, t, root, mid, mid + 1, Leaf(root, v), Filled(0), perm);
      }
    }
  }

  lemma CopiedStep(s: View, t: View, parent: nat, child: nat, n: nat)
    requires TreeOk(s) && Live(s, child) && Live(s, parent) && parent != child && n < NPAGES
    requires Mapped(s, parent, 0, n + 1, true)
    requires Copied(s, parent, child, n) && Extended(s, t, child, n, n + 1)
    requires ParentPage(s, parent, n)
    requires OwnPage(t, Leaf(child, n), s.ram[Node(s.ram, Leaf(parent, n))], Flags(PteAt(s.ram, Leaf(parent, n))))
    ensures Copied(t, parent, child, n + 1)
  {
    forall v | 0 <= v < n + 1 ensures CopyOf(t, parent, child, v) {
      ParentPageIs(s, parent, v, n + 1);
      ParentPageKept(s, t, parent, child, v, n);
      LeafIsPage(parent, v);
      LeafIsPage(child, v);
      if v < n {
        var e := PteAt(s.ram, Leaf(parent, v));
        assert CopyOf(s, parent, child, v);
        OwnPageKept(s, t, child, n, n + 1, Leaf(child, v), s.ram[Node(s.ram, Leaf(parent, v))], Flags(e));
      }
    }
  }

  /** What uvmcopy reads: a page of the parent's own. */
  ghost predicate ParentPage(s: View, parent: nat, v: nat) {
    var a, e := Node(s.ram, Leaf(parent, v)), PteAt(s.ram, Leaf(parent, v));
    && a in s.ram && a in s.owner && s.owner[a] == Leaf(parent, v) && Valid(e) && Frame(e) == a
    && LeafPerm(Flags(e))
  }

  lemma ParentPageIs(s: View, parent: nat, v: nat, n: nat)
    requires TreeOk(s) && Live(s, parent) && v < n <= NPAGES && Mapped(s, parent, 0, n, true)
    ensures ParentPage(s, parent, v)
  {
    var c := Leaf(parent, v);
    LeafIsPage(parent, v);
    assert InRange(c, parent, 0, n) && PteAt(s.ram, c) != 0;
    assert IsTable(c.up) && RootOf(c.up) == parent && TableAt(s, c.up) && PageAt(s, c);
    FlagsOfLeaf(PteAt(s.ram, c));
  }

  lemma FlagsOfLeaf(e: Word)
    requires IsLeaf(e)
    ensures LeafPerm(Flags(e))
  {
    Split(e / 1024, e % 1024);
  }

  lemma ParentPageKept(s: View, t: View, parent: nat, child: nat, v: nat, n: nat)
    requires TreeOk(s) && Live(s, parent) && parent != child && v < NPAGES && ParentPage(s, parent, v)
    requires Extended(s, t, child, n, n + 1)
    ensures PteAt(t.ram, Leaf(parent, v)) == PteAt(s.ram, Leaf(parent, v))
    ensures var a := Node(s.ram, Leaf(parent, v));
            Node(t.ram, Leaf(parent, v)) == a && a in t.owner && t.owner[a] == Leaf(parent, v) && a in t.ram
            && t.ram[a] == s.ram[a]
  {
    LeafIsPage(parent, v);
    assert PteAt(t.ram, Leaf(parent, v)) == PteAt(s.ram, Leaf(parent, v));
  }

  lemma MappedKept(s: View, t: View, root: nat, lo: nat, hi: nat, other: nat, lo': nat, hi': nat)
    requires TreeOk(s) && Live(s, root) && Mapped(s, root, lo, hi, true) && root != other
    requires Extended(s, t, other, lo', hi')
    ensures Mapped(t, root, lo, hi, true) && Live(t, root)
  {
    SameLive(s, t, other, lo', hi', root);
    forall c | InRange(c, root, lo, hi) ensures PteAt(t.ram, c) != 0 && Frame(PteAt(t.ram, c)) in t.owner {
      assert PteAt(t.ram, c) == PteAt(s.ram, c) != 0;
    }
  }

  lemma FramesAreOk(s: View)
    requires TreeOk(s)
    ensures 0 !in s.ram
  {
  }

  lemma OnePageBytes(v: nat)
    requires v < NPAGES
    ensures PageNo(v * PGSIZE) == v == PageNo(v * PGSIZE + PGSIZE - 1) && v * PGSIZE + PGSIZE <= MAXVA
  {
  }

  // ---- uvmalloc ----

  /** [lo, mid) has been given zeroed pages, and the rest of [lo, hi) is as it was. */
  ghost predicate GrowingTo(s: View, t: View, root: nat, lo: nat, mid: nat, hi: nat, perm: nat) {
    && lo <= mid <= hi <= NPAGES && LeafPerm(perm) && TreeOk(t)
    && Live(t, root) && Extended(s, t, root, lo, mid) && Zeroed(t, root, lo, mid, perm) && Vacant(t, root, mid, hi)
  }

  lemma GrowingStart(s: View, root: nat, lo: nat, hi: nat, perm: nat)
    requires TreeOk(s) && Live(s, root) && lo <= hi <= NPAGES && LeafPerm(perm) && Vacant(s, root, lo, hi)
    ensures GrowingTo(s, s, root, lo, lo, hi, perm)
  {
    ExtendedReflexive(s, root, lo, lo);
  }

  lemma GrowingMay(s: View, t: View, root: nat, lo: nat, mid: nat, hi: nat, perm: nat)
    requires GrowingTo(s, t, root, lo, mid, hi, perm) && mid < hi
    ensures Live(t, root) && mid < NPAGES && Vacant(t, root, mid, mid + 1)
  {
    forall c | InRange(c, root, mid, mid + 1) ensures PteAt(t.ram, c) == 0 {
      assert InRange(c, root, mid, hi);
    }
  }

  lemma GrowingTurn(s: View, t: View, u: View, root: nat, lo: nat, mid: nat, hi: nat, perm: nat)
    requires GrowingTo(s, t, root, lo, mid, hi, perm) && mid < hi && TreeOk(u)
    requires Extended(t, u, root, mid, mid + 1) && OwnPage(u, Leaf(root, mid), Filled(0), perm)
    ensures GrowingTo(s, u, root, lo, mid + 1, hi, perm)
  {
    hide TreeOk, Live, Extended, Zeroed, Vacant, OwnPage, LeafPerm, Leaf;
    ExtendedTransitive(s, t, u, root, lo, mid, mid + 1);
    ZeroedStep(t, u, root, lo, mid, perm);
    VacantRest(t, u, root, mid, mid + 1, hi);
    SameLive(t, u, root, mid, mid + 1, root);
  }

  /** After a failed turn, what was mapped so far can be removed again. */
  lemma GrowingFails(s: View, t: View, u: View, root: nat, lo: nat, mid: nat, hi: nat, perm: nat)
    requires TreeOk(s) && GrowingTo(s, t, root, lo, mid, hi, perm) && Grown(t, u, root) && TreeOk(u)
    ensures Extended(s, u, root, lo, mid) && Live(u, root) && Mapped(u, root, lo, mid, true)
  {
    ThenGrown(s, t, u, root, lo, mid);
    SameLive(t, u, root, 0, 0, root);
    forall c | InRange(c, root, lo, mid) ensures PteAt(u.ram, c) != 0 && Frame(PteAt(u.ram, c)) in u.owner {
      PageIsLeaf(c);
      assert OwnPage(t, Leaf(root, Vpn(c)), Filled(0), perm);
      OwnPageKept(t, u, root, 0, 0, c, Filled(0), perm);
      PteRoundTrip(Node(u.ram, c), perm);
    }
  }

  // ---- uvmcopy ----

  /** The pages below `mid` have been copied, and the rest of the child's first `n` pages are not mapped. */
  ghost predicate CopyingTo(s: View, t: View, parent: nat, child: nat, mid: nat, n: nat) {
    && mid <= n <= NPAGES && parent != child && TreeOk(t)
    && Live(t, parent) && Live(t, child) && Extended(s, t, child, 0, mid)
    && Mapped(t, parent, 0, n, true) && Copied(t, parent, child, mid) && Vacant(t, child, mid, n)
  }

  lemma CopyingStart(s: View, parent: nat, child: nat, n: nat)
    requires TreeOk(s) && Live(s, parent) && Live(s, child) && parent != child && n <= NPAGES
    requires Mapped(s, parent, 0, n, true) && Vacant(s, child, 0, n)
    ensures CopyingTo(s, s, parent, child, 0, n)
  {
    ExtendedReflexive(s, child, 0, 0);
  }

  lemma CopyingMay(s: View, t: View, parent: nat, child: nat, mid: nat, n: nat)
    requires CopyingTo(s, t, parent, child, mid, n) && mid < n
    ensures TreeOk(t) && Live(t, parent) && Live(t, child) && mid < NPAGES
    ensures Vacant(t, child, mid, mid + 1) && ParentPage(t, parent, mid)
  {
    ParentPageIs(t, parent, mid, n);
    forall c | InRange(c, child, mid, mid + 1) ensures PteAt(t.ram, c) == 0 {
      assert InRange(c, child, mid, n);
    }
  }

  lemma CopyingTurn(s: View, t: View, u: View, parent: nat, child: nat, mid: nat, n: nat)
    requires CopyingTo(s, t, parent, child, mid, n) && mid < n && ParentPage(t, parent, mid) && TreeOk(u)
    requires Extended(t, u, child, mid, mid + 1)
    requires OwnPage(u, Leaf(child, mid), t.ram[Node(t.ram, Leaf(parent, mid))], Flags(PteAt(t.ram, Leaf(parent, mid))))
    ensures CopyingTo(s, u, parent, child, mid + 1, n)
  {
    hide TreeOk, Live, Extended, Mapped, Copied, Vacant, OwnPage, ParentPage, Node, PteAt, Leaf;
    ExtendedTransitive(s, t, u, child, 0, mid, mid + 1);
    MappedPart(t, parent, 0, n, true, 0, mid + 1);
    CopiedStep(t, u, parent, child, mid);
    MappedKept(t, u, parent, 0, n, child, mid, mid + 1);
    VacantRest(t, u, child, mid, mid + 1, n);
    SameLive(t, u, child, mid, mid + 1, child);
  }

  lemma CopyingFails(s: View, t: View, u: View, parent: nat, child: nat, mid: nat, n: nat)
    requires TreeOk(s) && CopyingTo(s, t, parent, child, mid, n) && Grown(t, u, child) && TreeOk(u)
    ensures Extended(s, u, child, 0, mid) && Live(u, child) && Mapped(u, child, 0, mid, true)
  {
    ThenGrown(s, t, u, child, 0, mid);
    SameLive(t, u, child, 0, 0, child);
    forall c | InRange(c, child, 0, mid) ensures PteAt(u.ram, c) != 0 && Frame(PteAt(u.ram, c)) in u.owner {
      PageIsLeaf(c);
      var v := Vpn(c);
      assert CopyOf(t, parent, child, v);
      var perm := Flags(PteAt(t.ram, Leaf(parent, v)));
      OwnPageKept(t, u, child, 0, 0, c, t.ram[Node(t.ram, Leaf(parent, v))], perm);
      PteRoundTrip(Node(u.ram, c), perm);
    }
  }

  // ---- uvmcreate, freewalk and uvmfree ----

  lemma Created(s: View, b: nat)
    requires TreeOk(s) && b in s.free
    ensures var t := Rooted(Taken(s, b, Filled(0)), b);
            && TreeOk(t) && Live(t, b) && (forall v | 0 <= v < NPAGES :: PteAt(t.ram, Leaf(b, v)) == 0)
            && (forall c | IsPage(c) && Live(s, RootOf(c)) :: PteAt(t.ram, c) == PteAt(s.ram, c))
  {
    TakenOk(s, b, Filled(0));
    NewRoot(Taken(s, b, Filled(0)), b);
    forall v | 0 <= v < NPAGES ensures PteAt(s.ram[b := Filled(0)], Leaf(b, v)) == 0 {
      LeafIsPage(b, v);
    }
  }

  /** The table at place `p` of tree `s` is as it was from its entry `n` on, and so is all below these. */
  ghost predicate StillThere(s: View, ram: Ram, free: set<nat>, p: Place, n: nat) {
    && ram.Keys == s.ram.Keys
    && (var f := Node(s.ram, p);
        f in s.ram && f !in free && f in s.owner && s.owner[f] == p
        && forall i | n <= i < ENTRIES :: ram[f][i] == s.ram[f][i])
    && forall g | Below(s, p, g) && s.owner[g] != p && !BelowFirst(s, p, n, g) ::
         g in s.ram && ram[g] == s.ram[g] && g !in free
  }

  /** Of tree `s`, all that is below the first `n` entries of `p` has been freed and nothing else. */
  ghost predicate Pruned(s: View, p: Place, n: nat, ram0: Ram, free0: set<nat>, ram: Ram, free: set<nat>) {
    && ram.Keys == ram0.Keys
    && (forall g :: g in free <==> g in free0 || BelowFirst(s, p, n, g))
    && (forall g | g in ram0 && !Below(s, p, g) :: ram[g] == ram0[g])
  }

  /** Of tree `s`, the table at `p` and all that is below has been freed and nothing else. */
  ghost predicate Felled(s: View, p: Place, ram0: Ram, free0: set<nat>, ram: Ram, free: set<nat>) {
    && ram.Keys == ram0.Keys
    && (forall g :: g in free <==> g in free0 || Below(s, p, g))
    && (forall g | g in ram0 && !Below(s, p, g) :: ram[g] == ram0[g])
  }

  ghost predicate NoPages(s: View, root: nat) {
    forall c {:trigger Node(s.ram, c)} | IsPage(c) && RootOf(c) == root :: Node(s.ram, c) == 0
  }

  lemma NoPagesIf(s: View, root: nat)
    requires TreeOk(s) && Live(s, root) && Vacant(s, root, 0, 2 * NPAGES)
    ensures NoPages(s, root)
  {
    forall c | IsPage(c) && RootOf(c) == root ensures Node(s.ram, c) == 0 {
      PageShape(c);
      assert InRange(c, root, 0, 2 * NPAGES) && PteAt(s.ram, c) == 0;
    }
  }

  /** What freewalk finds in an entry: nothing, or a table. Its panic cannot happen. */
  lemma EntryFound(s: View, p: Place, i: nat, ram: Ram, free: set<nat>)
    requires TreeOk(s) && IsTable(p) && Live(s, RootOf(p)) && NoPages(s, RootOf(p))
    requires StillThere(s, ram, free, p, i) && i < ENTRIES
    ensures var e := ram[Node(s.ram, p)][i];
            if Valid(e)
            then && !IsLeaf(e) && Depth(Child(p, i)) == Depth(p) + 1 && IsTable(Child(p, i))
                 && Frame(e) == Node(s.ram, Child(p, i))
                 && StillThere(s, ram, free, Child(p, i), 0)
            else Node(s.ram, Child(p, i)) == 0
  {
    var f := Node(s.ram, p);
    assert f in s.ram && TableAt(s, p);
    var e := s.ram[f][i];
    assert EntryOk(e, Depth(p), i);
    if Valid(e) {
      assert IsPlace(Child(p, i)) && Depth(Child(p, i)) == Depth(p) + 1;
      assert Node(s.ram, Child(p, i)) == Frame(e) != 0;
      assert Depth(p) == 2 ==> IsPage(Child(p, i));
      PlainEntry(e);
      assert TableAt(s, Child(p, i));
      ChildStillThere(s, p, i, ram, free);
    }
  }

  lemma PlainEntry(e: Word)
    requires Flags(e) == 1
    ensures !IsLeaf(e)
  {
    Split(e / 1024, e % 1024);
  }

  lemma ChildStillThere(s: View, p: Place, i: nat, ram: Ram, free: set<nat>)
    requires StillThere(s, ram, free, p, i)
    requires var b := Node(s.ram, Child(p, i)); b in s.ram && b in s.owner && s.owner[b] == Child(p, i)
    ensures StillThere(s, ram, free, Child(p, i), 0)
  {
    var q := Child(p, i);
    forall g | Below(s, q, g) ensures g in s.ram && ram[g] == s.ram[g] && g !in free {
      UnderOneBranch(s.owner[g], p, i);
    }
    assert Below(s, q, Node(s.ram, q));
  }

  /** How the part below entry `i` of `p` relates to the rest of `p`'s part. */
  lemma Branches(s: View, p: Place, i: nat, f: nat)
    requires f in s.owner && s.owner[f] == p
    ensures forall g :: BelowFirst(s, p, i + 1, g) <==> BelowFirst(s, p, i, g) || Below(s, Child(p, i), g)
    ensures forall g | Below(s, Child(p, i), g) :: Below(s, p, g) && s.owner[g] != p && !BelowFirst(s, p, i, g)
    ensures Below(s, p, f) && !Below(s, Child(p, i), f) && !BelowFirst(s, p, i + 1, f)
  {
    UnderOneBranch(p, p, i);
    forall g ensures BelowFirst(s, p, i + 1, g) <==> BelowFirst(s, p, i, g) || Below(s, Child(p, i), g) {
      BelowStep(s, p, i, g);
    }
    forall g | Below(s, Child(p, i), g) ensures Below(s, p, g) && s.owner[g] != p && !BelowFirst(s, p, i, g) {
      BelowStep(s, p, i, g);
      UnderOneBranch(s.owner[g], p, i);
    }
  }

  lemma PruneTurn(s: View, p: Place, i: nat, ram0: Ram, free0: set<nat>, ram: Ram, free: set<nat>, ram': Ram,
      free': set<nat>)
    requires i < ENTRIES && StillThere(s, ram, free, p, i) && Pruned(s, p, i, ram0, free0, ram, free)
    requires Felled(s, Child(p, i), ram, free, ram', free')
    ensures var f := Node(s.ram, p);
            && f in ram' && f !in free'
            && StillThere(s, ram'[f := ram'[f][i := 0]], free', p, i + 1)
            && Pruned(s, p, i + 1, ram0, free0, ram'[f := ram'[f][i := 0]], free')
  {
    hide Below, BelowFirst, Node, Under, Branch;
    Branches(s, p, i, Node(s.ram, p));
  }

  lemma PruneSkip(s: View, p: Place, i: nat, ram0: Ram, free0: set<nat>, ram: Ram, free: set<nat>)
    requires TreeOk(s) && i < ENTRIES && StillThere(s, ram, free, p, i) && Pruned(s, p, i, ram0, free0, ram, free)
    requires Node(s.ram, Child(p, i)) == 0
    ensures StillThere(s, ram, free, p, i + 1) && Pruned(s, p, i + 1, ram0, free0, ram, free)
  {
    forall g ensures BelowFirst(s, p, i + 1, g) <==> BelowFirst(s, p, i, g) {
      BelowStep(s, p, i, g);
      BelowEmptyEntry(s, p, i, g);
    }
  }

  lemma PruneEnd(s: View, p: Place, ram0: Ram, free0: set<nat>, ram: Ram, free: set<nat>, junk: Page)
    requires TreeOk(s)
    requires StillThere(s, ram, free, p, ENTRIES) && Pruned(s, p, ENTRIES, ram0, free0, ram, free)
    ensures var f := Node(s.ram, p);
            f in ram && f !in free && f < MAXFRAME && Felled(s, p, ram0, free0, ram[f := junk], free + {f})
  {
    hide Below, BelowFirst, Node, TreeOk;
    Whole(s, p);
  }

  lemma Whole(s: View, p: Place)
    requires TreeOk(s) && Node(s.ram, p) in s.owner && s.owner[Node(s.ram, p)] == p
    ensures Node(s.ram, p) < MAXFRAME
    ensures forall g :: Below(s, p, g) <==> g == Node(s.ram, p) || BelowFirst(s, p, ENTRIES, g)
  {
    var f := Node(s.ram, p);
    forall g ensures Below(s, p, g) <==> g == f || BelowFirst(s, p, ENTRIES, g) {
      BelowAll(s, p, g);
      assert g in s.owner && s.owner[g] == p ==> Node(s.ram, p) == g;
    }
  }

  lemma FelledIsGone(s: View, t: View, root: nat)
    requires TreeOk(s) && t.owner == (map g | g in s.owner && RootOf(s.owner[g]) != root :: s.owner[g])
    requires Felled(s, Root(root), s.ram, s.free, t.ram, t.free)
    ensures Gone(s, t, root)
  {
    forall g ensures Below(s, Root(root), g) <==> g in s.owner && RootOf(s.owner[g]) == root {
      if g in s.owner {
        UnderRoot(s.owner[g], root);
      }
    }
  }

  lemma RootStands(s: View, root: nat)
    requires TreeOk(s) && Live(s, root)
    ensures StillThere(s, s.ram, s.free, Root(root), 0) && Node(s.ram, Root(root)) == root
    ensures IsTable(Root(root)) && RootOf(Root(root)) == root
  {
  }

  lemma PruneStart(s: View, p: Place, ram0: Ram, free0: set<nat>)
    ensures Pruned(s, p, 0, ram0, free0, ram0, free0)
  {
  }

  lemma TableStands(s: View, p: Place, n: nat, ram: Ram, free: set<nat>)
    requires StillThere(s, ram, free, p, n)
    ensures Node(s.ram, p) in ram && Node(s.ram, p) !in free
  {
  }

  lemma RoundingKeepsOrder(a: nat, b: nat)
    requires a <= b <= MAXVA
    ensures PageNo(PgRoundUp(a)) <= PageNo(PgRoundUp(b)) <= NPAGES
  {
  }

  lemma PagesAreBytes(lo: nat, hi: nat)
    requires lo <= hi <= NPAGES
    ensures PageNo(PgRoundUp(lo * PGSIZE)) == lo && PageNo(PgRoundUp(hi * PGSIZE)) == hi && PageNo(0) == 0
    ensures lo * PGSIZE <= hi * PGSIZE <= MAXVA && (lo < hi <==> lo * PGSIZE < hi * PGSIZE)
  {
  }

  lemma GrowingUndone(s: View, u: View, w: View, root: nat, lo: nat, mid: nat, hi: nat)
    requires TreeOk(s) && Vacant(s, root, lo, hi) && lo <= mid <= hi && Extended(s, u, root, lo, mid)
    requires if lo < mid then Removed(u, w, root, lo, mid, true) else w == u
    ensures Grown(s, w, root)
  {
    if lo < mid {
      forall c | InRange(c, root, lo, mid) ensures PteAt(s.ram, c) == 0 {
        assert InRange(c, root, lo, hi);
      }
      RemovedAfterExtended(s, u, w, root, lo, mid);
    } else {
      ExtendedWider(s, u, root, lo, mid, 0, 0);
    }
  }

  lemma GrowingEnd(s: View, t: View, root: nat, lo: nat, hi: nat, perm: nat)
    requires GrowingTo(s, t, root, lo, hi, hi, perm)
    ensures Extended(s, t, root, lo, hi) && Zeroed(t, root, lo, hi, perm)
  {
  }

  /** A tree has at most one page of its own at each virtual page of [lo, hi). */
  lemma {:induction false} FewInRange(s: View, root: nat, lo: nat, hi: nat, gs: set<nat>)
    requires TreeOk(s) && lo <= hi <= NPAGES && forall g | g in gs :: g in s.owner && InRange(s.owner[g], root, lo, hi)
    ensures |gs| <= hi - lo
    decreases hi
  {
    if lo == hi {
      assert gs == {};
    } else {
      var b := Node(s.ram, Leaf(root, hi - 1));
      forall g | g in gs - {b} ensures InRange(s.owner[g], root, lo, hi - 1) {
        OnePage(s.owner[g], root, hi - 1);
      }
      FewInRange(s, root, lo, hi - 1, gs - {b});
    }
  }

  /** Unmapping [lo, hi) frees at most that many pages. */
  lemma RemovedFreesFew(s: View, t: View, root: nat, lo: nat, hi: nat)
    requires TreeOk(s) && lo <= hi <= NPAGES
    requires Removed(s, t, root, lo, hi, true) || t == s
    ensures |t.free| <= |s.free| + (hi - lo)
  {
    if t != s {
      var gs := set g | g in s.owner && InRange(s.owner[g], root, lo, hi);
      FewInRange(s, root, lo, hi, gs);
      assert t.free == s.free + gs;
    }
  }

  lemma CopyingUndone(s: View, u: View, w: View, parent: nat, child: nat, mid: nat, n: nat)
    requires TreeOk(s) && Vacant(s, child, 0, n) && mid <= n && Extended(s, u, child, 0, mid)
    requires Removed(u, w, child, 0, mid, true)
    ensures Grown(s, w, child)
  {
    forall c | InRange(c, child, 0, mid) ensures PteAt(s.ram, c) == 0 {
      assert InRange(c, child, 0, n);
    }
    RemovedAfterExtended(s, u, w, child, 0, mid);
  }

  lemma CopyingEnd(s: View, t: View, parent: nat, child: nat, n: nat)
    requires CopyingTo(s, t, parent, child, n, n)
    ensures Extended(s, t, child, 0, n) && Copied(t, parent, child, n)
  {
  }

  /** After the user pages are unmapped nothing but tables is left of a tree. */
  lemma EmptiedOut(s: View, t: View, root: nat, n: nat)
    requires TreeOk(s) && TreeOk(t) && Live(s, root) && Vacant(s, root, n, 2 * NPAGES)
    requires Removed(s, t, root, 0, n, true)
    ensures Live(t, root) && NoPages(t, root) && IsTable(Root(root)) && RootOf(Root(root)) == root
    ensures StillThere(t, t.ram, t.free, Root(root), 0) && Node(t.ram, Root(root)) == root
  {
    RemovedLive(s, t, root, 0, n, true, root);
    forall c | InRange(c, root, 0, 2 * NPAGES) ensures PteAt(t.ram, c) == 0 {
      assert PteAt(t.ram, c) == if InRange(c, root, 0, n) then 0 else PteAt(s.ram, c);
      assert InRange(c, root, n, 2 * NPAGES) ==> PteAt(s.ram, c) == 0;
    }
    NoPagesIf(t, root);
    RootStands(t, root);
  }

  lemma AllGone(s: View, t: View, u: View, root: nat, n: nat)
    requires TreeOk(s) && TreeOk(t) && Removed(s, t, root, 0, n, true) && Gone(t, u, root)
    ensures TreeOk(u) && !Live(u, root)
    ensures forall g :: g in u.free <==> g in s.free || (g in s.owner && RootOf(s.owner[g]) == root)
    ensures forall g :: g in u.owner <==> g in s.owner && RootOf(s.owner[g]) != root
    ensures forall c | IsPage(c) && Live(u, RootOf(c)) :: PteAt(u.ram, c) == PteAt(s.ram, c)
  {
    GoneOk(t, u, root);
    forall c | IsPage(c) && Live(u, RootOf(c)) ensures PteAt(u.ram, c) == PteAt(s.ram, c) {
      RemovedLive(s, t, root, 0, n, true, RootOf(c));
      assert PteAt(t.ram, c) == PteAt(s.ram, c);
    }
  }

  // ---- what the trees mean ----

  /** A page that belongs to a tree is at one place of one tree, and not on the free list. */
  lemma OnePlaceEach(s: View, p: Place, q: Place)
    requires TreeOk(s) && IsPlace(p) && IsPlace(q) && Live(s, RootOf(p)) && Live(s, RootOf(q))
    requires Node(s.ram, p) == Node(s.ram, q) && Node(s.ram, p) in s.owner
    ensures p == q && Node(s.ram, p) !in s.free
  {
    assert IsTable(p) ==> TableAt(s, p);
    assert IsTable(q) ==> TableAt(s, q);
    assert IsPage(p) ==> PageAt(s, p);
    assert IsPage(q) ==> PageAt(s, q);
  }

  /** mappages adds exactly its range to the address space. */
  lemma MapPagesAdds(s: View, t: View, root: nat, lo: nat, hi: nat, f: nat, perm: nat)
    requires Live(s, root) && lo <= hi <= NPAGES && f + (hi - lo) <= MAXFRAME && perm < 1024
    requires MappedSoFar(s, t, root, lo, hi, f, perm)
    ensures Space(t.ram, root) == Space(s.ram, root) + Run(lo, hi, f, perm)
  {
    hide MappedSoFar, PteAt, MkPte;
    forall v | 0 <= v < NPAGES
      ensures PteAt(t.ram, Leaf(root, v))
              == if lo <= v < hi then MkPte(f + (v - lo), perm) else PteAt(s.ram, Leaf(root, v))
      ensures lo <= v < hi ==> PteAt(t.ram, Leaf(root, v)) != 0
    {
      MapPagesAt(s, t, root, lo, hi, f, perm, v);
    }
  }

  lemma MapPagesAt(s: View, t: View, root: nat, lo: nat, hi: nat, f: nat, perm: nat, v: nat)
    requires Live(s, root) && MappedSoFar(s, t, root, lo, hi, f, perm) && v < NPAGES
    ensures PteAt(t.ram, Leaf(root, v))
            == if lo <= v < hi then MkPte(f + (v - lo), perm) else PteAt(s.ram, Leaf(root, v))
    ensures lo <= v < hi ==> MkPte(f + (v - lo), perm) != 0
  {
    LeafIsPage(root, v);
    if lo <= v < hi {
      PteRoundTrip(f + (v - lo), perm);
    }
  }

  /** uvmunmap removes exactly its range from the address space, and no other space changes. */
  lemma UnmapRemoves(s: View, t: View, root: nat, lo: nat, hi: nat, doFree: bool, r: nat)
    requires Live(s, root) && Live(s, r) && Removed(s, t, root, lo, hi, doFree)
    ensures Space(t.ram, root) == Space(s.ram, root) - PageRange(lo, hi)
    ensures r != root ==> Space(t.ram, r) == Space(s.ram, r)
  {
    forall v | 0 <= v < NPAGES
      ensures PteAt(t.ram, Leaf(root, v)) == if lo <= v < hi then 0 else PteAt(s.ram, Leaf(root, v))
      ensures r != root ==> PteAt(t.ram, Leaf(r, v)) == PteAt(s.ram, Leaf(r, v))
    {
      LeafIsPage(root, v);
      LeafIsPage(r, v);
    }
  }

  /** Growing by tables alone, as a failed walk, uvmalloc or uvmcopy does, changes no address space:
      the pages that are no longer free are tables of tree `root`. */
  lemma GrownKeepsSpaces(s: View, t: View, root: nat, r: nat)
    requires TreeOk(s) && Grown(s, t, root) && Live(s, r)
    ensures Space(t.ram, r) == Space(s.ram, r)
    ensures forall g | g in s.free && g !in t.free ::
              g in t.owner && Depth(t.owner[g]) < 3 && RootOf(t.owner[g]) == root
  {
    forall v | 0 <= v < NPAGES ensures PteAt(t.ram, Leaf(r, v)) == PteAt(s.ram, Leaf(r, v)) {
      LeafIsPage(r, v);
    }
  }
}
