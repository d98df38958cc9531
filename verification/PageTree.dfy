// The three-level page table (kernel/vm.c, kernel/riscv.h) as a value: physical pages of 512 words, the
// place of each page in each tree, and what single changes to a tree do. A page is named by its number,
// its physical address divided by PGSIZE.

module Pte {

  const PGSIZE: nat := 4096
  const ENTRIES: nat := 512
  const MAXVA: nat := 0x40_0000_0000
  const NPAGES: nat := 0x400_0000          // MAXVA / PGSIZE
  const MAXFRAME: nat := 0x1000_0000_0000  // physical page numbers have 44 bits

  type Word = x: int | 0 <= x < 0x1_0000_0000_0000_0000
  type Page = p: seq<Word> | |p| == ENTRIES witness seq(ENTRIES, _ => 0)

  /** A page filled with one byte, as memset leaves it. */
  function Filled(c: Word): Page
    requires c < 256
  {
    seq(ENTRIES, _ => c * 0x0101_0101_0101_0101)
  }

  predicate Valid(e: Word) { e % 2 == 1 }               // PTE_V
  predicate IsLeaf(e: Word) { e / 2 % 8 != 0 }          // any of PTE_R, PTE_W, PTE_X
  predicate User(e: Word) { e / 16 % 2 == 1 }           // PTE_U
  function Flags(e: Word): Word { e % 1024 }            // PTE_FLAGS
  function Frame(e: Word): nat { e / 1024 }             // PTE2PA, as a page number

  /** PA2PTE(pa) | flags | PTE_V. */
  function MkPte(f: nat, flags: nat): Word
    requires f < MAXFRAME && flags < 1024
  {
    f * 1024 + (if flags % 2 == 0 then flags + 1 else flags)
  }

  lemma PteRoundTrip(f: nat, flags: nat)
    requires f < MAXFRAME && flags < 1024
    ensures var e := MkPte(f, flags);
            && Valid(e) && Frame(e) == f && Flags(e) == (if flags % 2 == 0 then flags + 1 else flags)
            && (IsLeaf(e) <==> flags / 2 % 8 != 0) && (User(e) <==> flags / 16 % 2 == 1)
  {
    var g := if flags % 2 == 0 then flags + 1 else flags;
    Split(f, g);
    assert g / 2 == flags / 2 && g / 16 == flags / 16;
  }

  lemma Split(f: nat, g: nat)
    requires g < 1024
    ensures (f * 1024 + g) / 1024 == f && (f * 1024 + g) % 1024 == g && (f * 1024 + g) % 2 == g % 2
    ensures (f * 1024 + g) / 2 % 8 == g / 2 % 8 && (f * 1024 + g) / 16 % 2 == g / 16 % 2
  {
    assert (f * 1024 + g) / 2 == f * 512 + g / 2;
    assert (f * 1024 + g) / 16 == f * 64 + g / 16;
  }

  /** The page an entry refers to; 0 is none. */
  function Target(e: Word): nat {
    if Valid(e) then Frame(e) else 0
  }

  /** The 9-bit index of a virtual address at one level. */
  function PX(level: nat, va: nat): (i: nat)
    requires level <= 2
    ensures i < ENTRIES
  {
    (if level == 0 then va / 0x1000 else if level == 1 then va / 0x20_0000 else va / 0x4000_0000) % 512
  }

  function PageNo(a: nat): nat { a / PGSIZE }

  /** Permissions that make a last-level entry a mapping. */
  predicate LeafPerm(perm: nat) {
    perm < 1024 && perm / 2 % 8 != 0
  }

  lemma PageNoOf(v: nat)
    ensures PageNo(v * PGSIZE) == v && v * PGSIZE % PGSIZE == 0
  {
  }

  lemma Rounding(a: nat)
    ensures PgRoundDown(a) == PageNo(a) * PGSIZE && PgRoundDown(a) <= a < PgRoundDown(a) + PGSIZE
    ensures PgRoundUp(a) == PageNo(PgRoundUp(a)) * PGSIZE && a <= PgRoundUp(a) < a + PGSIZE
    ensures a < MAXVA ==> PageNo(a) < NPAGES
    ensures a <= MAXVA ==> PageNo(PgRoundUp(a)) <= NPAGES
  {
  }

  function PgRoundDown(a: nat): nat { a - a % PGSIZE }
  function PgRoundUp(a: nat): nat { PgRoundDown(a + PGSIZE - 1) }
}

module PageTree {
  import opened Pte

  type Ram = map<nat, Page>

  /** A position in a tree of tables: three levels of tables below each other, then the mapped pages. */
  datatype Place = Root(r: nat) | Child(up: Place, i: nat)

  function Depth(p: Place): nat {
    match p case Root(_) => 0 case Child(up, _) => Depth(up) + 1
  }

  function RootOf(p: Place): nat {
    match p case Root(r) => r case Child(up, _) => RootOf(up)
  }

  predicate IsPlace(p: Place) {
    p.Child? ==> IsPlace(p.up) && p.i < ENTRIES && Depth(p.up) < 3
  }

  predicate IsTable(p: Place) { IsPlace(p) && Depth(p) < 3 }
  predicate IsPage(p: Place) { IsPlace(p) && Depth(p) == 3 }

  function Entry(ram: Ram, f: nat, i: nat): Word {
    if f in ram && i < ENTRIES then ram[f][i] else 0
  }

  /** The page at a place; 0 is none. */
  function Node(ram: Ram, p: Place): nat {
    match p
    case Root(r) => r
    case Child(up, i) => Target(Entry(ram, Node(ram, up), i))
  }

  /** The page-table entry of a place, 0 if it is not valid or has no table to be in. */
  function PteAt(ram: Ram, c: Place): Word
    requires c.Child?
  {
    var e := Entry(ram, Node(ram, c.up), c.i);
    if Valid(e) then e else 0
  }

  /** The place of virtual page `v`. */
  function Leaf(root: nat, v: nat): Place {
    Child(Child(Child(Root(root), v / 0x4_0000), v / 512 % 512), v % 512)
  }

  function Vpn(c: Place): nat {
    match c
    case Child(Child(Child(_, i2), i1), i0) => i2 * 0x4_0000 + i1 * 512 + i0
    case _ => 0
  }

  /** Physical memory, which place each page that is part of a tree has, and the pages on the free list.
      Other pages are held by somebody else. */
  datatype View = View(ram: Ram, owner: map<nat, Place>, free: set<nat>)

  predicate Live(s: View, r: nat) {
    r in s.owner && s.owner[r] == Root(r)
  }

  /** Interior entries carry PTE_V alone; entries of the last level map something. The upper half of the
      root is beyond MAXVA. */
  predicate EntryOk(e: Word, depth: nat, i: nat) {
    Valid(e) ==> && 0 < Frame(e) < MAXFRAME
                 && (if depth < 2 then Flags(e) == 1 && (depth == 0 ==> i < 256) else IsLeaf(e))
  }

  predicate TableOk(p: Page, depth: nat) {
    forall i | 0 <= i < ENTRIES :: EntryOk(p[i], depth, i)
  }

  predicate FramesOk(s: View) {
    && 0 !in s.ram && (forall f | f in s.ram :: f < MAXFRAME)
    && s.owner.Keys <= s.ram.Keys && s.free <= s.ram.Keys && s.owner.Keys !! s.free
  }

  ghost predicate OwnersOk(s: View) {
    forall f | f in s.owner ::
      IsPlace(s.owner[f]) && Live(s, RootOf(s.owner[f])) && Node(s.ram, s.owner[f]) == f
  }

  ghost predicate TableAt(s: View, p: Place) {
    var f := Node(s.ram, p);
    f != 0 ==> f in s.ram && f in s.owner && s.owner[f] == p && TableOk(s.ram[f], Depth(p))
  }

  ghost predicate PageAt(s: View, c: Place) {
    var f := Node(s.ram, c);
    f != 0 ==> (f in s.owner ==> s.owner[f] == c) && f !in s.free
  }

  /** Every page in a tree is at exactly one place, and the pages mapped are in no other place and
      not on the free list. */
  ghost predicate TreeOk(s: View) {
    && FramesOk(s) && OwnersOk(s)
    && (forall p {:trigger TableAt(s, p)} | IsTable(p) && Live(s, RootOf(p)) :: TableAt(s, p))
    && (forall c {:trigger PageAt(s, c)} | IsPage(c) && Live(s, RootOf(c)) :: PageAt(s, c))
  }

  /** Not a table of any tree. */
  predicate NoTable(s: View, f: nat) {
    f in s.owner ==> Depth(s.owner[f]) == 3
  }
}

module PageMoves {
  import opened Pte
  import opened PageTree

  lemma Digits(v: nat, a: nat, b: nat, d: nat)
    requires v == a * 0x4_0000 + b * 512 + d && b < 512 && d < 512
    ensures v / 0x4_0000 == a && v / 512 % 512 == b && v % 512 == d
  {
    assert v / 512 == a * 512 + b;
    assert (a * 512 + b) / 512 == a;
    assert v / 0x4_0000 == v / 512 / 512;
  }

  lemma PageShape(c: Place)
    requires IsPage(c)
    ensures c.Child? && c.up.Child? && c.up.up.Child? && c.up.up.up.Root?
    ensures c.i < 512 && c.up.i < 512 && c.up.up.i < 512 && RootOf(c) == c.up.up.up.r
  {
    assert Depth(c.up) == 2 && IsPlace(c.up);
    assert Depth(c.up.up) == 1 && IsPlace(c.up.up);
    assert Depth(c.up.up.up) == 0;
    assert RootOf(c) == RootOf(c.up) == RootOf(c.up.up);
  }

  lemma LeafIsPage(root: nat, v: nat)
    requires v < 2 * NPAGES
    ensures IsPage(Leaf(root, v)) && RootOf(Leaf(root, v)) == root && Vpn(Leaf(root, v)) == v
  {
    var c := Leaf(root, v);
    assert Depth(c.up.up.up) == 0 && Depth(c.up.up) == 1 && Depth(c.up) == 2 && Depth(c) == 3;
    assert IsPlace(c.up.up.up) && IsPlace(c.up.up) && IsPlace(c.up);
    assert v == v / 512 * 512 + v % 512 && v / 512 == v / 512 / 512 * 512 + v / 512 % 512;
    assert v / 512 / 512 == v / 0x4_0000;
    assert RootOf(c) == RootOf(c.up) == RootOf(c.up.up) == RootOf(c.up.up.up);
  }

  lemma PageIsLeaf(c: Place)
    requires IsPage(c)
    ensures c == Leaf(RootOf(c), Vpn(c))
  {
    PageShape(c);
    Digits(Vpn(c), c.up.up.i, c.up.i, c.i);
  }

  /** The indices the walk uses are the places of the page. */
  lemma WalkIndices(root: nat, va: nat)
    requires va < MAXVA
    ensures Leaf(root, va / PGSIZE)
            == Child(Child(Child(Root(root), PX(2, va)), PX(1, va)), PX(0, va))
    ensures PX(2, va) < 256 && va / PGSIZE < NPAGES
  {
    assert va / PGSIZE / 512 == va / 0x20_0000;
    assert va / PGSIZE / 0x4_0000 == va / 0x4000_0000;
  }

  // ---- writing a page that is no table ----

  lemma {:induction false} StrayNode(s: View, f: nat, data: Page, q: Place)
    requires TreeOk(s) && f in s.ram && NoTable(s, f) && IsPlace(q) && Live(s, RootOf(q))
    ensures Node(s.ram[f := data], q) == Node(s.ram, q)
  {
    if q.Child? {
      StrayNode(s, f, data, q.up);
      assert TableAt(s, q.up);
    }
  }

  lemma StrayKeeps(s: View, f: nat, data: Page)
    requires TreeOk(s) && f in s.ram && NoTable(s, f)
    ensures TreeOk(s.(ram := s.ram[f := data]))
    ensures forall q | IsPlace(q) && Live(s, RootOf(q)) :: Node(s.ram[f := data], q) == Node(s.ram, q)
    ensures forall c | IsPage(c) && Live(s, RootOf(c)) :: PteAt(s.ram[f := data], c) == PteAt(s.ram, c)
  {
    var t := s.(ram := s.ram[f := data]);
    forall q | IsPlace(q) && Live(s, RootOf(q)) ensures Node(t.ram, q) == Node(s.ram, q) {
      StrayNode(s, f, data, q);
    }
    forall q | IsTable(q) && Live(s, RootOf(q)) ensures TableAt(t, q) {
      assert TableAt(s, q);
    }
    forall c | IsPage(c) && Live(s, RootOf(c)) ensures PageAt(t, c) {
      assert PageAt(s, c);
    }
    assert OwnersOk(t);
    forall c | IsPage(c) && Live(s, RootOf(c)) ensures PteAt(t.ram, c) == PteAt(s.ram, c) {
      assert Node(t.ram, c.up) == Node(s.ram, c.up);
    }
  }

  // ---- changing one entry of a table ----

  function Put(ram: Ram, f: nat, i: nat, e: Word): Ram
    requires f in ram && i < ENTRIES
  {
    ram[f := ram[f][i := e]]
  }

  /** An entry of a last-level table, or an empty entry that receives an empty table. */
  predicate MayPut(s: View, p: Place, i: nat, e: Word) {
    && IsTable(p) && Live(s, RootOf(p)) && i < ENTRIES && Node(s.ram, p) in s.ram && EntryOk(e, Depth(p), i)
    && (Depth(p) == 2 || (&& !Valid(s.ram[Node(s.ram, p)][i]) && Valid(e)
                          && Frame(e) in s.ram && Frame(e) !in s.owner && s.ram[Frame(e)] == Filled(0)))
  }

  lemma {:induction false} PutNode(s: View, p: Place, i: nat, e: Word, q: Place)
    requires TreeOk(s) && MayPut(s, p, i, e) && IsPlace(q) && Live(s, RootOf(q))
    ensures Node(Put(s.ram, Node(s.ram, p), i, e), q) == if q == Child(p, i) then Target(e) else Node(s.ram, q)
  {
    if q.Child? {
      PutNode(s, p, i, e, q.up);
      var f, g := Node(s.ram, p), Node(s.ram, q.up);
      assert TableAt(s, p) && TableAt(s, q.up);
      if q.up == Child(p, i) {
        assert g == 0;
      }
    }
  }

  lemma PutLeafPtes(s: View, p: Place, i: nat, e: Word, c: Place)
    requires TreeOk(s) && MayPut(s, p, i, e) && Depth(p) == 2 && IsPage(c) && Live(s, RootOf(c))
    ensures PteAt(Put(s.ram, Node(s.ram, p), i, e), c)
            == if c == Child(p, i) then (if Valid(e) then e else 0) else PteAt(s.ram, c)
  {
    PutNode(s, p, i, e, c.up);
    assert TableAt(s, p) && TableAt(s, c.up);
  }

  /** What entering or removing a mapping in a last-level table makes of a tree. */
  ghost function LeafPut(s: View, p: Place, i: nat, e: Word): View
    requires MayPut(s, p, i, e)
  {
    View(Put(s.ram, Node(s.ram, p), i, e), s.owner - {Node(s.ram, Child(p, i))}, s.free)
  }

  /** The rest of the tree stays in place. */
  ghost predicate Moved(s: View, t: View, c: Place, n: nat) {
    && (forall r :: Live(t, r) <==> Live(s, r))
    && (forall q {:trigger Node(t.ram, q)} | IsPlace(q) && Live(s, RootOf(q)) ::
          Node(t.ram, q) == if q == c then n else Node(s.ram, q))
  }

  lemma LeafPutMoves(s: View, p: Place, i: nat, e: Word)
    requires TreeOk(s) && MayPut(s, p, i, e) && Depth(p) == 2
    ensures Moved(s, LeafPut(s, p, i, e), Child(p, i), Target(e))
    ensures forall c {:trigger PteAt(LeafPut(s, p, i, e).ram, c)} | IsPage(c) && Live(s, RootOf(c)) ::
              PteAt(LeafPut(s, p, i, e).ram, c)
              == if c == Child(p, i) then (if Valid(e) then e else 0) else PteAt(s.ram, c)
  {
    var c, x := Child(p, i), Node(s.ram, Child(p, i));
    var t := LeafPut(s, p, i, e);
    assert IsPage(c) && RootOf(c) == RootOf(p) && PageAt(s, c);
    assert x in s.owner ==> x != 0;
    forall q | IsPlace(q) && Live(s, RootOf(q))
      ensures Node(t.ram, q) == if q == c then Target(e) else Node(s.ram, q)
    {
      PutNode(s, p, i, e, q);
    }
    forall d | IsPage(d) && Live(s, RootOf(d))
      ensures PteAt(t.ram, d) == if d == c then (if Valid(e) then e else 0) else PteAt(s.ram, d)
    {
      PutLeafPtes(s, p, i, e, d);
    }
  }

  /** A mapping entered or removed in a last-level table. */
  lemma LeafPutOk(s: View, p: Place, i: nat, e: Word)
    requires TreeOk(s) && MayPut(s, p, i, e) && Depth(p) == 2
    requires Valid(e) ==> Frame(e) !in s.owner && Frame(e) !in s.free
    ensures TreeOk(LeafPut(s, p, i, e))
  {
    var f, c, t := Node(s.ram, p), Child(p, i), LeafPut(s, p, i, e);
    LeafPutMoves(s, p, i, e);
    assert TableAt(s, p) && PageAt(s, c) && IsPage(c);
    LeafPutOwners(s, p, i, e);
    forall q | IsTable(q) && Live(s, RootOf(q)) ensures TableAt(t, q) {
      LeafPutTable(s, p, i, e, q);
    }
    forall d | IsPage(d) && Live(s, RootOf(d)) ensures PageAt(t, d) {
      assert PageAt(s, d);
    }
  }

  lemma LeafPutOwners(s: View, p: Place, i: nat, e: Word)
    requires TreeOk(s) && MayPut(s, p, i, e) && Depth(p) == 2
    requires Moved(s, LeafPut(s, p, i, e), Child(p, i), Target(e))
    ensures OwnersOk(LeafPut(s, p, i, e))
  {
    var c, t := Child(p, i), LeafPut(s, p, i, e);
    forall g | g in t.owner ensures Node(t.ram, t.owner[g]) == g && Live(t, RootOf(t.owner[g])) {
      assert Node(s.ram, s.owner[g]) == g;
    }
  }

  lemma LeafPutTable(s: View, p: Place, i: nat, e: Word, q: Place)
    requires TreeOk(s) && MayPut(s, p, i, e) && Depth(p) == 2 && IsTable(q) && Live(s, RootOf(q))
    requires Moved(s, LeafPut(s, p, i, e), Child(p, i), Target(e))
    ensures TableAt(LeafPut(s, p, i, e), q)
  {
    var x := Node(s.ram, Child(p, i));
    assert TableAt(s, p) && TableAt(s, q);
    assert PageAt(s, Child(p, i));
  }

  /** What hanging a new table `b` below an existing one makes of a tree. */
  ghost function TablePut(s: View, p: Place, i: nat, b: nat): View
    requires b < MAXFRAME && MayPut(s, p, i, MkPte(b, 0))
  {
    View(Put(s.ram, Node(s.ram, p), i, MkPte(b, 0)), s.owner[b := Child(p, i)], s.free)
  }

  predicate MayHang(s: View, p: Place, i: nat, b: nat) {
    Depth(p) < 2 && b < MAXFRAME && MayPut(s, p, i, MkPte(b, 0)) && b !in s.free
  }

  /** No live place maps page `b`. */
  ghost predicate Unmapped(s: View, b: nat) {
    forall c {:trigger Node(s.ram, c)} | IsPage(c) && Live(s, RootOf(c)) :: Node(s.ram, c) != b
  }

  /** No translation changes. */
  lemma TablePutMoves(s: View, p: Place, i: nat, b: nat)
    requires TreeOk(s) && MayHang(s, p, i, b)
    ensures Moved(s, TablePut(s, p, i, b), Child(p, i), b)
    ensures forall c {:trigger PteAt(TablePut(s, p, i, b).ram, c)} | IsPage(c) && Live(s, RootOf(c)) ::
              PteAt(TablePut(s, p, i, b).ram, c) == PteAt(s.ram, c)
  {
    var t, c, e := TablePut(s, p, i, b), Child(p, i), MkPte(b, 0);
    PteRoundTrip(b, 0);
    assert TableAt(s, p);
    forall q | IsPlace(q) && Live(s, RootOf(q))
      ensures Node(t.ram, q) == if q == c then b else Node(s.ram, q)
    {
      PutNode(s, p, i, e, q);
    }
    forall d | IsPage(d) && Live(s, RootOf(d)) ensures PteAt(t.ram, d) == PteAt(s.ram, d) {
      assert Node(t.ram, d.up) == if d.up == c then b else Node(s.ram, d.up);
      assert TableAt(s, d.up);
    }
  }

  lemma TablePutOk(s: View, p: Place, i: nat, b: nat)
    requires TreeOk(s) && MayHang(s, p, i, b) && Unmapped(s, b)
    ensures TreeOk(TablePut(s, p, i, b))
  {
    var t, c := TablePut(s, p, i, b), Child(p, i);
    TablePutMoves(s, p, i, b);
    PteRoundTrip(b, 0);
    assert TableAt(s, p) && IsTable(c) && RootOf(c) == RootOf(p);
    TablePutOwners(s, p, i, b);
    forall q | IsTable(q) && Live(s, RootOf(q)) ensures TableAt(t, q) {
      TablePutTable(s, p, i, b, q);
    }
    forall q | IsPage(q) && Live(s, RootOf(q)) ensures PageAt(t, q) {
      assert PageAt(s, q);
    }
  }

  lemma TablePutOwners(s: View, p: Place, i: nat, b: nat)
    requires TreeOk(s) && MayHang(s, p, i, b)
    requires Moved(s, TablePut(s, p, i, b), Child(p, i), b)
    ensures OwnersOk(TablePut(s, p, i, b))
  {
    var c, t := Child(p, i), TablePut(s, p, i, b);
    PteRoundTrip(b, 0);
    forall g | g in t.owner
      ensures IsPlace(t.owner[g]) && Node(t.ram, t.owner[g]) == g && Live(t, RootOf(t.owner[g]))
    {
      assert g != b ==> Node(s.ram, s.owner[g]) == g;
    }
  }

  lemma TablePutTable(s: View, p: Place, i: nat, b: nat, q: Place)
    requires TreeOk(s) && MayHang(s, p, i, b) && IsTable(q) && Live(s, RootOf(q))
    requires Moved(s, TablePut(s, p, i, b), Child(p, i), b)
    ensures TableAt(TablePut(s, p, i, b), q)
  {
    assert TableAt(s, p) && TableAt(s, q);
    PteRoundTrip(b, 0);
  }

  /** A held page that one place maps becomes part of that tree. */
  lemma Adopted(s: View, c: Place, b: nat)
    requires TreeOk(s) && IsPage(c) && Live(s, RootOf(c)) && Node(s.ram, c) == b
    requires b in s.ram && b !in s.owner
    requires forall d | IsPage(d) && Live(s, RootOf(d)) && d != c :: Node(s.ram, d) != b
    ensures TreeOk(s.(owner := s.owner[b := c]))
    ensures forall r :: Live(s.(owner := s.owner[b := c]), r) <==> Live(s, r)
  {
    var t := s.(owner := s.owner[b := c]);
    forall r ensures Live(t, r) <==> Live(s, r) {
      assert c != Root(b);
    }
    forall q | IsTable(q) && Live(t, RootOf(q)) ensures TableAt(t, q) {
      assert TableAt(s, q);
    }
    forall d | IsPage(d) && Live(t, RootOf(d)) ensures PageAt(t, d) {
      assert PageAt(s, d) && PageAt(s, c);
    }
  }

  ghost function Rooted(s: View, b: nat): View {
    s.(owner := s.owner[b := Root(b)])
  }

  lemma RootedLive(s: View, b: nat)
    ensures forall r :: Live(Rooted(s, b), r) <==> r == b || Live(s, r)
  {
    forall r ensures Live(Rooted(s, b), r) <==> r == b || Live(s, r) {
    }
  }

  /** An empty table becomes a tree of its own. */
  lemma NewRoot(s: View, b: nat)
    requires TreeOk(s) && b in s.ram && b !in s.owner && b !in s.free && s.ram[b] == Filled(0)
    requires Unmapped(s, b)
    ensures TreeOk(Rooted(s, b))
    ensures forall r :: Live(Rooted(s, b), r) <==> r == b || Live(s, r)
    ensures forall c | IsPage(c) && RootOf(c) == b :: PteAt(s.ram, c) == 0
  {
    RootedLive(s, b);
    var t := Rooted(s, b);
    forall q | IsTable(q) && Live(t, RootOf(q)) ensures TableAt(t, q) {
      if RootOf(q) == b {
        BareTable(t, b, q);
      } else {
        assert TableAt(s, q);
      }
    }
    forall q | IsPage(q) && Live(t, RootOf(q)) ensures PageAt(t, q) {
      if RootOf(q) == b {
        BareRoot(s.ram, b, q);
      } else {
        assert PageAt(s, q);
      }
    }
    forall c | IsPage(c) && RootOf(c) == b ensures PteAt(s.ram, c) == 0 {
      BareRoot(s.ram, b, c.up);
      assert Depth(c.up) == 2;
    }
  }

  lemma BareTable(t: View, b: nat, q: Place)
    requires 0 !in t.ram && Live(t, b) && b in t.ram && t.ram[b] == Filled(0) && RootOf(q) == b
    ensures TableAt(t, q)
  {
    BareRoot(t.ram, b, q);
  }

  lemma {:induction false} BareRoot(ram: Ram, b: nat, q: Place)
    requires 0 !in ram && b in ram && ram[b] == Filled(0) && RootOf(q) == b
    ensures Node(ram, q) == if q == Root(b) then b else 0
  {
    if q.Child? {
      BareRoot(ram, b, q.up);
    }
  }
}
