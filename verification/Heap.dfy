// The K&R heap of user/umalloc.c.

module HeapFacts {
  import opened FreeRing

  const UINT_MAX: int := 0xFFFF_FFFF
  const ADDR_LIMIT: int := 0x10_0000_0000    // HEADER * 2^32: below it every unit count fits a uint

  /** Units malloc asks for: the payload rounded up, and one for the header. */
  function UnitsFor(nbytes: int): (n: int)
    requires 0 <= nbytes <= UINT_MAX
    ensures n >= 1 && nbytes <= HEADER * (n - 1) < nbytes + HEADER
  {
    (nbytes + HEADER - 1) / HEADER + 1
  }

  /** Units morecore takes from sbrk. */
  function MorecoreUnits(nunits: int): (n: int)
    ensures n >= nunits && n >= 4096 && (n > 4096 ==> n == nunits)
  {
    if nunits < 4096 then 4096 else nunits
  }

  /** The value of sbrk's int parameter when passed `x`. */
  function ToInt(x: int): int {
    var w := x % 0x1_0000_0000;
    if w < 0x8000_0000 then w else w - 0x1_0000_0000
  }

  const SBRK_MAX: int := 0x7FFF_FFE0    // the largest request that sbrk's int parameter can carry

  /** morecore asks sbrk for as much as it then records exactly for requests of at most 2^31 - 32 bytes.
      Above that it asks for a negative number, which takes memory away, and for the largest 31 requests
      it asks for at most one unit and records 2^28 or more. */
  lemma SbrkRequestFits(nbytes: int)
    requires 0 <= nbytes <= UINT_MAX
    ensures var bytes := HEADER * MorecoreUnits(UnitsFor(nbytes));
      && (ToInt(bytes) == bytes <==> nbytes <= SBRK_MAX)
      && (ToInt(bytes) < 0 <==> SBRK_MAX < nbytes <= 0xFFFF_FFE0)
      && (nbytes > 0xFFFF_FFE0 ==> ToInt(bytes) <= HEADER && MorecoreUnits(UnitsFor(nbytes)) >= 0x1000_0000)
  {
  }

  ghost predicate InSome(cs: set<Chunk>, x: int) {
    exists c :: c in cs && c.Holds(x)
  }

  /** Live chunks: recorded in their headers, clear of each other and of the free list. */
  ghost predicate LiveOk(base: int, brk: int, r: Ring, live: set<Chunk>) {
    && (forall c | c in live ::
          c.units > 0 && base + HEADER <= c.addr && c.End() <= brk && r.ChunkAt(c.addr) == c)
    && (forall c, d | c in live && d in live && c != d :: Apart(c, d))
    && (forall c, a | c in live && a in r.at :: Apart(r.ChunkAt(a), c))
  }

  /** Every granted byte is in the free list or in a live chunk (and, the two being apart, in only one). */
  ghost predicate Conserved(granted: set<Chunk>, r: Ring, live: set<Chunk>) {
    forall x :: InSome(granted, x) <==> r.Covers(x) || InSome(live, x)
  }

  lemma ApartByCover(s: Ring, base: int, c: Chunk)
    requires s.Ok(base) && c.units > 0 && base + HEADER <= c.addr
    requires forall x | c.Holds(x) :: !s.Covers(x)
    ensures forall a | a in s.at :: Apart(s.ChunkAt(a), c)
  {
    forall a | a in s.at ensures Apart(s.ChunkAt(a), c) {
      var x := if a < c.addr then c.addr else a;
      assert s.ChunkAt(a).Holds(x) && c.Holds(x) ==> s.Covers(x);
    }
  }

  lemma FreeingStaysClear(base: int, r: Ring, p: int, b: Chunk, c: Chunk)
    requires r.Ok(base) && Insertable(r, base, b) && Precedes(r, base, p, b.addr)
    requires c.units > 0 && base + HEADER <= c.addr && Apart(b, c)
    requires forall a | a in r.at :: Apart(r.ChunkAt(a), c)
    ensures forall a | a in Inserted(r, p, b.addr).at :: Apart(Inserted(r, p, b.addr).ChunkAt(a), c)
  {
    hide Inserted;
    var s := Inserted(r, p, b.addr);
    InsertedOk(r, base, p, b);
    forall x | c.Holds(x) ensures !s.Covers(x) {
      InsertedCovers(r, base, p, b, x);
    }
    ApartByCover(s, base, c);
  }

  lemma FreeingKeepsLive(base: int, brk: int, r: Ring, p: int, b: Chunk, live: set<Chunk>)
    requires r.Ok(base) && Insertable(r, base, b) && Precedes(r, base, p, b.addr)
    requires LiveOk(base, brk, r, live) && b in live
    ensures LiveOk(base, brk, Inserted(r, p, b.addr), live - {b})
  {
    var s := Inserted(r, p, b.addr);
    forall c | c in live - {b}
      ensures s.ChunkAt(c.addr) == c && forall a | a in s.at :: Apart(s.ChunkAt(a), c)
    {
      assert Apart(b, c) && Apart(r.ChunkAt(p), c);
      FreeingStaysClear(base, r, p, b, c);
    }
  }

  lemma FreeingConserves(base: int, granted: set<Chunk>, r: Ring, p: int, b: Chunk, live: set<Chunk>)
    requires r.Ok(base) && Insertable(r, base, b) && Precedes(r, base, p, b.addr)
    requires Conserved(granted, r, live) && b in live
    ensures Conserved(granted, Inserted(r, p, b.addr), live - {b})
  {
    var s := Inserted(r, p, b.addr);
    forall x ensures InSome(granted, x) <==> s.Covers(x) || InSome(live - {b}, x) {
      InsertedCovers(r, base, p, b, x);
      if InSome(live, x) {
        var c :| c in live && c.Holds(x);
        assert c == b || c in live - {b};
      }
    }
  }

  /** The list after malloc has also written the size of the taken chunk into its header. */
  function CarvedMarked(r: Ring, prev: int, a: int, n: int): Ring {
    var u := Carved(r, prev, a, n);
    u.(size := u.size[Taken(r, a, n).addr := n])
  }

  lemma CarvedMarkedOk(r: Ring, base: int, prev: int, a: int, n: int)
    requires r.Ok(base) && prev in r.at && r.Next(prev) == a && 0 < n <= r.ChunkAt(a).units
    ensures CarvedMarked(r, prev, a, n).Ok(base) && prev in CarvedMarked(r, prev, a, n).at
    ensures forall c | c in CarvedMarked(r, prev, a, n).at ::
              && CarvedMarked(r, prev, a, n).ChunkAt(c) == Carved(r, prev, a, n).ChunkAt(c)
              && Apart(CarvedMarked(r, prev, a, n).ChunkAt(c), Taken(r, a, n))
  {
    var u, s := Carved(r, prev, a, n), CarvedMarked(r, prev, a, n);
    CarvedOk(r, base, prev, a, n);
    assert forall c {:trigger s.Next(c)} :: s.Next(c) == u.Next(c);
    assert forall c | c in u.at :: c != Taken(r, a, n).addr && s.ChunkAt(c) == u.ChunkAt(c);
  }

  lemma CarvedMarkedCovers(r: Ring, base: int, prev: int, a: int, n: int, x: int)
    requires r.Ok(base) && prev in r.at && r.Next(prev) == a && 0 < n <= r.ChunkAt(a).units
    ensures r.Covers(x) <==> CarvedMarked(r, prev, a, n).Covers(x) || Taken(r, a, n).Holds(x)
  {
    var u, s := Carved(r, prev, a, n), CarvedMarked(r, prev, a, n);
    CarvedMarkedOk(r, base, prev, a, n);
    CarvedCovers(r, base, prev, a, n, x);
    if u.Covers(x) {
      var c :| c in u.at && u.ChunkAt(c).Holds(x);
      assert s.ChunkAt(c).Holds(x);
    }
    if s.Covers(x) {
      var c :| c in s.at && s.ChunkAt(c).Holds(x);
      assert u.ChunkAt(c).Holds(x);
    }
  }

  lemma CarvingKeepsLive(base: int, brk: int, r: Ring, prev: int, a: int, n: int, live: set<Chunk>)
    requires r.Ok(base) && prev in r.at && r.Next(prev) == a && 0 < n <= r.ChunkAt(a).units
    requires LiveOk(base, brk, r, live) && r.ChunkAt(a).End() <= brk
    ensures LiveOk(base, brk, CarvedMarked(r, prev, a, n), live + {Taken(r, a, n)})
  {
    var t, s := Taken(r, a, n), CarvedMarked(r, prev, a, n);
    CarvedMarkedOk(r, base, prev, a, n);
    forall c | c in live
      ensures s.ChunkAt(c.addr) == c && Apart(c, t) && forall d | d in s.at :: Apart(s.ChunkAt(d), c)
    {
      assert Apart(r.ChunkAt(a), c);
      forall x | c.Holds(x) ensures !s.Covers(x) {
        CarvedMarkedCovers(r, base, prev, a, n, x);
      }
      ApartByCover(s, base, c);
    }
  }

  lemma CarvingConserves(base: int, granted: set<Chunk>, r: Ring, prev: int, a: int, n: int, live: set<Chunk>)
    requires r.Ok(base) && prev in r.at && r.Next(prev) == a && 0 < n <= r.ChunkAt(a).units
    requires Conserved(granted, r, live)
    ensures Conserved(granted, CarvedMarked(r, prev, a, n), live + {Taken(r, a, n)})
  {
    var t := Taken(r, a, n);
    forall x ensures InSome(granted, x) <==> CarvedMarked(r, prev, a, n).Covers(x) || InSome(live + {t}, x) {
      CarvedMarkedCovers(r, base, prev, a, n, x);
      if InSome(live, x) {
        var c :| c in live && c.Holds(x);
        assert c in live + {t};
      }
      if t.Holds(x) { assert t in live + {t}; }
    }
  }

  /** The heap's invariant; `freep` is 0 until the first malloc. */
  ghost predicate HeapOk(base: int, brk: int, freep: int, r: Ring, live: set<Chunk>, granted: set<Chunk>) {
    && 0 < base && base + HEADER <= brk <= ADDR_LIMIT
    && (if freep == 0 then r.at == {} && live == {} && granted == {} else freep in r.at && r.Ok(base))
    && (forall a | a in r.at && a != base :: r.ChunkAt(a).End() <= brk)
    && LiveOk(base, brk, r, live)
    && Conserved(granted, r, live)
    && (forall g | g in granted :: g.End() <= brk)
  }

  lemma HeapList(base: int, brk: int, freep: int, r: Ring, live: set<Chunk>, granted: set<Chunk>)
    requires HeapOk(base, brk, freep, r, live, granted) && freep != 0
    ensures freep in r.at && r.Ok(base) && forall b | b in live :: Insertable(r, base, b)
  {
  }

  lemma TakenClear(base: int, brk: int, freep: int, r: Ring, live: set<Chunk>, granted: set<Chunk>,
                   prev: int, a: int, n: int)
    requires HeapOk(base, brk, freep, r, live, granted) && freep != 0
    requires prev in r.at && r.Next(prev) == a && 0 < n <= r.ChunkAt(a).units
    ensures Taken(r, a, n).addr > 0 && forall d | d in live :: Apart(Taken(r, a, n), d)
  {
    assert forall d | d in live :: Apart(r.ChunkAt(a), d);
  }

  lemma CoversWhatIsNotLive(base: int, brk: int, freep: int, r: Ring, live: set<Chunk>, granted: set<Chunk>, x: int)
    requires HeapOk(base, brk, freep, r, live, granted)
    ensures r.Covers(x) <==> InSome(granted, x) && !InSome(live, x)
  {
    if r.Covers(x) && InSome(live, x) {
      assert false;
    }
  }

  /** The whole free list follows from what sbrk granted and what is live: whatever sequence of malloc
      and free led here, the same blocks, of the same sizes, hang together in the same order. */
  lemma FreeListDetermined(base: int, brk: int, brk': int, freep: int, freep': int, r: Ring, r': Ring,
                           live: set<Chunk>, granted: set<Chunk>)
    requires HeapOk(base, brk, freep, r, live, granted) && HeapOk(base, brk', freep', r', live, granted)
    requires freep != 0 && freep' != 0
    ensures r.at == r'.at
    ensures forall a | a in r.at :: r.ChunkAt(a) == r'.ChunkAt(a) && r.Next(a) == r'.Next(a)
  {
    forall x ensures r.Covers(x) <==> r'.Covers(x) {
      CoversWhatIsNotLive(base, brk, freep, r, live, granted, x);
      CoversWhatIsNotLive(base, brk', freep', r', live, granted, x);
    }
    Canonical(r, r', base);
  }

  /** No chunk's unit count overflows the uint that holds it. */
  lemma SizesFitUint(base: int, brk: int, freep: int, r: Ring, live: set<Chunk>, granted: set<Chunk>, c: Chunk)
    requires HeapOk(base, brk, freep, r, live, granted)
    requires c in live || (c.addr in r.at && c == r.ChunkAt(c.addr))
    ensures 0 <= c.units <= UINT_MAX
  {
  }

  lemma FreeingKeepsBound(base: int, brk: int, r: Ring, p: int, b: Chunk)
    requires r.Ok(base) && Insertable(r, base, b) && Precedes(r, base, p, b.addr) && b.End() <= brk
    requires forall a | a in r.at && a != base :: r.ChunkAt(a).End() <= brk
    ensures forall a | a in Inserted(r, p, b.addr).at && a != base :: Inserted(r, p, b.addr).ChunkAt(a).End() <= brk
  {
    var s := Inserted(r, p, b.addr);
    InsertedOk(r, base, p, b);
    forall a | a in s.at && a != base ensures s.ChunkAt(a).End() <= brk {
      var x := s.ChunkAt(a).End() - 1;
      assert s.ChunkAt(a).Holds(x);
      InsertedCovers(r, base, p, b, x);
    }
  }

  lemma FreeingKeepsHeap(base: int, brk: int, freep: int, r: Ring, p: int, b: Chunk, live: set<Chunk>,
      granted: set<Chunk>)
    requires HeapOk(base, brk, freep, r, live, granted) && b in live && Precedes(r, base, p, b.addr)
    ensures HeapOk(base, brk, p, Inserted(r, p, b.addr), live - {b}, granted)
  {
    FreeingKeepsBound(base, brk, r, p, b);
    InsertedOk(r, base, p, b);
    FreeingKeepsLive(base, brk, r, p, b, live);
    FreeingConserves(base, granted, r, p, b, live);
  }

  lemma GrantConserves(r: Ring, g: Chunk, live: set<Chunk>, granted: set<Chunk>)
    requires Conserved(granted, r, live) && g.addr !in r.at
    ensures Conserved(granted + {g}, r.(size := r.size[g.addr := g.units]), live + {g})
  {
    var s := r.(size := r.size[g.addr := g.units]);
    assert forall a | a in r.at :: s.ChunkAt(a) == r.ChunkAt(a);
    forall x ensures InSome(granted + {g}, x) <==> s.Covers(x) || InSome(live + {g}, x) {
      assert g in granted + {g} && g in live + {g};
      if InSome(granted, x) {
        var c :| c in granted && c.Holds(x);
        assert c in granted + {g};
      }
      if InSome(live, x) {
        var c :| c in live && c.Holds(x);
        assert c in live + {g};
      }
      if r.Covers(x) {
        var a :| a in r.at && r.ChunkAt(a).Holds(x);
        assert s.ChunkAt(a).Holds(x);
      }
      if s.Covers(x) {
        var a :| a in s.at && s.ChunkAt(a).Holds(x);
        assert r.ChunkAt(a).Holds(x);
      }
    }
  }

  /** The chunks that a scan from freep's successor has passed when it reaches `p` are all too small. */
  ghost predicate Passed(r: Ring, freep: int, p: int, n: int) {
    forall a | a in r.at && (if p > freep then freep < a < p else a > freep || a < p) :: r.ChunkAt(a).units < n
  }

  ghost predicate AllSmaller(r: Ring, n: int) {
    forall a | a in r.at :: r.ChunkAt(a).units < n
  }

  /** malloc's loop is looking at `p`, which follows `prevp`. */
  ghost predicate ScanAt(r: Ring, freep: int, prevp: int, p: int, n: int) {
    prevp in r.at && p == r.Next(prevp) && p in r.at && Passed(r, freep, p, n)
  }

  lemma NothingListed(base: int, brk: int, freep: int, r: Ring, live: set<Chunk>, granted: set<Chunk>, n: int)
    requires HeapOk(base, brk, freep, r, live, granted) && freep == 0
    ensures AllSmaller(r, n)
  {
  }

  lemma ScanStart(base: int, r: Ring, freep: int, n: int)
    requires r.Ok(base) && freep in r.at
    ensures ScanAt(r, freep, freep, r.Next(freep), n)
  {
    assert forall a | a in r.at :: base <= a;
  }

  /** How much of the scan is left: whether the wrap-around is still ahead, and the headers beyond `p`. */
  function Above(r: Ring, p: int): set<int> {
    set c | c in r.at && c > p
  }

  lemma ScanStep(base: int, r: Ring, freep: int, prevp: int, p: int, n: int)
    requires r.Ok(base) && freep in r.at && ScanAt(r, freep, prevp, p, n) && r.ChunkAt(p).units < n
    ensures p == freep ==> AllSmaller(r, n)
    ensures p != freep ==> ScanAt(r, freep, p, r.Next(p), n)
    ensures p != freep ==> (p > freep && r.Next(p) <= freep)
                           || ((p > freep <==> r.Next(p) > freep) && Above(r, r.Next(p)) < Above(r, p))
  {
    assert forall a | a in r.at :: base <= a;
    var next := r.Next(p);
    if p < next {
      assert next in Above(r, p) && next !in Above(r, next);
    }
  }

  lemma GrantKeepsLive(base: int, brk: int, r: Ring, g: Chunk, live: set<Chunk>)
    requires LiveOk(base, brk, r, live) && base + HEADER <= brk <= g.addr && g.units > 0
    requires forall a | a in r.at :: r.ChunkAt(a).End() <= brk && a != g.addr
    ensures LiveOk(base, g.End(), r.(size := r.size[g.addr := g.units]), live + {g})
  {
    var s := r.(size := r.size[g.addr := g.units]);
    assert forall a | a in r.at :: s.ChunkAt(a) == r.ChunkAt(a);
    assert forall c | c in live :: s.ChunkAt(c.addr) == c && Apart(c, g);
  }

  lemma GrantKeepsHeap(base: int, brk: int, freep: int, r: Ring, g: Chunk, live: set<Chunk>, granted: set<Chunk>)
    requires HeapOk(base, brk, freep, r, live, granted) && freep != 0
    requires brk <= g.addr && g.units > 0 && g.End() <= ADDR_LIMIT
    ensures HeapOk(base, g.End(), freep, r.(size := r.size[g.addr := g.units]), live + {g}, granted + {g})
    ensures g !in live
  {
    hide LiveOk, Conserved;
    var s := r.(size := r.size[g.addr := g.units]);
    assert forall c {:trigger s.Next(c)} :: s.Next(c) == r.Next(c);
    assert forall a | a in r.at :: a != g.addr && s.ChunkAt(a) == r.ChunkAt(a);
    GrantKeepsLive(base, brk, r, g, live);
    GrantConserves(r, g, live, granted);
    NotYetLive(base, brk, r, g, live);
  }

  lemma NotYetLive(base: int, brk: int, r: Ring, g: Chunk, live: set<Chunk>)
    requires LiveOk(base, brk, r, live) && brk <= g.addr && g.units > 0
    ensures g !in live
  {
  }

  lemma CarvingKeepsHeap(base: int, brk: int, freep: int, r: Ring, prev: int, a: int, n: int,
                         live: set<Chunk>, granted: set<Chunk>)
    requires HeapOk(base, brk, freep, r, live, granted) && freep != 0
    requires prev in r.at && r.Next(prev) == a && 0 < n <= r.ChunkAt(a).units
    ensures HeapOk(base, brk, prev, CarvedMarked(r, prev, a, n), live + {Taken(r, a, n)}, granted)
  {
    CarvedMarkedOk(r, base, prev, a, n);
    CarvingKeepsLive(base, brk, r, prev, a, n, live);
    CarvingConserves(base, granted, r, prev, a, n, live);
  }

}

module Heap {
  import opened FreeRing
  import opened HeapFacts

  class Heap {
    const base: int              // address of the static Header `base`
    var ptr: map<int, int>       // s.ptr of the header at an address
    var size: map<int, int>      // s.size of the header at an address
    var freep: int               // 0 until the first malloc

    ghost var at: set<int>       // the addresses of the free list's headers
    ghost var live: set<Chunk>   // allocated and not yet freed, headers included
    ghost var granted: set<Chunk>   // what sbrk has handed out
    ghost var brk: int           // everything granted lies below

    ghost function Free(): Ring
      reads this
    {
      Ring(at, ptr, size)
    }

    ghost predicate Valid()
      reads this
    {
      HeapOk(base, brk, freep, Free(), live, granted)
    }

    constructor (baseAddr: int, heapStart: int)
      requires 0 < baseAddr && baseAddr + HEADER <= heapStart <= ADDR_LIMIT
      ensures Valid() && base == baseAddr && brk == heapStart
      ensures freep == 0 && live == {} && granted == {}
    {
      base, ptr, size, freep := baseAddr, map[], map[], 0;
      at, live, granted, brk := {}, {}, {}, heapStart;
    }

    /** free()'s search: walk the circle from freep to the place where a header at `bp` belongs. */
    method FindPlace(bp: int) returns (p: int)
      requires Free().Ok(base) && freep in at && base < bp && bp !in at
      ensures Precedes(Free(), base, p, bp)
    {
      p := freep;
      while !(bp > p && bp < Load(ptr, p))
        invariant p in at
        decreases p > bp, set c | c in at && c > p
      {
        var next := Load(ptr, p);
        assert next == Free().Next(p);
        if p >= next && (bp > p || bp < next) {
          break;
        }
        ghost var above, above' := set c | c in at && c > p, set c | c in at && c > next;
        assert next > p ==> next in above && next !in above' && above' < above;
        p := next;
      }
      assert Load(ptr, p) == Free().Next(p);
    }

    /** free()'s relinking, first half: `bp`, which belongs behind `p`, joined with what follows `p` if they
        touch. */
    method JoinNext(p: int, bp: int)
      requires p != bp && Load(ptr, p) != bp
      requires bp + HEADER * Load(size, bp) != p
      modifies this`ptr, this`size
      ensures var t := Joined(Spliced(old(Free()), p, bp), bp); ptr[p := bp] == t.ptr && size == t.size
    {
      if bp + HEADER * Load(size, bp) == Load(ptr, p) {
        size := size[bp := Load(size, bp) + Load(size, Load(ptr, p))];
        ptr := ptr[bp := Load(ptr, Load(ptr, p))];
      } else {
        ptr := ptr[bp := Load(ptr, p)];
      }
    }

    /** free()'s relinking: join `bp` with what follows `p`, then with `p` itself, where they touch. */
    method Relink(p: int, bp: int)
      requires p != bp && Load(ptr, p) != bp
      requires bp + HEADER * Load(size, bp) != p
      modifies this`ptr, this`size
      ensures ptr == Inserted(old(Free()), p, bp).ptr && size == Inserted(old(Free()), p, bp).size
    {
      hide Spliced;
      ghost var t := Joined(Spliced(Free(), p, bp), bp);
      JoinNext(p, bp);
      assert t.Next(p) == bp && t.Next(bp) == Load(ptr, bp);
      if p + HEADER * Load(size, p) == bp {
        size := size[p := Load(size, p) + Load(size, bp)];
        ptr := ptr[p := Load(ptr, bp)];
      } else {
        ptr := ptr[p := bp];
      }
    }

    /** Put a live chunk back on the free list, joining it with the neighbours it touches. */
    method FreeChunk(ap: int, ghost b: Chunk)
      requires Valid() && b in live && ap == b.addr + HEADER
      modifies this
      ensures Valid() && freep != 0
      ensures live == old(live) - {b}
      ensures Precedes(old(Free()), base, freep, b.addr)
      ensures Free() == Inserted(old(Free()), freep, b.addr)
      ensures brk == old(brk) && granted == old(granted)
    {
      var bp := ap - HEADER;
      assert Apart(Free().ChunkAt(freep), b);
      assert bp !in at;
      var p := FindPlace(bp);
      Relink(p, bp);
      freep := p;
      ghost var r := old(Free());
      at := Inserted(r, p, bp).at;
      assert Free() == Inserted(r, p, bp);
      FreeingKeepsHeap(base, brk, old(freep), r, p, b, live, granted);
      live := live - {b};
    }

    /** Get at least `nu` more units; `grant` is what sbrk answers: -1, or an address at or above the break.
        The new chunk counts as live for a moment, until free() has put it on the list. */
    method Morecore(nu: int, grant: int) returns (p: int)
      requires Valid() && freep != 0 && 0 < nu
      requires grant == -1 || (brk <= grant && grant + HEADER * MorecoreUnits(nu) <= ADDR_LIMIT)
      modifies this
      ensures Valid() && freep != 0 && freep in at && Free().Ok(base) && live == old(live)
      ensures grant == -1 ==> p == 0 && freep == old(freep) && Free() == old(Free()) && brk == old(brk)
                              && granted == old(granted)
      ensures grant != -1 ==> var g := Chunk(grant, MorecoreUnits(nu));
                              && p == freep && brk == g.End() && granted == old(granted) + {g}
                              && Free() == Inserted(old(Free().(size := size[grant := g.units])), freep, grant)
                              && !AllSmaller(Free(), nu)
    {
      hide HeapOk, Insertable, Precedes, Inserted;
      HeapList(base, brk, freep, Free(), live, granted);
      var n := nu;
      if n < 4096 {
        n := 4096;
      }
      if grant == -1 {
        return 0;
      }
      ghost var g := Chunk(grant, n);
      GrantKeepsHeap(base, brk, freep, Free(), g, live, granted);
      size := size[grant := n];
      live, granted, brk := live + {g}, granted + {g}, g.End();
      ghost var r := Free();
      HeapList(base, brk, freep, r, live, granted);
      FreeChunk(grant + HEADER, g);
      HeapList(base, brk, freep, Free(), live, granted);
      InsertedHolds(r, base, freep, g);
      p := freep;
    }

    /** The first malloc: a list of `base` alone. */
    method InitList()
      requires Valid() && freep == 0
      modifies this
      ensures Valid() && freep == base && freep != 0 && at == {base} && Free().ChunkAt(base).units == 0
      ensures live == old(live) && granted == old(granted) && brk == old(brk)
    {
      freep := base;
      ptr := ptr[base := base];
      size := size[base := 0];
      at := {base};
    }

    /** malloc's good case: unlink chunk `p`, which follows `prevp`, or cut its tail off. */
    method Take(prevp: int, p: int, nunits: int) returns (ap: int)
      requires Valid() && freep != 0 && nunits > 0
      requires prevp in at && p == Free().Next(prevp) && Free().ChunkAt(p).units >= nunits
      modifies this
      ensures Valid() && freep == prevp && freep != 0
      ensures Free() == CarvedMarked(old(Free()), prevp, p, nunits)
      ensures var c := Chunk(ap - HEADER, nunits);
              && c == Taken(old(Free()), p, nunits)
              && live == old(live) + {c} && forall d | d in old(live) :: Apart(c, d)
      ensures ap > 0 && granted == old(granted) && brk == old(brk)
    {
      hide HeapOk;
      ghost var r := Free();
      CarvingKeepsHeap(base, brk, freep, r, prevp, p, nunits, live, granted);
      TakenClear(base, brk, freep, r, live, granted, prevp, p, nunits);
      var a := p;
      if Load(size, a) == nunits {
        ptr := ptr[prevp := Load(ptr, a)];
        size := size[a := nunits];
        at := at - {p};
      } else {
        size := size[a := Load(size, a) - nunits];
        a := a + HEADER * Load(size, a);
        size := size[a := nunits];
      }
      assert Free() == CarvedMarked(r, prevp, p, nunits);
      freep := prevp;
      live := live + {Chunk(a, nunits)};
      ap := a + HEADER;
    }

    /** Next fit: scan the circle from freep's successor for a chunk of at least nunits units, calling
        morecore once the scan has come round. */
    method Malloc(nbytes: int, grant: int) returns (ap: int)
      requires Valid() && 0 <= nbytes <= UINT_MAX
      // Larger requests must be served by the list or refused by sbrk, whose int parameter cannot carry them.
      requires nbytes <= SBRK_MAX || grant == -1 || (freep != 0 && !AllSmaller(Free(), UnitsFor(nbytes)))
      requires nbytes <= SBRK_MAX ==>
                 grant == -1 || (brk <= grant && grant + HEADER * MorecoreUnits(UnitsFor(nbytes)) <= ADDR_LIMIT)
      modifies this
      ensures Valid() && freep != 0
      // Failure: sbrk refused, nothing on the list is big enough, and no memory has moved.
      ensures ap == 0 ==> grant == -1 && live == old(live) && granted == old(granted)
      ensures ap == 0 ==> AllSmaller(Free(), UnitsFor(nbytes))
      // Success: one new live chunk with room for nbytes behind its header, clear of all others.
      ensures ap != 0 ==> var c := Chunk(ap - HEADER, UnitsFor(nbytes));
                          && live == old(live) + {c}
                          && ap + nbytes <= c.End()
                          && forall d | d in old(live) :: Apart(c, d)
      // The break moves only if the list held nothing big enough.
      ensures granted != old(granted) ==>
                && AllSmaller(old(Free()), UnitsFor(nbytes))
                && granted == old(granted) + {Chunk(grant, MorecoreUnits(UnitsFor(nbytes)))}
    {
      hide HeapOk, Passed, AllSmaller, Ring.Sorted;
      var nunits := UnitsFor(nbytes);
      var prevp := freep;
      if prevp == 0 {
        NothingListed(base, brk, freep, Free(), live, granted, nunits);
        InitList();
        prevp := freep;
      }
      HeapList(base, brk, freep, Free(), live, granted);
      ScanStart(base, Free(), freep, nunits);
      ghost var start := Free();
      var p := Load(ptr, prevp);
      ghost var grown := false;
      while true
        invariant Valid() && freep != 0 && live == old(live)
        invariant freep in at && Free().Ok(base)
        invariant AllSmaller(start, nunits) ==> AllSmaller(old(Free()), nunits) && (nbytes <= SBRK_MAX || grant == -1)
        invariant ScanAt(Free(), freep, prevp, p, nunits)
        invariant !grown ==> Free() == start && granted == old(granted) && brk == old(brk)
        invariant grown ==> AllSmaller(old(Free()), nunits) && !AllSmaller(Free(), nunits)
        invariant grown ==> granted == old(granted) + {Chunk(grant, MorecoreUnits(nunits))}
        decreases !grown, p > freep, Above(Free(), p)
      {
        if Load(size, p) >= nunits {
          ap := Take(prevp, p, nunits);
          return;
        }
        ScanStep(base, Free(), freep, prevp, p, nunits);
        if p == freep {
          p := Morecore(nunits, grant);
          if p == 0 {
            return 0;
          }
          grown := true;
          ScanStart(base, Free(), freep, nunits);
        }
        prevp, p := p, Load(ptr, p);
      }
    }
  }
}
