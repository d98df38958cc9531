// The free list of user/umalloc.c as a value: the set of its headers' addresses and the memory
// words the headers occupy. What free() and malloc() do to it, and why it stays in order.

module FreeRing {

  const HEADER: int := 16      // sizeof(Header)

  /** `units` headers' worth of memory starting at byte address `addr`. */
  datatype Chunk = Chunk(addr: int, units: int) {
    function End(): int { addr + HEADER * units }
    predicate Holds(x: int) { addr <= x < End() }
  }

  predicate Apart(c: Chunk, d: Chunk) {
    c.End() <= d.addr || d.End() <= c.addr
  }

  function Load(words: map<int, int>, a: int): int {
    if a in words then words[a] else 0
  }

  /** The free list: the addresses of its headers, and the header words in memory. */
  datatype Ring = Ring(at: set<int>, ptr: map<int, int>, size: map<int, int>) {
    function Next(a: int): int { Load(ptr, a) }
    function ChunkAt(a: int): Chunk { Chunk(a, Load(size, a)) }

    ghost predicate Covers(x: int) {
      exists a :: a in at && ChunkAt(a).Holds(x)
    }

    /** The links form one circle in ascending address order that wraps around only to `base`. */
    ghost predicate Circular(base: int) {
      && base in at
      && (forall a | a in at :: a == base || base + HEADER <= a)
      && (forall a {:trigger Next(a)} | a in at :: Next(a) in at)
      && (forall a {:trigger Next(a)} | a in at :: Next(a) == base || a < Next(a))
      && (forall a, c {:trigger Next(a), c in at} | a in at && c in at && a < c :: Next(a) != base && Next(a) <= c)
    }

    /** No chunk reaches beyond the next one, and only chunks in `touching` reach up to it. */
    ghost predicate Gaps(base: int, touching: set<int>) {
      && ChunkAt(base).units == 0
      && (forall a | a in at :: a == base || ChunkAt(a).units > 0)
      && (forall a {:trigger Next(a)} | a in at ::
            Next(a) == base || ChunkAt(a).End() < Next(a) || (a in touching && ChunkAt(a).End() == Next(a)))
    }

    ghost predicate Sorted(base: int, touching: set<int>) {
      Circular(base) && Gaps(base, touching)
    }

    /** Sorted and fully coalesced: no two chunks touch. */
    ghost predicate Ok(base: int) {
      Sorted(base, {})
    }
  }

  /** `p` is the header behind which one at address `bp` belongs. */
  predicate Precedes(r: Ring, base: int, p: int, bp: int) {
    p in r.at && p < bp && (r.Next(p) == base || bp < r.Next(p))
  }

  /** Chunk `b` may be given back: recorded in its header, clear of every chunk of the list. */
  ghost predicate Insertable(r: Ring, base: int, b: Chunk) {
    && base + HEADER <= b.addr && b.units > 0 && r.ChunkAt(b.addr) == b
    && forall a | a in r.at :: Apart(r.ChunkAt(a), b)
  }

  /** `bp` linked in behind `p`. */
  function Spliced(r: Ring, p: int, bp: int): Ring {
    Ring(r.at + {bp}, r.ptr[bp := r.Next(p)][p := bp], r.size)
  }

  /** Chunk `a` joined with the next one, if they touch. */
  function Joined(r: Ring, a: int): Ring {
    var next := r.Next(a);
    if r.ChunkAt(a).End() == next
    then Ring(r.at - {next}, r.ptr[a := r.Next(next)],
              r.size[a := r.ChunkAt(a).units + r.ChunkAt(next).units])
    else r
  }

  lemma SplicedCircular(r: Ring, base: int, p: int, bp: int)
    requires r.Circular(base) && Precedes(r, base, p, bp) && base + HEADER <= bp
    ensures Spliced(r, p, bp).Circular(base)
  {
    var s := Spliced(r, p, bp);
    assert forall a {:trigger s.Next(a)} ::
             s.Next(a) == if a == p then bp else if a == bp then r.Next(p) else r.Next(a);
  }

  lemma SplicedGaps(r: Ring, base: int, p: int, b: Chunk)
    requires r.Circular(base) && r.Gaps(base, {}) && Insertable(r, base, b) && Precedes(r, base, p, b.addr)
    ensures Spliced(r, p, b.addr).Gaps(base, {p, b.addr})
  {
    var s := Spliced(r, p, b.addr);
    assert forall a {:trigger s.Next(a)} ::
             s.Next(a) == if a == p then b.addr else if a == b.addr then r.Next(p) else r.Next(a);
    assert forall a {:trigger s.ChunkAt(a)} :: s.ChunkAt(a) == r.ChunkAt(a);
    assert Apart(r.ChunkAt(p), b) && Apart(r.ChunkAt(r.Next(p)), b);
  }

  lemma JoinedCircular(r: Ring, base: int, a: int)
    requires r.Circular(base) && a in r.at && r.Next(a) != base
    ensures Joined(r, a).Circular(base)
  {
    var s, next := Joined(r, a), r.Next(a);
    assert forall c {:trigger s.Next(c)} ::
             s.Next(c) == if s != r && c == a then r.Next(next) else r.Next(c);
  }

  lemma JoinedGaps(r: Ring, base: int, a: int, touching: set<int>)
    requires r.Circular(base) && r.Gaps(base, touching) && a in r.at
    requires r.Next(a) !in touching && r.Next(a) != base
    ensures Joined(r, a).Gaps(base, touching - {a})
  {
    var s, next := Joined(r, a), r.Next(a);
    assert forall c {:trigger s.Next(c)} ::
             s.Next(c) == if s != r && c == a then r.Next(next) else r.Next(c);
    assert forall c {:trigger s.ChunkAt(c)} :: s.ChunkAt(c) ==
             if s != r && c == a then Chunk(a, r.ChunkAt(a).units + r.ChunkAt(next).units) else r.ChunkAt(c);
  }

  lemma SplicedCovers(r: Ring, base: int, p: int, b: Chunk, x: int)
    requires Insertable(r, base, b)
    ensures Spliced(r, p, b.addr).Covers(x) <==> r.Covers(x) || b.Holds(x)
  {
    var s := Spliced(r, p, b.addr);
    assert s.ChunkAt(b.addr) == b;
    if r.Covers(x) {
      var a :| a in r.at && r.ChunkAt(a).Holds(x);
      assert s.ChunkAt(a).Holds(x);
    }
    if s.Covers(x) {
      var a :| a in s.at && s.ChunkAt(a).Holds(x);
      assert a == b.addr || r.ChunkAt(a).Holds(x);
    }
  }

  lemma JoinedCovers(r: Ring, base: int, a: int, touching: set<int>, x: int)
    requires r.Sorted(base, touching) && a in r.at && r.Next(a) != base
    ensures Joined(r, a).Covers(x) <==> r.Covers(x)
  {
    var s, next := Joined(r, a), r.Next(a);
    if s != r {
      assert next != a && next != base;
      assert s.ChunkAt(a).Holds(x) <==> r.ChunkAt(a).Holds(x) || r.ChunkAt(next).Holds(x);
      if r.Covers(x) {
        var c :| c in r.at && r.ChunkAt(c).Holds(x);
        assert s.ChunkAt(if c == next then a else c).Holds(x);
      }
      if s.Covers(x) {
        var c :| c in s.at && s.ChunkAt(c).Holds(x);
        assert c == a || r.ChunkAt(c).Holds(x);
      }
    }
  }

  /** What free() makes of the list: `bp` linked in behind `p`, then joined with its two neighbours. */
  function Inserted(r: Ring, p: int, bp: int): Ring {
    Joined(Joined(Spliced(r, p, bp), bp), p)
  }

  /** Half way: linked in, and joined with the chunk behind it. */
  lemma HalfInserted(r: Ring, base: int, p: int, b: Chunk)
    requires r.Ok(base) && Insertable(r, base, b) && Precedes(r, base, p, b.addr)
    ensures var s := Spliced(r, p, b.addr);
      && s.Sorted(base, {p, b.addr}) && b.addr in s.at
      && (s.Next(b.addr) == base ==> Joined(s, b.addr) == s)
    ensures var t := Joined(Spliced(r, p, b.addr), b.addr);
      t.Sorted(base, {p}) && p in t.at && t.Next(p) != base
  {
    var s := Spliced(r, p, b.addr);
    SplicedCircular(r, base, p, b.addr);
    SplicedGaps(r, base, p, b);
    assert {p, b.addr} - {b.addr} == {p};
    if s.Next(b.addr) != base {
      JoinedCircular(s, base, b.addr);
      JoinedGaps(s, base, b.addr, {p, b.addr});
    }
  }

  /** Giving back a chunk keeps the list one sorted, fully coalesced circle. */
  lemma InsertedOk(r: Ring, base: int, p: int, b: Chunk)
    requires r.Ok(base) && Insertable(r, base, b) && Precedes(r, base, p, b.addr)
    ensures Inserted(r, p, b.addr).Ok(base) && p in Inserted(r, p, b.addr).at
  {
    HalfInserted(r, base, p, b);
    var t := Joined(Spliced(r, p, b.addr), b.addr);
    JoinedCircular(t, base, p);
    JoinedGaps(t, base, p, {p});
    assert {p} - {p} == {};
  }

  /** ... and adds exactly the memory of `b` to it. */
  lemma InsertedCovers(r: Ring, base: int, p: int, b: Chunk, x: int)
    requires r.Ok(base) && Insertable(r, base, b) && Precedes(r, base, p, b.addr)
    ensures Inserted(r, p, b.addr).Covers(x) <==> r.Covers(x) || b.Holds(x)
  {
    hide Spliced, Joined, Precedes;
    var s := Spliced(r, p, b.addr);
    HalfInserted(r, base, p, b);
    SplicedCovers(r, base, p, b, x);
    if s.Next(b.addr) != base {
      JoinedCovers(s, base, b.addr, {p, b.addr}, x);
    }
    JoinedCovers(Joined(s, b.addr), base, p, {p}, x);
  }

  lemma InsertedHolds(r: Ring, base: int, p: int, b: Chunk)
    requires r.Ok(base) && Insertable(r, base, b) && Precedes(r, base, p, b.addr)
    ensures exists a :: a in Inserted(r, p, b.addr).at && Inserted(r, p, b.addr).ChunkAt(a).units >= b.units
  {
    var s := Inserted(r, p, b.addr);
    InsertedOk(r, base, p, b);
    assert Apart(r.ChunkAt(r.Next(p)), b);
    assert s.ChunkAt(if b.addr in s.at then b.addr else p).units >= b.units;
  }

  // ---- malloc's side: all of chunk `a`, which follows `prev`, or its tail ----

  function Carved(r: Ring, prev: int, a: int, n: int): Ring {
    if r.ChunkAt(a).units == n then Ring(r.at - {a}, r.ptr[prev := r.Next(a)], r.size)
    else Ring(r.at, r.ptr, r.size[a := r.ChunkAt(a).units - n])
  }

  function Taken(r: Ring, a: int, n: int): Chunk {
    Chunk(a + HEADER * (r.ChunkAt(a).units - n), n)
  }

  lemma CarvedCircular(r: Ring, base: int, prev: int, a: int, n: int)
    requires r.Circular(base) && prev in r.at && r.Next(prev) == a && a != base
    ensures Carved(r, prev, a, n).Circular(base) && prev in Carved(r, prev, a, n).at
  {
    var s := Carved(r, prev, a, n);
    assert forall c {:trigger s.Next(c)} ::
             s.Next(c) == if r.ChunkAt(a).units == n && c == prev then r.Next(a) else r.Next(c);
    forall c | c in s.at ensures s.Next(c) in s.at {
      assert c < prev ==> r.Next(c) <= prev;    // so only prev's link leads to a
      assert c > prev ==> r.Next(prev) <= c;
    }
  }

  lemma CarvedGaps(r: Ring, base: int, prev: int, a: int, n: int)
    requires r.Ok(base) && prev in r.at && r.Next(prev) == a && a != base && 0 < n <= r.ChunkAt(a).units
    ensures Carved(r, prev, a, n).Gaps(base, {})
  {
    var s := Carved(r, prev, a, n);
    assert forall c {:trigger s.Next(c)} ::
             s.Next(c) == if r.ChunkAt(a).units == n && c == prev then r.Next(a) else r.Next(c);
    assert forall c {:trigger s.ChunkAt(c)} :: s.ChunkAt(c) ==
             if r.ChunkAt(a).units != n && c == a then Chunk(a, r.ChunkAt(a).units - n) else r.ChunkAt(c);
  }

  /** Taking memory out keeps the list sorted and coalesced; what is taken is clear of what is left. */
  lemma CarvedOk(r: Ring, base: int, prev: int, a: int, n: int)
    requires r.Ok(base) && prev in r.at && r.Next(prev) == a && 0 < n <= r.ChunkAt(a).units
    ensures Carved(r, prev, a, n).Ok(base) && prev in Carved(r, prev, a, n).at
    ensures forall c | c in Carved(r, prev, a, n).at :: Apart(Carved(r, prev, a, n).ChunkAt(c), Taken(r, a, n))
  {
    var s := Carved(r, prev, a, n);
    CarvedCircular(r, base, prev, a, n);
    CarvedGaps(r, base, prev, a, n);
    forall c | c in s.at ensures Apart(s.ChunkAt(c), Taken(r, a, n)) {
      assert c < a ==> r.Next(c) <= a;
      assert c > a ==> r.Next(a) <= c;
    }
  }

  /** The list and the taken chunk together hold exactly what the list held. */
  lemma CarvedCovers(r: Ring, base: int, prev: int, a: int, n: int, x: int)
    requires a in r.at && 0 < n <= r.ChunkAt(a).units
    ensures r.Covers(x) <==> Carved(r, prev, a, n).Covers(x) || Taken(r, a, n).Holds(x)
  {
    var s, t := Carved(r, prev, a, n), Taken(r, a, n);
    if r.Covers(x) {
      var c :| c in r.at && r.ChunkAt(c).Holds(x);
      assert c != a ==> s.ChunkAt(c).Holds(x);
      assert c == a ==> t.Holds(x) || s.ChunkAt(a).Holds(x);
    }
    if s.Covers(x) {
      var c :| c in s.at && s.ChunkAt(c).Holds(x);
      assert r.ChunkAt(c).Holds(x);
    }
    if t.Holds(x) {
      assert r.ChunkAt(a).Holds(x);
    }
  }

  // ---- the list is determined by the memory it covers ----

  lemma HeaderStartsRun(r: Ring, base: int, a: int)
    requires r.Ok(base) && a != base
    ensures a in r.at <==> r.Covers(a) && !r.Covers(a - 1)
  {
    if a in r.at {
      assert r.ChunkAt(a).Holds(a);
      if r.Covers(a - 1) {
        var c :| c in r.at && r.ChunkAt(c).Holds(a - 1);
        var next := r.Next(c);
        assert false;
      }
    } else if r.Covers(a) {
      var c :| c in r.at && r.ChunkAt(c).Holds(a);
      assert r.ChunkAt(c).Holds(a - 1);
    }
  }

  lemma ChunkEndsRun(r: Ring, base: int, a: int)
    requires r.Ok(base) && a in r.at && a != base
    ensures !r.Covers(r.ChunkAt(a).End())
    ensures forall x | a <= x < r.ChunkAt(a).End() :: r.Covers(x)
  {
    var e := r.ChunkAt(a).End();
    if r.Covers(e) {
      var c :| c in r.at && r.ChunkAt(c).Holds(e);
      var next, next' := r.Next(a), r.Next(c);
      assert false;
    }
    forall x | a <= x < e ensures r.Covers(x) {
      assert r.ChunkAt(a).Holds(x);
    }
  }

  /** Two free lists over the same memory are the same list: same headers, same sizes, same links.
      So the list does not depend on the order in which chunks were given back. */
  lemma Canonical(r: Ring, s: Ring, base: int)
    requires r.Ok(base) && s.Ok(base) && forall x :: r.Covers(x) <==> s.Covers(x)
    ensures r.at == s.at
    ensures forall a | a in r.at :: r.ChunkAt(a) == s.ChunkAt(a)
    ensures forall a | a in r.at :: r.Next(a) == s.Next(a)
  {
    forall a ensures a in r.at <==> a in s.at {
      if a != base {
        HeaderStartsRun(r, base, a);
        HeaderStartsRun(s, base, a);
      }
    }
    forall a | a in r.at ensures r.ChunkAt(a) == s.ChunkAt(a) {
      if a != base {
        ChunkEndsRun(r, base, a);
        ChunkEndsRun(s, base, a);
        var e, f := r.ChunkAt(a).End(), s.ChunkAt(a).End();
        assert e < f ==> s.Covers(e);
        assert f < e ==> r.Covers(f);
      }
    }
    forall a | a in r.at ensures r.Next(a) == s.Next(a) {
      assert r.Next(a) in s.at && s.Next(a) in r.at;
    }
  }
}
