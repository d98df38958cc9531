// What the operations of kernel/fs.c keep true of the block tree, the free bitmap and the bytes of a
// file, stated on values.

module FsFacts {
  import opened FsBlocks
  import opened FsTree

  const BPB: nat := 8192    // bits per bitmap block
  const IPB: nat := 16      // inodes per block

  predicate Used(bitmap: seq<bv8>, b: nat)
    requires b < 8 * |bitmap|
  {
    TestBit(bitmap[b / 8], Bit(b % 8))
  }

  function Marked(bitmap: seq<bv8>, b: nat): seq<bv8>
    requires b < 8 * |bitmap|
  {
    bitmap[b / 8 := bitmap[b / 8] | Bit(b % 8)]
  }

  function Cleared(bitmap: seq<bv8>, b: nat): seq<bv8>
    requires b < 8 * |bitmap|
  {
    bitmap[b / 8 := bitmap[b / 8] & !Bit(b % 8)]
  }

  lemma MarkedUsed(bitmap: seq<bv8>, b: nat, c: nat)
    requires b < 8 * |bitmap| && c < 8 * |bitmap|
    ensures Used(Marked(bitmap, b), c) <==> c == b || Used(bitmap, c)
    ensures Used(Cleared(bitmap, b), c) <==> c != b && Used(bitmap, c)
  {
    if b / 8 == c / 8 {
      var x, m, n := bitmap[b / 8], Bit(b % 8), Bit(c % 8);
      BitsAreSeparate(x, m, n);
      BitsDiffer(b % 8, c % 8);
    }
  }

  /** Conservation: a block's bit is set exactly if it is a metadata block or is reachable, and every
      reachable block is reachable from one place only. */
  ghost predicate FsOk(nmeta: nat, bitmap: seq<bv8>, s: Store, owner: map<nat, Place>) {
    && Owned(s, nmeta, owner) && nmeta <= |s.blk| <= 8 * |bitmap|
    && forall b | 0 <= b < |s.blk| :: Used(bitmap, b) <==> b < nmeta || b in owner
  }

  lemma OkOwned(nmeta: nat, bitmap: seq<bv8>, s: Store, owner: map<nat, Place>)
    requires FsOk(nmeta, bitmap, s, owner)
    ensures Owned(s, nmeta, owner)
  {
  }

  lemma EachSame(s: Store)
    requires Shaped(s)
    ensures forall i | 0 <= i < |s.inodes| :: SameFile(s, s, i)
  {
    forall i | 0 <= i < |s.inodes| ensures SameFile(s, s, i) {
      SameFileReflexive(s, i);
    }
  }

  lemma FileReadable(nmeta: nat, bitmap: seq<bv8>, s: Store, owner: map<nat, Place>, inum: nat)
    requires FsOk(nmeta, bitmap, s, owner) && inum < |s.inodes|
    ensures Shaped(s) && |s.blk| <= 8 * |bitmap| && (NoHoles(s, inum) ==> s.inodes[inum].size <= MAXFILE * BSIZE)
  {
  }

  lemma MetadataMarked(nmeta: nat, bitmap: seq<bv8>, s: Store, owner: map<nat, Place>)
    requires FsOk(nmeta, bitmap, s, owner)
    ensures Shaped(s) && 0 < nmeta <= |s.blk| <= 8 * |bitmap| && forall b | 0 <= b < nmeta :: Used(bitmap, b)
  {
  }

  lemma BlockInRange(nmeta: nat, bitmap: seq<bv8>, s: Store, owner: map<nat, Place>, inum: nat, bn: nat)
    requires FsOk(nmeta, bitmap, s, owner) && inum < |s.inodes| && bn < MAXFILE
    ensures BlockOf(s, inum, bn) < |s.blk|
  {
    assert BlockOf(s, inum, bn) != 0 ==> BlockOf(s, inum, bn) in owner;
  }

  /** off + n < off in 32-bit unsigned arithmetic. */
  predicate WrapsAround(off: nat, n: nat): (b: bool)
    requires off < UINT && n < UINT
    ensures b <==> off + n >= UINT
  {
    (off + n) % UINT < off
  }

  predicate Full(bitmap: seq<bv8>, size: nat)
    requires size <= 8 * |bitmap|
  {
    forall b | 0 <= b < size :: Used(bitmap, b)
  }

  lemma HungOk(nmeta: nat, bitmap: seq<bv8>, s: Store, owner: map<nat, Place>, p: Place, b: nat)
    requires FsOk(nmeta, bitmap, s, owner) && IsPlace(s, p) && At(s, p) == 0
    requires b < |s.blk| && !Used(bitmap, b)
    requires p.Entry? ==> s.inodes[p.inum].addrs[NDIRECT] != 0
    ensures nmeta <= b && b !in owner
    ensures FsOk(nmeta, Marked(bitmap, b), Hung(s, p, b), owner[b := p])
    ensures Allocated(s, Hung(s, p, b), p.inum, p, b)
  {
    HungOwned(s, nmeta, owner, p, b);
    HungAt(s, nmeta, owner, p, b, p);
    HungAt(s, nmeta, owner, p, b, Indirect(p.inum));
    forall c | 0 <= c < |s.blk| ensures Used(Marked(bitmap, b), c) <==> c < nmeta || c in owner[b := p] {
      MarkedUsed(bitmap, b, c);
    }
    forall i | 0 <= i < |s.inodes|
      ensures KeepsBlocks(s, Hung(s, p, b), i, p)
      ensures i != p.inum ==> SameFile(s, Hung(s, p, b), i)
    {
      HungKeepsBlocks(s, nmeta, owner, p, b, i);
    }
  }

  function BlockAt(s: Store, p: Place): nat {
    if Shaped(s) && IsPlace(s, p) then At(s, p) else 0
  }

  lemma UnhungOk(nmeta: nat, bitmap: seq<bv8>, s: Store, owner: map<nat, Place>, p: Place)
    requires FsOk(nmeta, bitmap, s, owner) && MayUnhang(s, p)
    ensures At(s, p) < |s.blk| && Used(bitmap, At(s, p))
    ensures FsOk(nmeta, Cleared(bitmap, At(s, p)), Unhung(s, p), owner - {At(s, p)})
    ensures forall q | IsPlace(s, q) :: BlockAt(Unhung(s, p), q) == if q == p then 0 else At(s, q)
    ensures forall i | 0 <= i < |s.inodes| && i != p.inum :: SameFile(s, Unhung(s, p), i)
  {
    var b := At(s, p);
    assert b in owner;
    UnhungOwned(s, nmeta, owner, p);
    forall c | 0 <= c < |s.blk| ensures Used(Cleared(bitmap, b), c) <==> c < nmeta || c in owner - {b} {
      MarkedUsed(bitmap, b, c);
    }
    forall q | IsPlace(s, q) ensures BlockAt(Unhung(s, p), q) == if q == p then 0 else At(s, q) {
      UnhungAt(s, nmeta, owner, p, q);
    }
    forall i | 0 <= i < |s.inodes| && i != p.inum ensures SameFile(s, Unhung(s, p), i) {
      UnhungKeepsOthers(s, nmeta, owner, p, i);
    }
  }

  lemma WrittenOk(nmeta: nat, bitmap: seq<bv8>, s: Store, owner: map<nat, Place>, p: Place, data: Block)
    requires FsOk(nmeta, bitmap, s, owner) && IsPlace(s, p) && !p.Indirect? && At(s, p) != 0
    ensures At(s, p) < |s.blk|
    ensures FsOk(nmeta, bitmap, Written(s, At(s, p), data), owner)
    ensures forall i | 0 <= i < |s.inodes| :: KeepsBlocks(s, Written(s, At(s, p), data), i, p)
    ensures BlockAt(Written(s, At(s, p), data), p) == At(s, p)
    ensures forall i | 0 <= i < |s.inodes| && i != p.inum :: SameFile(s, Written(s, At(s, p), data), i)
  {
    var a := At(s, p);
    assert a in owner && owner[a] == p;
    WrittenAt(s, nmeta, owner, a, data, p);
    forall i | 0 <= i < |s.inodes|
      ensures KeepsBlocks(s, Written(s, a, data), i, p) && (i != p.inum ==> SameFile(s, Written(s, a, data), i))
      ensures Owned(Written(s, a, data), nmeta, owner)
    {
      WrittenKeeps(s, nmeta, owner, a, data, i);
    }
    WrittenKeeps(s, nmeta, owner, a, data, p.inum);
  }

  lemma SameFileTransitive(s: Store, t: Store, u: Store, i: nat)
    requires SameFile(s, t, i) && SameFile(t, u, i)
    ensures SameFile(s, u, i)
  {
    assert forall bn | 0 <= bn < MAXFILE :: BlockOf(s, i, bn) == BlockOf(t, i, bn);
  }

  lemma KeepsBlocksTransitive(s: Store, t: Store, u: Store, i: nat, p: Place, q: Place)
    requires KeepsBlocks(s, t, i, p) && KeepsBlocks(t, u, i, q) && p.Indirect?
    ensures KeepsBlocks(s, u, i, q)
  {
    assert forall bn | 0 <= bn < MAXFILE :: BlockOf(s, i, bn) == BlockOf(t, i, bn);
  }

  lemma SameFileReflexive(s: Store, i: nat)
    requires Shaped(s) && i < |s.inodes|
    ensures SameFile(s, s, i)
  {
  }

  /** Looking up place `p` of file `inum`, with allocation: it now holds `addr`; if it held a block
      before, nothing changed; and no byte of any file moved. */
  ghost predicate Allocated(s: Store, t: Store, inum: nat, p: Place, addr: nat) {
    && Shaped(s) && Shaped(t) && |s.inodes| == |t.inodes| && |s.blk| == |t.blk|
    && inum < |s.inodes| && p.inum == inum && IsPlace(s, p) && IsPlace(t, p) && At(t, p) == addr
    && (At(s, p) != 0 ==> t == s)
    && (At(s, p) == 0 && addr != 0 && !p.Indirect? ==> addr < |t.blk| && t.blk[addr] == ZeroBlock())
    && KeepsBlocks(s, t, inum, p)
    && (forall i | 0 <= i < |s.inodes| && i != inum :: SameFile(s, t, i))
    && (At(s, Indirect(inum)) != 0 ==> At(t, Indirect(inum)) == At(s, Indirect(inum)))
  }

  lemma NothingAllocated(s: Store, inum: nat, p: Place)
    requires Shaped(s) && inum < |s.inodes| && p.inum == inum && IsPlace(s, p)
    ensures Allocated(s, s, inum, p, At(s, p))
  {
    forall i | 0 <= i < |s.inodes| ensures SameFile(s, s, i) {
      SameFileReflexive(s, i);
    }
  }

  lemma AllocatedAt(s: Store, t: Store, inum: nat, p: Place, addr: nat)
    requires Allocated(s, t, inum, p, addr)
    ensures Shaped(s) && Shaped(t) && IsPlace(s, p) && IsPlace(t, p) && BlockAt(t, p) == At(t, p) == addr
    ensures inum < |s.inodes| == |t.inodes| && |s.blk| == |t.blk| && t.inodes[inum].size == s.inodes[inum].size
  {
  }

  lemma AllocatedComposes(s: Store, t: Store, u: Store, inum: nat, j: nat, ind: nat, addr: nat)
    requires Allocated(s, t, inum, Indirect(inum), ind) && ind != 0 && Allocated(t, u, inum, Entry(inum, j), addr)
    ensures Allocated(s, u, inum, Entry(inum, j), addr)
  {
    KeepsBlocksTransitive(s, t, u, inum, Indirect(inum), Entry(inum, j));
    assert PlaceOf(inum, NDIRECT + j) == Entry(inum, j);
    assert BlockOf(s, inum, NDIRECT + j) == BlockOf(t, inum, NDIRECT + j);
    forall i | 0 <= i < |s.inodes| && i != inum ensures SameFile(s, u, i) {
      SameFileTransitive(s, t, u, i);
    }
  }

  // ---- readi's loop ----

  lemma NoHolesNoneMissing(s: Store, inum: nat, off: nat, len: nat)
    requires Shaped(s) && inum < |s.inodes| && NoHoles(s, inum) && off + len <= s.inodes[inum].size
    ensures NoneMissing(s, inum, off, len)
  {
  }

  /** No block that the `len` bytes at `off` of file `inum` lie in is unmapped. */
  predicate NoneMissing(s: Store, inum: nat, off: nat, len: nat)
    requires Shaped(s) && inum < |s.inodes|
  {
    forall bn | 0 <= bn < MAXFILE && len > 0 && off < (bn + 1) * BSIZE && bn * BSIZE < off + len ::
      BlockOf(s, inum, bn) != 0
  }

  /** `t` is `s`, except that more of file `inum`'s blocks may be mapped, to zeros: all files read the same. */
  ghost predicate OnlyMapped(s: Store, t: Store, inum: nat) {
    && Shaped(s) && Shaped(t) && inum < |s.inodes| == |t.inodes| && |s.blk| == |t.blk|
    && t.inodes[inum] == s.inodes[inum].(addrs := t.inodes[inum].addrs) && s.inodes[inum].size <= MAXFILE * BSIZE
    && Content(t, inum) == Content(s, inum)
    && (forall i | 0 <= i < |s.inodes| && i != inum :: SameFile(s, t, i))
    && (forall p {:trigger BlockAt(t, p)} | IsPlace(s, p) && p.inum == inum && At(s, p) != 0 ::
          BlockAt(t, p) == At(s, p))
  }

  /** Place `w` of file `inum` was empty and is not. */
  predicate Filled(s: Store, t: Store, inum: nat, w: Place) {
    w.inum == inum && BlockAt(s, w) == 0 && BlockAt(t, w) != 0
  }

  /** What the inode itself must hold for block `bn` to be found: the block's number or the indirect block's. */
  function PointerOf(inum: nat, bn: nat): Place {
    if bn < NDIRECT then Direct(inum, bn) else Indirect(inum)
  }

  /** No block that the `len` bytes at `off` lie in lacks its pointer in the inode. */
  predicate PointersThere(s: Store, inum: nat, off: nat, len: nat) {
    forall bn | 0 <= bn < MAXFILE && len > 0 && off < (bn + 1) * BSIZE && bn * BSIZE < off + len ::
      BlockAt(s, PointerOf(inum, bn)) != 0
  }

  /** Where the way to place `p`, which holds no block, ends. */
  function FirstMissing(s: Store, p: Place): Place {
    if p.Entry? && BlockAt(s, Indirect(p.inum)) == 0 then Indirect(p.inum) else p
  }

  lemma OnlyMappedStart(s: Store, inum: nat)
    requires Shaped(s) && inum < |s.inodes| && s.inodes[inum].size <= MAXFILE * BSIZE
    ensures OnlyMapped(s, s, inum) && NoneMissing(s, inum, 0, 0)
  {
    forall i | 0 <= i < |s.inodes| ensures SameFile(s, s, i) {
      SameFileReflexive(s, i);
    }
  }

  lemma AllocatedOnlyMaps(s0: Store, s: Store, t: Store, inum: nat, bn: nat, addr: nat)
    requires OnlyMapped(s0, s, inum) && bn < MAXFILE && Allocated(s, t, inum, PlaceOf(inum, bn), addr)
    ensures OnlyMapped(s0, t, inum)
  {
    forall k | 0 <= k < MAXFILE * BSIZE ensures ByteAt(t, inum, k) == ByteAt(s, inum, k) {
      MappingKeepsBytes(s, t, inum, bn, addr, k);
    }
    assert Content(t, inum) == Content(s, inum);
    forall i | 0 <= i < |s0.inodes| && i != inum ensures SameFile(s0, t, i) {
      SameFileTransitive(s0, s, t, i);
    }
    forall p | IsPlace(s0, p) && p.inum == inum && At(s0, p) != 0 ensures BlockAt(t, p) == At(s0, p) {
      assert BlockAt(s, p) == At(s0, p);
      PlaceKept(s, t, inum, bn, addr, p);
    }
  }

  lemma PlaceKept(s: Store, t: Store, inum: nat, bn: nat, addr: nat, p: Place)
    requires bn < MAXFILE && Allocated(s, t, inum, PlaceOf(inum, bn), addr)
    requires IsPlace(s, p) && p.inum == inum && At(s, p) != 0
    ensures BlockAt(t, p) == At(s, p)
  {
    match p
    case Direct(_, i) =>
      assert PlaceOf(inum, i) == p && BlockOf(s, inum, i) == At(s, p);
    case Indirect(_) =>
    case Entry(_, j) =>
      assert PlaceOf(inum, NDIRECT + j) == p && BlockOf(s, inum, NDIRECT + j) == At(s, p);
  }

  /** readi has read up to `mid` of the bytes from `off` to `end`; if it has mapped a block, `w` is where it
      did so first. */
  ghost predicate Reading(s0: Store, full0: bool, s: Store, inum: nat, off: nat, mid: nat, end: nat, w: Place,
                          changed: bool) {
    && OnlyMapped(s0, s, inum) && off <= mid <= end
    && (if changed then Filled(s0, s, inum, w) && !full0 && !NoneMissing(s0, inum, off, end - off)
                       && (if w.Entry? then s.inodes == s0.inodes && PointersThere(s0, inum, off, end - off)
                           else !PointersThere(s0, inum, off, end - off))
        else s == s0 && NoneMissing(s0, inum, off, mid - off))
  }

  lemma ReadingStart(s: Store, full: bool, inum: nat, off: nat, end: nat, w: Place)
    requires Shaped(s) && inum < |s.inodes| && s.inodes[inum].size <= MAXFILE * BSIZE && off <= end
    ensures Reading(s, full, s, inum, off, off, end, w, false)
  {
    OnlyMappedStart(s, inum);
  }

  /** One turn: `m` bytes of block `addr`, or none, where the block was missing and none could be had. */
  lemma ReadingNext(s0: Store, full0: bool, s: Store, t: Store, inum: nat, off: nat, mid: nat, end: nat, w: Place,
                    changed: bool, addr: nat, m: nat, full: bool) returns (w2: Place, more: bool)
    requires Reading(s0, full0, s, inum, off, mid, end, w, changed) && mid < end <= s0.inodes[inum].size
    requires Allocated(s, t, inum, PlaceOf(inum, mid / BSIZE), addr) && (m == 0 <==> addr == 0)
    requires m <= end - mid && mid % BSIZE + m <= BSIZE && (!changed ==> full == full0)
    requires BlockOf(s, inum, mid / BSIZE) == 0 ==>
      if full then addr == 0 && t == s else Filled(s, t, inum, FirstMissing(s, PlaceOf(inum, mid / BSIZE)))
    requires BlockAt(s, PointerOf(inum, mid / BSIZE)) != 0 ==> t.inodes == s.inodes
    ensures Reading(s0, full0, t, inum, off, mid + m, end, w2, more)
    ensures m == 0 ==> !NoneMissing(s0, inum, off, end - off) && (more || full0)
    ensures !more ==> !changed && (BlockOf(s, inum, mid / BSIZE) != 0 || full)
    ensures Shaped(t) && inum < |t.inodes| == |s0.inodes| && t.inodes[inum].size == s0.inodes[inum].size
    ensures Content(t, inum) == Content(s0, inum)
  {
    var missing := BlockOf(s, inum, mid / BSIZE) == 0;
    w2 := if changed then w else FirstMissing(s, PlaceOf(inum, mid / BSIZE));
    more := changed || (missing && !full);
    AllocatedOnlyMaps(s0, s, t, inum, mid / BSIZE, addr);
    InRange(off, mid, end);
    if changed {
      PlaceKept(s, t, inum, mid / BSIZE, addr, w);
    } else if missing {
      MissingHere(s0, inum, off, mid, end);
      if !full && w2.Entry? {
        EntryPointers(s0, inum, off, mid, end);
      }
    } else {
      StillNoneMissing(s0, inum, off, mid, m);
    }
  }

  lemma StillNoneMissing(s: Store, inum: nat, off: nat, mid: nat, m: nat)
    requires Shaped(s) && inum < |s.inodes| && off <= mid < MAXFILE * BSIZE && NoneMissing(s, inum, off, mid - off)
    requires BlockOf(s, inum, mid / BSIZE) != 0 && mid % BSIZE + m <= BSIZE
    ensures NoneMissing(s, inum, off, mid + m - off)
  {
    forall bn | 0 <= bn < MAXFILE && off < (bn + 1) * BSIZE && bn * BSIZE < mid + m ensures BlockOf(s, inum, bn) != 0 {
      if mid < (bn + 1) * BSIZE && bn * BSIZE <= mid + m {
        assert bn == mid / BSIZE;
      }
    }
  }

  lemma MissingHere(s: Store, inum: nat, off: nat, mid: nat, end: nat)
    requires Shaped(s) && inum < |s.inodes| && off <= mid < end <= MAXFILE * BSIZE && BlockOf(s, inum, mid / BSIZE) == 0
    ensures !NoneMissing(s, inum, off, end - off)
  {
    assert mid / BSIZE * BSIZE <= mid < (mid / BSIZE + 1) * BSIZE;
  }

  lemma InRange(off: nat, mid: nat, end: nat)
    requires off <= mid < end <= MAXFILE * BSIZE
    ensures mid / BSIZE < MAXFILE && off < (mid / BSIZE + 1) * BSIZE && mid / BSIZE * BSIZE < end
  {
  }

  lemma EntryPointers(s: Store, inum: nat, off: nat, mid: nat, end: nat)
    requires Shaped(s) && inum < |s.inodes| && off <= mid < end && NoneMissing(s, inum, off, mid - off)
    requires mid / BSIZE >= NDIRECT && BlockAt(s, Indirect(inum)) != 0
    ensures PointersThere(s, inum, off, end - off)
  {
    forall bn | 0 <= bn < NDIRECT && off < (bn + 1) * BSIZE ensures BlockAt(s, PointerOf(inum, bn)) != 0 {
      assert bn * BSIZE < (bn + 1) * BSIZE <= mid;
      assert BlockOf(s, inum, bn) != 0;
    }
  }

  lemma MappedPointers(s: Store, inum: nat, off: nat, len: nat)
    requires Shaped(s) && inum < |s.inodes| && NoneMissing(s, inum, off, len)
    ensures PointersThere(s, inum, off, len)
  {
    forall bn | 0 <= bn < MAXFILE && BlockOf(s, inum, bn) != 0 ensures BlockAt(s, PointerOf(inum, bn)) != 0 {
    }
  }

  lemma ReadingSame(s0: Store, full0: bool, s: Store, inum: nat, off: nat, mid: nat, end: nat, w: Place, changed: bool)
    requires Reading(s0, full0, s, inum, off, mid, end, w, changed)
    ensures Shaped(s0) && Shaped(s) && inum < |s.inodes| == |s0.inodes| && |s.blk| == |s0.blk|
    ensures s.inodes[inum].size == s0.inodes[inum].size <= MAXFILE * BSIZE && Content(s, inum) == Content(s0, inum)
  {
  }

  lemma ReadingEnds(s0: Store, full0: bool, s: Store, inum: nat, off: nat, mid: nat, end: nat, w: Place, changed: bool)
    requires Reading(s0, full0, s, inum, off, mid, end, w, changed)
    ensures OnlyMapped(s0, s, inum) && (s == s0 <==> !changed)
    ensures changed ==> !full0 && !NoneMissing(s0, inum, off, end - off)
    ensures changed ==> (s.inodes == s0.inodes <==> PointersThere(s0, inum, off, end - off))
    ensures !changed && mid == end ==> NoneMissing(s0, inum, off, end - off) && PointersThere(s0, inum, off, end - off)
  {
    if !changed && mid == end {
      MappedPointers(s0, inum, off, end - off);
    }
  }

  /** How many of `n` bytes at `off` there are to read. */
  function Readable(s: Store, inum: nat, off: nat, n: nat): nat
    requires inum < |s.inodes|
  {
    if off > s.inodes[inum].size || off + n >= UINT then 0
    else if off + n > s.inodes[inum].size then s.inodes[inum].size - off else n
  }

  /** It is the most that is wanted and there, unless the range wraps around. */
  lemma ReadableIsMost(s: Store, inum: nat, off: nat, n: nat, len: nat)
    requires inum < |s.inodes| && off + n < UINT
    ensures Readable(s, inum, off, n) <= n
    ensures len <= n && off + len <= s.inodes[inum].size ==> len <= Readable(s, inum, off, n)
    ensures Readable(s, inum, off, n) > 0 ==> off + Readable(s, inum, off, n) <= s.inodes[inum].size
  {
  }

  lemma SlicesJoin(c: seq<Byte>, i: nat, j: nat, k: nat)
    requires i <= j <= k <= |c|
    ensures c[i..j] + c[j..k] == c[i..k]
  {
  }

  // ---- writei's loop ----

  function Spliced(b: Block, at: nat, w: seq<Byte>): Block
    requires at + |w| <= BSIZE
  {
    b[..at] + w + b[at + |w|..]
  }

  /** A file's bytes after `w` has been put at offset `off` of them. */
  function Overwritten(c: seq<Byte>, off: nat, w: seq<Byte>): seq<Byte>
    requires off <= |c|
  {
    c[..off] + w + if off + |w| < |c| then c[off + |w|..] else []
  }

  /** `s` is `s0` with src[..tot] written at `off` of file `inum`; the inode's size is not yet updated. */
  ghost predicate Progress(s0: Store, s: Store, inum: nat, off: nat, src: seq<Byte>, tot: nat) {
    && Shaped(s0) && Shaped(s) && inum < |s0.inodes| == |s.inodes| && |s0.blk| == |s.blk|
    && s.inodes[inum] == s0.inodes[inum].(addrs := s.inodes[inum].addrs)
    && off <= s0.inodes[inum].size <= MAXFILE * BSIZE && tot <= |src| && off + |src| <= MAXFILE * BSIZE
    && (NoHoles(s0, inum) ==>
          forall bn | 0 <= bn < MAXFILE && (bn * BSIZE < off + tot || bn * BSIZE < s0.inodes[inum].size) ::
            BlockOf(s, inum, bn) != 0)
    && (forall k | 0 <= k < MAXFILE * BSIZE && (k < off + tot || k < s0.inodes[inum].size) ::
          ByteAt(s, inum, k) == if off <= k < off + tot then src[k - off] else ByteAt(s0, inum, k))
  }

  lemma ProgressStart(s: Store, inum: nat, off: nat, src: seq<Byte>)
    requires Shaped(s) && inum < |s.inodes| && s.inodes[inum].size <= MAXFILE * BSIZE
    requires off <= s.inodes[inum].size && off + |src| <= MAXFILE * BSIZE
    ensures Progress(s, s, inum, off, src, 0)
  {
  }

  /** Mapping an unmapped block to zeros changes no byte of the file. */
  lemma MappingKeepsBytes(s: Store, t: Store, inum: nat, bn: nat, addr: nat, k: nat)
    requires bn < MAXFILE && k < MAXFILE * BSIZE && Allocated(s, t, inum, PlaceOf(inum, bn), addr)
    ensures ByteAt(t, inum, k) == ByteAt(s, inum, k)
    ensures BlockOf(s, inum, k / BSIZE) != 0 ==> BlockOf(t, inum, k / BSIZE) != 0
  {
    if k / BSIZE != bn {
      assert PlaceOf(inum, k / BSIZE) != PlaceOf(inum, bn);
      assert BlockOf(s, inum, k / BSIZE) == BlockOf(t, inum, k / BSIZE);
    }
  }

  /** Finding or allocating the next block changes no byte of the file. */
  lemma BmapKeepsProgress(s0: Store, s: Store, t: Store, inum: nat, off: nat, src: seq<Byte>, tot: nat, bn: nat,
      addr: nat)
    requires Progress(s0, s, inum, off, src, tot) && bn < MAXFILE && Allocated(s, t, inum, PlaceOf(inum, bn), addr)
    ensures Progress(s0, t, inum, off, src, tot)
  {
    forall k | 0 <= k < MAXFILE * BSIZE ensures ByteAt(t, inum, k) == ByteAt(s, inum, k) {
      MappingKeepsBytes(s, t, inum, bn, addr, k);
    }
    forall c | 0 <= c < MAXFILE && BlockOf(s, inum, c) != 0 ensures BlockOf(t, inum, c) != 0 {
      MappingKeepsBytes(s, t, inum, bn, addr, c * BSIZE);
    }
  }

  /** Filling the next stretch of one block. */
  lemma WriteStep(s0: Store, s: Store, t: Store, inum: nat, off: nat, src: seq<Byte>, tot: nat, m: nat)
    requires Progress(s0, s, inum, off, src, tot) && 0 < m <= |src| - tot
    requires (off + tot) % BSIZE + m <= BSIZE
    requires m < |src| - tot ==> (off + tot) % BSIZE + m == BSIZE
    requires var bn, a := (off + tot) / BSIZE, BlockOf(s, inum, (off + tot) / BSIZE);
      && 0 < a < |s.blk|
      && t == Written(s, a, Spliced(s.blk[a], (off + tot) % BSIZE, src[tot..tot + m]))
      && KeepsBlocks(s, t, inum, PlaceOf(inum, bn)) && BlockOf(t, inum, bn) == a
    ensures Progress(s0, t, inum, off, src, tot + m)
  {
    var bn, o := (off + tot) / BSIZE, (off + tot) % BSIZE;
    var a := BlockOf(s, inum, bn);
    forall c | 0 <= c < MAXFILE && NoHoles(s0, inum)
               && (c * BSIZE < off + tot + m || c * BSIZE < s0.inodes[inum].size)
      ensures BlockOf(t, inum, c) != 0
    {
      if c != bn {
        assert BlockOf(s, inum, c) != 0;
      }
    }
    forall k | 0 <= k < MAXFILE * BSIZE && (k < off + tot + m || k < s0.inodes[inum].size)
      ensures ByteAt(t, inum, k) == if off <= k < off + tot + m then src[k - off] else ByteAt(s0, inum, k)
    {
      if off + tot <= k < off + tot + m {
        SameBlock(off + tot, k);
        assert t.blk[a][k % BSIZE] == src[tot..tot + m][k % BSIZE - o];
      } else {
        if k / BSIZE == bn {
          assert k == bn * BSIZE + k % BSIZE && off + tot == bn * BSIZE + o;
          assert t.blk[a][k % BSIZE] == s.blk[a][k % BSIZE];
        } else {
          assert BlockOf(s, inum, k / BSIZE) == BlockOf(t, inum, k / BSIZE);
        }
        assert ByteAt(t, inum, k) == ByteAt(s, inum, k);
      }
    }
  }

  lemma SameBlock(x: nat, k: nat)
    requires x <= k < x - x % BSIZE + BSIZE
    ensures k / BSIZE == x / BSIZE && k % BSIZE == x % BSIZE + (k - x)
  {
  }

  lemma ProgressMapped(s0: Store, s: Store, inum: nat, off: nat, src: seq<Byte>, tot: nat)
    requires Progress(s0, s, inum, off, src, tot)
    ensures var size := s0.inodes[inum].size;
            var t := if off + tot > size then WithSize(s, inum, off + tot) else s;
            && Shaped(t) && (NoHoles(s0, inum) ==> NoHoles(t, inum))
            && (forall k | 0 <= k < t.inodes[inum].size :: ByteAt(t, inum, k) == ByteAt(s, inum, k))
  {
    var size := s0.inodes[inum].size;
    var t := if off + tot > size then WithSize(s, inum, off + tot) else s;
    assert Shaped(t);
    forall bn | 0 <= bn < MAXFILE ensures BlockOf(t, inum, bn) == BlockOf(s, inum, bn) {
      assert At(t, PlaceOf(inum, bn)) == At(s, PlaceOf(inum, bn));
    }
    forall k | 0 <= k < t.inodes[inum].size ensures ByteAt(t, inum, k) == ByteAt(s, inum, k) {
      assert BlockOf(t, inum, k / BSIZE) == BlockOf(s, inum, k / BSIZE);
    }
  }

  /** With the size brought up to date, the file holds the overwritten bytes. */
  lemma ProgressDone(s0: Store, s: Store, inum: nat, off: nat, src: seq<Byte>, tot: nat)
    requires Progress(s0, s, inum, off, src, tot)
    ensures var size := s0.inodes[inum].size;
            var t := if off + tot > size then WithSize(s, inum, off + tot) else s;
            && Shaped(t) && (NoHoles(s0, inum) ==> NoHoles(t, inum))
            && t.inodes[inum].size == (if off + tot > size then off + tot else size)
            && Content(t, inum) == Overwritten(Content(s0, inum), off, src[..tot])
  {
    hide NoHoles, BlockOf;
    ProgressMapped(s0, s, inum, off, src, tot);
    var size := s0.inodes[inum].size;
    var t := if off + tot > size then WithSize(s, inum, off + tot) else s;
    var c, d := Content(t, inum), Overwritten(Content(s0, inum), off, src[..tot]);
    assert |c| == |d|;
    forall k | 0 <= k < |c| ensures c[k] == d[k] {
      assert c[k] == ByteAt(t, inum, k) == ByteAt(s, inum, k);
    }
  }

  /** Progress on one file while every other file reads the same. */
  ghost predicate Writing(s0: Store, s: Store, inum: nat, off: nat, src: seq<Byte>, tot: nat) {
    && Progress(s0, s, inum, off, src, tot)
    && forall i | 0 <= i < |s0.inodes| && i != inum :: SameFile(s0, s, i)
  }

  lemma WritingStart(s: Store, inum: nat, off: nat, src: seq<Byte>)
    requires Shaped(s) && inum < |s.inodes| && s.inodes[inum].size <= MAXFILE * BSIZE
    requires off <= s.inodes[inum].size && off + |src| <= MAXFILE * BSIZE
    ensures Writing(s, s, inum, off, src, 0)
  {
    ProgressStart(s, inum, off, src);
    forall i | 0 <= i < |s.inodes| ensures SameFile(s, s, i) {
      SameFileReflexive(s, i);
    }
  }

  lemma WritingAllocates(s0: Store, s: Store, t: Store, inum: nat, off: nat, src: seq<Byte>, tot: nat, bn: nat,
      addr: nat)
    requires Writing(s0, s, inum, off, src, tot) && bn < MAXFILE && Allocated(s, t, inum, PlaceOf(inum, bn), addr)
    ensures Writing(s0, t, inum, off, src, tot)
  {
    BmapKeepsProgress(s0, s, t, inum, off, src, tot, bn, addr);
    forall i | 0 <= i < |s0.inodes| && i != inum ensures SameFile(s0, t, i) {
      SameFileTransitive(s0, s, t, i);
    }
  }

  lemma WritingInode(s0: Store, s: Store, inum: nat, off: nat, w: seq<Byte>, tot: nat)
    requires Writing(s0, s, inum, off, w, tot)
    ensures Shaped(s0) && Shaped(s) && inum < |s.inodes| == |s0.inodes|
    ensures s.inodes[inum].kind == s0.inodes[inum].kind && s.inodes[inum].nlink == s0.inodes[inum].nlink
    ensures s.inodes[inum].size == s0.inodes[inum].size && tot <= |w| && off + |w| <= MAXFILE * BSIZE
  {
  }

  /** How much of the write goes into the block that offset `off + tot` is in. */
  function Stretch(off: nat, src: seq<Byte>, tot: nat): (m: nat)
    requires tot < |src|
    ensures 0 < m <= |src| - tot && (off + tot) % BSIZE + m <= BSIZE
  {
    var o := (off + tot) % BSIZE;
    if |src| - tot < BSIZE - o then |src| - tot else BSIZE - o
  }

  lemma WritingStep(nmeta: nat, bitmap: seq<bv8>, owner: map<nat, Place>,
                    s0: Store, s: Store, inum: nat, off: nat, src: seq<Byte>, tot: nat, addr: nat)
    requires FsOk(nmeta, bitmap, s, owner) && Writing(s0, s, inum, off, src, tot) && tot < |src|
    requires addr == BlockOf(s, inum, (off + tot) / BSIZE) && addr != 0
    ensures addr < |s.blk|
    ensures var m := Stretch(off, src, tot);
            var t := Written(s, addr, Spliced(s.blk[addr], (off + tot) % BSIZE, src[tot..tot + m]));
            && FsOk(nmeta, bitmap, t, owner) && Writing(s0, t, inum, off, src, tot + m)
            && BlockAt(t, Indirect(inum)) == BlockAt(s, Indirect(inum))
  {
    hide FsOk, Owned, SameFile, ByteAt, Spliced, NoHoles;
    BlockInRange(nmeta, bitmap, s, owner, inum, (off + tot) / BSIZE);
    var m, p := Stretch(off, src, tot), PlaceOf(inum, (off + tot) / BSIZE);
    var data := Spliced(s.blk[addr], (off + tot) % BSIZE, src[tot..tot + m]);
    var t := Written(s, addr, data);
    WrittenOk(nmeta, bitmap, s, owner, p, data);
    WriteStep(s0, s, t, inum, off, src, tot, m);
    forall i | 0 <= i < |s0.inodes| && i != inum ensures SameFile(s0, t, i) {
      SameFileTransitive(s0, s, t, i);
    }
  }

  /** Bringing the size up to date ends the write. */
  lemma WritingDone(nmeta: nat, bitmap: seq<bv8>, owner: map<nat, Place>,
                    s0: Store, s: Store, inum: nat, off: nat, src: seq<Byte>, tot: nat)
    requires FsOk(nmeta, bitmap, s, owner) && Writing(s0, s, inum, off, src, tot)
    ensures var t := if off + tot > s.inodes[inum].size then WithSize(s, inum, off + tot) else s;
            && FsOk(nmeta, bitmap, t, owner) && (NoHoles(s0, inum) ==> NoHoles(t, inum))
            && t.inodes[inum].size <= MAXFILE * BSIZE
            && Content(t, inum) == Overwritten(Content(s0, inum), off, src[..tot])
            && (forall i | 0 <= i < |s0.inodes| && i != inum :: SameFile(s0, t, i))
            && BlockAt(t, Indirect(inum)) == BlockAt(s, Indirect(inum))
  {
    ProgressDone(s0, s, inum, off, src, tot);
    WithSizeKeeps(s, nmeta, owner, inum, off + tot);
    var t := WithSize(s, inum, off + tot);
    forall i | 0 <= i < |s0.inodes| && i != inum ensures SameFile(s0, t, i) {
      SameFileTransitive(s0, s, t, i);
    }
  }

  // ---- itrunc ----

  /** `t` is `s` with some blocks of file `inum` let go; the other files, and their blocks, are as before. */
  ghost predicate Truncating(s: Store, t: Store, owner: map<nat, Place>, owner': map<nat, Place>, inum: nat) {
    && Shaped(s) && Shaped(t) && |s.inodes| == |t.inodes| && |s.blk| == |t.blk| && inum < |s.inodes|
    && t.inodes[inum] == s.inodes[inum].(addrs := t.inodes[inum].addrs)
    && (forall i | 0 <= i < |s.inodes| && i != inum :: SameFile(s, t, i))
    && (forall b | b in owner' :: b in owner && owner'[b] == owner[b])
    && (forall b | b in owner && owner[b].inum != inum :: b in owner')
  }

  lemma TruncatingStart(nmeta: nat, s: Store, owner: map<nat, Place>, inum: nat)
    requires Owned(s, nmeta, owner) && inum < |s.inodes|
    ensures Truncating(s, s, owner, owner, inum)
  {
    forall i | 0 <= i < |s.inodes| ensures SameFile(s, s, i) {
      SameFileReflexive(s, i);
    }
  }

  lemma TruncatingShape(s: Store, t: Store, owner: map<nat, Place>, owner': map<nat, Place>, inum: nat)
    requires Truncating(s, t, owner, owner', inum)
    ensures inum < |t.inodes| == |s.inodes| && |t.blk| == |s.blk| && |t.inodes[inum].addrs| == NDIRECT + 1
    ensures t.inodes[inum] == s.inodes[inum].(addrs := t.inodes[inum].addrs)
  {
  }

  lemma TruncatingStep(nmeta: nat, bitmap: seq<bv8>, s: Store, t: Store, owner: map<nat, Place>,
                       owner': map<nat, Place>, inum: nat, p: Place)
    requires Truncating(s, t, owner, owner', inum) && FsOk(nmeta, bitmap, t, owner')
    requires MayUnhang(t, p) && p.inum == inum
    ensures At(t, p) < |t.blk| && Used(bitmap, At(t, p))
    ensures FsOk(nmeta, Cleared(bitmap, At(t, p)), Unhung(t, p), owner' - {At(t, p)})
    ensures Truncating(s, Unhung(t, p), owner, owner' - {At(t, p)}, inum)
    ensures forall q | IsPlace(t, q) :: BlockAt(Unhung(t, p), q) == if q == p then 0 else At(t, q)
  {
    UnhungOk(nmeta, bitmap, t, owner', p);
    var u := Unhung(t, p);
    assert owner'[At(t, p)] == p;
    forall i | 0 <= i < |s.inodes| && i != inum ensures SameFile(s, u, i) {
      SameFileTransitive(s, t, u, i);
    }
  }

  /** Restoring what a block that is no longer referred to really holds. */
  lemma TruncatingStray(nmeta: nat, bitmap: seq<bv8>, s: Store, t: Store, owner: map<nat, Place>,
                        owner': map<nat, Place>, inum: nat, a: nat, data: Block)
    requires Truncating(s, t, owner, owner', inum) && FsOk(nmeta, bitmap, t, owner')
    requires a < |t.blk| && a !in owner'
    ensures FsOk(nmeta, bitmap, Written(t, a, data), owner')
    ensures Truncating(s, Written(t, a, data), owner, owner', inum)
  {
    var u := Written(t, a, data);
    StrayBlockIrrelevant(t, nmeta, owner', a, data);
    forall i | 0 <= i < |s.inodes| && i != inum ensures SameFile(s, u, i) {
      SameFileTransitive(s, t, u, i);
    }
  }

  /** `g` is `b` with its first `j` entries cleared. */
  ghost predicate ClearedUpTo(g: Block, b: Block, j: nat) {
    j <= NINDIRECT && forall k | 0 <= k < NINDIRECT :: Word(g, k) == if k < j then 0 else Word(b, k)
  }

  lemma ClearOneMore(g: Block, b: Block, j: nat)
    requires ClearedUpTo(g, b, j) && j < NINDIRECT
    ensures ClearedUpTo(WithWord(g, j, 0), b, j + 1)
    ensures Word(b, j) == 0 ==> ClearedUpTo(g, b, j + 1)
  {
    forall k | 0 <= k < NINDIRECT ensures Word(WithWord(g, j, 0), k) == if k <= j then 0 else Word(b, k) {
      WordRoundTrip(g, j, 0, k);
    }
  }

  /** With all its entries read as cleared, the indirect block can be let go itself. */
  lemma LastUnhang(nmeta: nat, bitmap: seq<bv8>, s: Store, owner: map<nat, Place>, inum: nat, b: Block)
    requires FsOk(nmeta, bitmap, s, owner) && inum < |s.inodes| && |s.inodes[inum].addrs| == NDIRECT + 1
    requires 0 < s.inodes[inum].addrs[NDIRECT] < |s.blk|
    requires ClearedUpTo(s.blk[s.inodes[inum].addrs[NDIRECT]], b, NINDIRECT)
    ensures Shaped(s) && MayUnhang(s, Indirect(inum)) && At(s, Indirect(inum)) == s.inodes[inum].addrs[NDIRECT]
    ensures |s.blk| <= 8 * |bitmap|
  {
  }

  predicate Bare(s: Store, inum: nat) {
    && inum < |s.inodes| && |s.inodes[inum].addrs| == NDIRECT + 1
    && forall k | 0 <= k <= NDIRECT :: s.inodes[inum].addrs[k] == 0
  }

  /** A file without blocks owns none: exactly the other files' blocks are left in use. */
  lemma TruncatingDone(nmeta: nat, bitmap: seq<bv8>, s: Store, t: Store, owner: map<nat, Place>,
                       owner': map<nat, Place>, inum: nat)
    requires Truncating(s, t, owner, owner', inum) && FsOk(nmeta, bitmap, t, owner') && Bare(t, inum)
    ensures var u := WithSize(t, inum, 0);
            && FsOk(nmeta, bitmap, u, owner') && NoHoles(u, inum) && Content(u, inum) == []
            && (forall i | 0 <= i < |s.inodes| && i != inum :: SameFile(s, u, i))
    ensures forall b :: b in owner' <==> b in owner && owner[b].inum != inum
  {
    var u := WithSize(t, inum, 0);
    WithSizeKeeps(t, nmeta, owner', inum, 0);
    forall i | 0 <= i < |s.inodes| && i != inum ensures SameFile(s, u, i) {
      SameFileTransitive(s, t, u, i);
    }
    forall b | b in owner' ensures owner'[b].inum != inum {
      assert At(t, owner'[b]) == b;
    }
  }

  // ---- what is handed to log_write ----

  /** A disk block as the log counts it. */
  datatype Logged = DataBlock(b: nat) | BitmapBlock(i: nat) | InodeBlock(i: nat)

  /** Everything that differs between the two file systems lies in the disk blocks of `log`. */
  ghost predicate Covers(bitmap: seq<bv8>, s: Store, bitmap': seq<bv8>, t: Store, log: set<Logged>) {
    && |bitmap| == |bitmap'| && |s.blk| == |t.blk| && |s.inodes| == |t.inodes|
    && (forall i | 0 <= i < |bitmap| && bitmap[i] != bitmap'[i] :: BitmapBlock(i / (BPB / 8)) in log)
    && (forall b | 0 <= b < |s.blk| && s.blk[b] != t.blk[b] :: DataBlock(b) in log)
    && (forall i | 0 <= i < |s.inodes| && s.inodes[i] != t.inodes[i] :: InodeBlock(i / IPB) in log)
  }

  /** No inode has been handed to the log between the two. */
  ghost predicate NoInodes(log: set<Logged>, log': set<Logged>) {
    forall x: Logged | x in log' && x.InodeBlock? :: x in log
  }

  lemma CoversNothing(bitmap: seq<bv8>, s: Store, log: set<Logged>)
    ensures Covers(bitmap, s, bitmap, s, log)
  {
  }

  lemma CoversThen(m0: seq<bv8>, s0: Store, m1: seq<bv8>, s1: Store, m2: seq<bv8>, s2: Store, log1: set<Logged>,
                   log2: set<Logged>)
    requires Covers(m0, s0, m1, s1, log1) && Covers(m1, s1, m2, s2, log2) && log1 <= log2
    ensures Covers(m0, s0, m2, s2, log2)
  {
  }

  lemma CoversInodes(m0: seq<bv8>, s0: Store, m1: seq<bv8>, s1: Store, inum: nat, log: set<Logged>)
    requires Covers(m0, s0, m1, s1, log + {InodeBlock(inum / IPB)})
    requires s1.inodes == s0.inodes || InodeBlock(inum / IPB) in log
    ensures Covers(m0, s0, m1, s1, log)
  {
    if InodeBlock(inum / IPB) in log {
      assert log + {InodeBlock(inum / IPB)} == log;
    }
  }

  lemma HungCovered(bitmap: seq<bv8>, s: Store, p: Place, b: nat, log: set<Logged>)
    requires Shaped(s) && IsPlace(s, p) && b < |s.blk| <= 8 * |bitmap|
    requires p.Entry? ==> s.inodes[p.inum].addrs[NDIRECT] != 0 && DataBlock(s.inodes[p.inum].addrs[NDIRECT]) in log
    requires DataBlock(b) in log && BitmapBlock(b / BPB) in log && InodeBlock(p.inum / IPB) in log
    ensures Covers(bitmap, s, Marked(bitmap, b), Hung(s, p, b), log)
  {
    assert b / 8 / (BPB / 8) == b / BPB;
  }

  lemma SizeCovered(bitmap: seq<bv8>, s: Store, t: Store, inum: nat, log: set<Logged>)
    requires inum < |s.inodes| == |t.inodes| && t == s.(inodes := s.inodes[inum := t.inodes[inum]])
    requires InodeBlock(inum / IPB) in log
    ensures Covers(bitmap, s, bitmap, t, log)
  {
  }

  lemma FreedCovered(bitmap: seq<bv8>, s: Store, t: Store, inum: nat, b: nat, log: set<Logged>)
    requires b < |s.blk| <= 8 * |bitmap| && inum < |s.inodes| == |t.inodes|
    requires t == s.(inodes := s.inodes[inum := t.inodes[inum]])
    requires BitmapBlock(b / BPB) in log && InodeBlock(inum / IPB) in log
    ensures Covers(bitmap, s, Cleared(bitmap, b), t, log)
  {
    assert b / 8 / (BPB / 8) == b / BPB;
  }

  /** All blocks of the free map. */
  ghost function BitmapBlocks(n: nat): (r: set<Logged>)
    ensures |r| <= n
    ensures forall i: nat | i < n :: BitmapBlock(i) in r
  {
    if n == 0 then {} else BitmapBlocks(n - 1) + {BitmapBlock(n - 1)}
  }

  function BitmapSize(size: nat): nat {
    (size + BPB - 1) / BPB
  }

  lemma FreedIsLogged(b: nat, size: nat)
    requires b < size
    ensures BitmapBlock(b / BPB) in BitmapBlocks(BitmapSize(size))
  {
    assert b / BPB < BitmapSize(size);
  }

  /** The log entries that a file's indirect block accounts for. */
  ghost function IndirectLogs(s: Store, inum: nat): set<Logged> {
    var ind := BlockAt(s, Indirect(inum));
    if ind == 0 then {} else {DataBlock(ind), BitmapBlock(ind / BPB)}
  }

  lemma AllocatedIndirect(s: Store, t: Store, inum: nat, p: Place, addr: nat)
    requires Allocated(s, t, inum, p, addr)
    ensures IndirectLogs(s, inum) <= IndirectLogs(t, inum)
  {
  }

  /** What one turn of the loop may log: the data block, its bitmap block if it is new, and the indirect
      block's entries. */
  ghost function TurnLogs(s: Store, inum: nat, addr: nat, isNew: bool): set<Logged> {
    (if addr == 0 then {} else if isNew then {DataBlock(addr), BitmapBlock(addr / BPB)} else {DataBlock(addr)})
    + IndirectLogs(s, inum)
  }

  /** Turns of the loop needed for `tot` bytes at `off`. */
  function Turns(off: nat, tot: nat): nat {
    if tot == 0 then 0 else (off + tot - 1) / BSIZE - off / BSIZE + 1
  }

  /** Log use so far: one data block a turn; one bitmap block a turn, except for a first turn that
      lands in the middle of a block, which in a file without holes (`full`) exists already; and the
      indirect block's two. */
  ghost predicate Budget(full: bool, log0: set<Logged>, log: set<Logged>, s: Store, inum: nat, off: nat, tot: nat,
                         data: set<Logged>, maps: set<Logged>) {
    && log <= log0 + data + maps + IndirectLogs(s, inum)
    && |data| <= Turns(off, tot)
    && |maps| <= Turns(off, tot) - (if full && off % BSIZE != 0 && tot > 0 then 1 else 0)
  }

  lemma BudgetStart(full: bool, log: set<Logged>, s: Store, inum: nat, off: nat)
    ensures Budget(full, log, log, s, inum, off, 0, {}, {})
  {
  }

  /** Between turns the write stands at a block boundary. */
  predicate AtBoundary(off: nat, src: seq<Byte>, tot: nat) {
    0 < tot < |src| ==> (off + tot) % BSIZE == 0
  }

  lemma TurnsStep(off: nat, src: seq<Byte>, tot: nat)
    requires tot < |src| && AtBoundary(off, src, tot)
    ensures Turns(off, tot + Stretch(off, src, tot)) == Turns(off, tot) + 1
    ensures AtBoundary(off, src, tot + Stretch(off, src, tot))
  {
    var x := off + tot;
    SameBlock(x, x + Stretch(off, src, tot) - 1);
    if tot > 0 {
      assert (x - 1) / BSIZE == x / BSIZE - 1;
    }
  }

  lemma BudgetStep(full: bool, log0: set<Logged>, log: set<Logged>, log': set<Logged>, s: Store, s': Store,
                   inum: nat, off: nat, src: seq<Byte>, tot: nat, data: set<Logged>, maps: set<Logged>,
                   addr: nat, isNew: bool)
    requires Budget(full, log0, log, s, inum, off, tot, data, maps)
    requires tot < |src| && AtBoundary(off, src, tot)
    requires IndirectLogs(s, inum) <= IndirectLogs(s', inum)
    requires log' <= log + TurnLogs(s', inum, addr, isNew)
    requires full && isNew && tot == 0 ==> off % BSIZE == 0
    ensures Budget(full, log0, log', s', inum, off, tot + Stretch(off, src, tot), data + {DataBlock(addr)},
                   if isNew then maps + {BitmapBlock(addr / BPB)} else maps)
  {
    TurnsStep(off, src, tot);
  }

  /** A write that starts in the middle of a block finds that block mapped. */
  lemma FirstTurnInPlace(s0: Store, s: Store, inum: nat, off: nat, src: seq<Byte>)
    requires Writing(s0, s, inum, off, src, 0) && off % BSIZE != 0 && NoHoles(s0, inum)
    ensures off / BSIZE < MAXFILE && BlockOf(s, inum, off / BSIZE) != 0
  {
  }

  lemma BudgetStall(full: bool, log0: set<Logged>, log: set<Logged>, log': set<Logged>, s: Store, s': Store,
                    inum: nat, off: nat, tot: nat, data: set<Logged>, maps: set<Logged>)
    requires Budget(full, log0, log, s, inum, off, tot, data, maps)
    requires IndirectLogs(s, inum) <= IndirectLogs(s', inum) && log' <= log + IndirectLogs(s', inum)
    ensures Budget(full, log0, log', s', inum, off, tot, data, maps)
  {
  }

  /** One full turn of the loop, in terms of log use. */
  lemma TurnDone(full: bool, s0: Store, log0: set<Logged>, log: set<Logged>, log': set<Logged>, s: Store, s': Store,
                 inum: nat, off: nat, src: seq<Byte>, tot: nat, data: set<Logged>, maps: set<Logged>,
                 addr: nat, isNew: bool)
    requires Writing(s0, s, inum, off, src, tot) && Budget(full, log0, log, s, inum, off, tot, data, maps)
    requires tot < |src| && AtBoundary(off, src, tot)
    requires (isNew ==> BlockOf(s, inum, (off + tot) / BSIZE) == 0) && (full ==> NoHoles(s0, inum))
    requires IndirectLogs(s, inum) <= IndirectLogs(s', inum)
    requires log' <= log + TurnLogs(s', inum, addr, isNew)
    ensures Budget(full, log0, log', s', inum, off, tot + Stretch(off, src, tot), data + {DataBlock(addr)},
                   if isNew then maps + {BitmapBlock(addr / BPB)} else maps)
    ensures AtBoundary(off, src, tot + Stretch(off, src, tot))
  {
    if full && tot == 0 && off % BSIZE != 0 {
      FirstTurnInPlace(s0, s, inum, off, src);
    }
    BudgetStep(full, log0, log, log', s, s', inum, off, src, tot, data, maps, addr, isNew);
    TurnsStep(off, src, tot);
  }

  lemma SubsetCounts<T>(a: set<T>, b: set<T>)
    requires a <= b
    ensures |a| <= |b|
  {
    assert b == a + (b - a);
  }

  lemma IndirectLogsAtMostTwo(s: Store, inum: nat)
    ensures |IndirectLogs(s, inum)| <= 2
  {
  }

  /** A write of at most three blocks' worth of bytes logs at most ten blocks, its inode included; eleven if
      the file has holes. */
  lemma ChunkFitsBudget(full: bool, log0: set<Logged>, log: set<Logged>, s: Store, inum: nat, off: nat, tot: nat,
                        data: set<Logged>, maps: set<Logged>, inode: Logged)
    requires Budget(full, log0, log, s, inum, off, tot, data, maps) && tot <= 3 * BSIZE
    ensures |(log + {inode}) - log0| <= if full then 10 else 11
  {
    var ind := IndirectLogs(s, inum);
    IndirectLogsAtMostTwo(s, inum);
    SubsetCounts((log + {inode}) - log0, data + maps + ind + {inode});
  }
}
