// mkfs/mkfs.c: the image it builds satisfies the invariant that kernel/fs.c maintains.

module MkfsFacts {
  import opened FsBlocks
  import opened FsTree
  import opened FsFacts

  const T_DIR: int := 1
  const T_FILE: int := 2

  /** Exactly the bits of the first `n` blocks are set. */
  ghost predicate BitsBelow(bitmap: seq<bv8>, n: nat) {
    forall c | 0 <= c < 8 * |bitmap| :: Used(bitmap, c) <==> c < n
  }

  lemma BitsBelowNext(bitmap: seq<bv8>, n: nat)
    requires BitsBelow(bitmap, n) && n < 8 * |bitmap|
    ensures BitsBelow(Marked(bitmap, n), n + 1)
  {
    forall c | 0 <= c < 8 * |bitmap| ensures Used(Marked(bitmap, n), c) <==> c < n + 1 {
      MarkedUsed(bitmap, n, c);
    }
  }

  lemma SameBitsSameOk(nmeta: nat, b1: seq<bv8>, b2: seq<bv8>, n: nat, s: Store, owner: map<nat, Place>)
    requires FsOk(nmeta, b1, s, owner) && BitsBelow(b1, n) && BitsBelow(b2, n) && |b1| == |b2|
    ensures FsOk(nmeta, b2, s, owner)
  {
  }

  /** A file to be put into the image: its 14-byte directory name and its bytes. */
  datatype Source = Source(name: seq<Byte>, contents: seq<Byte>)

  function Dirent(inum: nat, name: seq<Byte>): (d: seq<Byte>)
    requires inum < 0x1_0000 && |name| == 14
    ensures |d| == 16
    // struct dirent: a ushort, least significant byte first, and the name.
    ensures (d[0] as int) + 0x100 * (d[1] as int) == inum && d[2..] == name
  {
    [inum % 0x100, inum / 0x100] + name
  }

  /** The root directory's entries: ".", "..", and one for each file, in order. */
  function RootEntries(files: seq<Source>, k: nat): (d: seq<Byte>)
    requires k <= |files| < 0x8000 && forall f | f in files :: |f.name| == 14
    ensures |d| == 16 * (k + 2)
  {
    if k == 0 then Dirent(1, Dots(1)) + Dirent(1, Dots(2))
    else RootEntries(files, k - 1) + Dirent(k + 1, files[k - 1].name)
  }

  /** Entry number j + 2 of the root is the j-th file's, and names its inode. */
  lemma {:induction false} RootEntryAt(files: seq<Source>, k: nat, j: nat)
    requires j < k <= |files| < 0x8000 && forall f | f in files :: |f.name| == 14
    ensures RootEntries(files, k)[16 * (j + 2)..16 * (j + 3)] == Dirent(j + 2, files[j].name)
    ensures RootEntries(files, k)[..16] == Dirent(1, Dots(1)) && RootEntries(files, k)[16..32] == Dirent(1, Dots(2))
    decreases k
  {
    var d := RootEntries(files, k - 1);
    assert RootEntries(files, k)[..|d|] == d;
    if j < k - 1 {
      RootEntryAt(files, k - 1, j);
      assert RootEntries(files, k)[16 * (j + 2)..16 * (j + 3)] == d[16 * (j + 2)..16 * (j + 3)];
    } else if k > 1 {
      RootEntryAt(files, k - 1, 0);
    }
    assert RootEntries(files, k)[..16] == d[..16] && RootEntries(files, k)[16..32] == d[16..32];
  }

  function Dots(n: nat): (s: seq<Byte>)
    requires n <= 14
    ensures |s| == 14 && forall i | 0 <= i < 14 :: (s[i] as char) == if i < n then '.' else '\0'
  {
    seq(14, i => if i < n then 46 else 0)
  }

  /** Inode `inum` is of this type and has one link. */
  predicate IsNode(s: Store, inum: nat, kind: int) {
    inum < |s.inodes| && s.inodes[inum].kind == kind && s.inodes[inum].nlink == 1
  }

  /** File number `n` is inode n + 2: a file of one link, with its source's bytes and no hole. */
  ghost predicate FileDone(s: Store, n: nat, f: Source) {
    IsNode(s, n + 2, T_FILE) && Tight(s, n + 2) && Content(s, n + 2) == f.contents
  }

  ghost predicate FilesDone(s: Store, files: seq<Source>, k: nat) {
    k <= |files| && forall n | 0 <= n < k :: FileDone(s, n, files[n])
  }

  predicate Unused(s: Store, i: nat) {
    i < |s.inodes| && s.inodes[i] == Inode(0, 0, 0, seq(NDIRECT + 1, _ => 0))
  }

  ghost predicate RestUnused(s: Store, from: nat) {
    forall i | from <= i < |s.inodes| :: Unused(s, i)
  }

  lemma OneMoreDone(s: Store, files: seq<Source>, k: nat)
    requires FilesDone(s, files, k) && k < |files| && FileDone(s, k, files[k])
    ensures FilesDone(s, files, k + 1)
  {
  }

  lemma NextUnused(s: Store, from: nat)
    requires RestUnused(s, from) && from < |s.inodes|
    ensures Unused(s, from) && RestUnused(s, from + 1)
  {
  }

  lemma NodesAre(s: Store, files: seq<Source>)
    requires FilesDone(s, files, |files|) && RestUnused(s, |files| + 2) && |files| + 2 <= |s.inodes|
    ensures forall n | 2 <= n < |files| + 2 :: s.inodes[n].kind == T_FILE && s.inodes[n].nlink == 1
    ensures forall n | |files| + 2 <= n < |s.inodes| :: s.inodes[n].kind == 0
  {
    forall n | 2 <= n < |files| + 2 ensures s.inodes[n].kind == T_FILE && s.inodes[n].nlink == 1 {
      assert FileDone(s, n - 2, files[n - 2]);
    }
    forall n | |files| + 2 <= n < |s.inodes| ensures s.inodes[n].kind == 0 {
      assert Unused(s, n);
    }
  }

  lemma FilesUnderRoot(s: Store, t: Store, files: seq<Source>)
    requires FilesDone(s, files, |files|) && forall i | 0 <= i < |s.inodes| && i != 1 :: SameFile(s, t, i)
    requires RestUnused(s, |files| + 2) && |s.inodes| == |t.inodes|
    ensures FilesDone(t, files, |files|) && RestUnused(t, |files| + 2)
  {
    forall i | |files| + 2 <= i < |t.inodes| ensures Unused(t, i) {
      assert Unused(s, i) && SameFile(s, t, i);
    }
    forall n | 0 <= n < |files| ensures FileDone(t, n, files[n]) {
      assert FileDone(s, n, files[n]);
      TightOthers(s, t, n + 2);
    }
  }

  /** A larger size changes no byte below the old one. */
  lemma RoundingKeeps(s: Store, inum: nat, size: nat)
    requires Shaped(s) && inum < |s.inodes| && s.inodes[inum].size <= size <= MAXFILE * BSIZE
    ensures Shaped(WithSize(s, inum, size)) && Content(s, inum) <= Content(WithSize(s, inum, size), inum)
  {
    var t := WithSize(s, inum, size);
    assert Shaped(t);
    forall k | 0 <= k < s.inodes[inum].size ensures ByteAt(t, inum, k) == ByteAt(s, inum, k) {
      assert At(t, PlaceOf(inum, k / BSIZE)) == At(s, PlaceOf(inum, k / BSIZE));
    }
  }

  /** Work on inode `inum` leaves the finished files and the unused inodes alone. */
  lemma OthersStay(s: Store, t: Store, files: seq<Source>, k: nat, inum: nat, from: nat)
    requires FilesDone(s, files, k) && RestUnused(s, from) && |s.inodes| == |t.inodes|
    requires forall i | 0 <= i < |s.inodes| && i != inum :: SameFile(s, t, i)
    requires !(2 <= inum < k + 2) && inum < from
    ensures FilesDone(t, files, k) && RestUnused(t, from)
  {
    forall n | 0 <= n < k ensures FileDone(t, n, files[n]) {
      assert FileDone(s, n, files[n]);
      TightOthers(s, t, n + 2);
    }
    forall i | from <= i < |t.inodes| ensures Unused(t, i) {
      assert Unused(s, i) && SameFile(s, t, i);
    }
  }

  /** The blocks that a file of `size` bytes calls for, the indirect block included. */
  function Blocks(size: nat): (n: nat)
    ensures size == 0 ==> n == 0
  {
    var n := (size + BSIZE - 1) / BSIZE;
    if n > NDIRECT then n + 1 else n
  }

  /** A file whose blocks are exactly those its size calls for. */
  ghost predicate Tight(s: Store, inum: nat) {
    && Shaped(s) && inum < |s.inodes| && NoHoles(s, inum)
    && (s.inodes[inum].size <= NDIRECT * BSIZE ==> s.inodes[inum].addrs[NDIRECT] == 0)
    && forall bn | 0 <= bn < MAXFILE && bn * BSIZE >= s.inodes[inum].size :: BlockOf(s, inum, bn) == 0
  }

  lemma TightOthers(s: Store, t: Store, i: nat)
    requires Tight(s, i) && SameFile(s, t, i)
    ensures Tight(t, i) && Content(t, i) == Content(s, i) && t.inodes[i] == s.inodes[i]
  {
    SameFileSameContent(s, t, i);
  }

  /** While appending: no block is mapped behind the one the last byte went into. */
  ghost predicate NoneBehind(s: Store, inum: nat, end: nat) {
    && Shaped(s) && inum < |s.inodes|
    && (end <= NDIRECT * BSIZE ==> s.inodes[inum].addrs[NDIRECT] == 0)
    && forall bn | 0 <= bn < MAXFILE && bn * BSIZE >= end :: BlockOf(s, inum, bn) == 0
  }

  /** How many blocks finding or allocating block `bn` of a file takes. */
  function Missing(s: Store, inum: nat, bn: nat): nat
    requires Shaped(s) && inum < |s.inodes| && bn < MAXFILE
  {
    (if BlockOf(s, inum, bn) == 0 then 1 else 0)
    + (if bn >= NDIRECT && s.inodes[inum].addrs[NDIRECT] == 0 then 1 else 0)
  }

  /** While appending, the next stretch takes just the blocks that it adds to the size. */
  lemma MissingIs(s0: Store, s: Store, inum: nat, off: nat, w: seq<Byte>, tot: nat)
    requires Writing(s0, s, inum, off, w, tot) && tot < |w| && NoneBehind(s, inum, off + tot) && NoHoles(s0, inum)
    ensures Blocks(off + tot) + Missing(s, inum, (off + tot) / BSIZE) == Blocks(off + tot + Stretch(off, w, tot))
  {
    var pos, bn := off + tot, (off + tot) / BSIZE;
    assert BlockOf(s, inum, bn) == 0 <==> pos % BSIZE == 0;
    if pos > NDIRECT * BSIZE {
      assert BlockOf(s, inum, NDIRECT) != 0;
    }
  }

  /** Once there is an indirect block, an entry is what it was, or none in a new one. */
  lemma NoEntryYet(s: Store, t: Store, inum: nat, j: nat, ind: nat)
    requires Allocated(s, t, inum, Indirect(inum), ind) && j < NINDIRECT
    ensures BlockOf(s, inum, NDIRECT + j) == BlockOf(t, inum, NDIRECT + j)
  {
  }

  lemma AppendStart(s: Store, inum: nat, w: seq<Byte>)
    requires Tight(s, inum) && s.inodes[inum].size + |w| <= MAXFILE * BSIZE
    ensures var off := s.inodes[inum].size; Writing(s, s, inum, off, w, 0) && NoneBehind(s, inum, off)
  {
    WritingStart(s, inum, s.inodes[inum].size, w);
  }

  lemma BlocksGrow(a: nat, b: nat)
    requires a <= b
    ensures Blocks(a) <= Blocks(b)
  {
  }

  /** The blocks of the first `k` files. */
  function FileBlocks(files: seq<Source>, k: nat): nat
    requires k <= |files|
  {
    if k == 0 then 0 else FileBlocks(files, k - 1) + Blocks(|files[k - 1].contents|)
  }

  lemma {:induction false} FileBlocksGrow(files: seq<Source>, j: nat, k: nat)
    requires j <= k <= |files|
    ensures FileBlocks(files, j) <= FileBlocks(files, k)
    decreases k
  {
    if j < k {
      FileBlocksGrow(files, j, k - 1);
    }
  }

  lemma {:induction false} EmptyFilesTakeNothing(files: seq<Source>, k: nat)
    requires k <= |files| && forall f | f in files :: f.contents == []
    ensures FileBlocks(files, k) == 0
  {
    if k > 0 {
      EmptyFilesTakeNothing(files, k - 1);
      assert files[k - 1] in files;
    }
  }

  /** All files are short enough and their blocks and the root directory's fit the image. */
  predicate Fits(files: seq<Source>, room: nat) {
    && (forall f | f in files :: |f.contents| <= MAXFILE * BSIZE)
    && Blocks(16 * (|files| + 2)) + FileBlocks(files, |files|) <= room
  }

  lemma AppendDone(nmeta: nat, bitmap: seq<bv8>, owner: map<nat, Place>,
                   s0: Store, s: Store, inum: nat, off: nat, w: seq<Byte>)
    requires FsOk(nmeta, bitmap, s, owner) && Writing(s0, s, inum, off, w, |w|) && off == s0.inodes[inum].size
    requires NoHoles(s0, inum) && NoneBehind(s, inum, off + |w|)
    ensures var t := WithSize(s, inum, off + |w|);
            && FsOk(nmeta, bitmap, t, owner) && Tight(t, inum) && t.inodes[inum].size == off + |w|
            && Content(t, inum) == Content(s0, inum) + w
            && (forall i | 0 <= i < |s0.inodes| && i != inum :: SameFile(s0, t, i))
  {
    hide FsOk;
    WritingDone(nmeta, bitmap, owner, s0, s, inum, off, w, |w|);
    var t := WithSize(s, inum, off + |w|);
    if w == [] {
      assert s.inodes[inum].(size := off) == s.inodes[inum];
      assert s.inodes[inum := s.inodes[inum]] == s.inodes;
      assert t == s;
    }
    assert w[..|w|] == w;
    AppendedAtEnd(Content(s0, inum), w);
    NoneBehindTight(s, inum, off + |w|);
  }

  lemma AppendedAtEnd(c: seq<Byte>, w: seq<Byte>)
    ensures Overwritten(c, |c|, w) == c + w
  {
  }

  lemma NoneBehindTight(s: Store, inum: nat, end: nat)
    requires NoneBehind(s, inum, end)
    ensures var t := WithSize(s, inum, end); Shaped(t) && (NoHoles(t, inum) ==> Tight(t, inum))
  {
    var t := WithSize(s, inum, end);
    assert Shaped(t);
    forall bn | 0 <= bn < MAXFILE && bn * BSIZE >= end ensures BlockOf(t, inum, bn) == 0 {
      assert BlockOf(s, inum, bn) == 0;
    }
  }

  lemma NoneBehindAllocates(s: Store, t: Store, inum: nat, bn: nat, addr: nat, end: nat, end': nat)
    requires NoneBehind(s, inum, end) && bn < MAXFILE && Allocated(s, t, inum, PlaceOf(inum, bn), addr)
    requires bn * BSIZE <= end < end'
    requires bn < NDIRECT ==> s.inodes[inum].addrs[NDIRECT] == t.inodes[inum].addrs[NDIRECT]
    ensures NoneBehind(t, inum, end')
  {
    forall c | 0 <= c < MAXFILE && c * BSIZE >= end' ensures BlockOf(t, inum, c) == 0 {
      assert PlaceOf(inum, c) != PlaceOf(inum, bn);
      assert BlockOf(s, inum, c) == 0;
    }
  }

  lemma NoneBehindWrites(s: Store, t: Store, inum: nat, bn: nat, end: nat)
    requires NoneBehind(s, inum, end) && bn < MAXFILE && bn * BSIZE < end && t.inodes == s.inodes
    requires KeepsBlocks(s, t, inum, PlaceOf(inum, bn))
    ensures NoneBehind(t, inum, end)
  {
    forall c | 0 <= c < MAXFILE && c * BSIZE >= end ensures BlockOf(t, inum, c) == 0 {
      assert PlaceOf(inum, c) != PlaceOf(inum, bn);
      assert BlockOf(s, inum, c) == 0;
    }
  }

  lemma InUseBelow(nmeta: nat, bitmap: seq<bv8>, s: Store, owner: map<nat, Place>, freeblock: nat, b: nat)
    requires FsOk(nmeta, bitmap, s, owner) && |s.blk| <= 8 * |bitmap| && BitsBelow(bitmap, freeblock) && b in owner
    ensures b < freeblock && b < |s.blk|
  {
    assert Used(bitmap, b);
  }

  /** iappend's way of writing down the next stretch and where in its block it starts. */
  lemma StretchIs(off: nat, p: seq<Byte>, tot: nat)
    requires tot < |p|
    ensures var fbn := (off + tot) / BSIZE;
            && off + tot - fbn * BSIZE == (off + tot) % BSIZE
            && Stretch(off, p, tot)
               == if |p| - tot < (fbn + 1) * BSIZE - (off + tot) then |p| - tot else (fbn + 1) * BSIZE - (off + tot)
  {
  }

  /** One turn of iappend's loop, once the block is there. */
  lemma AppendStep(nmeta: nat, bitmap: seq<bv8>, owner: map<nat, Place>,
                   s0: Store, s: Store, inum: nat, off: nat, w: seq<Byte>, tot: nat, addr: nat)
    requires FsOk(nmeta, bitmap, s, owner) && Writing(s0, s, inum, off, w, tot) && tot < |w|
    requires addr == BlockOf(s, inum, (off + tot) / BSIZE) && addr != 0
    requires NoneBehind(s, inum, off + tot + Stretch(off, w, tot))
    ensures addr < |s.blk| && addr in owner
    ensures var m := Stretch(off, w, tot);
            var t := Written(s, addr, Spliced(s.blk[addr], (off + tot) % BSIZE, w[tot..tot + m]));
            && FsOk(nmeta, bitmap, t, owner) && Writing(s0, t, inum, off, w, tot + m)
            && NoneBehind(t, inum, off + tot + m)
  {
    hide NoneBehind;
    var bn, m := (off + tot) / BSIZE, Stretch(off, w, tot);
    WritingStep(nmeta, bitmap, owner, s0, s, inum, off, w, tot, addr);
    var data := Spliced(s.blk[addr], (off + tot) % BSIZE, w[tot..tot + m]);
    WrittenOk(nmeta, bitmap, s, owner, PlaceOf(inum, bn), data);
    NoneBehindWrites(s, Written(s, addr, data), inum, bn, off + tot + m);
  }

  /** A freshly initialised inode takes the place of an unused one. */
  lemma NewInode(nmeta: nat, bitmap: seq<bv8>, s: Store, owner: map<nat, Place>, inum: nat, kind: int)
    requires FsOk(nmeta, bitmap, s, owner) && Unused(s, inum)
    ensures var t := s.(inodes := s.inodes[inum := Inode(kind, 1, 0, seq(NDIRECT + 1, _ => 0))]);
            && FsOk(nmeta, bitmap, t, owner) && Tight(t, inum) && Content(t, inum) == []
            && (forall i | 0 <= i < |s.inodes| && i != inum :: SameFile(s, t, i))
  {
    var t := s.(inodes := s.inodes[inum := Inode(kind, 1, 0, seq(NDIRECT + 1, _ => 0))]);
    assert Shaped(t);
    assert forall q | IsPlace(s, q) :: At(t, q) == At(s, q);
    assert Owned(t, nmeta, owner);
  }

  /** Rounding a directory's size up past a size that already fills its blocks leaves a hole. */
  lemma RoundingHoles(s: Store, inum: nat)
    requires Tight(s, inum) && s.inodes[inum].size < MAXFILE * BSIZE
    ensures var t := WithSize(s, inum, (s.inodes[inum].size / BSIZE + 1) * BSIZE);
            Shaped(t) && (NoHoles(t, inum) <==> s.inodes[inum].size % BSIZE != 0)
  {
    var off := s.inodes[inum].size;
    var t := WithSize(s, inum, (off / BSIZE + 1) * BSIZE);
    assert Shaped(t);
    assert forall bn | 0 <= bn < MAXFILE :: BlockOf(t, inum, bn) == BlockOf(s, inum, bn);
    if off % BSIZE == 0 {
      assert BlockOf(s, inum, off / BSIZE) == 0;
      assert BlockOf(t, inum, off / BSIZE) == 0;
    } else {
      forall bn | 0 <= bn < MAXFILE && bn * BSIZE < t.inodes[inum].size ensures BlockOf(t, inum, bn) != 0 {
        assert bn * BSIZE < off;
      }
    }
  }
}

module Mkfs {
  import opened FsBlocks
  import opened FsTree
  import opened FsFacts
  import opened MkfsFacts

  const FSSIZE: nat := 2000
  const NINODES: nat := 200
  const LOGSIZE: nat := 30
  const NMETA: nat := 2 + LOGSIZE + (NINODES / 16 + 1) + (FSSIZE / (BSIZE * 8) + 1)
  const ROOTINO: nat := 1

  class Image {
    var blk: seq<Block>
    var inodes: seq<Inode>
    var freeinode: nat
    var freeblock: nat
    ghost var bitmap: seq<bv8>        // what balloc(freeblock) would write now
    ghost var owner: map<nat, Place>

    ghost function State(): Store
      reads this
    {
      Store(blk, inodes)
    }

    ghost predicate Ok()
      reads this
    {
      && FsOk(NMETA, bitmap, State(), owner) && BitsBelow(bitmap, freeblock)
      && |blk| == FSSIZE && |bitmap| == BSIZE && NMETA <= freeblock <= FSSIZE
      && (forall b | freeblock <= b < FSSIZE :: blk[b] == ZeroBlock())
    }

    /** A block for place `p`, the next one never used; false if the image has no more. */
    method Hang(p: Place) returns (ok: bool)
      requires Ok() && IsPlace(State(), p) && At(State(), p) == 0
      requires p.Entry? ==> inodes[p.inum].addrs[NDIRECT] != 0
      modifies this`blk, this`inodes, this`freeblock, this`bitmap, this`owner
      ensures ok <==> old(freeblock) < FSSIZE
      ensures ok ==> Ok() && BlockAt(State(), p) != 0 && freeblock == old(freeblock) + 1
                     && Allocated(old(State()), State(), p.inum, p, BlockAt(State(), p))
      ensures ok && p.Direct? ==> inodes[p.inum].addrs[NDIRECT] == old(inodes)[p.inum].addrs[NDIRECT]
    {
      hide KeepsBlocks, SameFile;
      if freeblock >= FSSIZE {
        return false;
      }
      var b := freeblock;
      freeblock := freeblock + 1;
      HungOk(NMETA, bitmap, State(), owner, p, b);
      BitsBelowNext(bitmap, b);
      ghost var s := State();
      assert s.blk[b := ZeroBlock()] == s.blk;
      match p {
        case Direct(n, i) => inodes := inodes[n := inodes[n].(addrs := inodes[n].addrs[i := b])];
        case Indirect(n) => inodes := inodes[n := inodes[n].(addrs := inodes[n].addrs[NDIRECT := b])];
        case Entry(n, j) =>
          var a := inodes[n].addrs[NDIRECT];
          assert At(s, Indirect(n)) == a && a in owner;
          blk := blk[a := WithWord(blk[a], j, b)];
      }
      assert State() == Hung(s, p, b);
      bitmap := Marked(bitmap, b);
      owner := owner[b := p];
      ok := true;
    }

    /** iappend's part that finds or allocates the block for `fbn`. */
    method Locate(inum: nat, fbn: nat) returns (ok: bool, x: nat)
      requires Ok() && inum < |inodes| && fbn < MAXFILE
      modifies this`blk, this`inodes, this`freeblock, this`bitmap, this`owner
      ensures ok <==> old(freeblock) + Missing(old(State()), inum, fbn) <= FSSIZE
      ensures ok ==> Ok() && x != 0 && Allocated(old(State()), State(), inum, PlaceOf(inum, fbn), x)
                     && freeblock == old(freeblock) + Missing(old(State()), inum, fbn)
      ensures ok && fbn < NDIRECT ==> inodes[inum].addrs[NDIRECT] == old(inodes)[inum].addrs[NDIRECT]
    {
      hide KeepsBlocks, SameFile, BitsBelow, ZeroBlock;
      NothingAllocated(State(), inum, PlaceOf(inum, fbn));
      ok, x := true, 0;
      if fbn < NDIRECT {
        if inodes[inum].addrs[fbn] == 0 {
          ok := Hang(Direct(inum, fbn));
          if !ok {
            return;
          }
        }
        x := inodes[inum].addrs[fbn];
      } else {
        ok, x := LocateEntry(inum, fbn - NDIRECT);
      }
    }

    method LocateEntry(inum: nat, j: nat) returns (ok: bool, x: nat)
      requires Ok() && inum < |inodes| && j < NINDIRECT
      modifies this`blk, this`inodes, this`freeblock, this`bitmap, this`owner
      ensures ok <==> old(freeblock) + Missing(old(State()), inum, NDIRECT + j) <= FSSIZE
      ensures ok ==> Ok() && x != 0 && Allocated(old(State()), State(), inum, Entry(inum, j), x)
                     && freeblock == old(freeblock) + Missing(old(State()), inum, NDIRECT + j)
    {
      hide KeepsBlocks, SameFile, BitsBelow, ZeroBlock;
      ghost var s, p := State(), Entry(inum, j);
      ok, x := LocateIndirect(inum);
      if !ok {
        return;
      }
      ghost var t, ind := State(), inodes[inum].addrs[NDIRECT];
      NothingAllocated(t, inum, p);
      NoEntryYet(s, t, inum, j, ind);
      if Word(blk[inodes[inum].addrs[NDIRECT]], j) == 0 {
        ok := Hang(Entry(inum, j));
        if !ok {
          return;
        }
      }
      x := Word(blk[inodes[inum].addrs[NDIRECT]], j);
      AllocatedComposes(s, t, State(), inum, j, ind, x);
    }

    method LocateIndirect(inum: nat) returns (ok: bool, ind: nat)
      requires Ok() && inum < |inodes|
      modifies this`blk, this`inodes, this`freeblock, this`bitmap, this`owner
      ensures ok <==> old(inodes)[inum].addrs[NDIRECT] != 0 || old(freeblock) < FSSIZE
      ensures ok ==> && Ok() && ind != 0 && Allocated(old(State()), State(), inum, Indirect(inum), ind)
                     && ind == inodes[inum].addrs[NDIRECT]
                     && freeblock == old(freeblock) + (if old(inodes)[inum].addrs[NDIRECT] == 0 then 1 else 0)
    {
      hide KeepsBlocks, SameFile, BitsBelow, ZeroBlock;
      NothingAllocated(State(), inum, Indirect(inum));
      ok := true;
      if inodes[inum].addrs[NDIRECT] == 0 {
        ok := Hang(Indirect(inum));
      }
      ind := if ok then inodes[inum].addrs[NDIRECT] else 0;
    }

    /** Append bytes to a file; false exactly if the file gets too long, where the program's assert fails,
        or the image has too few blocks left, where the program would write behind its end. */
    method Iappend(inum: nat, p: seq<Byte>) returns (ok: bool)
      requires Ok() && inum < |inodes| && Tight(State(), inum)
      modifies this`blk, this`inodes, this`freeblock, this`bitmap, this`owner
      ensures var size := old(inodes)[inum].size;
        && (ok <==> size + |p| <= MAXFILE * BSIZE && old(freeblock) + Blocks(size + |p|) - Blocks(size) <= FSSIZE)
        && (ok ==> freeblock == old(freeblock) + Blocks(size + |p|) - Blocks(size))
      ensures ok ==> && Ok() && |inodes| == |old(inodes)| && Tight(State(), inum)
                     && Content(State(), inum) == Content(old(State()), inum) + p
                     && inodes[inum].kind == old(inodes)[inum].kind && inodes[inum].nlink == old(inodes)[inum].nlink
                     && forall i | 0 <= i < |inodes| && i != inum :: SameFile(old(State()), State(), i)
    {
      hide FsOk, BitsBelow, Writing, NoneBehind, Blocks, Stretch, ZeroBlock;
      ghost var s0 := State();
      var off := inodes[inum].size;
      if off + |p| > MAXFILE * BSIZE {
        return false;
      }
      AppendStart(s0, inum, p);
      var tot := 0;
      while tot < |p|
        invariant Ok() && Writing(s0, State(), inum, off, p, tot) && NoneBehind(State(), inum, off + tot)
        invariant tot <= |p| && freeblock == old(freeblock) + Blocks(off + tot) - Blocks(off)
      {
        BlocksGrow(off + tot + Stretch(off, p, tot), off + |p|);
        var fine, m := AppendTurn(inum, p, off, tot, s0);
        if !fine {
          return false;
        }
        tot := tot + m;
      }
      WritingInode(s0, State(), inum, off, p, tot);
      AppendDone(NMETA, bitmap, owner, s0, State(), inum, off, p);
      inodes := inodes[inum := inodes[inum].(size := off + |p|)];
      ok := true;
    }

    method AppendTurn(inum: nat, p: seq<Byte>, off: nat, tot: nat, ghost s0: Store) returns (ok: bool, n1: nat)
      requires Ok() && Writing(s0, State(), inum, off, p, tot) && tot < |p| && NoneBehind(State(), inum, off + tot)
      requires NoHoles(s0, inum)
      modifies this`blk, this`inodes, this`freeblock, this`bitmap, this`owner
      ensures var more := Blocks(off + tot + Stretch(off, p, tot)) - Blocks(off + tot);
        && (ok <==> old(freeblock) + more <= FSSIZE) && (ok ==> freeblock == old(freeblock) + more)
      ensures ok ==> && Ok() && n1 == Stretch(off, p, tot) && Writing(s0, State(), inum, off, p, tot + n1)
                     && NoneBehind(State(), inum, off + tot + n1)
    {
      hide FsOk, BitsBelow, Writing, NoneBehind, Allocated, Blocks, Missing, NoHoles, ZeroBlock;
      WritingInode(s0, State(), inum, off, p, tot);
      MissingIs(s0, State(), inum, off, p, tot);
      var fbn := (off + tot) / BSIZE;
      ghost var s := State();
      var x;
      ok, x := Locate(inum, fbn);
      n1 := 0;
      if !ok {
        return;
      }
      ghost var t, m := State(), Stretch(off, p, tot);
      WritingAllocates(s0, s, t, inum, off, p, tot, fbn, x);
      NoneBehindAllocates(s, t, inum, fbn, x, off + tot, off + tot + m);
      AllocatedAt(s, t, inum, PlaceOf(inum, fbn), x);
      n1 := PutTurn(inum, p, off, tot, x, s0);
    }

    /** Copy the next bytes into block `x`. */
    method PutTurn(inum: nat, p: seq<Byte>, off: nat, tot: nat, x: nat, ghost s0: Store) returns (n1: nat)
      requires Ok() && Writing(s0, State(), inum, off, p, tot) && tot < |p|
      requires x == BlockOf(State(), inum, (off + tot) / BSIZE) && x != 0
      requires NoneBehind(State(), inum, off + tot + Stretch(off, p, tot))
      modifies this`blk
      ensures Ok() && n1 == Stretch(off, p, tot) && Writing(s0, State(), inum, off, p, tot + n1)
      ensures NoneBehind(State(), inum, off + tot + n1)
    {
      hide Writing, Spliced, NoneBehind, FsOk, BitsBelow;
      var fbn := (off + tot) / BSIZE;
      n1 := if |p| - tot < (fbn + 1) * BSIZE - (off + tot) then |p| - tot else (fbn + 1) * BSIZE - (off + tot);
      StretchIs(off, p, tot);
      ghost var t := State();
      AppendStep(NMETA, bitmap, owner, s0, t, inum, off, p, tot, x);
      InUseBelow(NMETA, bitmap, t, owner, freeblock, x);
      var data := Spliced(blk[x], off + tot - fbn * BSIZE, p[tot..tot + n1]);
      blk := blk[x := data];
      assert State() == Written(t, x, data);
    }

    /** A new inode, of the given type, with one link and no blocks. */
    method Ialloc(kind: int) returns (inum: nat)
      requires Ok() && freeinode < |inodes| && Unused(State(), freeinode)
      modifies this`freeinode, this`inodes
      ensures Ok() && inum == old(freeinode) && freeinode == inum + 1 && |inodes| == |old(inodes)|
      ensures Tight(State(), inum) && Content(State(), inum) == []
      ensures inodes[inum].kind == kind && inodes[inum].nlink == 1
      ensures forall i | 0 <= i < |inodes| && i != inum :: SameFile(old(State()), State(), i)
    {
      inum := freeinode;
      freeinode := freeinode + 1;
      NewInode(NMETA, bitmap, State(), owner, inum, kind);
      inodes := inodes[inum := Inode(kind, 1, 0, seq(NDIRECT + 1, _ => 0))];
    }

    /** The bitmap block: the first `used` blocks have been allocated. */
    static method Balloc(used: nat) returns (buf: seq<bv8>)
      requires used < BSIZE * 8
      ensures |buf| == BSIZE && BitsBelow(buf, used)
    {
      buf := seq(BSIZE, _ => 0);
      var i := 0;
      while i < used
        invariant i <= used && |buf| == BSIZE && BitsBelow(buf, i)
      {
        BitsBelowNext(buf, i);
        buf := buf[i / 8 := buf[i / 8] | Bit(i % 8)];
        i := i + 1;
      }
    }

    /** Copy one file into inode `inum`, in pieces of whatever size read() returns. */
    method CopyFile(inum: nat, contents: seq<Byte>, ghost files: seq<Source>, ghost k: nat) returns (ok: bool)
      requires Ok() && inum == k + 2 < freeinode <= |inodes| && Tight(State(), inum) && Content(State(), inum) == []
      requires FilesDone(State(), files, k) && RestUnused(State(), freeinode)
      requires Tight(State(), ROOTINO) && IsNode(State(), inum, T_FILE)
      modifies this`blk, this`inodes, this`freeblock, this`bitmap, this`owner
      ensures ok <==> |contents| <= MAXFILE * BSIZE && old(freeblock) + Blocks(|contents|) <= FSSIZE
      ensures ok ==> freeblock == old(freeblock) + Blocks(|contents|)
      ensures ok ==> && Ok() && |inodes| == |old(inodes)| && Tight(State(), inum)
                     && Content(State(), inum) == contents && IsNode(State(), inum, T_FILE)
                     && FilesDone(State(), files, k) && RestUnused(State(), freeinode)
                     && inodes[ROOTINO] == old(inodes)[ROOTINO]
                     && Tight(State(), ROOTINO) && Content(State(), ROOTINO) == Content(old(State()), ROOTINO)
    {
      hide FsOk, BitsBelow, Blocks, RestUnused, ZeroBlock, SameFile, FilesDone, ByteAt, BlockOf, At;
      var pos := 0;
      ghost var root := Content(State(), ROOTINO);
      while pos < |contents|
        invariant pos <= |contents| && Ok() && |inodes| == |old(inodes)| && Tight(State(), inum)
        invariant Content(State(), inum) == contents[..pos] && freeblock == old(freeblock) + Blocks(pos)
        invariant FilesDone(State(), files, k) && RestUnused(State(), freeinode)
        invariant IsNode(State(), inum, T_FILE) && inodes[ROOTINO] == old(inodes)[ROOTINO]
        invariant Tight(State(), ROOTINO) && Content(State(), ROOTINO) == root
      {
        var cc :| 1 <= cc <= BSIZE && pos + cc <= |contents|;
        ghost var s := State();
        BlocksGrow(pos + cc, |contents|);
        ok := Iappend(inum, contents[pos..pos + cc]);
        if !ok {
          return;
        }
        OthersStay(s, State(), files, k, inum, freeinode);
        TightOthers(s, State(), ROOTINO);
        assert contents[..pos + cc] == contents[..pos] + contents[pos..pos + cc];
        pos := pos + cc;
      }
      assert contents[..pos] == contents;
      ok := true;
    }

    /** An image of zeroed blocks, all unused. */
    constructor ()
      ensures Ok() && |inodes| == NINODES && freeinode == 1 && RestUnused(State(), 1) && freeblock == NMETA
    {
      blk := seq(FSSIZE, _ => ZeroBlock());
      inodes := seq(NINODES, _ => Inode(0, 0, 0, seq(NDIRECT + 1, _ => 0)));
      freeinode, freeblock := 1, NMETA;
      new;
      owner := map[];
      bitmap := Balloc(NMETA);
    }

    /** Add file `k`: its inode, its entry in the root directory, its bytes. */
    method AddFile(files: seq<Source>, k: nat) returns (ok: bool)
      requires Ok() && k < |files| <= NINODES - 2 && |inodes| == NINODES && freeinode == k + 2
      requires forall f | f in files :: |f.name| == 14
      requires FilesDone(State(), files, k) && RestUnused(State(), freeinode)
      requires Tight(State(), ROOTINO) && Content(State(), ROOTINO) == RootEntries(files, k)
      requires IsNode(State(), ROOTINO, T_DIR)
      modifies this
      ensures var more := Blocks(16 * (k + 3)) - Blocks(16 * (k + 2)) + Blocks(|files[k].contents|);
        && (ok <==> |files[k].contents| <= MAXFILE * BSIZE && old(freeblock) + more <= FSSIZE)
        && (ok ==> freeblock == old(freeblock) + more)
      ensures ok ==> Ok() && |inodes| == NINODES && freeinode == k + 3
                     && FilesDone(State(), files, k + 1) && RestUnused(State(), freeinode)
                     && Tight(State(), ROOTINO) && Content(State(), ROOTINO) == RootEntries(files, k + 1)
                     && IsNode(State(), ROOTINO, T_DIR)
    {
      hide FsOk, BitsBelow, SameFile, Blocks, NoHoles, ZeroBlock, ByteAt, BlockOf, At, FilesDone, RestUnused, Unused;
      ghost var s := State();
      NextUnused(s, k + 2);
      BlocksGrow(16 * (k + 2), 16 * (k + 3));
      assert inodes[ROOTINO].size == |RootEntries(files, k)| == 16 * (k + 2);
      var inum := Ialloc(T_FILE);
      ghost var t := State();
      OthersStay(s, t, files, k, inum, k + 3);
      TightOthers(s, t, ROOTINO);
      ok := Iappend(ROOTINO, Dirent(inum, files[k].name));
      if !ok {
        return;
      }
      OthersStay(t, State(), files, k, ROOTINO, freeinode);
      TightOthers(t, State(), inum);
      ok := CopyFile(inum, files[k].contents, files, k);
      if ok {
        OneMoreDone(State(), files, k);
      }
    }

    /** main(): root directory, files, the rounding of the root's size, the bitmap. */
    method Build(files: seq<Source>) returns (ok: bool, disk: seq<bv8>)
      requires Ok() && |inodes| == NINODES && freeinode == 1 && RestUnused(State(), 1) && freeblock == NMETA
      requires |files| <= NINODES - 2 && forall f | f in files :: |f.name| == 14
      modifies this
      ensures ok <==> Fits(files, FSSIZE - NMETA)
      ensures ok ==> FsOk(NMETA, disk, State(), owner)
      ensures ok ==> FilesDone(State(), files, |files|)
      // The root is a directory, all files are files, each with one link; the other inodes are free.
      ensures ok ==> && |inodes| == NINODES && inodes[ROOTINO].kind == T_DIR && inodes[ROOTINO].nlink == 1
                     && (forall n | 2 <= n < |files| + 2 :: inodes[n].kind == T_FILE && inodes[n].nlink == 1)
                     && (forall n | |files| + 2 <= n < NINODES :: inodes[n].kind == 0)
      // The root directory starts with its entries; rounded up to whole blocks, it has a hole if and only
      // if the entries themselves fill whole blocks.
      ensures ok ==> && ROOTINO < |inodes| && Shaped(State())
                     && inodes[ROOTINO].size == (16 * (|files| + 2) / BSIZE + 1) * BSIZE
                     && inodes[ROOTINO].size <= MAXFILE * BSIZE
                     && RootEntries(files, |files|) <= Content(State(), ROOTINO)
                     && (NoHoles(State(), ROOTINO) <==> 16 * (|files| + 2) % BSIZE != 0)
    {
      hide FsOk, BitsBelow, FilesDone, RestUnused, SameFile, ByteAt, BlockOf, At, ZeroBlock;
      disk := [];
      ok := MakeRoot(files);
      if !ok {
        return;
      }
      var k := 0;
      while k < |files|
        invariant k <= |files| && Ok() && |inodes| == NINODES && freeinode == k + 2
        invariant freeblock == NMETA + Blocks(16 * (k + 2)) + FileBlocks(files, k)
        invariant forall f | f in files[..k] :: |f.contents| <= MAXFILE * BSIZE
        invariant FilesDone(State(), files, k) && RestUnused(State(), freeinode)
        invariant Tight(State(), ROOTINO) && Content(State(), ROOTINO) == RootEntries(files, k)
        invariant IsNode(State(), ROOTINO, T_DIR)
      {
        FileBlocksGrow(files, k + 1, |files|);
        BlocksGrow(16 * (k + 3), 16 * (|files| + 2));
        assert files[k] in files && files[..k + 1] == files[..k] + [files[k]];
        ok := AddFile(files, k);
        if !ok {
          return;
        }
        k := k + 1;
      }
      assert files[..k] == files;
      ok, disk := Finish(files);
      NodesAre(State(), files);
    }

    /** The root directory with "." and "..". */
    method MakeRoot(ghost files: seq<Source>) returns (ok: bool)
      requires Ok() && |inodes| == NINODES && freeinode == 1 && RestUnused(State(), 1) && freeblock == NMETA
      requires |files| <= NINODES - 2 && forall f | f in files :: |f.name| == 14
      modifies this
      ensures ok && freeblock == NMETA + 1
      ensures ok ==> && Ok() && |inodes| == NINODES && freeinode == 2
                     && FilesDone(State(), files, 0) && RestUnused(State(), 2)
                     && Tight(State(), ROOTINO) && Content(State(), ROOTINO) == RootEntries(files, 0)
                     && IsNode(State(), ROOTINO, T_DIR)
    {
      ghost var s := State();
      assert Unused(s, 1);
      var root := Ialloc(T_DIR);
      ghost var t := State();
      OthersStay(s, t, files, 0, root, 2);
      ok := Iappend(root, Dirent(root, Dots(1)));
      if !ok {
        return;
      }
      ghost var u := State();
      OthersStay(t, u, files, 0, root, 2);
      ok := Iappend(root, Dirent(root, Dots(2)));
      if !ok {
        return;
      }
      OthersStay(u, State(), files, 0, root, 2);
      assert [] + Dirent(1, Dots(1)) == Dirent(1, Dots(1));
    }

    /** The root's size goes up to the next whole block, then the bitmap is written. */
    method Finish(ghost files: seq<Source>) returns (ok: bool, disk: seq<bv8>)
      requires Ok() && |inodes| == NINODES && |files| <= NINODES - 2 && forall f | f in files :: |f.name| == 14
      requires FilesDone(State(), files, |files|)
      requires Tight(State(), ROOTINO) && Content(State(), ROOTINO) == RootEntries(files, |files|)
      requires IsNode(State(), ROOTINO, T_DIR) && RestUnused(State(), |files| + 2)
      modifies this`inodes
      ensures ok && FsOk(NMETA, disk, State(), owner) && FilesDone(State(), files, |files|)
      ensures ROOTINO < |inodes| == NINODES && Shaped(State()) && IsNode(State(), ROOTINO, T_DIR)
      ensures RestUnused(State(), |files| + 2)
      ensures inodes[ROOTINO].size == (16 * (|files| + 2) / BSIZE + 1) * BSIZE <= MAXFILE * BSIZE
      ensures RootEntries(files, |files|) <= Content(State(), ROOTINO)
      ensures NoHoles(State(), ROOTINO) <==> 16 * (|files| + 2) % BSIZE != 0
    {
      hide FilesDone, RestUnused, SameFile, ByteAt, BlockOf, At, ZeroBlock;
      var off := inodes[ROOTINO].size;
      off := (off / BSIZE + 1) * BSIZE;
      ghost var s := State();
      RoundingHoles(s, ROOTINO);
      WithSizeKeeps(s, NMETA, owner, ROOTINO, off);
      RoundingKeeps(s, ROOTINO, off);
      inodes := inodes[ROOTINO := inodes[ROOTINO].(size := off)];
      assert State() == WithSize(s, ROOTINO, off);
      FilesUnderRoot(s, State(), files);
      disk := Balloc(freeblock);
      SameBitsSameOk(NMETA, bitmap, disk, freeblock, State(), owner);
      ok := true;
    }
  }

  /** 62 files fill the root's first block, and so the image that is made of them has a hole in it. */
  method HoleyRoot() returns (image: Image, files: seq<Source>, disk: seq<bv8>)
    ensures |files| == 62 && FsOk(NMETA, disk, image.State(), image.owner) && FilesDone(image.State(), files, 62)
    ensures ROOTINO < |image.inodes| && Shaped(image.State()) && !NoHoles(image.State(), ROOTINO)
    ensures image.inodes[ROOTINO].size == 2 * BSIZE
  {
    image := new Image();
    files := seq(62, _ => Source(seq(14, _ => 97), []));
    EmptyFilesTakeNothing(files, 62);
    var ok;
    ok, disk := image.Build(files);
  }
}
