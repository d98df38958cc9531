// Blocks and files (kernel/fs.c): balloc, bfree, bmap, itrunc, readi, writei over the buffer cache's
// view of the disk. `logged` collects what the operations hand to log_write.

module FileSys {
  import opened FsBlocks
  import opened FsTree
  import opened FsFacts

  const MAXOPBLOCKS: nat := 10

  lemma BitSplits(b: nat, bi: nat)
    requires b % BPB == 0
    ensures (b + bi) / 8 == b / 8 + bi / 8 && (b + bi) % 8 == bi % 8
  {
  }

  /** The bytes of one block from file offset `k` on are the file's bytes there. */
  lemma ReadStep(s: Store, inum: nat, k: nat, m: nat)
    requires Shaped(s) && inum < |s.inodes| && s.inodes[inum].size <= MAXFILE * BSIZE
    requires 0 < m && k + m <= s.inodes[inum].size && k % BSIZE + m <= BSIZE
    ensures var a, o := BlockOf(s, inum, k / BSIZE), k % BSIZE;
            0 < a < |s.blk| ==> s.blk[a][o..o + m] == Content(s, inum)[k..k + m]
  {
    var a, o := BlockOf(s, inum, k / BSIZE), k % BSIZE;
    if 0 < a < |s.blk| {
      var v, w := s.blk[a][o..o + m], Content(s, inum)[k..k + m];
      forall i | 0 <= i < m ensures v[i] == w[i] {
        SameBlock(k, k + i);
      }
    }
  }

  class FileSys {
    const nmeta: nat             // boot, super, log, inode and bitmap blocks
    var bitmap: seq<bv8>
    var blk: seq<Block>          // sb.size blocks
    var inodes: seq<Inode>

    ghost var owner: map<nat, Place>
    ghost var logged: set<Logged>

    ghost function State(): Store
      reads this
    {
      Store(blk, inodes)
    }

    ghost predicate Ok()
      reads this
    {
      FsOk(nmeta, bitmap, State(), owner)
    }

    /** The lowest block whose bit is clear, marked and filled with zeros; 0 if there is none. */
    method Balloc() returns (r: nat)
      requires 0 < nmeta <= |blk| <= 8 * |bitmap| && forall b | 0 <= b < nmeta :: Used(bitmap, b)
      modifies this`bitmap, this`blk, this`logged
      ensures r == 0 ==> Full(old(bitmap), |old(blk)|) && bitmap == old(bitmap) && blk == old(blk)
                         && logged == old(logged)
      ensures r != 0 ==> && r < |old(blk)| && !Used(old(bitmap), r) && Full(old(bitmap), r)
                         && bitmap == Marked(old(bitmap), r)
                         && blk == old(blk)[r := ZeroBlock()]
                         && logged == old(logged) + {BitmapBlock(r / BPB), DataBlock(r)}
    {
      var b := 0;
      while b < |blk|
        invariant b % BPB == 0 && bitmap == old(bitmap) && blk == old(blk) && logged == old(logged)
        invariant forall c | 0 <= c < b && c < |blk| :: Used(bitmap, c)
      {
        var bi := 0;
        while bi < BPB && b + bi < |blk|
          invariant 0 <= bi <= BPB && bitmap == old(bitmap) && blk == old(blk) && logged == old(logged)
          invariant forall c | 0 <= c < b + bi && c < |blk| :: Used(bitmap, c)
        {
          var m := Bit(bi % 8);
          BitSplits(b, bi);
          if !TestBit(bitmap[b / 8 + bi / 8], m) {   // Is block free?
            assert !Used(bitmap, b + bi) && Used(bitmap, 0);
            bitmap := bitmap[b / 8 + bi / 8 := bitmap[b / 8 + bi / 8] | m];
            logged := logged + {BitmapBlock((b + bi) / BPB)};
            r := b + bi;
            blk := blk[r := ZeroBlock()];
            logged := logged + {DataBlock(r)};
            assert logged == old(logged) + {BitmapBlock(r / BPB), DataBlock(r)};
            return;
          }
          bi := bi + 1;
        }
        b := b + BPB;
      }
      r := 0;
    }

    /** Exactly this block's bit becomes clear. The panic on a block that is already free is the precondition. */
    method Bfree(b: nat)
      requires b < |blk| <= 8 * |bitmap| && Used(bitmap, b)
      modifies this`bitmap, this`logged
      ensures bitmap == Cleared(old(bitmap), b) && logged == old(logged) + {BitmapBlock(b / BPB)}
    {
      var bi := b % BPB;
      var m := Bit(bi % 8);
      assert b / BPB * (BPB / 8) + bi / 8 == b / 8 && bi % 8 == b % 8;
      var i := b / BPB * (BPB / 8) + bi / 8;
      bitmap := bitmap[i := bitmap[i] & !m];
      logged := logged + {BitmapBlock(b / BPB)};
    }

    method Iupdate(inum: nat)
      modifies this`logged
      ensures logged == old(logged) + {InodeBlock(inum / IPB)}
    {
      logged := logged + {InodeBlock(inum / IPB)};
    }

    /** What an allocation for block `bn` of file `inum` may log: the data block and its bitmap block,
        and the same for the indirect block if the file has one by then. */
    ghost function BmapLogs(inum: nat, addr: nat): set<Logged>
      reads this
    {
      (if addr == 0 then {} else {DataBlock(addr), BitmapBlock(addr / BPB)}) + IndirectLogs(State(), inum)
    }

    /** A block for place `p`, where there was none: nothing happens on a full disk; otherwise what was missing
        first now has a block. */
    twostate predicate MapsIfRoom(inum: nat, p: Place, addr: nat)
      reads this
    {
      if |old(blk)| <= 8 * |old(bitmap)| && Full(old(bitmap), |old(blk)|)
      then addr == 0 && State() == old(State()) && bitmap == old(bitmap) && logged == old(logged)
      else Filled(old(State()), State(), inum, FirstMissing(old(State()), p))
    }

    /** The disk block of block `bn` of file `inum`, allocated if there is none yet; 0 if the disk is full. */
    method Bmap(inum: nat, bn: nat) returns (addr: nat)
      requires Ok() && inum < |inodes| && bn < MAXFILE
      modifies this`bitmap, this`blk, this`inodes, this`owner, this`logged
      ensures Ok() && Allocated(old(State()), State(), inum, PlaceOf(inum, bn), addr)
      ensures addr == 0 ==> Full(bitmap, |blk|)
      ensures BlockOf(old(State()), inum, bn) != 0 ==> logged == old(logged) && bitmap == old(bitmap)
      ensures BlockOf(old(State()), inum, bn) == 0 ==> MapsIfRoom(inum, PlaceOf(inum, bn), addr)
      ensures old(logged) <= logged <= old(logged) + BmapLogs(inum, addr)
      // The inode changes in memory only.
      ensures Covers(old(bitmap), old(State()), bitmap, State(), logged + {InodeBlock(inum / IPB)})
      ensures BlockAt(old(State()), PointerOf(inum, bn)) != 0 ==> inodes == old(inodes)
    {
      hide FsOk, Owned, KeepsBlocks, SameFile, Allocated, Covers, Full;
      MetadataMarked(nmeta, bitmap, State(), owner);
      CoversNothing(bitmap, State(), logged + {InodeBlock(inum / IPB)});
      NothingAllocated(State(), inum, PlaceOf(inum, bn));
      if bn < NDIRECT {
        addr := inodes[inum].addrs[bn];
        if addr == 0 {
          addr := HangFresh(Direct(inum, bn));
        }
        return;
      }
      addr := BmapEntry(inum, bn - NDIRECT);
    }

    /** bmap's part for blocks listed in the indirect block. */
    method BmapEntry(inum: nat, j: nat) returns (addr: nat)
      requires Ok() && inum < |inodes| && j < NINDIRECT
      modifies this`bitmap, this`blk, this`inodes, this`owner, this`logged
      ensures Ok() && Allocated(old(State()), State(), inum, Entry(inum, j), addr)
      ensures addr == 0 ==> Full(bitmap, |blk|)
      ensures At(old(State()), Entry(inum, j)) != 0 ==> logged == old(logged) && bitmap == old(bitmap)
      ensures At(old(State()), Entry(inum, j)) == 0 ==> MapsIfRoom(inum, Entry(inum, j), addr)
      ensures old(logged) <= logged <= old(logged) + BmapLogs(inum, addr)
      ensures Covers(old(bitmap), old(State()), bitmap, State(), logged + {InodeBlock(inum / IPB)})
      ensures BlockAt(old(State()), Indirect(inum)) != 0 ==> inodes == old(inodes)
    {
      hide FsOk, Owned, KeepsBlocks, SameFile, Allocated, Covers, Full;
      ghost var s, map0 := State(), bitmap;
      MetadataMarked(nmeta, bitmap, s, owner);
      var ind := LoadIndirect(inum);
      ghost var t, map1, log1 := State(), bitmap, logged;
      AllocatedAt(s, t, inum, Indirect(inum), ind);
      NothingAllocated(t, inum, Entry(inum, j));
      if ind == 0 {
        return 0;
      }
      addr := Word(blk[ind], j);
      if addr == 0 {
        addr := HangFresh(Entry(inum, j));
        CoversThen(map0, s, map1, t, bitmap, State(), log1 + {InodeBlock(inum / IPB)},
                   logged + {InodeBlock(inum / IPB)});
      }
      AllocatedComposes(s, t, State(), inum, j, ind, addr);
    }

    /** The number of a file's indirect block, allocating the block if necessary. */
    method LoadIndirect(inum: nat) returns (ind: nat)
      requires Ok() && inum < |inodes|
      modifies this`bitmap, this`blk, this`inodes, this`owner, this`logged
      ensures Ok() && Allocated(old(State()), State(), inum, Indirect(inum), ind)
      ensures ind == 0 ==> Full(bitmap, |blk|) && State() == old(State())
      ensures At(old(State()), Indirect(inum)) != 0 ==> logged == old(logged) && bitmap == old(bitmap)
      ensures At(old(State()), Indirect(inum)) == 0 ==> MapsIfRoom(inum, Indirect(inum), ind)
      ensures old(logged) <= logged <= old(logged) + IndirectLogs(State(), inum)
      ensures Covers(old(bitmap), old(State()), bitmap, State(), logged + {InodeBlock(inum / IPB)})
    {
      CoversNothing(bitmap, State(), logged + {InodeBlock(inum / IPB)});
      NothingAllocated(State(), inum, Indirect(inum));
      ind := inodes[inum].addrs[NDIRECT];
      if ind == 0 {
        ind := HangFresh(Indirect(inum));
      }
    }

    /** balloc, and the new block's number put where it belongs. */
    method HangFresh(p: Place) returns (addr: nat)
      requires Ok() && IsPlace(State(), p) && At(State(), p) == 0
      requires p.Entry? ==> inodes[p.inum].addrs[NDIRECT] != 0
      modifies this`bitmap, this`blk, this`inodes, this`owner, this`logged
      ensures Ok() && Allocated(old(State()), State(), p.inum, p, addr)
      ensures addr == 0 ==> Full(bitmap, |blk|) && State() == old(State()) && logged == old(logged)
      ensures MapsIfRoom(p.inum, p, addr)
      ensures addr != 0 ==> && addr < |blk| && !Used(old(bitmap), addr)
                            && State() == Hung(old(State()), p, addr) && owner == old(owner)[addr := p]
      ensures old(logged) <= logged
      ensures logged <= old(logged) + (if addr == 0 then {} else {DataBlock(addr), BitmapBlock(addr / BPB)})
                                    + (if p.Entry? then {DataBlock(inodes[p.inum].addrs[NDIRECT])} else {})
      ensures Covers(old(bitmap), old(State()), bitmap, State(), logged + {InodeBlock(p.inum / IPB)})
      ensures p.Entry? ==> inodes == old(inodes)
    {
      hide FsOk, Owned, Shaped, Allocated, KeepsBlocks, SameFile, Covers;
      ghost var s := State();
      MetadataMarked(nmeta, bitmap, s, owner);
      CoversNothing(bitmap, s, logged + {InodeBlock(p.inum / IPB)});
      NothingAllocated(s, p.inum, p);
      addr := Balloc();
      if addr == 0 {
        return;
      }
      HungOk(nmeta, old(bitmap), s, owner, p, addr);
      AllocatedAt(s, Hung(s, p, addr), p.inum, p, addr);
      match p {
        case Direct(n, i) => inodes := inodes[n := inodes[n].(addrs := inodes[n].addrs[i := addr])];
        case Indirect(n) => inodes := inodes[n := inodes[n].(addrs := inodes[n].addrs[NDIRECT := addr])];
        case Entry(n, j) =>
          var a := inodes[n].addrs[NDIRECT];
          blk := blk[a := WithWord(blk[a], j, addr)];
          logged := logged + {DataBlock(a)};
      }
      owner := owner[addr := p];
      assert State() == Hung(s, p, addr);
      HungCovered(old(bitmap), s, p, addr, logged + {InodeBlock(p.inum / IPB)});
    }

    ghost predicate FullNow()
      reads this
    {
      |blk| <= 8 * |bitmap| && Full(bitmap, |blk|)
    }

    /** As many of the `left` bytes wanted as the block of offset `k` has; none if the block is missing and
        the disk is full. */
    method ReadStretch(inum: nat, k: nat, left: nat) returns (piece: seq<Byte>, ghost addr: nat)
      requires Ok() && inum < |inodes| && inodes[inum].size <= MAXFILE * BSIZE
      requires 0 < left && k + left <= inodes[inum].size
      modifies this`bitmap, this`blk, this`inodes, this`owner, this`logged
      ensures Ok() && Allocated(old(State()), State(), inum, PlaceOf(inum, k / BSIZE), addr)
      ensures addr == 0 <==> piece == []
      ensures addr == 0 ==> Full(bitmap, |blk|)
      ensures |piece| <= left && k % BSIZE + |piece| <= BSIZE && piece == Content(State(), inum)[k..k + |piece|]
      ensures BlockOf(old(State()), inum, k / BSIZE) != 0 ==> logged == old(logged) && bitmap == old(bitmap)
      ensures BlockOf(old(State()), inum, k / BSIZE) == 0 ==>
        if Full(old(bitmap), |old(blk)|)
        then addr == 0 && State() == old(State()) && bitmap == old(bitmap) && logged == old(logged)
        else Filled(old(State()), State(), inum, FirstMissing(old(State()), PlaceOf(inum, k / BSIZE)))
      ensures BlockAt(old(State()), PointerOf(inum, k / BSIZE)) != 0 ==> inodes == old(inodes)
      ensures NoInodes(old(logged), logged)
      ensures old(logged) <= logged
      ensures Covers(old(bitmap), old(State()), bitmap, State(), logged + {InodeBlock(inum / IPB)})
    {
      hide FsOk, SameFile, Covers;
      FileReadable(nmeta, bitmap, State(), owner, inum);
      var a := Bmap(inum, k / BSIZE);
      addr := a;
      BlockInRange(nmeta, bitmap, State(), owner, inum, k / BSIZE);
      if a == 0 {
        return [], 0;
      }
      var m := if left < BSIZE - k % BSIZE then left else BSIZE - k % BSIZE;
      ReadStep(State(), inum, k, m);
      piece := blk[a][k % BSIZE..k % BSIZE + m];
    }

    /** One turn of readi's loop, which has come to offset `mid` of the bytes from `off` to `end`. */
    method ReadTurn(inum: nat, mid: nat, end: nat, ghost off: nat, ghost s0: Store, ghost full0: bool, ghost w: Place,
                    ghost changed: bool) returns (piece: seq<Byte>, ghost w2: Place, ghost more: bool)
      requires Ok() && Reading(s0, full0, State(), inum, off, mid, end, w, changed) && mid < end <= s0.inodes[inum].size
      requires !changed ==> FullNow() == full0
      modifies this`bitmap, this`blk, this`inodes, this`owner, this`logged
      ensures Ok() && Reading(s0, full0, State(), inum, off, mid + |piece|, end, w2, more)
      ensures |piece| <= end - mid && end <= |Content(s0, inum)| && piece == Content(s0, inum)[mid..mid + |piece|]
      ensures piece == [] ==> Full(bitmap, |blk|) && !NoneMissing(s0, inum, off, end - off) && (more || full0)
      ensures !more ==> !changed && logged == old(logged) && bitmap == old(bitmap) && FullNow() == full0
      ensures NoInodes(old(logged), logged)
      ensures old(logged) <= logged
      ensures Covers(old(bitmap), old(State()), bitmap, State(), logged + {InodeBlock(inum / IPB)})
    {
      hide FsOk, Shaped, Owned, OnlyMapped, Content, Full, NoneMissing, Reading, Allocated, Filled, Covers, BlockAt;
      ghost var t, fullNow := State(), FullNow();
      ReadingSame(s0, full0, t, inum, off, mid, end, w, changed);
      FileReadable(nmeta, bitmap, t, owner, inum);
      ghost var addr;
      piece, addr := ReadStretch(inum, mid, end - mid);
      AllocatedAt(t, State(), inum, PlaceOf(inum, mid / BSIZE), addr);
      w2, more := ReadingNext(s0, full0, t, State(), inum, off, mid, end, w, changed, addr, |piece|, fullNow);
    }

    /** Read up to n bytes at `off`: exactly the part of the file that is there. A block missing below the
        size is mapped first, which takes a transaction; on a full disk the read stops at it. */
    method Readi(inum: nat, off: nat, n: nat) returns (dst: seq<Byte>)
      requires Ok() && inum < |inodes| && inodes[inum].size <= MAXFILE * BSIZE    // bmap's panic
      requires off < UINT && n < UINT
      modifies this`bitmap, this`blk, this`inodes, this`owner, this`logged
      ensures Ok() && OnlyMapped(old(State()), State(), inum)
      ensures var len := Readable(old(State()), inum, off, n);
        && |dst| <= len && (|dst| > 0 ==> dst == Content(old(State()), inum)[off..off + |dst|])
        && (|dst| < len ==> Full(bitmap, |blk|) && !NoneMissing(old(State()), inum, off, len))
        // Nothing is written if and only if no block is missing, or none can be had.
        && (State() == old(State()) <==> NoneMissing(old(State()), inum, off, len) || Full(old(bitmap), |old(blk)|))
        && (State() == old(State()) ==> logged == old(logged))
        // The inode changes if and only if one of its own pointers is filled, and is not written back.
        && (inodes == old(inodes) <==> PointersThere(old(State()), inum, off, len)
                                       || Full(old(bitmap), |old(blk)|))
      ensures NoInodes(old(logged), logged)
      ensures old(logged) <= logged
      ensures Covers(old(bitmap), old(State()), bitmap, State(), logged + {InodeBlock(inum / IPB)})
    {
      hide FsOk, Owned, SameFile, Covers, At, BlockOf;
      dst := [];
      CoversNothing(bitmap, State(), logged + {InodeBlock(inum / IPB)});
      FileReadable(nmeta, bitmap, State(), owner, inum);
      OnlyMappedStart(State(), inum);
      if off > inodes[inum].size || WrapsAround(off, n) {
        return;
      }
      var len := if off + n > inodes[inum].size then inodes[inum].size - off else n;
      dst := ReadLoop(inum, off, len);
    }

    method ReadLoop(inum: nat, off: nat, len: nat) returns (dst: seq<Byte>)
      requires Ok() && inum < |inodes| && off + len <= inodes[inum].size <= MAXFILE * BSIZE
      modifies this`bitmap, this`blk, this`inodes, this`owner, this`logged
      ensures Ok() && OnlyMapped(old(State()), State(), inum)
      ensures |dst| <= len && dst == Content(old(State()), inum)[off..off + |dst|]
      ensures |dst| < len ==> Full(bitmap, |blk|) && !NoneMissing(old(State()), inum, off, len)
      ensures State() == old(State()) <==> NoneMissing(old(State()), inum, off, len) || Full(old(bitmap), |old(blk)|)
      ensures State() == old(State()) ==> logged == old(logged)
      ensures inodes == old(inodes) <==> PointersThere(old(State()), inum, off, len) || Full(old(bitmap), |old(blk)|)
      ensures NoInodes(old(logged), logged)
      ensures old(logged) <= logged
      ensures Covers(old(bitmap), old(State()), bitmap, State(), logged + {InodeBlock(inum / IPB)})
    {
      hide FsOk, Shaped, Owned, OnlyMapped, Content, Full, NoneMissing, Reading, Allocated, Filled, Covers,
           PointersThere;
      dst := [];
      ghost var s, log, full, map0 := State(), logged, FullNow(), bitmap;
      CoversNothing(map0, s, log + {InodeBlock(inum / IPB)});
      FileReadable(nmeta, bitmap, s, owner, inum);
      ghost var c := Content(s, inum);
      ghost var w, changed := Indirect(inum), false;
      ReadingStart(s, full, inum, off, off + len, w);
      var tot := 0;
      while tot < len
        invariant tot == |dst| <= len && off + len <= |c|
        invariant Ok() && Reading(s, full, State(), inum, off, off + tot, off + len, w, changed)
        invariant !changed ==> logged == log && FullNow() == full
        invariant dst == c[off..off + tot]
        invariant NoInodes(log, logged)
        invariant log <= logged && Covers(map0, s, bitmap, State(), logged + {InodeBlock(inum / IPB)})
      {
        ghost var t, map1, log1 := State(), bitmap, logged;
        var piece;
        piece, w, changed := ReadTurn(inum, off + tot, off + len, off, s, full, w, changed);
        CoversThen(map0, s, map1, t, bitmap, State(), log1 + {InodeBlock(inum / IPB)},
                   logged + {InodeBlock(inum / IPB)});
        if piece == [] {
          break;
        }
        SlicesJoin(c, off, off + tot, off + tot + |piece|);
        dst := dst + piece;
        tot := tot + |piece|;
      }
      ReadingEnds(s, full, State(), inum, off, off + tot, off + len, w, changed);
    }

    /** Write `src` at `off`. -1 for a range the file cannot have; else the number of bytes written,
        short of |src| only when the disk is full. */
    method Writei(inum: nat, src: seq<Byte>, off: nat) returns (r: int)
      requires Ok() && inum < |inodes| && inodes[inum].size <= MAXFILE * BSIZE    // bmap's panic
      requires off < UINT && |src| < UINT
      modifies this`bitmap, this`blk, this`inodes, this`owner, this`logged
      ensures Ok() && |inodes| == |old(inodes)| && inodes[inum].size <= MAXFILE * BSIZE
      ensures NoHoles(old(State()), inum) ==> NoHoles(State(), inum)
      ensures r == -1 <==> off > old(inodes)[inum].size || off + |src| > MAXFILE * BSIZE
      ensures r == -1 ==> State() == old(State()) && logged == old(logged)
      ensures r != -1 ==> && 0 <= r <= |src|
                          && Content(State(), inum) == Overwritten(Content(old(State()), inum), off, src[..r])
      ensures 0 <= r < |src| ==> Full(bitmap, |blk|)
      ensures inodes[inum].kind == old(inodes)[inum].kind && inodes[inum].nlink == old(inodes)[inum].nlink
      // filewrite's chunks of at most three blocks stay within MAXOPBLOCKS log entries, in files without
      // holes; else one more may be needed.
      ensures |src| <= 3 * BSIZE ==>
                |logged - old(logged)| <= MAXOPBLOCKS + if NoHoles(old(State()), inum) then 0 else 1
      ensures forall i | 0 <= i < |inodes| && i != inum :: SameFile(old(State()), State(), i)
      // Nothing changes that is not handed to the log.
      ensures old(logged) <= logged && Covers(old(bitmap), old(State()), bitmap, State(), logged)
    {
      hide FsOk, Writing, Budget, SameFile, NoHoles, Overwritten, Full, Covers;
      CoversNothing(bitmap, State(), logged);
      FileReadable(nmeta, bitmap, State(), owner, inum);
      EachSame(State());
      if off > inodes[inum].size || WrapsAround(off, |src|) {
        return -1;
      }
      if off + |src| > MAXFILE * BSIZE {
        return -1;
      }
      ghost var s0, log0, map0 := State(), logged, bitmap;
      ghost var full := NoHoles(s0, inum);
      var tot;
      ghost var data, maps;
      tot, data, maps := WriteLoop(inum, src, off);
      ghost var s1, log1 := State(), logged;
      WritingInode(s0, State(), inum, off, src, tot);
      WritingDone(nmeta, bitmap, owner, s0, State(), inum, off, src, tot);
      if |src| <= 3 * BSIZE {
        ChunkFitsBudget(full, log0, logged, State(), inum, off, tot, data, maps, InodeBlock(inum / IPB));
      }
      if off + tot > inodes[inum].size {
        inodes := inodes[inum := inodes[inum].(size := off + tot)];
      }
      Iupdate(inum);
      SizeCovered(bitmap, s1, State(), inum, logged);
      CoversThen(map0, s0, bitmap, s1, bitmap, State(), logged, logged);
      r := tot;
    }

    /** writei's loop, until everything is written or the disk is full. */
    method WriteLoop(inum: nat, src: seq<Byte>, off: nat)
        returns (tot: nat, ghost data: set<Logged>, ghost maps: set<Logged>)
      requires Ok() && inum < |inodes| && inodes[inum].size <= MAXFILE * BSIZE
      requires off <= inodes[inum].size && off + |src| <= MAXFILE * BSIZE
      modifies this`bitmap, this`blk, this`inodes, this`owner, this`logged
      ensures Ok() && Writing(old(State()), State(), inum, off, src, tot)
      ensures tot < |src| ==> Full(bitmap, |blk|)
      ensures Budget(NoHoles(old(State()), inum), old(logged), logged, State(), inum, off, tot, data, maps)
      ensures old(logged) <= logged
      ensures Covers(old(bitmap), old(State()), bitmap, State(), logged + {InodeBlock(inum / IPB)})
    {
      hide FsOk, Shaped, Owned, Writing, Budget, NoHoles, Full, Covers;
      ghost var s0, log0, map0 := State(), logged, bitmap;
      CoversNothing(map0, s0, log0 + {InodeBlock(inum / IPB)});
      data, maps, tot := {}, {}, 0;
      FileReadable(nmeta, bitmap, s0, owner, inum);
      ghost var full := NoHoles(s0, inum);
      WritingStart(s0, inum, off, src);
      BudgetStart(full, log0, s0, inum, off);
      while tot < |src|
        invariant Ok() && Writing(s0, State(), inum, off, src, tot)
        invariant AtBoundary(off, src, tot)
        invariant Budget(full, log0, logged, State(), inum, off, tot, data, maps)
        invariant log0 <= logged && Covers(map0, s0, bitmap, State(), logged + {InodeBlock(inum / IPB)})
      {
        ghost var s, log, map1 := State(), logged, bitmap;
        var m;
        ghost var addr, isNew;
        m, addr, isNew := WriteStretch(inum, src, off, tot, s0);
        CoversThen(map0, s0, map1, s, bitmap, State(), log + {InodeBlock(inum / IPB)},
                   logged + {InodeBlock(inum / IPB)});
        if m == 0 {
          BudgetStall(full, log0, log, logged, s, State(), inum, off, tot, data, maps);
          break;
        }
        TurnDone(full, s0, log0, log, logged, s, State(), inum, off, src, tot, data, maps, addr, isNew);
        data := data + {DataBlock(addr)};
        maps := if isNew then maps + {BitmapBlock(addr / BPB)} else maps;
        tot := tot + m;
      }
    }

    /** One turn of writei's loop: the part of src[tot..] that goes into one block; 0 if the disk is full. */
    method WriteStretch(inum: nat, src: seq<Byte>, off: nat, tot: nat, ghost s0: Store)
        returns (m: nat, ghost addr: nat, ghost isNew: bool)
      requires Ok() && Writing(s0, State(), inum, off, src, tot) && tot < |src|
      modifies this`bitmap, this`blk, this`inodes, this`owner, this`logged
      ensures Ok() && Writing(s0, State(), inum, off, src, tot + m)
      ensures m == 0 ==> Full(bitmap, |blk|) && addr == 0
      ensures m != 0 ==> m == Stretch(off, src, tot)
      ensures isNew <==> BlockOf(old(State()), inum, (off + tot) / BSIZE) == 0
      ensures IndirectLogs(old(State()), inum) <= IndirectLogs(State(), inum)
      ensures old(logged) <= logged <= old(logged) + TurnLogs(State(), inum, addr, isNew)
      ensures Covers(old(bitmap), old(State()), bitmap, State(), logged + {InodeBlock(inum / IPB)})
    {
      hide FsOk, Owned, Writing, Allocated, Covers, Full;
      var bn := (off + tot) / BSIZE;
      ghost var s, map0 := State(), bitmap;
      WritingInode(s0, s, inum, off, src, tot);
      FileReadable(nmeta, bitmap, s, owner, inum);
      var a := Bmap(inum, bn);
      AllocatedAt(s, State(), inum, PlaceOf(inum, bn), a);
      AllocatedIndirect(s, State(), inum, PlaceOf(inum, bn), a);
      addr := a;
      isNew := BlockOf(s, inum, bn) == 0;
      WritingAllocates(s0, s, State(), inum, off, src, tot, bn, a);
      ghost var t, log1 := State(), logged;
      m := 0;
      if a != 0 {
        m := PutStretch(inum, src, off, tot, a, s0);
        CoversThen(map0, s, bitmap, t, bitmap, State(), log1 + {InodeBlock(inum / IPB)},
                   logged + {InodeBlock(inum / IPB)});
      }
    }

    method PutStretch(inum: nat, src: seq<Byte>, off: nat, tot: nat, addr: nat, ghost s0: Store) returns (m: nat)
      requires Ok() && Writing(s0, State(), inum, off, src, tot) && tot < |src|
      requires addr == BlockOf(State(), inum, (off + tot) / BSIZE) && addr != 0
      modifies this`blk, this`logged
      ensures Ok() && Writing(s0, State(), inum, off, src, tot + m)
      ensures m == Stretch(off, src, tot)
      ensures logged == old(logged) + {DataBlock(addr)}
      ensures BlockAt(State(), Indirect(inum)) == BlockAt(old(State()), Indirect(inum))
      ensures Covers(bitmap, old(State()), bitmap, State(), logged + {InodeBlock(inum / IPB)})
    {
      hide FsOk, Writing, Spliced;
      var o := (off + tot) % BSIZE;
      m := if |src| - tot < BSIZE - o then |src| - tot else BSIZE - o;
      assert m == Stretch(off, src, tot);
      ghost var s := State();
      WritingStep(nmeta, bitmap, owner, s0, s, inum, off, src, tot, addr);
      var data := Spliced(blk[addr], o, src[tot..tot + m]);
      blk := blk[addr := data];
      assert State() == Written(s, addr, data);
      logged := logged + {DataBlock(addr)};
    }

    /** Truncate an inode: every block it had is free again, and no other file is touched. */
    method Itrunc(inum: nat)
      requires Ok() && inum < |inodes|
      modifies this`bitmap, this`inodes, this`owner, this`logged
      ensures Ok() && |inodes| == |old(inodes)| && NoHoles(State(), inum)
      ensures inodes[inum] == old(inodes)[inum].(addrs := seq(NDIRECT + 1, _ => 0), size := 0)
      ensures Content(State(), inum) == []
      ensures forall i | 0 <= i < |inodes| && i != inum :: SameFile(old(State()), State(), i)
      ensures forall b :: b in owner <==> b in old(owner) && old(owner)[b].inum != inum
      // It logs the inode and at most the whole free map: two entries on a disk of up to BPB blocks.
      ensures |logged - old(logged)| <= BitmapSize(|blk|) + 1
      ensures old(logged) <= logged && Covers(old(bitmap), old(State()), bitmap, State(), logged)
    {
      hide FsOk, Truncating, BitmapSize, Covers;
      ghost var s0, owner0, log0, map0 := State(), owner, logged, bitmap;
      ghost var maps, mine := BitmapBlocks(BitmapSize(|blk|)), {InodeBlock(inum / IPB)};
      OkOwned(nmeta, bitmap, s0, owner0);
      TruncatingStart(nmeta, s0, owner0, inum);
      FreeDirects(inum, s0, owner0);
      if inodes[inum].addrs[NDIRECT] != 0 {
        ghost var s, map1, log1 := State(), bitmap, logged;
        FreeIndirect(inum, s0, owner0);
        CoversThen(map0, s0, map1, s, bitmap, State(), log1 + mine, logged + mine);
      }
      TruncatingShape(s0, State(), owner0, owner, inum);
      assert Bare(State(), inum);
      TruncatingDone(nmeta, bitmap, s0, State(), owner0, owner, inum);
      ghost var s, log1 := State(), logged;
      inodes := inodes[inum := inodes[inum].(size := 0)];
      Iupdate(inum);
      SizeCovered(bitmap, s, State(), inum, logged);
      CoversThen(map0, s0, bitmap, s, bitmap, State(), log1 + mine, logged);
      SubsetCounts(logged - log0, maps + mine);
    }

    /** itrunc's loop over the direct blocks. */
    method FreeDirects(inum: nat, ghost s0: Store, ghost owner0: map<nat, Place>)
      requires Ok() && inum < |inodes| && Truncating(s0, State(), owner0, owner, inum)
      modifies this`bitmap, this`inodes, this`owner, this`logged
      ensures Ok() && Truncating(s0, State(), owner0, owner, inum)
      ensures inum < |inodes| == |s0.inodes| && |blk| == |s0.blk|
      ensures |inodes[inum].addrs| == NDIRECT + 1 && forall k | 0 <= k < NDIRECT :: inodes[inum].addrs[k] == 0
      ensures logged <= old(logged) + BitmapBlocks(BitmapSize(|blk|)) && old(logged) <= logged
      ensures Covers(old(bitmap), old(State()), bitmap, State(), logged + {InodeBlock(inum / IPB)})
    {
      hide FsOk, Truncating, BitmapSize, Covers;
      ghost var s1, map0, mine := State(), bitmap, {InodeBlock(inum / IPB)};
      CoversNothing(map0, s1, logged + mine);
      TruncatingShape(s0, s1, owner0, owner, inum);
      var i := 0;
      while i < NDIRECT
        invariant 0 <= i <= NDIRECT && Ok() && Truncating(s0, State(), owner0, owner, inum)
        invariant old(logged) <= logged <= old(logged) + BitmapBlocks(BitmapSize(|blk|))
        invariant |blk| == |s0.blk| && inum < |inodes| == |s0.inodes|
        invariant Covers(map0, s1, bitmap, State(), logged + mine)
        invariant |inodes[inum].addrs| == NDIRECT + 1 && forall k | 0 <= k < i :: inodes[inum].addrs[k] == 0
      {
        ghost var s, map1, log1 := State(), bitmap, logged;
        FreeDirect(inum, i, s0, owner0);
        CoversThen(map0, s1, map1, s, bitmap, State(), log1 + mine, logged + mine);
        TruncatingShape(s0, State(), owner0, owner, inum);
        i := i + 1;
      }
    }

    /** itrunc's part for the indirect block. Its entries are freed one by one but never cleared on disk;
        `g` is the indirect block with the entries done so far read as cleared. */
    method FreeIndirect(inum: nat, ghost s0: Store, ghost owner0: map<nat, Place>)
      requires Ok() && Truncating(s0, State(), owner0, owner, inum) && inodes[inum].addrs[NDIRECT] != 0
      modifies this`bitmap, this`inodes, this`owner, this`logged
      ensures Ok() && Truncating(s0, State(), owner0, owner, inum)
      ensures inodes[inum].addrs == old(inodes)[inum].addrs[NDIRECT := 0]
      ensures logged <= old(logged) + BitmapBlocks(BitmapSize(|blk|))
      ensures old(logged) <= logged
      ensures Covers(old(bitmap), old(State()), bitmap, State(), logged + {InodeBlock(inum / IPB)})
    {
      hide Covers;
      ghost var s, map0, mine := State(), bitmap, {InodeBlock(inum / IPB)};
      CoversNothing(map0, s, logged + mine);
      var ind := inodes[inum].addrs[NDIRECT];
      assert At(State(), Indirect(inum)) == ind && ind in owner;
      ghost var g := blk[ind];
      assert blk[ind := g] == blk;
      var j := 0;
      while j < NINDIRECT
        invariant FsOk(nmeta, bitmap, Store(blk[ind := g], inodes), owner)
        invariant Truncating(s0, Store(blk[ind := g], inodes), owner0, owner, inum)
        invariant 0 <= j <= NINDIRECT && ClearedUpTo(g, blk[ind], j) && inodes == old(inodes)
        invariant logged <= old(logged) + BitmapBlocks(BitmapSize(|blk|))
        invariant old(logged) <= logged && Covers(map0, s, bitmap, State(), logged + mine)
      {
        ghost var map1, log1 := bitmap, logged;
        g := FreeEntry(inum, ind, j, g, s0, owner0);
        CoversThen(map0, s, map1, s, bitmap, State(), log1 + mine, logged + mine);
        j := j + 1;
      }
      ghost var map1, log1 := bitmap, logged;
      DropIndirect(inum, ind, g, s0, owner0);
      CoversThen(map0, s, map1, s, bitmap, State(), log1 + mine, logged + mine);
    }

    /** Free the indirect block itself; what it really holds no longer matters. */
    method DropIndirect(inum: nat, ind: nat, ghost g: Block, ghost s0: Store, ghost owner0: map<nat, Place>)
      requires 0 < ind < |blk| && inum < |inodes|
      requires FsOk(nmeta, bitmap, Store(blk[ind := g], inodes), owner)
      requires Truncating(s0, Store(blk[ind := g], inodes), owner0, owner, inum)
      requires |inodes[inum].addrs| == NDIRECT + 1 && inodes[inum].addrs[NDIRECT] == ind
      requires ClearedUpTo(g, blk[ind], NINDIRECT)
      modifies this`bitmap, this`inodes, this`owner, this`logged
      ensures Ok() && Truncating(s0, State(), owner0, owner, inum)
      ensures inodes[inum].addrs == old(inodes)[inum].addrs[NDIRECT := 0]
      ensures logged <= old(logged) + BitmapBlocks(BitmapSize(|blk|))
      ensures old(logged) <= logged
      ensures Covers(old(bitmap), old(State()), bitmap, State(), logged + {InodeBlock(inum / IPB)})
    {
      hide FsOk, Owned, Shaped, Truncating, BitmapSize, Covers, ClearedUpTo, SameFile;
      ghost var s1, map0 := State(), bitmap;
      ghost var s, p := Store(blk[ind := g], inodes), Indirect(inum);
      LastUnhang(nmeta, bitmap, s, owner, inum, blk[ind]);
      TruncatingStep(nmeta, bitmap, s0, s, owner0, owner, inum, p);
      ghost var u := Unhung(s, p);
      FreedIsLogged(ind, |blk|);
      Bfree(ind);
      owner := owner - {ind};
      inodes := inodes[inum := inodes[inum].(addrs := inodes[inum].addrs[NDIRECT := 0])];
      TruncatingStray(nmeta, bitmap, s0, u, owner0, owner, inum, ind, blk[ind]);
      assert State() == Written(u, ind, blk[ind]);
      FreedCovered(map0, s1, State(), inum, ind, logged + {InodeBlock(inum / IPB)});
    }

    method FreeEntry(inum: nat, ind: nat, j: nat, ghost g: Block, ghost s0: Store, ghost owner0: map<nat, Place>)
        returns (ghost g': Block)
      requires j < NINDIRECT && 0 < ind < |blk| && inum < |inodes|
      requires FsOk(nmeta, bitmap, Store(blk[ind := g], inodes), owner)
      requires Truncating(s0, Store(blk[ind := g], inodes), owner0, owner, inum)
      requires inodes[inum].addrs[NDIRECT] == ind && ClearedUpTo(g, blk[ind], j)
      modifies this`bitmap, this`owner, this`logged
      ensures FsOk(nmeta, bitmap, Store(blk[ind := g'], inodes), owner)
      ensures Truncating(s0, Store(blk[ind := g'], inodes), owner0, owner, inum)
      ensures ClearedUpTo(g', blk[ind], j + 1)
      ensures logged <= old(logged) + BitmapBlocks(BitmapSize(|blk|))
      ensures old(logged) <= logged
      ensures Covers(old(bitmap), old(State()), bitmap, State(), logged + {InodeBlock(inum / IPB)})
    {
      hide FsOk, Owned, SameFile, Truncating, BitmapSize, Covers;
      MetadataMarked(nmeta, bitmap, Store(blk[ind := g], inodes), owner);
      CoversNothing(bitmap, State(), logged + {InodeBlock(inum / IPB)});
      g' := g;
      ClearOneMore(g, blk[ind], j);
      var a := Word(blk[ind], j);
      if a != 0 {
        ghost var s, p := Store(blk[ind := g], inodes), Entry(inum, j);
        assert At(s, p) == Word(g, j) == a;
        TruncatingStep(nmeta, bitmap, s0, s, owner0, owner, inum, p);
        FreedIsLogged(a, |blk|);
        Bfree(a);
        FreedCovered(old(bitmap), State(), State(), inum, a, logged + {InodeBlock(inum / IPB)});
        owner := owner - {a};
        g' := WithWord(g, j, 0);
        assert Store(blk[ind := g'], inodes) == Unhung(s, p);
      }
    }

    method FreeDirect(inum: nat, i: nat, ghost s0: Store, ghost owner0: map<nat, Place>)
      requires Ok() && i < NDIRECT && Truncating(s0, State(), owner0, owner, inum)
      modifies this`bitmap, this`inodes, this`owner, this`logged
      ensures Ok() && Truncating(s0, State(), owner0, owner, inum)
      ensures inodes[inum].addrs == old(inodes)[inum].addrs[i := 0]
      ensures logged <= old(logged) + BitmapBlocks(BitmapSize(|blk|))
      ensures old(logged) <= logged
      ensures Covers(old(bitmap), old(State()), bitmap, State(), logged + {InodeBlock(inum / IPB)})
    {
      hide FsOk, Owned, SameFile, Truncating, BitmapSize, Covers;
      MetadataMarked(nmeta, bitmap, State(), owner);
      TruncatingShape(s0, State(), owner0, owner, inum);
      CoversNothing(bitmap, State(), logged + {InodeBlock(inum / IPB)});
      ghost var s, p := State(), Direct(inum, i);
      if inodes[inum].addrs[i] != 0 {
        TruncatingStep(nmeta, bitmap, s0, s, owner0, owner, inum, p);
        FreedIsLogged(inodes[inum].addrs[i], |blk|);
        Bfree(inodes[inum].addrs[i]);
        owner := owner - {inodes[inum].addrs[i]};
        inodes := inodes[inum := inodes[inum].(addrs := inodes[inum].addrs[i := 0])];
        assert State() == Unhung(s, p);
        FreedCovered(old(bitmap), s, State(), inum, s.inodes[inum].addrs[i], logged + {InodeBlock(inum / IPB)});
      }
    }
  }
}
