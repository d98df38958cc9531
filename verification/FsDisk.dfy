// The file system on the disk (kernel/fs.h, kernel/fs.c over kernel/log.c): what a disk's blocks say when
// read as free map, inodes and data, and that a crash at any moment leaves a disk that says a whole number
// of transactions.

module DiskForm {
  import L = LogLayout
  import opened FsBlocks
  import opened FsTree
  import opened FsFacts

  /** Where things are: the superblock's inodestart, ninodes and bmapstart, the free map's length, and the
      first data block. */
  datatype Super = Super(inodestart: nat, ninodes: nat, bmapstart: nat, nbitmap: nat, nmeta: nat)

  /** A free map and the store it is about. */
  datatype Fs = Fs(bitmap: seq<bv8>, store: Store)

  /** [ boot block | super block | log | inode blocks | free bit map | data blocks ] */
  predicate Placed(sb: Super, l: L.Layout, size: nat) {
    && l.start + l.size <= sb.inodestart && sb.inodestart + sb.ninodes / IPB + 1 <= sb.bmapstart
    && sb.bmapstart + sb.nbitmap <= sb.nmeta <= size
  }

  // ---- reading a block, which the log sees as 256 ints ----

  /** Byte `k` of an int, least significant first. */
  function ByteOf(w: int, k: nat): Byte
    requires k < 4
  {
    (if k == 0 then w else if k == 1 then w / 0x100 else if k == 2 then w / 0x1_0000 else w / 0x100_0000) % 0x100
  }

  /** A short, from its sixteen bits. */
  function Short(w: int): int {
    if w % 0x1_0000 < 0x8000 then w % 0x1_0000 else w % 0x1_0000 - 0x1_0000
  }

  function DataIn(b: L.Block): Block {
    seq(BSIZE, i requires 0 <= i < BSIZE => ByteOf(b[i / 4], i % 4))
  }

  function MapByteIn(b: L.Block, i: nat): bv8
    requires i < BSIZE
  {
    ByteOf(b[i / 4], i % 4) as bv8
  }

  /** The dinode at index `j` of an inode block: type, major, minor and nlink, size, and the addresses. */
  function InodeIn(b: L.Block, j: nat): Inode
    requires j < IPB
  {
    Inode(Short(b[16 * j]), Short(b[16 * j + 1] / 0x1_0000), b[16 * j + 2] % UINT,
          seq(NDIRECT + 1, k requires 0 <= k <= NDIRECT => b[16 * j + 3 + k] % UINT))
  }

  /** The file system that a disk holds. */
  function OnDisk(sb: Super, l: L.Layout, d: L.Disk): Fs
    requires Placed(sb, l, |d|)
  {
    Fs(seq(sb.nbitmap * BSIZE, i requires 0 <= i < sb.nbitmap * BSIZE =>
               MapByteIn(d[sb.bmapstart + i / BSIZE], i % BSIZE)),
       Store(seq(|d|, b requires 0 <= b < |d| => DataIn(d[b])),
             seq(sb.ninodes, i requires 0 <= i < sb.ninodes => InodeIn(d[sb.inodestart + i / IPB], i % IPB))))
  }

  // ---- a disk that holds a file system ----

  predicate Sized(sb: Super, f: Fs, size: nat) {
    |f.bitmap| == sb.nbitmap * BSIZE && |f.store.inodes| == sb.ninodes && |f.store.blk| == size
  }

  /** `data`, as the contents of disk block `b`, says what `f` does. */
  ghost predicate Shows(sb: Super, f: Fs, b: int, data: L.Block) {
    && (forall i {:trigger MapByteIn(data, i)} | 0 <= i < BSIZE && b >= sb.bmapstart
          && (b - sb.bmapstart) * BSIZE + i < |f.bitmap| ::
          MapByteIn(data, i) == f.bitmap[(b - sb.bmapstart) * BSIZE + i])
    && (forall j {:trigger InodeIn(data, j)} | 0 <= j < IPB && b >= sb.inodestart
          && (b - sb.inodestart) * IPB + j < |f.store.inodes| ::
          InodeIn(data, j) == f.store.inodes[(b - sb.inodestart) * IPB + j])
    && (sb.nmeta <= b < |f.store.blk| ==> DataIn(data) == f.store.blk[b])
  }

  ghost predicate Holds(sb: Super, l: L.Layout, d: L.Disk, f: Fs) {
    && Placed(sb, l, |d|) && Sized(sb, f, |d|)
    && forall b {:trigger d[b]} | sb.inodestart <= b < |d| :: Shows(sb, f, b, d[b])
  }

  lemma SameHomeHolds(sb: Super, l: L.Layout, d: L.Disk, e: L.Disk, f: Fs)
    requires Holds(sb, l, d, f) && L.SameHome(l, e, d)
    ensures Holds(sb, l, e, f)
  {
    forall b | sb.inodestart <= b < |e| ensures Shows(sb, f, b, e[b]) {
      assert L.Home(l, |e|, b) && Shows(sb, f, b, d[b]);
    }
  }

  lemma HeldInode(sb: Super, l: L.Layout, d: L.Disk, f: Fs, i: nat)
    requires Holds(sb, l, d, f) && i < sb.ninodes
    ensures OnDisk(sb, l, d).store.inodes[i] == f.store.inodes[i]
  {
    var b := sb.inodestart + i / IPB;
    assert (b - sb.inodestart) * IPB + i % IPB == i;
    assert Shows(sb, f, b, d[b]);
  }

  lemma HeldMapByte(sb: Super, l: L.Layout, d: L.Disk, f: Fs, i: nat)
    requires Holds(sb, l, d, f) && i < sb.nbitmap * BSIZE
    ensures OnDisk(sb, l, d).bitmap[i] == f.bitmap[i]
  {
    var b := sb.bmapstart + i / BSIZE;
    assert (b - sb.bmapstart) * BSIZE + i % BSIZE == i;
    assert Shows(sb, f, b, d[b]);
  }

  /** What is read back: the same free map, the same inodes, the same data blocks. */
  lemma ReadBack(sb: Super, l: L.Layout, d: L.Disk, f: Fs)
    requires Holds(sb, l, d, f)
    ensures var g := OnDisk(sb, l, d);
            && g.bitmap == f.bitmap && g.store.inodes == f.store.inodes && |g.store.blk| == |f.store.blk|
            && forall b | sb.nmeta <= b < |d| :: g.store.blk[b] == f.store.blk[b]
  {
    var g := OnDisk(sb, l, d);
    forall i | 0 <= i < |f.bitmap| ensures g.bitmap[i] == f.bitmap[i] {
      HeldMapByte(sb, l, d, f, i);
    }
    forall i | 0 <= i < |f.store.inodes| ensures g.store.inodes[i] == f.store.inodes[i] {
      HeldInode(sb, l, d, f, i);
    }
    forall b | sb.nmeta <= b < |d| ensures g.store.blk[b] == f.store.blk[b] {
      assert Shows(sb, f, b, d[b]);
    }
  }

  lemma SameAt(s: Store, t: Store, nmeta: nat, owner: map<nat, Place>, p: Place)
    requires Owned(s, nmeta, owner) && IsPlace(s, p) && t.inodes == s.inodes && |t.blk| == |s.blk|
    requires forall b | nmeta <= b < |s.blk| :: t.blk[b] == s.blk[b]
    ensures Shaped(t) && At(t, p) == At(s, p)
  {
    assert At(s, Indirect(p.inum)) != 0 ==> At(s, Indirect(p.inum)) in owner;
  }

  /** What metadata blocks hold is nothing to the block tree. */
  lemma SameTree(s: Store, t: Store, nmeta: nat, owner: map<nat, Place>)
    requires Owned(s, nmeta, owner) && t.inodes == s.inodes && |t.blk| == |s.blk|
    requires forall b | nmeta <= b < |s.blk| :: t.blk[b] == s.blk[b]
    ensures Owned(t, nmeta, owner)
  {
    forall p | IsPlace(s, p) ensures Shaped(t) && At(t, p) == At(s, p) {
      SameAt(s, t, nmeta, owner, p);
    }
  }

  /** A disk that holds a file system in order reads back as one, every block in its one place. */
  lemma OkReadBack(sb: Super, l: L.Layout, d: L.Disk, f: Fs, owner: map<nat, Place>)
    requires Holds(sb, l, d, f) && FsOk(sb.nmeta, f.bitmap, f.store, owner)
    ensures var g := OnDisk(sb, l, d); FsOk(sb.nmeta, g.bitmap, g.store, owner)
  {
    hide Owned, OnDisk;
    var g := OnDisk(sb, l, d);
    ReadBack(sb, l, d, f);
    SameTree(f.store, g.store, sb.nmeta, owner);
  }

  // ---- writing a block, and reading it back ----

  function BlockOfBytes(bytes: Block): L.Block {
    seq(L.WORDS, j requires 0 <= j < L.WORDS => Word(bytes, j))
  }

  function MapBytes(bitmap: seq<bv8>, k: nat): Block {
    seq(BSIZE, i requires 0 <= i < BSIZE => if BSIZE * k + i < |bitmap| then bitmap[BSIZE * k + i] as int else 0)
  }

  predicate FitsDinode(r: Inode) {
    && -0x8000 <= r.kind < 0x8000 && -0x8000 <= r.nlink < 0x8000 && r.size < UINT
    && |r.addrs| == NDIRECT + 1 && forall k | 0 <= k <= NDIRECT :: r.addrs[k] < UINT
  }

  /** Word `k` of a dinode; devices' numbers are not modelled. */
  function InodeWord(r: Inode, k: nat): int
    requires k < 16 && FitsDinode(r)
  {
    if k == 0 then r.kind % 0x1_0000 else if k == 1 then 0x1_0000 * (r.nlink % 0x1_0000)
    else if k == 2 then r.size else r.addrs[k - 3]
  }

  function InodeBlockOf(inodes: seq<Inode>, k: nat): L.Block
    requires forall i | 0 <= i < |inodes| :: FitsDinode(inodes[i])
  {
    seq(L.WORDS, j requires 0 <= j < L.WORDS =>
        if IPB * k + j / 16 < |inodes| then InodeWord(inodes[IPB * k + j / 16], j % 16) else 0)
  }

  lemma BytesReadBack(bytes: Block, i: nat)
    requires i < BSIZE
    ensures ByteOf(BlockOfBytes(bytes)[i / 4], i % 4) == bytes[i]
  {
    var j := i / 4;
    assert i == 4 * j + i % 4;
    Digits(bytes[4 * j], bytes[4 * j + 1], bytes[4 * j + 2], bytes[4 * j + 3]);
  }

  lemma Digits(b0: int, b1: int, b2: int, b3: int)
    requires 0 <= b0 < 0x100 && 0 <= b1 < 0x100 && 0 <= b2 < 0x100 && 0 <= b3 < 0x100
    ensures var w := b0 + 0x100 * b1 + 0x1_0000 * b2 + 0x100_0000 * b3;
            && w % 0x100 == b0 && w / 0x100 % 0x100 == b1 && w / 0x1_0000 % 0x100 == b2
            && w / 0x100_0000 % 0x100 == b3
  {
    var w := b0 + 0x100 * b1 + 0x1_0000 * b2 + 0x100_0000 * b3;
    assert w / 0x100 == b1 + 0x100 * b2 + 0x1_0000 * b3;
    assert w / 0x1_0000 == b2 + 0x100 * b3;
    assert w / 0x100_0000 == b3;
  }

  lemma DinodeReadsBack(inodes: seq<Inode>, k: nat, j: nat)
    requires forall i | 0 <= i < |inodes| :: FitsDinode(inodes[i])
    requires j < IPB && IPB * k + j < |inodes|
    ensures InodeIn(InodeBlockOf(inodes, k), j) == inodes[IPB * k + j]
  {
    hide InodeWord, InodeBlockOf;
    var r, b := inodes[IPB * k + j], InodeBlockOf(inodes, k);
    WordsReadBack(r);
    forall n | 0 <= n < 16 ensures b[16 * j + n] == InodeWord(r, n) {
      InodeWordAt(inodes, k, j, n);
    }
    assert InodeIn(b, j).addrs == r.addrs;
  }

  lemma InodeWordAt(inodes: seq<Inode>, k: nat, j: nat, n: nat)
    requires forall i | 0 <= i < |inodes| :: FitsDinode(inodes[i])
    requires j < IPB && IPB * k + j < |inodes| && n < 16
    ensures InodeBlockOf(inodes, k)[16 * j + n] == InodeWord(inodes[IPB * k + j], n)
  {
    assert (16 * j + n) / 16 == j && (16 * j + n) % 16 == n;
  }

  lemma WordsReadBack(r: Inode)
    requires FitsDinode(r)
    ensures Short(InodeWord(r, 0)) == r.kind && Short(InodeWord(r, 1) / 0x1_0000) == r.nlink
    ensures InodeWord(r, 2) % UINT == r.size
    ensures forall k | 0 <= k <= NDIRECT :: InodeWord(r, 3 + k) % UINT == r.addrs[k]
  {
  }

  function BlockFor(sb: Super, f: Fs, b: nat): L.Block
    requires forall i | 0 <= i < |f.store.inodes| :: FitsDinode(f.store.inodes[i])
  {
    if sb.nmeta <= b < |f.store.blk| then BlockOfBytes(f.store.blk[b])
    else if sb.bmapstart <= b then BlockOfBytes(MapBytes(f.bitmap, b - sb.bmapstart))
    else if sb.inodestart <= b then InodeBlockOf(f.store.inodes, b - sb.inodestart)
    else seq(L.WORDS, _ => 0)
  }

  lemma MapReadsBack(bitmap: seq<bv8>, k: nat, i: nat)
    requires i < BSIZE && BSIZE * k + i < |bitmap|
    ensures MapByteIn(BlockOfBytes(MapBytes(bitmap, k)), i) == bitmap[BSIZE * k + i]
  {
    BytesReadBack(MapBytes(bitmap, k), i);
  }

  /** Every file system whose numbers fit their fields can be put on a disk, whatever the log's blocks hold. */
  lemma Storable(sb: Super, l: L.Layout, f: Fs)
    requires Placed(sb, l, |f.store.blk|) && Sized(sb, f, |f.store.blk|)
    requires forall i | 0 <= i < |f.store.inodes| :: FitsDinode(f.store.inodes[i])
    ensures Holds(sb, l, seq(|f.store.blk|, b requires 0 <= b < |f.store.blk| => BlockFor(sb, f, b)), f)
  {
    forall b | sb.inodestart <= b < |f.store.blk| ensures Shows(sb, f, b, BlockFor(sb, f, b)) {
      BlockShows(sb, l, f, b);
    }
  }

  lemma BlockShows(sb: Super, l: L.Layout, f: Fs, b: nat)
    requires Placed(sb, l, |f.store.blk|) && Sized(sb, f, |f.store.blk|) && sb.inodestart <= b < |f.store.blk|
    requires forall i | 0 <= i < |f.store.inodes| :: FitsDinode(f.store.inodes[i])
    ensures Shows(sb, f, b, BlockFor(sb, f, b))
  {
    hide BlockOfBytes, MapBytes, InodeBlockOf, MapByteIn, InodeIn, DataIn, FitsDinode;
    var data := BlockFor(sb, f, b);
    forall i | 0 <= i < BSIZE && b >= sb.bmapstart && (b - sb.bmapstart) * BSIZE + i < |f.bitmap|
      ensures MapByteIn(data, i) == f.bitmap[(b - sb.bmapstart) * BSIZE + i]
    {
      MapReadsBack(f.bitmap, b - sb.bmapstart, i);
    }
    forall j | 0 <= j < IPB && (b - sb.inodestart) * IPB + j < |f.store.inodes|
      ensures InodeIn(data, j) == f.store.inodes[(b - sb.inodestart) * IPB + j]
    {
      DinodeReadsBack(f.store.inodes, b - sb.inodestart, j);
    }
    if sb.nmeta <= b {
      DataReadsBack(f.store.blk[b]);
    }
  }

  lemma DataReadsBack(bytes: Block)
    ensures DataIn(BlockOfBytes(bytes)) == bytes
  {
    forall i | 0 <= i < BSIZE ensures DataIn(BlockOfBytes(bytes))[i] == bytes[i] {
      BytesReadBack(bytes, i);
    }
  }
}

module FsCrash {
  import L = LogLayout
  import opened LogSystem
  import LogRuns
  import opened FsBlocks
  import opened FsTree
  import opened FsFacts
  import opened DiskForm

  /** The number of the disk block that a log entry is about. */
  function BlockNo(sb: Super, x: Logged): nat {
    match x
    case DataBlock(b) => b
    case BitmapBlock(i) => sb.bmapstart + i
    case InodeBlock(i) => sb.inodestart + i
  }

  ghost predicate Changes(f: Fs, g: Fs, log: set<Logged>) {
    Covers(f.bitmap, f.store, g.bitmap, g.store, log)
  }

  /** A block that is not logged says the same of both. */
  lemma NotLogged(sb: Super, f: Fs, g: Fs, log: set<Logged>, b: int, data: L.Block)
    requires Changes(f, g, log) && Shows(sb, f, b, data) && forall x | x in log :: BlockNo(sb, x) != b
    ensures Shows(sb, g, b, data)
  {
    forall i | 0 <= i < BSIZE && b >= sb.bmapstart && (b - sb.bmapstart) * BSIZE + i < |g.bitmap|
      ensures MapByteIn(data, i) == g.bitmap[(b - sb.bmapstart) * BSIZE + i]
    {
      assert ((b - sb.bmapstart) * BSIZE + i) / (BPB / 8) == b - sb.bmapstart;
      assert BlockNo(sb, BitmapBlock(b - sb.bmapstart)) == b;
      assert MapByteIn(data, i) == f.bitmap[(b - sb.bmapstart) * BSIZE + i];
    }
    forall j | 0 <= j < IPB && b >= sb.inodestart && (b - sb.inodestart) * IPB + j < |g.store.inodes|
      ensures InodeIn(data, j) == g.store.inodes[(b - sb.inodestart) * IPB + j]
    {
      assert ((b - sb.inodestart) * IPB + j) / IPB == b - sb.inodestart;
      assert BlockNo(sb, InodeBlock(b - sb.inodestart)) == b;
      assert InodeIn(data, j) == f.store.inodes[(b - sb.inodestart) * IPB + j];
    }
    if sb.nmeta <= b < |g.store.blk| {
      assert BlockNo(sb, DataBlock(b)) == b;
    }
  }

  // ---- one commit ----

  /** The header names the blocks that the operations logged, and the cache shows what they left in them. */
  ghost predicate Cached(sb: Super, g: Fs, log: set<Logged>, lh: seq<int>, cache: map<int, L.Block>) {
    && (forall x | x in log :: BlockNo(sb, x) in lh)
    && (forall b | b in lh :: b in cache && Shows(sb, g, b, cache[b]))
  }

  lemma OverlayHolds(sb: Super, l: L.Layout, d: L.Disk, f: Fs, g: Fs, log: set<Logged>, lh: seq<int>,
                     cache: map<int, L.Block>)
    requires Holds(sb, l, d, f) && Changes(f, g, log) && Cached(sb, g, log, lh, cache)
    ensures Holds(sb, l, L.Overlay(d, lh, cache), g)
  {
    var e := L.Overlay(d, lh, cache);
    forall b | sb.inodestart <= b < |e| ensures Shows(sb, g, b, e[b]) {
      if b !in lh {
        assert Shows(sb, f, b, d[b]);
        NotLogged(sb, f, g, log, b, d[b]);
      }
    }
  }

  /** A crash anywhere in the commit of what file-system operations logged, and recoveries cut off anywhere:
      the disk holds the file system from before them, or the one from after them. */
  lemma CrashKeepsFs(sb: Super, l: L.Layout, d: L.Disk, f: Fs, g: Fs, log: set<Logged>, lh: seq<int>,
                     cache: map<int, L.Block>, i: nat, cuts: seq<nat>, e: L.Disk)
    requires Holds(sb, l, d, f) && Changes(f, g, log) && Cached(sb, g, log, lh, cache)
    requires L.Loggable(l, |d|, lh) && L.HeadOk(l, d) && L.HeadCount(l, d) == 0 && i <= 2 * |lh| + 2
    requires L.CutRecoveries(l, L.CommitDisk(l, d, lh, cache, i), cuts, e)
    ensures L.HeadOk(l, e) && Holds(sb, l, L.Recover(l, e), if i <= |lh| then f else g)
  {
    L.CrashAtomicity(l, d, lh, cache, i, cuts, e);
    OverlayHolds(sb, l, d, f, g, log, lh, cache);
    SameHomeHolds(sb, l, if i <= |lh| then d else L.Overlay(d, lh, cache), L.Recover(l, e), if i <= |lh| then f else g);
  }

  // ---- every run ----

  /** The last write of a group to each block. */
  predicate LastTo(ws: Group, k: nat) {
    k < |ws| && forall j | k < j < |ws| :: ws[j].block != ws[k].block
  }

  lemma {:induction false} EffectAt(d: L.Disk, ws: Group, b: nat) returns (k: nat)
    requires b < |d|
    ensures if k < |ws| then LastTo(ws, k) && ws[k].block == b && Effect(d, ws)[b] == ws[k].data
            else Effect(d, ws)[b] == d[b] && forall j | 0 <= j < |ws| :: ws[j].block != b
  {
    k := |ws|;
    if ws != [] {
      var n := |ws| - 1;
      if ws[n].block == b {
        k := n;
      } else {
        var j := EffectAt(d, ws[..n], b);
        k := if j < n then j else |ws|;
      }
    }
  }

  /** A group that holds what the operations leading from `f` to `g` logged: each block last as `g` has it. */
  ghost predicate GroupOf(sb: Super, f: Fs, g: Fs, log: set<Logged>, ws: Group) {
    && Changes(f, g, log)
    && (forall x | x in log :: exists k :: 0 <= k < |ws| && ws[k].block == BlockNo(sb, x))
    && (forall k: nat | LastTo(ws, k) :: Shows(sb, g, ws[k].block, ws[k].data))
  }

  lemma GroupHolds(sb: Super, l: L.Layout, d: L.Disk, f: Fs, g: Fs, log: set<Logged>, ws: Group)
    requires Holds(sb, l, d, f) && GroupOf(sb, f, g, log, ws)
    ensures Holds(sb, l, Effect(d, ws), g)
  {
    var e := Effect(d, ws);
    forall b: nat | sb.inodestart <= b < |e| ensures Shows(sb, g, b, e[b]) {
      var k := EffectAt(d, ws, b);
      if k < |ws| {
        assert LastTo(ws, k);
      } else {
        assert Shows(sb, f, b, d[b]);
        NotLogged(sb, f, g, log, b, d[b]);
      }
    }
  }

  /** The file systems between the groups, as fs.c's operations make them, from the one on the first disk. */
  ghost predicate Session(sb: Super, l: L.Layout, init: L.Disk, fs: seq<Fs>, logs: seq<set<Logged>>, gs: seq<Group>) {
    && |fs| == |gs| + 1 && |logs| == |gs| && Holds(sb, l, init, fs[0])
    && forall k | 0 <= k < |gs| :: GroupOf(sb, fs[k], fs[k + 1], logs[k], gs[k])
  }

  lemma {:induction false} SessionHolds(sb: Super, l: L.Layout, init: L.Disk, fs: seq<Fs>, logs: seq<set<Logged>>,
                                        gs: seq<Group>)
    requires Session(sb, l, init, fs, logs, gs)
    ensures Holds(sb, l, Effects(init, gs), fs[|gs|])
  {
    if gs != [] {
      var n := |gs| - 1;
      SessionHolds(sb, l, init, fs[..|gs|], logs[..n], gs[..n]);
      GroupHolds(sb, l, Effects(init, gs[..n]), fs[n], fs[n + 1], logs[n], gs[n]);
    }
  }

  /** At any moment of any run of the log that carries file-system operations, with any number of processes,
      commits, crashes and cut-off recoveries behind it: the disk recovers to the file system that the durable
      groups lead to, and if that one is in order, so is the one that is read from the disk. */
  lemma RecoveredFsOk(sb: Super, l: L.Layout, init: L.Disk, ss: seq<Sys>, steps: seq<Step>, i: nat, cuts: seq<nat>,
                      e: L.Disk, fs: seq<Fs>, logs: seq<set<Logged>>, owner: map<nat, Place>)
    requires LogRuns.IsRun(l, init, ss, steps) && i < |ss| && L.CutRecoveries(l, ss[i].disk, cuts, e)
    requires Session(sb, l, init, fs, logs, ss[i].durable)
    requires var f := fs[|ss[i].durable|]; FsOk(sb.nmeta, f.bitmap, f.store, owner)
    ensures L.HeadOk(l, e) && Holds(sb, l, L.Recover(l, e), fs[|ss[i].durable|])
    ensures var g := OnDisk(sb, l, L.Recover(l, e)); FsOk(sb.nmeta, g.bitmap, g.store, owner)
  {
    var gs := ss[i].durable;
    LogRuns.RecoveredDiskIsDurableGroups(l, init, ss, steps, i, i, cuts, e);
    SessionHolds(sb, l, init, fs, logs, gs);
    SameHomeHolds(sb, l, Effects(init, gs), L.Recover(l, e), fs[|gs|]);
    OkReadBack(sb, l, L.Recover(l, e), fs[|gs|], owner);
  }

  // ---- a change that is not logged ----

  /** A read that fills one of the inode's own pointers leaves the inode on the disk behind: there, block `b`
      is marked and no place refers to it. */
  lemma ReadLeavesStray(nmeta: nat, f: Fs, g: Fs, inum: nat, owner: map<nat, Place>) returns (b: nat)
    requires FsOk(nmeta, g.bitmap, g.store, owner) && OnlyMapped(f.store, g.store, inum)
    requires g.store.inodes != f.store.inodes
    ensures var d := Store(g.store.blk, f.store.inodes);
            && nmeta <= b < |d.blk| <= 8 * |g.bitmap| && Used(g.bitmap, b)
            && Shaped(d) && (forall p | IsPlace(d, p) :: At(d, p) != b)
            && forall o :: !FsOk(nmeta, g.bitmap, d, o)
  {
    var s, t := f.store, g.store;
    var d := Store(t.blk, s.inodes);
    var w := FilledPointer(s, t, inum);
    b := At(t, w);
    assert b in owner && owner[b] == w;
    forall p | IsPlace(d, p) ensures At(d, p) != b {
      if At(d, p) != 0 {
        PointersKept(s, t, inum, p);
      }
    }
  }

  lemma FilledPointer(s: Store, t: Store, inum: nat) returns (w: Place)
    requires OnlyMapped(s, t, inum) && s.inodes != t.inodes
    ensures IsPlace(s, w) && IsPlace(t, w) && !w.Entry? && At(s, w) == 0 && At(t, w) != 0
  {
    if s.inodes[inum].addrs == t.inodes[inum].addrs {
      forall i | 0 <= i < |s.inodes| ensures s.inodes[i] == t.inodes[i] {
        assert i != inum ==> SameFile(s, t, i);
      }
      assert false;
    }
    var k :| 0 <= k <= NDIRECT && s.inodes[inum].addrs[k] != t.inodes[inum].addrs[k];
    w := if k < NDIRECT then Direct(inum, k) else Indirect(inum);
    assert BlockAt(t, w) == At(t, w);
  }

  lemma PointersKept(s: Store, t: Store, inum: nat, q: Place)
    requires OnlyMapped(s, t, inum) && IsPlace(s, q) && Shaped(Store(t.blk, s.inodes))
    requires At(Store(t.blk, s.inodes), q) != 0
    ensures At(t, q) == At(Store(t.blk, s.inodes), q)
  {
    var p := if q.Entry? then Indirect(q.inum) else q;
    assert q.inum != inum ==> SameFile(s, t, q.inum);
    assert At(s, p) != 0 && q.inum == inum ==> BlockAt(t, p) == At(s, p);
  }
}

module FileCrash {
  import L = LogLayout
  import opened FsBlocks
  import opened FsTree
  import opened FsFacts
  import opened FileFacts
  import opened FileSys
  import opened DiskForm
  import opened FsCrash
  import File

  /** filewrite's transaction and a crash at any moment of its commit: the disk recovers to the file system
      without the chunk, or to the one with the part of it that was written. */
  method ChunkOrNothing(fs: FileSys, inum: nat, off: nat, chunk: seq<Byte>, ghost sb: Super, ghost l: L.Layout,
                        ghost d: L.Disk)
      returns (r: int, ghost f: Fs, ghost g: Fs)
    requires fs.Ok() && inum < |fs.inodes| && fs.inodes[inum].size <= MAXFILE * BSIZE
    requires off < UINT && |chunk| <= File.CHUNK
    requires fs.nmeta == sb.nmeta && fs.logged == {} && Holds(sb, l, d, Fs(fs.bitmap, fs.State()))
    requires L.HeadOk(l, d) && L.HeadCount(l, d) == 0
    modifies fs
    ensures fs.Ok() && f == Fs(old(fs.bitmap), old(fs.State())) && g == Fs(fs.bitmap, fs.State())
    ensures -1 <= r <= |chunk| && Wrote(f.store, g.store, inum, off, if r <= 0 then [] else chunk[..r])
    ensures forall lh, cache, i, cuts, e ::
              L.Loggable(l, |d|, lh) && Cached(sb, g, fs.logged, lh, cache) && 0 <= i <= 2 * |lh| + 2
              && L.CutRecoveries(l, L.CommitDisk(l, d, lh, cache, i), cuts, e) ==>
                L.HeadOk(l, e) && Holds(sb, l, L.Recover(l, e), if i <= |lh| then f else g)
  {
    f := Fs(fs.bitmap, fs.State());
    r := File.WriteChunk(fs, inum, off, chunk);
    g := Fs(fs.bitmap, fs.State());
    forall lh, cache, i, cuts, e
      | L.Loggable(l, |d|, lh) && Cached(sb, g, fs.logged, lh, cache) && 0 <= i <= 2 * |lh| + 2
        && L.CutRecoveries(l, L.CommitDisk(l, d, lh, cache, i), cuts, e)
      ensures L.HeadOk(l, e) && Holds(sb, l, L.Recover(l, e), if i <= |lh| then f else g)
    {
      CrashKeepsFs(sb, l, d, f, g, fs.logged, lh, cache, i, cuts, e);
    }
  }

  /** A read of a block that has no pointer in the inode, on a disk with room: the pointer is set in memory,
      the inode is not logged, and of what is logged a block stays marked that the disk's inodes do not
      reach. */
  method ReadHole(fs: FileSys, inum: nat, off: nat, n: nat) returns (dst: seq<Byte>, ghost b: nat)
    requires fs.Ok() && inum < |fs.inodes| && fs.inodes[inum].size <= MAXFILE * BSIZE && off < UINT && n < UINT
    requires !PointersThere(fs.State(), inum, off, Readable(fs.State(), inum, off, n))
    requires |fs.blk| <= 8 * |fs.bitmap| && !Full(fs.bitmap, |fs.blk|)
    modifies fs
    ensures fs.Ok() && NoInodes(old(fs.logged), fs.logged)
    ensures var d := Store(fs.blk, old(fs.inodes));
            && fs.nmeta <= b < |d.blk| <= 8 * |fs.bitmap| && Used(fs.bitmap, b)
            && Shaped(d) && (forall p | IsPlace(d, p) :: At(d, p) != b)
            && forall o :: !FsOk(fs.nmeta, fs.bitmap, d, o)
  {
    hide FsOk, Full, PointersThere, OnlyMapped, Covers, NoInodes, Content;
    ghost var f := Fs(fs.bitmap, fs.State());
    dst := fs.Readi(inum, off, n);
    b := ReadLeavesStray(fs.nmeta, f, Fs(fs.bitmap, fs.State()), inum, fs.owner);
  }
}
