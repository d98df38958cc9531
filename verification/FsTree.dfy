// The block tree of the file system (kernel/fs.c, kernel/fs.h) as a value: which block each place of
// each inode refers to, which blocks are therefore in use, and what bytes a file holds.

module FsBlocks {

  const BSIZE: nat := 1024
  const NDIRECT: nat := 12
  const NINDIRECT: nat := 256     // BSIZE / sizeof(uint)
  const MAXFILE: nat := 268       // NDIRECT + NINDIRECT
  const UINT: int := 0x1_0000_0000

  type Byte = x: int | 0 <= x < 256
  type Block = b: seq<Byte> | |b| == BSIZE witness seq(BSIZE, _ => 0)

  function ZeroBlock(): Block {
    seq(BSIZE, _ => 0)
  }

  /** The uint at index `j` of a block used as an array of uints, least significant byte first. */
  function Word(b: Block, j: int): (v: int)
    requires 0 <= j < NINDIRECT
    ensures 0 <= v < UINT
  {
    var b0: int, b1: int, b2: int, b3: int := b[4 * j], b[4 * j + 1], b[4 * j + 2], b[4 * j + 3];
    b0 + 0x100 * b1 + 0x1_0000 * b2 + 0x100_0000 * b3
  }

  function WithWord(b: Block, j: int, v: int): Block
    requires 0 <= j < NINDIRECT && 0 <= v < UINT
  {
    b[4 * j := v % 0x100][4 * j + 1 := v / 0x100 % 0x100]
     [4 * j + 2 := v / 0x1_0000 % 0x100][4 * j + 3 := v / 0x100_0000]
  }

  lemma WordRoundTrip(b: Block, j: int, v: int, i: int)
    requires 0 <= j < NINDIRECT && 0 <= v < UINT && 0 <= i < NINDIRECT
    ensures Word(WithWord(b, j, v), i) == if i == j then v else Word(b, i)
  {
  }

  lemma ZeroWords(j: int)
    requires 0 <= j < NINDIRECT
    ensures Word(ZeroBlock(), j) == 0
  {
  }

  // ---- the free bitmap, one bit per block, eight to a byte ----

  /** 1 << i. */
  function Bit(i: int): (m: bv8)
    requires 0 <= i < 8
    ensures SingleBit(m)
  {
    if i == 0 then 1 else if i == 1 then 2 else if i == 2 then 4 else if i == 3 then 8
    else if i == 4 then 16 else if i == 5 then 32 else if i == 6 then 64 else 128
  }

  lemma BitValue(i: int)
    requires 0 <= i < 8
    ensures Bit(i) == 1 << i
  {
    if i == 0 {
    } else if i == 1 {
    } else if i == 2 {
    } else if i == 3 {
    } else if i == 4 {
    } else if i == 5 {
    } else if i == 6 {
    } else {
    }
  }

  predicate SingleBit(m: bv8) {
    m == 1 || m == 2 || m == 4 || m == 8 || m == 16 || m == 32 || m == 64 || m == 128
  }

  lemma BitsDiffer(i: int, j: int)
    requires 0 <= i < 8 && 0 <= j < 8
    ensures i != j ==> Bit(i) != Bit(j)
  {
  }

  predicate TestBit(x: bv8, m: bv8) {
    x & m != 0
  }

  /** Setting or clearing one bit of a bitmap byte leaves the other seven alone. */
  lemma BitsAreSeparate(x: bv8, m: bv8, n: bv8)
    requires SingleBit(m) && SingleBit(n)
    ensures TestBit(x | m, n) <==> m == n || TestBit(x, n)
    ensures TestBit(x & !m, n) <==> m != n && TestBit(x, n)
  {
  }
}

module FsTree {
  import opened FsBlocks

  /** The fields of struct inode that live on disk; kind 0 is a free inode. */
  datatype Inode = Inode(kind: int, nlink: int, size: nat, addrs: seq<nat>)

  /** Contents of all blocks as the buffer cache shows them, and the inodes as memory holds them. */
  datatype Store = Store(blk: seq<Block>, inodes: seq<Inode>)

  /** A place that can hold a block number. */
  datatype Place = Direct(inum: nat, i: nat) | Indirect(inum: nat) | Entry(inum: nat, i: nat)

  predicate IsPlace(s: Store, p: Place) {
    && p.inum < |s.inodes|
    && match p
       case Direct(_, i) => i < NDIRECT
       case Indirect(_) => true
       case Entry(_, j) => j < NINDIRECT
  }

  predicate Shaped(s: Store) {
    && (forall i | 0 <= i < |s.inodes| :: |s.inodes[i].addrs| == NDIRECT + 1)
    && (forall i, k | 0 <= i < |s.inodes| && 0 <= k <= NDIRECT :: s.inodes[i].addrs[k] < |s.blk|)
    && |s.blk| < UINT
  }

  /** The block number held at a place; 0 is none. */
  function At(s: Store, p: Place): nat
    requires Shaped(s) && IsPlace(s, p)
  {
    match p
    case Direct(n, i) => s.inodes[n].addrs[i]
    case Indirect(n) => s.inodes[n].addrs[NDIRECT]
    case Entry(n, j) =>
      var a := s.inodes[n].addrs[NDIRECT];
      if a == 0 then 0 else Word(s.blk[a], j)
  }

  /** `owner` maps every block beyond the first `nmeta` that is in use to the one place that holds it. */
  ghost predicate Owned(s: Store, nmeta: nat, owner: map<nat, Place>) {
    && Shaped(s) && 0 < nmeta
    && (forall p {:trigger At(s, p)} | IsPlace(s, p) && At(s, p) != 0 :: At(s, p) in owner && owner[At(s, p)] == p)
    && (forall b | b in owner :: nmeta <= b < |s.blk| && IsPlace(s, owner[b]) && At(s, owner[b]) == b)
  }

  /** The place for block `bn` of a file. */
  function PlaceOf(inum: nat, bn: nat): Place
    requires bn < MAXFILE
  {
    if bn < NDIRECT then Direct(inum, bn) else Entry(inum, bn - NDIRECT)
  }

  function BlockOf(s: Store, inum: nat, bn: nat): nat
    requires Shaped(s) && inum < |s.inodes| && bn < MAXFILE
  {
    At(s, PlaceOf(inum, bn))
  }

  /** Files are no longer than their blocks allow and have no unmapped block below their size. */
  predicate NoHoles(s: Store, inum: nat)
    requires Shaped(s) && inum < |s.inodes|
  {
    && s.inodes[inum].size <= MAXFILE * BSIZE
    && forall bn | 0 <= bn < MAXFILE && bn * BSIZE < s.inodes[inum].size :: BlockOf(s, inum, bn) != 0
  }

  /** The byte at offset `k` of a file's blocks, whether or not it is below the file's size; an unmapped
      block reads as zeros. */
  function ByteAt(s: Store, inum: nat, k: nat): Byte
    requires Shaped(s) && inum < |s.inodes| && k < MAXFILE * BSIZE
  {
    var a := BlockOf(s, inum, k / BSIZE);
    if 0 < a < |s.blk| then s.blk[a][k % BSIZE] else 0
  }

  /** What the file says: `size` bytes. */
  function Content(s: Store, inum: nat): (c: seq<Byte>)
    requires Shaped(s) && inum < |s.inodes| && s.inodes[inum].size <= MAXFILE * BSIZE
    ensures |c| == s.inodes[inum].size
    ensures forall k | 0 <= k < |c| :: c[k] == ByteAt(s, inum, k)
  {
    seq(s.inodes[inum].size, k requires 0 <= k < s.inodes[inum].size => ByteAt(s, inum, k))
  }

  /** File `i` reads the same in both stores: same inode, same blocks, same bytes in them. */
  ghost predicate SameFile(s: Store, t: Store, i: nat) {
    && Shaped(s) && Shaped(t) && i < |s.inodes| == |t.inodes| && |s.blk| == |t.blk|
    && s.inodes[i] == t.inodes[i]
    && forall bn | 0 <= bn < MAXFILE :: BlockOf(s, i, bn) == BlockOf(t, i, bn)
         && (var a := BlockOf(s, i, bn); 0 < a < |s.blk| ==> s.blk[a] == t.blk[a])
  }

  lemma SameFileSameContent(s: Store, t: Store, i: nat)
    requires SameFile(s, t, i) && NoHoles(s, i)
    ensures NoHoles(t, i) && Content(s, i) == Content(t, i)
  {
    forall k | 0 <= k < s.inodes[i].size ensures ByteAt(s, i, k) == ByteAt(t, i, k) {
      assert BlockOf(s, i, k / BSIZE) == BlockOf(t, i, k / BSIZE);
    }
    assert Content(s, i) == Content(t, i);
  }

  // ---- the elementary changes ----

  /** Store after a fresh zeroed block `b` has been hung at an empty place. */
  function Hung(s: Store, p: Place, b: nat): Store
    requires Shaped(s) && IsPlace(s, p) && b < |s.blk|
    requires p.Entry? ==> s.inodes[p.inum].addrs[NDIRECT] != 0
  {
    var z := s.blk[b := ZeroBlock()];
    match p
    case Direct(n, i) => Store(z, s.inodes[n := s.inodes[n].(addrs := s.inodes[n].addrs[i := b])])
    case Indirect(n) => Store(z, s.inodes[n := s.inodes[n].(addrs := s.inodes[n].addrs[NDIRECT := b])])
    case Entry(n, j) =>
      var a := s.inodes[n].addrs[NDIRECT];
      Store(z[a := WithWord(z[a], j, b)], s.inodes)
  }

  lemma HungAt(s: Store, nmeta: nat, owner: map<nat, Place>, p: Place, b: nat, q: Place)
    requires Owned(s, nmeta, owner) && IsPlace(s, p) && At(s, p) == 0
    requires nmeta <= b < |s.blk| && b !in owner
    requires p.Entry? ==> s.inodes[p.inum].addrs[NDIRECT] != 0
    requires IsPlace(s, q)
    ensures Shaped(Hung(s, p, b)) && IsPlace(Hung(s, p, b), q)
    ensures At(Hung(s, p, b), q) == if q == p then b else At(s, q)
  {
    var t := Hung(s, p, b);
    var ind := Indirect(q.inum);
    assert At(s, ind) != 0 ==> At(s, ind) in owner;
    if p.Entry? {
      var a := s.inodes[p.inum].addrs[NDIRECT];
      assert At(s, Indirect(p.inum)) == a && owner[a] == Indirect(p.inum);
      if q.Entry? {
        if q.inum == p.inum {
          WordRoundTrip(s.blk[a], p.i, b, q.i);
        } else if At(s, ind) != 0 {
          assert owner[At(s, ind)] == ind;
        }
      }
    } else if p.Indirect? && q.Entry? && q.inum == p.inum {
      ZeroWords(q.i);
    }
  }

  lemma HungOwned(s: Store, nmeta: nat, owner: map<nat, Place>, p: Place, b: nat)
    requires Owned(s, nmeta, owner) && IsPlace(s, p) && At(s, p) == 0
    requires nmeta <= b < |s.blk| && b !in owner
    requires p.Entry? ==> s.inodes[p.inum].addrs[NDIRECT] != 0
    ensures Owned(Hung(s, p, b), nmeta, owner[b := p])
  {
    var t, o := Hung(s, p, b), owner[b := p];
    HungAt(s, nmeta, owner, p, b, p);
    forall q | IsPlace(t, q) && At(t, q) != 0 ensures At(t, q) in o && o[At(t, q)] == q {
      HungAt(s, nmeta, owner, p, b, q);
    }
    forall c | c in o ensures nmeta <= c < |t.blk| && IsPlace(t, o[c]) && At(t, o[c]) == c {
      HungAt(s, nmeta, owner, p, b, o[c]);
    }
  }

  /** File `i` keeps all its blocks and their bytes, except possibly the block at `but`. */
  ghost predicate KeepsBlocks(s: Store, t: Store, i: nat, but: Place) {
    && Shaped(s) && Shaped(t) && i < |s.inodes| == |t.inodes| && |s.blk| == |t.blk|
    && t.inodes[i] == s.inodes[i].(addrs := t.inodes[i].addrs)
    && forall bn | 0 <= bn < MAXFILE && PlaceOf(i, bn) != but ::
         BlockOf(s, i, bn) == BlockOf(t, i, bn)
         && (var a := BlockOf(s, i, bn); 0 < a < |s.blk| ==> s.blk[a] == t.blk[a])
  }

  lemma HungKeepsBlocks(s: Store, nmeta: nat, owner: map<nat, Place>, p: Place, b: nat, i: nat)
    requires Owned(s, nmeta, owner) && IsPlace(s, p) && At(s, p) == 0
    requires nmeta <= b < |s.blk| && b !in owner
    requires p.Entry? ==> s.inodes[p.inum].addrs[NDIRECT] != 0
    requires i < |s.inodes|
    ensures KeepsBlocks(s, Hung(s, p, b), i, p)
    ensures i != p.inum ==> SameFile(s, Hung(s, p, b), i)
  {
    var t := Hung(s, p, b);
    HungOwned(s, nmeta, owner, p, b);
    forall bn | 0 <= bn < MAXFILE && PlaceOf(i, bn) != p
      ensures BlockOf(s, i, bn) == BlockOf(t, i, bn)
      ensures var a := BlockOf(s, i, bn); 0 < a < |s.blk| ==> s.blk[a] == t.blk[a]
    {
      var q := PlaceOf(i, bn);
      HungAt(s, nmeta, owner, p, b, q);
      if At(s, q) != 0 {
        assert At(s, q) in owner && owner[At(s, q)] == q;
        assert At(s, Indirect(p.inum)) != 0 ==> owner[At(s, Indirect(p.inum))] == Indirect(p.inum);
      }
    }
  }

  // ---- writing into a data block ----

  function Written(s: Store, a: nat, data: Block): Store
    requires a < |s.blk|
  {
    s.(blk := s.blk[a := data])
  }

  lemma WrittenAt(s: Store, nmeta: nat, owner: map<nat, Place>, a: nat, data: Block, q: Place)
    requires Owned(s, nmeta, owner) && a in owner && !owner[a].Indirect? && IsPlace(s, q)
    ensures Shaped(Written(s, a, data)) && At(Written(s, a, data), q) == At(s, q)
  {
    var ind := Indirect(q.inum);
    assert At(s, ind) != 0 ==> owner[At(s, ind)] == ind;
  }

  /** A write to a data block moves no block and touches no other block's bytes. */
  lemma WrittenKeeps(s: Store, nmeta: nat, owner: map<nat, Place>, a: nat, data: Block, i: nat)
    requires Owned(s, nmeta, owner) && a in owner && !owner[a].Indirect? && i < |s.inodes|
    ensures Owned(Written(s, a, data), nmeta, owner)
    ensures KeepsBlocks(s, Written(s, a, data), i, owner[a])
    ensures i != owner[a].inum ==> SameFile(s, Written(s, a, data), i)
  {
    var t := Written(s, a, data);
    assert Shaped(t);
    forall q | IsPlace(s, q) ensures At(t, q) == At(s, q) {
      WrittenAt(s, nmeta, owner, a, data, q);
    }
    forall bn | 0 <= bn < MAXFILE && PlaceOf(i, bn) != owner[a] ensures BlockOf(s, i, bn) != a {
      var q := PlaceOf(i, bn);
      assert At(s, q) != 0 ==> owner[At(s, q)] == q;
      assert a != 0;
    }
  }

  // ---- taking a block away again ----

  /** Store after the block at a place has been let go. */
  function Unhung(s: Store, p: Place): Store
    requires Shaped(s) && IsPlace(s, p) && At(s, p) != 0
  {
    match p
    case Direct(n, i) => Store(s.blk, s.inodes[n := s.inodes[n].(addrs := s.inodes[n].addrs[i := 0])])
    case Indirect(n) => Store(s.blk, s.inodes[n := s.inodes[n].(addrs := s.inodes[n].addrs[NDIRECT := 0])])
    case Entry(n, j) =>
      var a := s.inodes[n].addrs[NDIRECT];
      Store(s.blk[a := WithWord(s.blk[a], j, 0)], s.inodes)
  }

  /** An indirect block is let go only once its entries are. */
  predicate MayUnhang(s: Store, p: Place)
    requires Shaped(s)
  {
    && IsPlace(s, p) && At(s, p) != 0
    && (p.Indirect? ==> forall j | 0 <= j < NINDIRECT :: At(s, Entry(p.inum, j)) == 0)
  }

  lemma UnhungAt(s: Store, nmeta: nat, owner: map<nat, Place>, p: Place, q: Place)
    requires Owned(s, nmeta, owner) && MayUnhang(s, p) && IsPlace(s, q)
    ensures Shaped(Unhung(s, p)) && IsPlace(Unhung(s, p), q)
    ensures At(Unhung(s, p), q) == if q == p then 0 else At(s, q)
  {
    var ind := Indirect(q.inum);
    assert At(s, ind) != 0 ==> At(s, ind) in owner && owner[At(s, ind)] == ind;
    if p.Entry? {
      var a := s.inodes[p.inum].addrs[NDIRECT];
      assert At(s, Indirect(p.inum)) == a && owner[a] == Indirect(p.inum);
      if q.Entry? && q.inum == p.inum {
        WordRoundTrip(s.blk[a], p.i, 0, q.i);
      }
    }
  }

  /** Letting go of a block keeps every other block reachable exactly once. */
  lemma UnhungOwned(s: Store, nmeta: nat, owner: map<nat, Place>, p: Place)
    requires Owned(s, nmeta, owner) && MayUnhang(s, p)
    ensures Owned(Unhung(s, p), nmeta, owner - {At(s, p)})
  {
    var t, b := Unhung(s, p), At(s, p);
    var o := owner - {b};
    UnhungAt(s, nmeta, owner, p, p);
    forall q | IsPlace(t, q) && At(t, q) != 0 ensures At(t, q) in o && o[At(t, q)] == q {
      UnhungAt(s, nmeta, owner, p, q);
      assert At(s, q) in owner && owner[At(s, q)] == q;
      assert owner[b] == p;
    }
    forall c | c in o ensures nmeta <= c < |t.blk| && IsPlace(t, o[c]) && At(t, o[c]) == c {
      UnhungAt(s, nmeta, owner, p, o[c]);
    }
  }

  lemma UnhungKeepsOthers(s: Store, nmeta: nat, owner: map<nat, Place>, p: Place, i: nat)
    requires Owned(s, nmeta, owner) && MayUnhang(s, p) && i < |s.inodes| && i != p.inum
    ensures SameFile(s, Unhung(s, p), i)
  {
    var t := Unhung(s, p);
    UnhungAt(s, nmeta, owner, p, p);
    forall bn | 0 <= bn < MAXFILE
      ensures BlockOf(s, i, bn) == BlockOf(t, i, bn)
      ensures var a := BlockOf(s, i, bn); 0 < a < |s.blk| ==> s.blk[a] == t.blk[a]
    {
      var q := PlaceOf(i, bn);
      UnhungAt(s, nmeta, owner, p, q);
      assert At(s, q) != 0 ==> owner[At(s, q)] == q;
      assert At(s, Indirect(p.inum)) != 0 ==> owner[At(s, Indirect(p.inum))] == Indirect(p.inum);
    }
  }

  /** What a block that nothing refers to holds does not matter. */
  lemma StrayBlockIrrelevant(s: Store, nmeta: nat, owner: map<nat, Place>, a: nat, data: Block)
    requires Owned(s, nmeta, owner) && a < |s.blk| && a !in owner
    ensures Owned(Written(s, a, data), nmeta, owner)
    ensures forall i | 0 <= i < |s.inodes| :: SameFile(s, Written(s, a, data), i)
  {
    var t := Written(s, a, data);
    assert Shaped(t);
    forall q | IsPlace(s, q) ensures At(t, q) == At(s, q) && (At(s, q) != 0 ==> At(s, q) != a) {
      var ind := Indirect(q.inum);
      assert At(s, ind) != 0 ==> At(s, ind) in owner;
      assert At(s, q) != 0 ==> At(s, q) in owner;
    }
  }

  // ---- changing an inode's own fields ----

  function WithSize(s: Store, inum: nat, size: nat): Store
    requires inum < |s.inodes|
  {
    s.(inodes := s.inodes[inum := s.inodes[inum].(size := size)])
  }

  lemma WithSizeKeeps(s: Store, nmeta: nat, owner: map<nat, Place>, inum: nat, size: nat)
    requires Owned(s, nmeta, owner) && inum < |s.inodes|
    ensures Owned(WithSize(s, inum, size), nmeta, owner)
    ensures forall q | IsPlace(s, q) :: At(WithSize(s, inum, size), q) == At(s, q)
    ensures forall i | 0 <= i < |s.inodes| && i != inum :: SameFile(s, WithSize(s, inum, size), i)
  {
    var t := WithSize(s, inum, size);
    assert Shaped(t);
    assert forall q | IsPlace(s, q) :: At(t, q) == At(s, q);
  }
}
