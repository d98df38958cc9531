// filewrite (kernel/file.c): a long write cut into chunks, each its own log transaction.

module FileFacts {
  import opened FsBlocks
  import opened FsTree
  import opened FsFacts

  /** Two adjoining writes make one. */
  lemma OverwrittenTwice(c: seq<Byte>, off: nat, a: seq<Byte>, b: seq<Byte>)
    requires off <= |c|
    ensures off + |a| <= |Overwritten(c, off, a)|
    ensures Overwritten(Overwritten(c, off, a), off + |a|, b) == Overwritten(c, off, a + b)
  {
    var d := Overwritten(c, off, a);
    assert d[..off + |a|] == c[..off] + a;
    if off + |a| + |b| < |d| {
      assert d[off + |a| + |b|..] == c[off + |a| + |b|..];
    }
  }

  /** `t` is `s` with `w` written into file `inum` at `off`, and every other file as it was. */
  ghost predicate Wrote(s: Store, t: Store, inum: nat, off: nat, w: seq<Byte>) {
    && Shaped(s) && Shaped(t) && inum < |s.inodes| == |t.inodes|
    && s.inodes[inum].size <= MAXFILE * BSIZE && t.inodes[inum].size <= MAXFILE * BSIZE
    && (NoHoles(s, inum) ==> NoHoles(t, inum))
    && t.inodes[inum].kind == s.inodes[inum].kind && t.inodes[inum].nlink == s.inodes[inum].nlink
    && (if w == [] then Content(t, inum) == Content(s, inum)
        else off <= s.inodes[inum].size && Content(t, inum) == Overwritten(Content(s, inum), off, w))
    && forall i | 0 <= i < |s.inodes| && i != inum :: SameFile(s, t, i)
  }

  lemma WroteNothing(s: Store, inum: nat, off: nat)
    requires Shaped(s) && inum < |s.inodes| && s.inodes[inum].size <= MAXFILE * BSIZE
    ensures Wrote(s, s, inum, off, [])
  {
    forall i | 0 <= i < |s.inodes| && i != inum ensures SameFile(s, s, i) {
      SameFileReflexive(s, i);
    }
  }

  lemma WroteReaches(s: Store, t: Store, inum: nat, off: nat, w: seq<Byte>)
    requires Wrote(s, t, inum, off, w) && off <= s.inodes[inum].size
    ensures off + |w| <= t.inodes[inum].size
  {
  }

  lemma WroteTwice(s: Store, t: Store, u: Store, inum: nat, off: nat, a: seq<Byte>, b: seq<Byte>)
    requires Wrote(s, t, inum, off, a) && Wrote(t, u, inum, off + |a|, b)
    ensures Wrote(s, u, inum, off, a + b)
  {
    if a == [] {
      assert a + b == b;
    } else if b == [] {
      assert a + b == a;
    } else {
      OverwrittenTwice(Content(s, inum), off, a, b);
    }
    forall i | 0 <= i < |s.inodes| && i != inum ensures SameFile(s, u, i) {
      SameFileTransitive(s, t, u, i);
    }
  }
}

module File {
  import opened FsBlocks
  import opened FsTree
  import opened FsFacts
  import opened FileFacts
  import opened FileSys

  const CHUNK: nat := (MAXOPBLOCKS - 1 - 1 - 2) / 2 * BSIZE

  /** One begin_op..end_op of filewrite: a writei of one chunk, within the log's budget per operation. */
  method WriteChunk(fs: FileSys, inum: nat, off: nat, chunk: seq<Byte>) returns (r: int)
    requires fs.Ok() && inum < |fs.inodes| && fs.inodes[inum].size <= MAXFILE * BSIZE
    requires off < UINT && |chunk| <= CHUNK
    modifies fs
    ensures fs.Ok() && -1 <= r <= |chunk|
    ensures Wrote(old(fs.State()), fs.State(), inum, off, if r <= 0 then [] else chunk[..r])
    ensures r == -1 <==> off > old(fs.inodes)[inum].size || off + |chunk| > MAXFILE * BSIZE
    ensures 0 <= r < |chunk| ==> Full(fs.bitmap, |fs.blk|)
    ensures NoHoles(old(fs.State()), inum) ==> |fs.logged - old(fs.logged)| <= MAXOPBLOCKS
    ensures Covers(old(fs.bitmap), old(fs.State()), fs.bitmap, fs.State(), fs.logged)
  {
    hide FsOk, NoHoles, Full, SameFile, Covers;
    FileReadable(fs.nmeta, fs.bitmap, fs.State(), fs.owner, inum);
    WroteNothing(fs.State(), inum, off);
    ghost var c := Content(fs.State(), inum);
    r := fs.Writei(inum, chunk, off);
    FileReadable(fs.nmeta, fs.bitmap, fs.State(), fs.owner, inum);
    assert off <= |c| ==> Overwritten(c, off, []) == c;
  }

  /** One turn of filewrite's loop: the next chunk of `src` goes to offset `at`, and the file's offset
      moves on to `next`. */
  method WriteNext(fs: FileSys, inum: nat, off: nat, src: seq<Byte>, at: nat, ghost s0: Store)
      returns (r: int, n1: nat, next: nat)
    requires fs.Ok() && off <= at < off + |src| && at < UINT && Wrote(s0, fs.State(), inum, off, src[..at - off])
    modifies fs
    ensures fs.Ok() && 0 < n1 <= off + |src| - at && -1 <= r <= n1 && at <= next < UINT
    ensures next == at + if r <= 0 then 0 else r
    ensures Wrote(s0, fs.State(), inum, off, src[..next - off])
    ensures r != n1 ==> off > s0.inodes[inum].size || off + |src| > MAXFILE * BSIZE || Full(fs.bitmap, |fs.blk|)
  {
    hide FsOk, NoHoles, Full, SameFile, Content, Overwritten;
    var i := at - off;
    n1 := if |src| - i > CHUNK then CHUNK else |src| - i;
    ghost var s, done := fs.State(), src[..i];
    if off <= s0.inodes[inum].size {
      WroteReaches(s0, s, inum, off, done);
    }
    var chunk := src[i..i + n1];
    r := WriteChunk(fs, inum, at, chunk);
    ghost var w := if r <= 0 then [] else chunk[..r];
    WroteTwice(s0, s, fs.State(), inum, off, done, w);
    next := at;
    if r > 0 {
      next := next + r;
      WroteReaches(s, fs.State(), inum, at, w);
    }
    assert done + w == src[..next - off];
  }

  /** Write `src` at the file's offset: all of it, or -1 with some prefix of it written. The offset ends
      up just behind what was written. */
  method FileWrite(fs: FileSys, inum: nat, off: nat, src: seq<Byte>) returns (ret: int, off': nat)
    requires fs.Ok() && inum < |fs.inodes| && fs.inodes[inum].size <= MAXFILE * BSIZE && off < UINT
    modifies fs
    ensures fs.Ok()
    ensures off <= off' <= off + |src|
    ensures Wrote(old(fs.State()), fs.State(), inum, off, src[..off' - off])
    ensures ret == if off' == off + |src| then |src| else -1
    // It falls short only at the file size limit, behind the end of the file, or on a full disk.
    ensures ret != |src| ==> || off > old(fs.inodes)[inum].size || off + |src| > MAXFILE * BSIZE
                             || Full(fs.bitmap, |fs.blk|)
  {
    hide FsOk, Wrote, NoHoles, Content, Full;
    off' := off;
    ghost var s0 := fs.State();
    FileReadable(fs.nmeta, fs.bitmap, s0, fs.owner, inum);
    WroteNothing(s0, inum, off);
    assert src[..off' - off] == [];
    var i := 0;
    while i < |src|
      invariant fs.Ok() && i <= |src| && off' == off + i < UINT
      invariant Wrote(s0, fs.State(), inum, off, src[..off' - off])
    {
      var r, n1, next := WriteNext(fs, inum, off, src, off', s0);
      off' := next;
      if r != n1 {
        break;
      }
      i := i + r;
    }
    ret := if i == |src| then |src| else -1;
  }
}
