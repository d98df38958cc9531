// The log over the buffer cache (kernel/log.c over kernel/bio.c): what processes see through the cache
// is what a commit makes durable.

module CacheLog {
  import L = LogLayout
  import opened BufFacts

  /** Device `dev` of the cache's disk is `d`. */
  ghost predicate OnDevice(d: L.Disk, disk: map<Key, Block>, dev: nat) {
    forall b | 0 <= b < |d| :: Key(dev, b) in disk && disk[Key(dev, b)] == d[b]
  }

  /** The pinned buffers of device `dev` are those of the blocks in the log header, and hold what log_write
      was given for them; a buffer that is not pinned holds what the disk does. So it is when the last
      operation has ended: a reader, who needs no operation, may hold a buffer's lock but changes nothing. */
  ghost predicate Pinned(bufs: seq<Buf>, uses: seq<Use>, disk: map<Key, Block>, lh: seq<int>,
                         cache: map<int, L.Block>, dev: nat)
    requires |bufs| == |uses|
  {
    && (forall b | b in lh :: b in cache)
    && (forall b | b in lh ::
          exists i :: 0 <= i < |bufs| && b >= 0
                      && bufs[i].valid && bufs[i].key == Key(dev, b) && bufs[i].data == cache[b])
    && (forall i | 0 <= i < |bufs| && bufs[i].valid && bufs[i].key.dev == dev ::
          if uses[i].pins > 0 then bufs[i].key.blockno in lh
          else bufs[i].key in disk && bufs[i].data == disk[bufs[i].key])
  }

  /** What the cache shows of a block is the log's overlay of the disk. */
  lemma CacheShowsOverlay(bufs: seq<Buf>, uses: seq<Use>, disk: map<Key, Block>, truth: map<Key, Block>, dev: nat,
                          d: L.Disk, lh: seq<int>, cache: map<int, L.Block>, b: nat)
    requires CacheOk(bufs, uses, disk, truth) && OnDevice(d, disk, dev) && Pinned(bufs, uses, disk, lh, cache, dev)
    requires b < |d|
    ensures Key(dev, b) in truth && truth[Key(dev, b)] == L.Overlay(d, lh, cache)[b]
  {
    var key := Key(dev, b);
    if b in lh {
      var i :| 0 <= i < |bufs| && bufs[i].valid && bufs[i].key == key && bufs[i].data == cache[b];
      assert CleanAt(bufs, uses, disk, truth, i);
    } else if i :| 0 <= i < |bufs| && bufs[i].valid && bufs[i].key == key {
      assert CleanAt(bufs, uses, disk, truth, i);
    } else {
      assert Uncached(bufs, key);
    }
  }

  /** After commit() every home block on the disk is what the cache shows. */
  lemma CommitWritesWhatIsShown(bufs: seq<Buf>, uses: seq<Use>, disk: map<Key, Block>, truth: map<Key, Block>,
                                dev: nat, l: L.Layout, d: L.Disk, lh: seq<int>, cache: map<int, L.Block>, b: nat)
    requires CacheOk(bufs, uses, disk, truth) && OnDevice(d, disk, dev) && Pinned(bufs, uses, disk, lh, cache, dev)
    requires L.Loggable(l, |d|, lh) && L.Home(l, |d|, b)
    ensures Key(dev, b) in truth && L.CommitDisk(l, d, lh, cache, 2 * |lh| + 2)[b] == truth[Key(dev, b)]
  {
    L.CommitDone(l, d, lh, cache);
    CacheShowsOverlay(bufs, uses, disk, truth, dev, d, lh, cache, b);
    assert L.Home(l, |L.CommitDisk(l, d, lh, cache, 2 * |lh| + 2)|, b);
  }

  /** A crash anywhere in commit(), and recoveries cut off anywhere: every home block is what it was on the
      disk, or every home block is what the cache showed. */
  lemma CrashKeepsOldOrShown(bufs: seq<Buf>, uses: seq<Use>, disk: map<Key, Block>, truth: map<Key, Block>, dev: nat,
                             l: L.Layout, d: L.Disk, lh: seq<int>, cache: map<int, L.Block>,
                             i: nat, cuts: seq<nat>, e: L.Disk)
    requires CacheOk(bufs, uses, disk, truth) && OnDevice(d, disk, dev) && Pinned(bufs, uses, disk, lh, cache, dev)
    requires L.Loggable(l, |d|, lh) && L.HeadOk(l, d) && L.HeadCount(l, d) == 0 && i <= 2 * |lh| + 2
    requires L.CutRecoveries(l, L.CommitDisk(l, d, lh, cache, i), cuts, e)
    ensures L.HeadOk(l, e) && |L.Recover(l, e)| == |d|
    ensures forall b: nat | L.Home(l, |d|, b) ::
              Key(dev, b) in truth && L.Recover(l, e)[b] == if i <= |lh| then d[b] else truth[Key(dev, b)]
  {
    L.CrashAtomicity(l, d, lh, cache, i, cuts, e);
    forall b: nat | L.Home(l, |d|, b)
      ensures Key(dev, b) in truth && L.Recover(l, e)[b] == if i <= |lh| then d[b] else truth[Key(dev, b)]
    {
      CacheShowsOverlay(bufs, uses, disk, truth, dev, d, lh, cache, b);
      assert L.Home(l, |L.Recover(l, e)|, b);
    }
  }
}
