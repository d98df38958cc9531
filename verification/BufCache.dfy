// The buffer cache (kernel/bio.c, kernel/buf.h): a doubly linked list of all buffers in the order of
// their last release, over a disk. Each method is what happens under one hold of the cache's lock, or
// by the holder of one buffer's sleep lock.

module LruList {

  /** What walking `next` from the list's head visits, the head itself (numbered `n`) at both ends. */
  function Round(order: seq<nat>, n: nat): seq<nat> {
    [n] + order + [n]
  }

  /** `next` and `prev` link the buffers in this order into one circle through the head. */
  ghost predicate Linked(next: seq<nat>, prev: seq<nat>, order: seq<nat>, n: nat) {
    && |next| == |prev| == n + 1
    && (forall k | 0 <= k < |order| :: order[k] < n)
    && (forall j, k | 0 <= j < k < |order| :: order[j] != order[k])
    && forall k | 0 <= k <= |order| :: LinkAt(next, prev, Round(order, n), k)
  }

  predicate LinkAt(next: seq<nat>, prev: seq<nat>, r: seq<nat>, k: nat)
    requires |next| == |prev| && k + 1 < |r|
  {
    && r[k] < |next| && r[k + 1] < |next|
    && next[r[k]] == r[k + 1] && prev[r[k + 1]] == r[k]
  }

  function Without(order: seq<nat>, i: nat): seq<nat>
    requires i < |order|
  {
    order[..i] + order[i + 1..]
  }

  /** b->next->prev = b->prev; b->prev->next = b->next. */
  lemma Unlinked(next: seq<nat>, prev: seq<nat>, order: seq<nat>, n: nat, i: nat)
    requires Linked(next, prev, order, n) && i < |order|
    ensures var b := order[i]; b <= n && next[b] <= n && prev[b] <= n
    ensures var b := order[i];
            Linked(next[prev[b] := next[b]], prev[next[b] := prev[b]], Without(order, i), n)
  {
    var b, r := order[i], Round(order, n);
    assert r[i + 1] == b && LinkAt(next, prev, r, i) && LinkAt(next, prev, r, i + 1);
    var next', prev', order' := next[prev[b] := next[b]], prev[next[b] := prev[b]], Without(order, i);
    var r' := Round(order', n);
    forall k | 0 <= k < |order'| ensures order'[k] == order[if k < i then k else k + 1] {
    }
    forall k | 0 <= k <= |order'| ensures LinkAt(next', prev', r', k) {
      UnlinkedAt(next, prev, order, n, i, k);
    }
  }

  lemma UnlinkedAt(next: seq<nat>, prev: seq<nat>, order: seq<nat>, n: nat, i: nat, k: nat)
    requires Linked(next, prev, order, n) && i < |order| && k < |order|
    ensures var b, r' := order[i], Round(Without(order, i), n);
      && b < |next| == |prev| && next[b] < |next| && prev[b] < |next| && k + 1 < |r'|
      && LinkAt(next[prev[b] := next[b]], prev[next[b] := prev[b]], r', k)
  {
    hide Without;
    var r := Round(order, n);
    RoundWithout(order, n, i, k);
    RoundWithout(order, n, i, k + 1);
    var j := if k <= i then k else k + 1;
    assert r[i + 1] == order[i] && LinkAt(next, prev, r, i) && LinkAt(next, prev, r, i + 1) && LinkAt(next, prev, r, j);
    RoundDistinct(order, n, j, i);
    RoundDistinct(order, n, j + 1, i + 2);
  }

  lemma RoundWithout(order: seq<nat>, n: nat, i: nat, k: nat)
    requires i < |order| && k <= |order|
    ensures |Round(Without(order, i), n)| == |order| + 1
    ensures Round(Without(order, i), n)[k] == Round(order, n)[if k <= i then k else k + 1]
  {
  }

  /** Only the head is in the round twice: at its first and its last position. */
  lemma RoundDistinct(order: seq<nat>, n: nat, j: nat, k: nat)
    requires forall x | 0 <= x < |order| :: order[x] < n
    requires forall x, y | 0 <= x < y < |order| :: order[x] != order[y]
    requires j <= |order| + 1 && k <= |order| + 1
    ensures Round(order, n)[j] == Round(order, n)[k] ==> j == k || (j in {0, |order| + 1} && k in {0, |order| + 1})
  {
    var r := Round(order, n);
    assert forall x | 1 <= x <= |order| :: r[x] == order[x - 1];
  }

  /** b->next = head.next; b->prev = &head; head.next->prev = b; head.next = b. */
  lemma PushedFront(next: seq<nat>, prev: seq<nat>, order: seq<nat>, n: nat, b: nat)
    requires Linked(next, prev, order, n) && b < n && b !in order
    ensures next[n] <= n
    ensures Linked(next[b := next[n]][n := b], prev[b := n][next[n] := b], [b] + order, n)
  {
    var r := Round(order, n);
    assert LinkAt(next, prev, r, 0);
    var order' := [b] + order;
    var next', prev', r' := next[b := next[n]][n := b], prev[b := n][next[n] := b], Round(order', n);
    assert forall k | 1 <= k < |r'| :: r'[k] == if k == 1 then b else r[k - 1];
    forall k | 0 <= k <= |order'| ensures LinkAt(next', prev', r', k) {
      if k > 1 {
        assert LinkAt(next, prev, r, k - 1);
        RoundDistinct(order, n, k - 1, 0);
        RoundDistinct(order, n, k, 1);
      }
    }
  }

  lemma Lengths(next: seq<nat>, prev: seq<nat>, order: seq<nat>, n: nat, i: nat)
    requires Linked(next, prev, order, n) && i < |order|
    ensures |next| == |prev| == n + 1 && order[i] < n
    ensures order[i] !in Without(order, i) && next[order[i]] != order[i]
  {
    var r := Round(order, n);
    assert r[i + 1] == order[i] && LinkAt(next, prev, r, i + 1);
    RoundDistinct(order, n, i + 1, i + 2);
  }

  /** The walk from the head, either way. */
  lemma WalkStep(next: seq<nat>, prev: seq<nat>, order: seq<nat>, n: nat, k: nat)
    requires Linked(next, prev, order, n) && k <= |order|
    ensures |next| == |prev| == n + 1
    ensures var b := if k == 0 then n else order[k - 1];
            b <= n && next[b] == if k < |order| then order[k] else n
    ensures var b := if k == |order| then n else order[k];
            b <= n && prev[b] == if k > 0 then order[k - 1] else n
  {
    assert LinkAt(next, prev, Round(order, n), k);
  }
}

module BufFacts {
  import opened LruList

  type Block = seq<int>

  /** A disk block's name; no block has device 0. */
  datatype Key = Key(dev: nat, blockno: nat)

  datatype Buf = Buf(key: Key, valid: bool, refcnt: nat, locked: bool, data: Block)

  /** What binit leaves in a buffer. */
  const EMPTY: Buf := Buf(Key(0, 0), false, 0, false, [])

  /** Who refers to a buffer: callers between bget and brelse, and pins. `stamp` is when the buffer was
      last released by its last user. */
  datatype Use = Use(claims: nat, pins: nat, stamp: int)

  predicate UsedAt(bufs: seq<Buf>, uses: seq<Use>, b: nat)
    requires b < |bufs| == |uses|
  {
    && bufs[b].refcnt == uses[b].claims + uses[b].pins
    && (bufs[b].locked ==> uses[b].claims > 0)
  }

  predicate Differ(bufs: seq<Buf>, b: nat, c: nat)
    requires b < |bufs| && c < |bufs|
  {
    bufs[b].key.dev != 0 && bufs[b].key == bufs[c].key ==> b == c
  }

  /** A valid buffer holds what the block is, and what the disk has too unless it is pinned or somebody
      holds its lock. */
  predicate CleanAt(bufs: seq<Buf>, uses: seq<Use>, disk: map<Key, Block>, truth: map<Key, Block>, b: nat)
    requires b < |bufs| == |uses|
  {
    bufs[b].valid ==>
      && bufs[b].key.dev != 0 && bufs[b].key in truth && bufs[b].key in disk && bufs[b].data == truth[bufs[b].key]
      && (uses[b].pins == 0 && !bufs[b].locked ==> bufs[b].data == disk[bufs[b].key])
  }

  /** Block `key` is in no valid buffer. */
  ghost predicate Uncached(bufs: seq<Buf>, key: Key) {
    forall b {:trigger bufs[b]} | 0 <= b < |bufs| :: !(bufs[b].valid && bufs[b].key == key)
  }

  /** The cache over the disk holds the blocks `truth`. */
  ghost predicate CacheOk(bufs: seq<Buf>, uses: seq<Use>, disk: map<Key, Block>, truth: map<Key, Block>) {
    && |bufs| == |uses| && disk.Keys == truth.Keys
    && (forall b {:trigger UsedAt(bufs, uses, b)} | 0 <= b < |bufs| :: UsedAt(bufs, uses, b))
    && (forall b, c {:trigger Differ(bufs, b, c)} | 0 <= b < |bufs| && 0 <= c < |bufs| :: Differ(bufs, b, c))
    && (forall b {:trigger CleanAt(bufs, uses, disk, truth, b)} | 0 <= b < |bufs| ::
        CleanAt(bufs, uses, disk, truth, b))
    && (forall key {:trigger Uncached(bufs, key)} | key in disk && Uncached(bufs, key) :: disk[key] == truth[key])
  }

  /** The list holds every buffer, latest release first. */
  ghost predicate OrderOk(uses: seq<Use>, order: seq<nat>, clock: int) {
    && |order| == |uses| && (forall k | 0 <= k < |order| :: order[k] < |uses|)
    && (forall b | 0 <= b < |uses| :: b in order && uses[b].stamp < clock)
    && (forall j, k | 0 <= j < k < |order| :: uses[order[j]].stamp > uses[order[k]].stamp)
  }

  // ---- single changes to one buffer ----

  /** Changing one buffer without changing what any block is. */
  lemma BufChanged(bufs: seq<Buf>, uses: seq<Use>, disk: map<Key, Block>, truth: map<Key, Block>,
                   b: nat, r: Buf, u: Use)
    requires CacheOk(bufs, uses, disk, truth) && b < |bufs|
    requires r.key == bufs[b].key && r.valid == bufs[b].valid && r.data == bufs[b].data
    requires r.refcnt == u.claims + u.pins && (r.locked ==> u.claims > 0)
    requires r.valid && u.pins == 0 && !r.locked ==> r.key in disk && r.data == disk[r.key]
    ensures CacheOk(bufs[b := r], uses[b := u], disk, truth)
  {
    var bufs', uses' := bufs[b := r], uses[b := u];
    forall c | 0 <= c < |bufs| ensures UsedAt(bufs', uses', c) && CleanAt(bufs', uses', disk, truth, c) {
      assert UsedAt(bufs, uses, c) && CleanAt(bufs, uses, disk, truth, c);
    }
    forall c, d | 0 <= c < |bufs| && 0 <= d < |bufs| ensures Differ(bufs', c, d) {
      assert Differ(bufs, c, d);
    }
    forall key | key in disk && Uncached(bufs', key) ensures disk[key] == truth[key] {
      forall c | 0 <= c < |bufs| ensures !(bufs[c].valid && bufs[c].key == key) {
        assert bufs'[c].key == bufs[c].key && bufs'[c].valid == bufs[c].valid;
      }
      assert Uncached(bufs, key);
    }
  }

  /** Recycling a buffer that nobody refers to loses nothing. */
  lemma Recycled(bufs: seq<Buf>, uses: seq<Use>, disk: map<Key, Block>, truth: map<Key, Block>, b: nat, key: Key)
    requires CacheOk(bufs, uses, disk, truth) && b < |bufs| && bufs[b].refcnt == 0
    requires key.dev != 0 && forall c | 0 <= c < |bufs| :: bufs[c].key != key
    ensures CacheOk(bufs[b := bufs[b].(key := key, valid := false, refcnt := 1)], uses[b := uses[b].(claims := 1)],
                    disk, truth)
  {
    var bufs', uses' := bufs[b := bufs[b].(key := key, valid := false, refcnt := 1)], uses[b := uses[b].(claims := 1)];
    assert UsedAt(bufs, uses, b) && CleanAt(bufs, uses, disk, truth, b);
    forall c | 0 <= c < |bufs| ensures UsedAt(bufs', uses', c) && CleanAt(bufs', uses', disk, truth, c) {
      assert UsedAt(bufs, uses, c) && CleanAt(bufs, uses, disk, truth, c);
    }
    forall c, d | 0 <= c < |bufs| && 0 <= d < |bufs| ensures Differ(bufs', c, d) {
      assert Differ(bufs, c, d);
    }
    forall k | k in disk && Uncached(bufs', k) ensures disk[k] == truth[k] {
      if bufs[b].valid && bufs[b].key == k {
        assert !bufs[b].locked && uses[b].pins == 0;
      } else {
        forall c | 0 <= c < |bufs| ensures !(bufs[c].valid && bufs[c].key == k) {
          assert c != b ==> bufs'[c] == bufs[c];
        }
        assert Uncached(bufs, k);
      }
    }
  }

  /** Reading a block into its buffer, or changing what a held buffer's block is. */
  lemma Filled(bufs: seq<Buf>, uses: seq<Use>, disk: map<Key, Block>, truth: map<Key, Block>, b: nat, data: Block)
    requires CacheOk(bufs, uses, disk, truth) && b < |bufs| && bufs[b].locked
    requires bufs[b].key.dev != 0 && bufs[b].key in disk
    ensures CacheOk(bufs[b := bufs[b].(valid := true, data := data)], uses, disk, truth[bufs[b].key := data])
  {
    var key := bufs[b].key;
    var bufs', truth' := bufs[b := bufs[b].(valid := true, data := data)], truth[key := data];
    forall c | 0 <= c < |bufs| ensures UsedAt(bufs', uses, c) && CleanAt(bufs', uses, disk, truth', c) {
      assert UsedAt(bufs, uses, c) && CleanAt(bufs, uses, disk, truth, c) && Differ(bufs, b, c);
    }
    forall c, d | 0 <= c < |bufs| && 0 <= d < |bufs| ensures Differ(bufs', c, d) {
      assert Differ(bufs, c, d);
    }
    forall k | k in disk && Uncached(bufs', k) ensures disk[k] == truth'[k] {
      assert bufs'[b].key == key;
      forall c | 0 <= c < |bufs| ensures !(bufs[c].valid && bufs[c].key == k) {
        assert c != b ==> bufs'[c] == bufs[c];
      }
      assert Uncached(bufs, k);
    }
  }

  /** A block that is being read for the first time is what the disk has. */
  lemma NotCachedElsewhere(bufs: seq<Buf>, uses: seq<Use>, disk: map<Key, Block>, truth: map<Key, Block>, b: nat)
    requires CacheOk(bufs, uses, disk, truth) && b < |bufs| && bufs[b].key.dev != 0 && bufs[b].key in disk
    requires !bufs[b].valid
    ensures disk[bufs[b].key] == truth[bufs[b].key]
  {
    forall c | 0 <= c < |bufs| ensures !(bufs[c].valid && bufs[c].key == bufs[b].key) {
      assert Differ(bufs, b, c);
    }
    assert Uncached(bufs, bufs[b].key);
  }

  lemma WrittenBack(bufs: seq<Buf>, uses: seq<Use>, disk: map<Key, Block>, truth: map<Key, Block>, b: nat)
    requires CacheOk(bufs, uses, disk, truth) && b < |bufs| && bufs[b].valid
    ensures CacheOk(bufs, uses, disk[bufs[b].key := bufs[b].data], truth)
  {
    var disk' := disk[bufs[b].key := bufs[b].data];
    assert CleanAt(bufs, uses, disk, truth, b);
    forall c | 0 <= c < |bufs| ensures CleanAt(bufs, uses, disk', truth, c) {
      assert CleanAt(bufs, uses, disk, truth, c) && Differ(bufs, b, c);
    }
  }

  lemma OrderSize(uses: seq<Use>, order: seq<nat>, clock: int)
    requires OrderOk(uses, order, clock)
    ensures |order| == |uses| && forall k | 0 <= k < |order| :: order[k] < |uses|
  {
  }

  /** Moving a buffer released now to the front keeps the order. */
  lemma MovedFront(uses: seq<Use>, order: seq<nat>, clock: int, i: nat, u: Use)
    requires OrderOk(uses, order, clock) && i < |order| && u.stamp == clock
    ensures order[i] < |uses| && OrderOk(uses[order[i] := u], [order[i]] + Without(order, i), clock + 1)
  {
    var b, order' := order[i], [order[i]] + Without(order, i);
    var uses' := uses[b := u];
    FrontAt(order, i);
    forall j, k | 0 <= j < k < |order'| ensures uses'[order'[j]].stamp > uses'[order'[k]].stamp {
      assert order'[k] != b;
    }
    forall c | 0 <= c < |uses'| ensures c in order' {
      assert c in order;
      var k :| 0 <= k < |order| && order[k] == c;
      assert order'[if k < i then k + 1 else if k == i then 0 else k] == c;
    }
  }

  lemma FrontAt(order: seq<nat>, i: nat)
    requires i < |order|
    ensures |[order[i]] + Without(order, i)| == |order|
    ensures forall k {:trigger ([order[i]] + Without(order, i))[k]} | 0 <= k < |order| ::
              ([order[i]] + Without(order, i))[k]
              == if k == 0 then order[i] else if k <= i then order[k - 1] else order[k]
  {
  }

  lemma InitiallyOk(bufs: seq<Buf>, uses: seq<Use>, disk: map<Key, Block>)
    requires |bufs| == |uses| && (forall b | 0 <= b < |bufs| :: bufs[b] == EMPTY)
    requires forall b | 0 <= b < |uses| :: uses[b].claims == uses[b].pins == 0
    ensures CacheOk(bufs, uses, disk, disk)
  {
  }

  lemma Sizes(bufs: seq<Buf>, uses: seq<Use>, disk: map<Key, Block>, truth: map<Key, Block>)
    requires CacheOk(bufs, uses, disk, truth)
    ensures |bufs| == |uses| && disk.Keys == truth.Keys
  {
  }

  lemma Claimed(bufs: seq<Buf>, uses: seq<Use>, disk: map<Key, Block>, truth: map<Key, Block>, b: nat)
    requires CacheOk(bufs, uses, disk, truth) && b < |bufs| == |uses|
    ensures CacheOk(bufs[b := bufs[b].(refcnt := bufs[b].refcnt + 1)],
                    uses[b := uses[b].(claims := uses[b].claims + 1)], disk, truth)
  {
    assert UsedAt(bufs, uses, b) && CleanAt(bufs, uses, disk, truth, b);
    BufChanged(bufs, uses, disk, truth, b, bufs[b].(refcnt := bufs[b].refcnt + 1),
               uses[b].(claims := uses[b].claims + 1));
  }

  lemma Used(bufs: seq<Buf>, uses: seq<Use>, disk: map<Key, Block>, truth: map<Key, Block>, b: nat)
    requires CacheOk(bufs, uses, disk, truth) && b < |bufs|
    ensures |uses| == |bufs| && UsedAt(bufs, uses, b) && CleanAt(bufs, uses, disk, truth, b)
  {
  }

  lemma Position(uses: seq<Use>, order: seq<nat>, clock: int, b: nat) returns (i: nat)
    requires OrderOk(uses, order, clock) && b < |uses|
    ensures i < |order| && order[i] == b
  {
    assert b in order;
    i :| 0 <= i < |order| && order[i] == b;
  }

  lemma NoClaims(bufs: seq<Buf>, uses: seq<Use>, disk: map<Key, Block>, truth: map<Key, Block>, b: nat)
    requires CacheOk(bufs, uses, disk, truth) && b < |bufs| == |uses| && bufs[b].refcnt == 0
    ensures uses[b].claims == 0 && uses[b].pins == 0 && !bufs[b].locked
  {
    assert UsedAt(bufs, uses, b);
  }

  lemma NowhereInOrder(bufs: seq<Buf>, uses: seq<Use>, order: seq<nat>, clock: int, key: Key)
    requires OrderOk(uses, order, clock) && |bufs| == |uses|
    requires forall j | 0 <= j < |order| :: bufs[order[j]].key != key
    ensures forall c | 0 <= c < |bufs| :: bufs[c].key != key
  {
    forall c | 0 <= c < |bufs| ensures bufs[c].key != key {
      assert c in order;
      var j :| 0 <= j < |order| && order[j] == c;
    }
  }

  /** Of the unused buffers, the one nearest the end of the list was released first. */
  lemma OldestUnused(bufs: seq<Buf>, uses: seq<Use>, order: seq<nat>, clock: int, k: nat)
    requires OrderOk(uses, order, clock) && |bufs| == |uses| && k < |order|
    requires forall j | k < j < |order| :: bufs[order[j]].refcnt != 0
    ensures forall c | 0 <= c < |bufs| && bufs[c].refcnt == 0 :: uses[order[k]].stamp <= uses[c].stamp
  {
    forall c | 0 <= c < |bufs| && bufs[c].refcnt == 0 ensures uses[order[k]].stamp <= uses[c].stamp {
      assert c in order;
      var j :| 0 <= j < |order| && order[j] == c;
    }
  }

  lemma SomeUnused(bufs: seq<Buf>, uses: seq<Use>, order: seq<nat>, clock: int, c: nat)
    requires OrderOk(uses, order, clock) && |bufs| == |uses| && c < |bufs| && bufs[c].refcnt == 0
    ensures exists j :: 0 <= j < |order| && bufs[order[j]].refcnt == 0
  {
    assert c in order;
    var j :| 0 <= j < |order| && order[j] == c;
  }

  lemma SameOrder(uses: seq<Use>, order: seq<nat>, clock: int, b: nat, u: Use)
    requires OrderOk(uses, order, clock) && b < |uses| && u.stamp == uses[b].stamp
    ensures OrderOk(uses[b := u], order, clock)
  {
  }
}

module BufCache {
  import opened LruList
  import opened BufFacts

  const NBUF: nat := 30

  class BufCache {
    var next: seq<nat>             // buffers 0, ..., NBUF - 1, and NBUF for bcache.head
    var prev: seq<nat>
    var bufs: seq<Buf>
    var disk: map<Key, Block>

    ghost var order: seq<nat>
    ghost var clock: int
    ghost var uses: seq<Use>
    ghost var truth: map<Key, Block>   // what an uncached store would hold

    ghost predicate Ok()
      reads this
    {
      && |bufs| == NBUF && Linked(next, prev, order, NBUF)
      && OrderOk(uses, order, clock) && CacheOk(bufs, uses, disk, truth)
    }

    /** binit. */
    constructor (disk: map<Key, Block>)
      ensures Ok() && this.disk == truth == disk && bufs == seq(NBUF, _ => EMPTY)
    {
      bufs, uses := seq(NBUF, _ => EMPTY), seq(NBUF, i => Use(0, 0, i));
      this.disk, truth, clock := disk, disk, NBUF;
      next, prev, order := seq(NBUF + 1, _ => NBUF), seq(NBUF + 1, _ => NBUF), [];
      new;
      assert Linked(next, prev, order, NBUF) by {
        assert LinkAt(next, prev, Round(order, NBUF), 0);
      }
      var b := 0;
      while b < NBUF
        invariant 0 <= b <= NBUF && Linked(next, prev, order, NBUF) && |order| == b
        invariant forall k | 0 <= k < b :: order[k] == b - 1 - k
        invariant bufs == seq(NBUF, _ => EMPTY) && uses == seq(NBUF, i => Use(0, 0, i))
        invariant this.disk == truth == disk && clock == NBUF
      {
        PushedFront(next, prev, order, NBUF, b);
        next := next[b := next[NBUF]];
        prev := prev[b := NBUF];
        prev := prev[next[NBUF] := b];
        next := next[NBUF := b];
        order := [b] + order;
        b := b + 1;
      }
      forall c | 0 <= c < NBUF ensures c in order {
        assert order[NBUF - 1 - c] == c;
      }
      InitiallyOk(bufs, uses, disk);
    }

    /** bget's first loop, from the most recent buffer on: NBUF if no buffer has the block. */
    method FindCached(key: Key) returns (b: nat)
      requires Ok()
      ensures b <= NBUF && (b < NBUF ==> bufs[b].key == key)
      ensures b == NBUF ==> forall c | 0 <= c < NBUF :: bufs[c].key != key
    {
      hide CacheOk, Linked, OrderOk;
      Sizes(bufs, uses, disk, truth);
      OrderSize(uses, order, clock);
      ghost var k: nat := 0;
      WalkStep(next, prev, order, NBUF, 0);
      b := next[NBUF];
      while b != NBUF
        invariant k <= NBUF == |order| && b == (if k < NBUF then order[k] else NBUF)
        invariant forall j | 0 <= j < k :: bufs[order[j]].key != key
        decreases NBUF - k
      {
        if bufs[b].key == key {
          return;
        }
        WalkStep(next, prev, order, NBUF, k + 1);
        b := next[b];
        k := k + 1;
      }
      NowhereInOrder(bufs, uses, order, clock, key);
    }

    /** bget's second loop, from the least recent buffer on. The panic when every buffer is in use is the
        precondition. */
    method FindUnused() returns (b: nat)
      requires Ok() && exists c :: 0 <= c < NBUF && bufs[c].refcnt == 0
      ensures b < NBUF && |uses| == NBUF && bufs[b].refcnt == 0
      ensures forall c | 0 <= c < NBUF && bufs[c].refcnt == 0 :: uses[b].stamp <= uses[c].stamp
    {
      hide CacheOk, Linked, OrderOk;
      Sizes(bufs, uses, disk, truth);
      OrderSize(uses, order, clock);
      ghost var k: nat := NBUF;
      WalkStep(next, prev, order, NBUF, NBUF);
      b := prev[NBUF];
      while b != NBUF
        invariant k <= NBUF == |order| && b == (if k > 0 then order[k - 1] else NBUF)
        invariant forall j | k <= j < NBUF :: bufs[order[j]].refcnt != 0
        decreases k
      {
        if bufs[b].refcnt == 0 {
          OldestUnused(bufs, uses, order, clock, k - 1);
          return;
        }
        WalkStep(next, prev, order, NBUF, k - 1);
        b := prev[b];
        k := k - 1;
      }
      ghost var c :| 0 <= c < NBUF && bufs[c].refcnt == 0;
      SomeUnused(bufs, uses, order, clock, c);
      assert false;
    }

    /** bget: the buffer of a block, claimed for the caller, who has yet to take its sleep lock. */
    method Bget(key: Key) returns (b: nat)
      requires Ok() && key.dev != 0 && key in disk
      requires exists c :: 0 <= c < NBUF && (bufs[c].key == key || bufs[c].refcnt == 0)
      modifies this`bufs, this`uses
      ensures Ok() && b < NBUF && |uses| == NBUF == |old(uses)| && bufs[b].key == key && bufs[b].refcnt > 0
      ensures uses == old(uses)[b := old(uses)[b].(claims := old(uses)[b].claims + 1)]
      ensures forall c | 0 <= c < NBUF && c != b :: bufs[c] == old(bufs)[c]
      // A buffer that has the block is used again as it is; otherwise, of the buffers that nobody refers to,
      // the one whose last release is oldest.
      ensures old(bufs)[b].key == key ==> bufs[b] == old(bufs)[b].(refcnt := old(bufs)[b].refcnt + 1)
      ensures old(bufs)[b].key != key ==>
                && old(bufs)[b].refcnt == 0 && !bufs[b].valid && (forall c | 0 <= c < NBUF :: old(bufs)[c].key != key)
                && forall c | 0 <= c < NBUF && old(bufs)[c].refcnt == 0 :: uses[b].stamp <= uses[c].stamp
    {
      hide CacheOk, Linked, OrderOk;
      Sizes(bufs, uses, disk, truth);
      b := FindCached(key);
      if b != NBUF {
        Claimed(bufs, uses, disk, truth, b);
        SameOrder(uses, order, clock, b, uses[b].(claims := uses[b].claims + 1));
        bufs := bufs[b := bufs[b].(refcnt := bufs[b].refcnt + 1)];
      } else {
        b := FindUnused();
        Recycled(bufs, uses, disk, truth, b, key);
        NoClaims(bufs, uses, disk, truth, b);
        SameOrder(uses, order, clock, b, uses[b].(claims := 1));
        bufs := bufs[b := bufs[b].(key := key, valid := false, refcnt := 1)];
      }
      uses := uses[b := uses[b].(claims := uses[b].claims + 1)];
    }

    /** acquiresleep on a claimed buffer, once its lock is free. */
    method Lock(b: nat)
      requires Ok() && b < NBUF && !bufs[b].locked && |uses| == NBUF && uses[b].claims > 0
      modifies this`bufs
      ensures Ok() && bufs == old(bufs)[b := old(bufs)[b].(locked := true)]
    {
      hide Linked, OrderOk, CacheOk;
      Used(bufs, uses, disk, truth, b);
      BufChanged(bufs, uses, disk, truth, b, bufs[b].(locked := true), uses[b]);
      bufs := bufs[b := bufs[b].(locked := true)];
      assert uses == uses[b := uses[b]];
    }

    /** The rest of bread, by the holder of the lock: the block as an uncached store would return it. */
    method Bread(b: nat)
      requires Ok() && b < NBUF && bufs[b].locked && bufs[b].key.dev != 0 && bufs[b].key in disk
      modifies this`bufs
      ensures Ok() && bufs[b].key in truth
      ensures bufs == old(bufs)[b := old(bufs)[b].(valid := true, data := truth[bufs[b].key])]
    {
      hide Linked, OrderOk, CacheOk;
      Sizes(bufs, uses, disk, truth);
      ghost var key := bufs[b].key;
      assert truth[key := truth[key]] == truth;
      Filled(bufs, uses, disk, truth, b, truth[key]);
      if !bufs[b].valid {
        NotCachedElsewhere(bufs, uses, disk, truth, b);
        bufs := bufs[b := bufs[b].(data := disk[bufs[b].key])];
        bufs := bufs[b := bufs[b].(valid := true)];
      } else {
        Used(bufs, uses, disk, truth, b);
      }
      assert bufs == old(bufs)[b := old(bufs)[b].(valid := true, data := truth[key])];
    }

    /** The holder of the lock changes the block. */
    method Modify(b: nat, data: Block)
      requires Ok() && b < NBUF && bufs[b].locked && bufs[b].valid && bufs[b].key.dev != 0 && bufs[b].key in disk
      modifies this`bufs, this`truth
      ensures Ok() && bufs == old(bufs)[b := old(bufs)[b].(data := data)]
      ensures truth == old(truth)[bufs[b].key := data]
    {
      hide Linked, OrderOk, CacheOk;
      Filled(bufs, uses, disk, truth, b, data);
      bufs := bufs[b := bufs[b].(data := data)];
      truth := truth[bufs[b].key := data];
    }

    /** Write a locked buffer's contents to disk: no block is changed by that. */
    method Bwrite(b: nat)
      requires Ok() && b < NBUF && bufs[b].locked && bufs[b].valid
      modifies this`disk
      ensures Ok() && disk == old(disk)[bufs[b].key := bufs[b].data]
    {
      hide Linked, OrderOk, CacheOk;
      WrittenBack(bufs, uses, disk, truth, b);
      disk := disk[bufs[b].key := bufs[b].data];
    }

    /** log_write pins a buffer so that it stays until its block is in place. */
    method Bpin(b: nat)
      requires Ok() && b < NBUF && |uses| == NBUF
      modifies this`bufs, this`uses
      ensures Ok() && bufs == old(bufs)[b := old(bufs)[b].(refcnt := old(bufs)[b].refcnt + 1)]
      ensures |old(uses)| == NBUF && uses == old(uses)[b := old(uses)[b].(pins := old(uses)[b].pins + 1)]
    {
      hide Linked, OrderOk, CacheOk;
      ghost var u := uses[b].(pins := uses[b].pins + 1);
      Used(bufs, uses, disk, truth, b);
      BufChanged(bufs, uses, disk, truth, b, bufs[b].(refcnt := bufs[b].refcnt + 1), u);
      SameOrder(uses, order, clock, b, u);
      bufs := bufs[b := bufs[b].(refcnt := bufs[b].refcnt + 1)];
      uses := uses[b := u];
    }

    /** Unpinning is for buffers whose block has been written in place. */
    method Bunpin(b: nat)
      requires Ok() && b < NBUF && |uses| == NBUF && uses[b].pins > 0
      requires bufs[b].valid ==> bufs[b].key in disk && bufs[b].data == disk[bufs[b].key]
      modifies this`bufs, this`uses
      ensures Ok() && |old(uses)| == NBUF && uses == old(uses)[b := old(uses)[b].(pins := old(uses)[b].pins - 1)]
      ensures old(bufs)[b].refcnt > 0 && bufs == old(bufs)[b := old(bufs)[b].(refcnt := old(bufs)[b].refcnt - 1)]
    {
      hide Linked, OrderOk, CacheOk;
      ghost var u := uses[b].(pins := uses[b].pins - 1);
      Used(bufs, uses, disk, truth, b);
      BufChanged(bufs, uses, disk, truth, b, bufs[b].(refcnt := bufs[b].refcnt - 1), u);
      SameOrder(uses, order, clock, b, u);
      bufs := bufs[b := bufs[b].(refcnt := bufs[b].refcnt - 1)];
      uses := uses[b := u];
    }

    /** brelse gives up the lock. A buffer that was modified must have been pinned by log_write, or
        written. */
    method Unlock(b: nat)
      requires Ok() && b < NBUF && bufs[b].locked && |uses| == NBUF
      requires bufs[b].valid && uses[b].pins == 0 ==> bufs[b].key in disk && bufs[b].data == disk[bufs[b].key]
      modifies this`bufs
      ensures Ok() && bufs == old(bufs)[b := old(bufs)[b].(locked := false)]
    {
      hide Linked, OrderOk, CacheOk;
      Used(bufs, uses, disk, truth, b);
      BufChanged(bufs, uses, disk, truth, b, bufs[b].(locked := false), uses[b]);
      bufs := bufs[b := bufs[b].(locked := false)];
      assert uses == uses[b := uses[b]];
    }

    /** The second half of brelse: give up the claim, and if that was the last reference, move the buffer
        to the front of the list. */
    method Unclaim(b: nat)
      requires Ok() && b < NBUF && |uses| == NBUF && uses[b].claims > (if bufs[b].locked then 1 else 0)
      modifies this`bufs, this`uses, this`next, this`prev, this`order, this`clock
      ensures Ok() && |uses| == |old(uses)| == NBUF && old(bufs)[b].refcnt > 0
      ensures bufs == old(bufs)[b := old(bufs)[b].(refcnt := old(bufs)[b].refcnt - 1)]
      ensures bufs[b].refcnt > 0 ==> order == old(order) && uses[b].stamp == old(uses)[b].stamp
      ensures bufs[b].refcnt == 0 ==> order != [] && order[0] == b && uses[b].stamp == old(clock)
      ensures uses == old(uses)[b := old(uses)[b].(claims := old(uses)[b].claims - 1, stamp := uses[b].stamp)]
    {
      hide Linked, OrderOk, CacheOk, LinkAt;
      Used(bufs, uses, disk, truth, b);
      bufs := bufs[b := bufs[b].(refcnt := bufs[b].refcnt - 1)];
      ghost var last := bufs[b].refcnt == 0;
      ghost var u := uses[b].(claims := uses[b].claims - 1, stamp := if last then clock else uses[b].stamp);
      BufChanged(old(bufs), uses, disk, truth, b, bufs[b], u);
      if bufs[b].refcnt == 0 {
        ghost var i := Position(uses, order, clock, b);
        MovedFront(uses, order, clock, i, u);
        MoveToFront(b, i);
        clock := clock + 1;
      } else {
        SameOrder(uses, order, clock, b, u);
      }
      uses := uses[b := u];
    }

    method MoveToFront(b: nat, ghost i: nat)
      requires Linked(next, prev, order, NBUF) && i < |order| && order[i] == b
      modifies this`next, this`prev, this`order
      ensures order == [b] + Without(old(order), i) && Linked(next, prev, order, NBUF)
    {
      hide Linked, LinkAt;
      Unlinked(next, prev, order, NBUF, i);
      Lengths(next, prev, order, NBUF, i);
      prev := prev[next[b] := prev[b]];
      next := next[prev[b] := next[b]];
      order := Without(order, i);
      PushedFront(next, prev, order, NBUF, b);
      next := next[b := next[NBUF]];
      prev := prev[b := NBUF];
      prev := prev[next[NBUF] := b];
      next := next[NBUF := b];
      order := [b] + order;
    }
  }
}
