// The on-disk redo log (kernel/log.c): its layout, what recovery makes of any disk,
// and the methods that write the disk one block at a time.

module LogLayout {

  const LOGSIZE: nat := 30      // MAXOPBLOCKS * 3
  const MAXOPBLOCKS: nat := 10
  const WORDS: nat := 256       // BSIZE / sizeof(int)

  // A disk block seen as an array of ints: the view the log header takes of it.
  type Block = b: seq<int> | |b| == WORDS witness seq(WORDS, _ => 0)
  type Disk = seq<Block>

  /** Where the log lies: the header at block `start`, the slots right behind it, `size` blocks in all. */
  datatype Layout = Layout(start: nat, size: nat)

  predicate InLog(l: Layout, b: int) {
    l.start <= b < l.start + l.size
  }

  predicate Home(l: Layout, size: nat, b: int) {
    0 <= b < size && !InLog(l, b)
  }

  predicate Fits(l: Layout, size: nat) {
    0 < l.size && l.start + l.size <= size
  }

  /** Block numbers that a log header may name: they fit the log, are distinct, and lie outside it. */
  predicate Loggable(l: Layout, size: nat, lh: seq<int>) {
    && Fits(l, size)
    && |lh| <= LOGSIZE && |lh| < l.size
    && (forall i | 0 <= i < |lh| :: Home(l, size, lh[i]))
    && (forall i, j | 0 <= i < j < |lh| :: lh[i] != lh[j])
  }

  /** The int stored first in the header block: how many slots are committed. */
  function HeadCount(l: Layout, d: Disk): int
    requires Fits(l, |d|)
  {
    d[l.start][0]
  }

  predicate HeadOk(l: Layout, d: Disk) {
    && Fits(l, |d|)
    && 0 <= HeadCount(l, d) <= LOGSIZE
    && Loggable(l, |d|, d[l.start][1..HeadCount(l, d) + 1])
  }

  function Head(l: Layout, d: Disk): (lh: seq<int>)
    requires HeadOk(l, d)
  {
    d[l.start][1..HeadCount(l, d) + 1]
  }

  /** A header block after write_head: the count and the block numbers, then whatever was there. */
  function PutHead(b: Block, lh: seq<int>): Block
    requires |lh| <= LOGSIZE
  {
    [|lh|] + lh + b[|lh| + 1..]
  }

  function WithHead(l: Layout, d: Disk, lh: seq<int>): Disk
    requires Fits(l, |d|) && |lh| <= LOGSIZE
  {
    d[l.start := PutHead(d[l.start], lh)]
  }

  /** The disk after the first `k` log slots have been filled with the cached blocks. */
  function Filled(l: Layout, d: Disk, lh: seq<int>, cache: map<int, Block>, k: nat): (r: Disk)
    requires Loggable(l, |d|, lh) && k <= |lh|
    requires forall b | b in lh :: b in cache
    ensures |r| == |d|
  {
    if k == 0 then d else
      Filled(l, d, lh, cache, k - 1)[l.start + k := cache[lh[k - 1]]]
  }

  /** The disk after the first `k` log slots have been copied to their home blocks. */
  function Installed(l: Layout, d: Disk, lh: seq<int>, k: nat): (r: Disk)
    requires Loggable(l, |d|, lh) && k <= |lh|
    ensures |r| == |d|
  {
    if k == 0 then d else
      var e := Installed(l, d, lh, k - 1);
      e[lh[k - 1] := e[l.start + k]]
  }

  /** What recover_from_log makes of a disk. */
  function Recover(l: Layout, d: Disk): Disk
    requires HeadOk(l, d)
  {
    WithHead(l, Installed(l, d, Head(l, d), |Head(l, d)|), [])
  }

  ghost predicate SameHome(l: Layout, d: Disk, e: Disk) {
    |d| == |e| && forall b | Home(l, |d|, b) :: d[b] == e[b]
  }

  lemma SameHomeTransitive(l: Layout, d: Disk, e: Disk, f: Disk)
    requires SameHome(l, d, e) && SameHome(l, e, f)
    ensures SameHome(l, d, f)
  {
    forall b | Home(l, |d|, b) ensures d[b] == f[b] {
      assert Home(l, |e|, b);
    }
  }

  /** The disk `d` with every logged block replaced by its cached copy. */
  function Overlay(d: Disk, lh: seq<int>, cache: map<int, Block>): (r: Disk)
    requires forall b | b in lh :: b in cache
    ensures |r| == |d|
    ensures forall b | 0 <= b < |d| :: r[b] == if b in lh then cache[b] else d[b]
  {
    seq(|d|, b requires 0 <= b < |d| => if b in lh then cache[b] else d[b])
  }

  // ---- the two copying passes, block by block ----

  lemma {:induction false} FilledAt(l: Layout, d: Disk, lh: seq<int>, cache: map<int, Block>, k: nat, b: nat)
    requires Loggable(l, |d|, lh) && k <= |lh| && b < |d|
    requires forall x | x in lh :: x in cache
    ensures Filled(l, d, lh, cache, k)[b]
         == if l.start < b <= l.start + k then cache[lh[b - l.start - 1]] else d[b]
  {
    if k > 0 {
      FilledAt(l, d, lh, cache, k - 1, b);
    }
  }

  lemma {:induction false} InstalledAt(l: Layout, d: Disk, lh: seq<int>, k: nat, b: nat)
    requires Loggable(l, |d|, lh) && k <= |lh| && b < |d|
    ensures b !in lh[..k] ==> Installed(l, d, lh, k)[b] == d[b]
    ensures forall i | 0 <= i < k && lh[i] == b :: Installed(l, d, lh, k)[b] == d[l.start + i + 1]
  {
    if k > 0 {
      InstalledAt(l, d, lh, k - 1, b);
      InstalledAt(l, d, lh, k - 1, l.start + k);
      assert InLog(l, l.start + k);
      assert lh[..k] == lh[..k - 1] + [lh[k - 1]];
      assert forall i | 0 <= i < |lh| :: Home(l, |d|, lh[i]);
    }
  }

  /** A header that was just written reads back as written. */
  lemma WithHeadReadsBack(l: Layout, d: Disk, lh: seq<int>)
    requires Loggable(l, |d|, lh)
    ensures HeadOk(l, WithHead(l, d, lh)) && Head(l, WithHead(l, d, lh)) == lh
    ensures SameHome(l, d, WithHead(l, d, lh))
  {
    var e := WithHead(l, d, lh);
    assert e[l.start][0] == |lh|;
    assert e[l.start][1..|lh| + 1] == lh;
  }

  lemma LogAreaUntouched(l: Layout, d: Disk, lh: seq<int>, k: nat)
    requires Loggable(l, |d|, lh) && k <= |lh|
    ensures forall b | InLog(l, b) :: Installed(l, d, lh, k)[b] == d[b]
  {
    forall b | InLog(l, b) ensures Installed(l, d, lh, k)[b] == d[b] {
      InstalledAt(l, d, lh, k, b);
      assert forall i | 0 <= i < |lh| :: Home(l, |d|, lh[i]);
    }
  }

  /** Home blocks after recovery: the slots of the header's blocks, and every other block as it was. */
  lemma RecoverAt(l: Layout, d: Disk, b: nat)
    requires HeadOk(l, d) && Home(l, |d|, b)
    ensures b !in Head(l, d) ==> Recover(l, d)[b] == d[b]
    ensures forall i | 0 <= i < |Head(l, d)| && Head(l, d)[i] == b :: Recover(l, d)[b] == d[l.start + i + 1]
  {
    var lh := Head(l, d);
    assert lh[..|lh|] == lh;
    InstalledAt(l, d, lh, |lh|, b);
  }

  lemma RecoverOfEmptyHead(l: Layout, d: Disk)
    requires HeadOk(l, d) && HeadCount(l, d) == 0
    ensures SameHome(l, Recover(l, d), d)
  {
    forall b | Home(l, |d|, b) ensures Recover(l, d)[b] == d[b] {
      RecoverAt(l, d, b);
    }
  }

  // ---- commit(): 2n + 2 disk writes ----

  /** The disk after the first `i` disk writes of commit(). */
  function CommitDisk(l: Layout, d: Disk, lh: seq<int>, cache: map<int, Block>, i: nat): (r: Disk)
    requires Loggable(l, |d|, lh) && i <= 2 * |lh| + 2
    requires forall b | b in lh :: b in cache
    ensures |r| == |d|
  {
    var n := |lh|;
    if i <= n then Filled(l, d, lh, cache, i)
    else
      var e := WithHead(l, Filled(l, d, lh, cache, n), lh);
      if i <= 2 * n + 1 then Installed(l, e, lh, i - n - 1)
      else WithHead(l, Installed(l, e, lh, n), [])
  }

  /** The disk states of the two copying passes over the first `k` slots, after each of their writes. */
  ghost function FilledTrace(l: Layout, d: Disk, lh: seq<int>, cache: map<int, Block>, k: nat): (t: seq<Disk>)
    requires Loggable(l, |d|, lh) && k <= |lh|
    requires forall b | b in lh :: b in cache
  {
    seq(k, i requires 0 <= i < k => Filled(l, d, lh, cache, i + 1))
  }

  ghost function InstalledTrace(l: Layout, d: Disk, lh: seq<int>, k: nat): (t: seq<Disk>)
    requires Loggable(l, |d|, lh) && k <= |lh|
  {
    seq(k, i requires 0 <= i < k => Installed(l, d, lh, i + 1))
  }

  /** The states the disk goes through during commit(), in order. */
  ghost function CommitTrace(l: Layout, d: Disk, lh: seq<int>, cache: map<int, Block>): (t: seq<Disk>)
    requires Loggable(l, |d|, lh)
    requires forall b | b in lh :: b in cache
  {
    if lh == [] then [] else
      var h := WithHead(l, Filled(l, d, lh, cache, |lh|), lh);
      FilledTrace(l, d, lh, cache, |lh|) + [h] + InstalledTrace(l, h, lh, |lh|)
      + [WithHead(l, Installed(l, h, lh, |lh|), [])]
  }

  lemma CommitTraceAt(l: Layout, d: Disk, lh: seq<int>, cache: map<int, Block>, i: nat)
    requires Loggable(l, |d|, lh) && lh != [] && 0 < i <= 2 * |lh| + 2
    requires forall b | b in lh :: b in cache
    ensures |CommitTrace(l, d, lh, cache)| == 2 * |lh| + 2
    ensures CommitTrace(l, d, lh, cache)[i - 1] == CommitDisk(l, d, lh, cache, i)
  {
  }

  /** Before the header is written, recovery gives back the old disk. */
  lemma BeforeCommitPoint(l: Layout, d: Disk, lh: seq<int>, cache: map<int, Block>, i: nat)
    requires Loggable(l, |d|, lh) && HeadOk(l, d) && HeadCount(l, d) == 0 && i <= |lh|
    requires forall b | b in lh :: b in cache
    ensures HeadOk(l, CommitDisk(l, d, lh, cache, i))
    ensures SameHome(l, Recover(l, CommitDisk(l, d, lh, cache, i)), d)
  {
    var e := CommitDisk(l, d, lh, cache, i);
    FilledAt(l, d, lh, cache, i, l.start);
    RecoverOfEmptyHead(l, e);
    forall b | Home(l, |d|, b) ensures Recover(l, e)[b] == d[b] {
      FilledAt(l, d, lh, cache, i, b);
      assert Home(l, |e|, b);
    }
  }

  /** The install pass leaves the header, and so what recovery will do, as it was. */
  lemma InstallingKeepsHead(l: Layout, d: Disk, lh: seq<int>, k: nat)
    requires HeadOk(l, d) && Head(l, d) == lh && k <= |lh|
    ensures HeadOk(l, Installed(l, d, lh, k)) && Head(l, Installed(l, d, lh, k)) == lh
  {
    var e := Installed(l, d, lh, k);
    LogAreaUntouched(l, d, lh, k);
    assert InLog(l, l.start);
    assert e[l.start] == d[l.start];
  }

  /** ... and recovering from the middle of the pass gives what recovering from its start gives. */
  lemma InstallingKeepsRecovery(l: Layout, d: Disk, lh: seq<int>, k: nat)
    requires HeadOk(l, d) && Head(l, d) == lh && k <= |lh|
    requires HeadOk(l, Installed(l, d, lh, k)) && Head(l, Installed(l, d, lh, k)) == lh
    ensures SameHome(l, Recover(l, Installed(l, d, lh, k)), Recover(l, d))
  {
    var e := Installed(l, d, lh, k);
    LogAreaUntouched(l, d, lh, k);
    forall b | Home(l, |d|, b) ensures Recover(l, e)[b] == Recover(l, d)[b] {
      assert Home(l, |e|, b);
      RecoverAt(l, d, b);
      RecoverAt(l, e, b);
      InstalledAt(l, d, lh, k, b);
      if b in lh {
        var i :| 0 <= i < |lh| && lh[i] == b;
        assert InLog(l, l.start + i + 1);
      } else {
        assert b !in lh[..k];
      }
    }
  }

  lemma RecoverFromFilledAt(l: Layout, d: Disk, lh: seq<int>, cache: map<int, Block>, h: Disk, b: nat)
    requires Loggable(l, |d|, lh) && forall x | x in lh :: x in cache
    requires h == WithHead(l, Filled(l, d, lh, cache, |lh|), lh) && HeadOk(l, h) && Head(l, h) == lh && Home(l, |d|, b)
    ensures Recover(l, h)[b] == if b in lh then cache[b] else d[b]
  {
    hide Recover, Filled, HeadOk, Head, PutHead;
    RecoverAt(l, h, b);
    if b in lh {
      var i :| 0 <= i < |lh| && lh[i] == b;
      FilledAt(l, d, lh, cache, |lh|, l.start + i + 1);
    } else {
      FilledAt(l, d, lh, cache, |lh|, b);
    }
  }

  /** Recovery from a full log with its header written replaces every logged block. */
  lemma RecoverFromFilled(l: Layout, d: Disk, lh: seq<int>, cache: map<int, Block>)
    requires Loggable(l, |d|, lh)
    requires forall b | b in lh :: b in cache
    ensures var h := WithHead(l, Filled(l, d, lh, cache, |lh|), lh);
            HeadOk(l, h) && Head(l, h) == lh && SameHome(l, Recover(l, h), Overlay(d, lh, cache))
  {
    var n := |lh|;
    var f := Filled(l, d, lh, cache, n);
    var h := WithHead(l, f, lh);
    WithHeadReadsBack(l, f, lh);
    forall b | Home(l, |d|, b) ensures Recover(l, h)[b] == Overlay(d, lh, cache)[b] {
      RecoverFromFilledAt(l, d, lh, cache, h, b);
    }
  }

  /** Once the header is written, recovery gives the new disk, however far the install pass has come. */
  lemma AfterCommitPoint(l: Layout, d: Disk, lh: seq<int>, cache: map<int, Block>, k: nat)
    requires Loggable(l, |d|, lh) && k <= |lh|
    requires forall b | b in lh :: b in cache
    ensures var e := CommitDisk(l, d, lh, cache, |lh| + 1 + k);
            HeadOk(l, e) && Head(l, e) == lh && SameHome(l, Recover(l, e), Overlay(d, lh, cache))
  {
    var h := WithHead(l, Filled(l, d, lh, cache, |lh|), lh);
    RecoverFromFilled(l, d, lh, cache);
    InstallingKeepsHead(l, h, lh, k);
    InstallingKeepsRecovery(l, h, lh, k);
    SameHomeTransitive(l, Recover(l, Installed(l, h, lh, k)), Recover(l, h), Overlay(d, lh, cache));
  }

  /** After the last write the header is empty and the home blocks themselves are the new disk. */
  lemma CommitDone(l: Layout, d: Disk, lh: seq<int>, cache: map<int, Block>)
    requires Loggable(l, |d|, lh)
    requires forall b | b in lh :: b in cache
    ensures var e := CommitDisk(l, d, lh, cache, 2 * |lh| + 2);
            HeadOk(l, e) && HeadCount(l, e) == 0 && SameHome(l, e, Overlay(d, lh, cache))
  {
    var n := |lh|;
    AfterCommitPoint(l, d, lh, cache, n);
    var e := CommitDisk(l, d, lh, cache, 2 * n + 1);
    WithHeadReadsBack(l, e, []);
    var z := WithHead(l, e, []);
    assert CommitDisk(l, d, lh, cache, 2 * n + 2) == z;
    AfterCommitPoint(l, d, lh, cache, 0);
    var h := CommitDisk(l, d, lh, cache, n + 1);
    assert h == WithHead(l, Filled(l, d, lh, cache, n), lh);
    assert z == Recover(l, h);
  }

  /** Crash atomicity: wherever commit() is cut off, recovery yields the old or the new home blocks,
      and which of the two it is depends only on whether the header had been written. */
  lemma CommitAtomic(l: Layout, d: Disk, lh: seq<int>, cache: map<int, Block>, i: nat)
    requires Loggable(l, |d|, lh) && HeadOk(l, d) && HeadCount(l, d) == 0 && i <= 2 * |lh| + 2
    requires forall b | b in lh :: b in cache
    ensures HeadOk(l, CommitDisk(l, d, lh, cache, i))
    ensures SameHome(l, Recover(l, CommitDisk(l, d, lh, cache, i)), if i <= |lh| then d else Overlay(d, lh, cache))
  {
    if i <= |lh| {
      BeforeCommitPoint(l, d, lh, cache, i);
    } else if i <= 2 * |lh| + 1 {
      AfterCommitPoint(l, d, lh, cache, i - |lh| - 1);
    } else {
      CommitDone(l, d, lh, cache);
      var e := CommitDisk(l, d, lh, cache, i);
      RecoverOfEmptyHead(l, e);
      SameHomeTransitive(l, Recover(l, e), e, Overlay(d, lh, cache));
    }
  }

  /** A crash right after the i-th write of a sequence: all old before write k, all new from there on. */
  ghost predicate AllOldThenAllNew(l: Layout, states: seq<Disk>, k: nat, before: Disk, after: Disk) {
    forall i | 0 <= i < |states| ::
      HeadOk(l, states[i]) && SameHome(l, Recover(l, states[i]), if i < k then before else after)
  }

  /** Crash atomicity, over the states commit() really passes through. */
  lemma CommitTraceAtomic(l: Layout, d: Disk, lh: seq<int>, cache: map<int, Block>)
    requires Loggable(l, |d|, lh) && HeadOk(l, d) && HeadCount(l, d) == 0
    requires forall b | b in lh :: b in cache
    ensures AllOldThenAllNew(l, CommitTrace(l, d, lh, cache), |lh|, d, Overlay(d, lh, cache))
  {
    var states, new_ := CommitTrace(l, d, lh, cache), Overlay(d, lh, cache);
    forall i | 0 <= i < |states|
      ensures HeadOk(l, states[i]) && SameHome(l, Recover(l, states[i]), if i < |lh| then d else new_)
    {
      CommitTraceAt(l, d, lh, cache, i + 1);
      CommitAtomic(l, d, lh, cache, i + 1);
    }
  }

  // ---- recover_from_log(): n + 1 disk writes, itself open to crashes ----

  /** The disk after the first `i` disk writes of recover_from_log(). */
  function RecoverDisk(l: Layout, d: Disk, i: nat): (r: Disk)
    requires HeadOk(l, d) && i <= |Head(l, d)| + 1
    ensures |r| == |d|
  {
    if i <= |Head(l, d)| then Installed(l, d, Head(l, d), i) else Recover(l, d)
  }

  ghost function RecoverTrace(l: Layout, d: Disk): (t: seq<Disk>)
    requires HeadOk(l, d)
  {
    InstalledTrace(l, d, Head(l, d), |Head(l, d)|) + [Recover(l, d)]
  }

  lemma RecoverTraceAt(l: Layout, d: Disk, i: nat)
    requires HeadOk(l, d) && 0 < i <= |Head(l, d)| + 1
    ensures |RecoverTrace(l, d)| == |Head(l, d)| + 1
    ensures RecoverTrace(l, d)[i - 1] == RecoverDisk(l, d, i)
  {
  }

  /** A recovery that is itself cut off loses nothing: recovering again ends in the same home blocks. */
  lemma RecoveryRestartable(l: Layout, d: Disk, i: nat)
    requires HeadOk(l, d) && i <= |Head(l, d)| + 1
    ensures HeadOk(l, RecoverDisk(l, d, i))
    ensures SameHome(l, Recover(l, RecoverDisk(l, d, i)), Recover(l, d))
  {
    var lh := Head(l, d);
    if i <= |lh| {
      InstallingKeepsHead(l, d, lh, i);
      InstallingKeepsRecovery(l, d, lh, i);
    } else {
      WithHeadReadsBack(l, Installed(l, d, lh, |lh|), []);
      RecoverOfEmptyHead(l, RecoverDisk(l, d, i));
    }
  }

  /** ... over the states recover_from_log() really passes through. */
  lemma RecoverTraceAtomic(l: Layout, d: Disk)
    requires HeadOk(l, d)
    ensures AllOldThenAllNew(l, RecoverTrace(l, d), 0, d, Recover(l, d))
  {
    var states := RecoverTrace(l, d);
    forall i | 0 <= i < |states| ensures HeadOk(l, states[i]) && SameHome(l, Recover(l, states[i]), Recover(l, d)) {
      RecoverTraceAt(l, d, i + 1);
      RecoveryRestartable(l, d, i + 1);
    }
  }

  /** The disk left by recoveries cut off after cuts[0], cuts[1], ... writes, one after the other. */
  ghost predicate CutRecoveries(l: Layout, d: Disk, cuts: seq<nat>, e: Disk)
    decreases |cuts|
  {
    && HeadOk(l, d)
    && if cuts == [] then e == d else
         && cuts[0] <= |Head(l, d)| + 1
         && CutRecoveries(l, RecoverDisk(l, d, cuts[0]), cuts[1..], e)
  }

  lemma {:induction false} CutRecoveriesConverge(l: Layout, d: Disk, cuts: seq<nat>, e: Disk)
    requires CutRecoveries(l, d, cuts, e)
    ensures HeadOk(l, e) && SameHome(l, Recover(l, e), Recover(l, d))
    decreases |cuts|
  {
    if cuts != [] {
      var m := RecoverDisk(l, d, cuts[0]);
      CutRecoveriesConverge(l, m, cuts[1..], e);
      RecoveryRestartable(l, d, cuts[0]);
      SameHomeTransitive(l, Recover(l, e), Recover(l, m), Recover(l, d));
    }
  }

  /** The whole story of one transaction: commit() cut off after `i` writes, then any number of
      cut-off recoveries, then one that completes. All old before the header write, all new after it. */
  lemma CrashAtomicity(l: Layout, d: Disk, lh: seq<int>, cache: map<int, Block>, i: nat, cuts: seq<nat>, e: Disk)
    requires Loggable(l, |d|, lh) && HeadOk(l, d) && HeadCount(l, d) == 0 && i <= 2 * |lh| + 2
    requires forall b | b in lh :: b in cache
    requires CutRecoveries(l, CommitDisk(l, d, lh, cache, i), cuts, e)
    ensures HeadOk(l, e) && HeadOk(l, Recover(l, e)) && HeadCount(l, Recover(l, e)) == 0
    ensures SameHome(l, Recover(l, e), if i <= |lh| then d else Overlay(d, lh, cache))
  {
    var c := CommitDisk(l, d, lh, cache, i);
    CommitAtomic(l, d, lh, cache, i);
    CutRecoveriesConverge(l, c, cuts, e);
    SameHomeTransitive(l, Recover(l, e), Recover(l, c), if i <= |lh| then d else Overlay(d, lh, cache));
    WithHeadReadsBack(l, Installed(l, e, Head(l, e), |Head(l, e)|), []);
  }
}
