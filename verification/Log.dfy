// The in-memory log and its operations (kernel/log.c). The disk records every state it passes
// through, so a method's contract can speak of a crash after any single block write.

module LogOps {
  import opened LogLayout

  /** The fields of `struct log` that change while the system runs. */
  datatype LogState = LogState(outstanding: int, committing: bool, lh: seq<int>)

  /** begin_op's two waiting conditions: a commit in progress, or too little reserved space. */
  predicate MayBegin(s: LogState) {
    !s.committing && |s.lh| + (s.outstanding + 1) * MAXOPBLOCKS <= LOGSIZE
  }

  /** log_write's two panics. */
  predicate LogWritePanics(l: Layout, s: LogState) {
    |s.lh| >= LOGSIZE || |s.lh| >= l.size - 1 || s.outstanding < 1
  }

  /** Log absorption: a block is recorded once per transaction. */
  function Absorb(lh: seq<int>, b: int): (r: seq<int>)
    ensures b in r && forall x | x in r :: x in lh || x == b
    ensures |r| == if b in lh then |lh| else |lh| + 1
  {
    if b in lh then lh else lh + [b]
  }

  lemma AbsorbStaysLoggable(l: Layout, size: nat, lh: seq<int>, b: int)
    requires Loggable(l, size, lh) && Home(l, size, b)
    requires |lh| < LOGSIZE && |lh| < l.size - 1
    ensures Loggable(l, size, Absorb(lh, b))
  {
    var r := Absorb(lh, b);
    forall i, j | 0 <= i < j < |r| ensures r[i] != r[j] {
      if j == |lh| { assert lh[i] in lh; }
    }
  }
}

module Log {
  import opened LogLayout
  import opened LogOps

  /** A disk whose block writes are atomic; `trace` lists the disk's contents after each of them. */
  class Device {
    var blocks: Disk
    ghost var trace: seq<Disk>

    constructor (image: Disk)
      ensures blocks == image && trace == []
    {
      blocks, trace := image, [];
    }

    method Write(b: nat, data: Block)
      requires b < |blocks|
      modifies this
      ensures blocks == old(blocks)[b := data]
      ensures trace == old(trace) + [blocks]
    {
      blocks := blocks[b := data];
      trace := trace + [blocks];
    }
  }

  class Log {
    const dev: Device
    const layout: Layout
    const block: array<int>       // log.lh.block
    var n: int                    // log.lh.n
    var outstanding: int
    var committing: bool
    var cache: map<int, Block>    // pinned buffers: modified, not yet copied home

    ghost predicate Shape()
      reads this, block, dev
    {
      && block.Length == LOGSIZE && 0 <= n <= LOGSIZE
      && Loggable(layout, |dev.blocks|, Lh())
      && (forall b | b in Lh() :: b in cache)
    }

    ghost function Lh(): seq<int>
      reads this, block
      requires block.Length == LOGSIZE && 0 <= n <= LOGSIZE
    {
      block[..n]
    }

    ghost predicate Valid()
      reads this, block, dev
    {
      && Shape()
      && HeadOk(layout, dev.blocks) && HeadCount(layout, dev.blocks) == 0
      && 0 <= outstanding
      && (committing ==> outstanding == 0)
    }

    ghost function State(): LogState
      reads this, block
      requires block.Length == LOGSIZE && 0 <= n <= LOGSIZE
    {
      LogState(outstanding, committing, Lh())
    }

    /** initlog: whatever the crash left on the disk, what survives is Recover of it. */
    constructor (d: Device, l: Layout)
      requires HeadOk(l, d.blocks)
      modifies d
      ensures dev == d && layout == l && fresh(block)
      ensures Valid() && State() == LogState(0, false, []) && cache == map[]
      ensures d.blocks == Recover(l, old(d.blocks))
      ensures d.trace == old(d.trace) + RecoverTrace(l, old(d.blocks))
    {
      dev, layout, block := d, l, new int[LOGSIZE];
      n, outstanding, committing, cache := 0, 0, false, map[];
      new;
      RecoverFromLog();
    }

    /** The count and block numbers become those of the disk's header. */
    method ReadHead()
      requires block.Length == LOGSIZE && HeadOk(layout, dev.blocks)
      modifies this`n, block
      ensures 0 <= n <= LOGSIZE && Lh() == Head(layout, dev.blocks)
    {
      var buf := dev.blocks[layout.start];
      n := buf[0];
      var i := 0;
      while i < n
        invariant 0 <= i <= n == buf[0]
        invariant block[..i] == buf[1..i + 1]
      {
        block[i] := buf[i + 1];
        i := i + 1;
      }
    }

    /** The commit point: one block write, which makes the disk's header say what memory's does. */
    method WriteHead()
      requires block.Length == LOGSIZE && 0 <= n <= LOGSIZE && Fits(layout, |dev.blocks|)
      modifies dev
      ensures dev.blocks == WithHead(layout, old(dev.blocks), Lh())
      ensures dev.trace == old(dev.trace) + [dev.blocks]
    {
      var buf: Block := dev.blocks[layout.start];
      ghost var stale := buf;
      buf := buf[0 := n];
      var i := 0;
      while i < n
        invariant 0 <= i <= n
        invariant buf == [n] + block[..i] + stale[i + 1..]
      {
        buf := buf[i + 1 := block[i]];
        i := i + 1;
      }
      dev.Write(layout.start, buf);
    }

    /** Each slot in use receives its block's cached contents, in order, one disk write per slot. */
    method WriteLog()
      requires Shape()
      modifies dev
      ensures dev.blocks == Filled(layout, old(dev.blocks), Lh(), cache, n)
      ensures dev.trace == old(dev.trace) + FilledTrace(layout, old(dev.blocks), Lh(), cache, n)
    {
      ghost var d, t := dev.blocks, dev.trace;
      var tail := 0;
      while tail < n
        invariant 0 <= tail <= n
        invariant dev.blocks == Filled(layout, d, Lh(), cache, tail)
        invariant dev.trace == t + FilledTrace(layout, d, Lh(), cache, tail)
      {
        assert block[tail] == Lh()[tail];
        var from := cache[block[tail]];
        dev.Write(layout.start + tail + 1, from);
        tail := tail + 1;
      }
    }

    /** Copy committed blocks from the log to their home location, unpinning them unless recovering. */
    method InstallTrans(recovering: bool)
      requires block.Length == LOGSIZE && 0 <= n <= LOGSIZE && Loggable(layout, |dev.blocks|, Lh())
      modifies this`cache, dev
      ensures dev.blocks == Installed(layout, old(dev.blocks), Lh(), n)
      ensures cache == if recovering then old(cache) else old(cache) - set b | b in Lh()
      ensures dev.trace == old(dev.trace) + InstalledTrace(layout, old(dev.blocks), Lh(), n)
    {
      ghost var d, t := dev.blocks, dev.trace;
      var tail := 0;
      while tail < n
        invariant 0 <= tail <= n
        invariant dev.blocks == Installed(layout, d, Lh(), tail)
        invariant cache == if recovering then old(cache) else old(cache) - set b | b in Lh()[..tail]
        invariant dev.trace == t + InstalledTrace(layout, d, Lh(), tail)
      {
        assert Home(layout, |d|, Lh()[tail]);
        assert Lh()[..tail + 1] == Lh()[..tail] + [block[tail]];
        var lbuf := dev.blocks[layout.start + tail + 1];
        dev.Write(block[tail], lbuf);
        if !recovering {
          cache := cache - {block[tail]};
        }
        tail := tail + 1;
      }
      assert Lh()[..n] == Lh();
    }

    method RecoverFromLog()
      requires block.Length == LOGSIZE && HeadOk(layout, dev.blocks)
      modifies this`n, this`cache, block, dev
      ensures n == 0 && cache == old(cache)
      ensures HeadOk(layout, dev.blocks) && HeadCount(layout, dev.blocks) == 0
      ensures dev.blocks == Recover(layout, old(dev.blocks))
      ensures dev.trace == old(dev.trace) + RecoverTrace(layout, old(dev.blocks))
    {
      ReadHead();
      InstallTrans(true);
      WithHeadReadsBack(layout, dev.blocks, []);
      n := 0;
      WriteHead();
      assert Lh() == [];
    }

    /** The four steps of commit() for a group that logged something. */
    method CommitGroup()
      requires Shape() && n > 0
      modifies this`n, this`cache, dev
      ensures n == 0 && cache == old(cache - set b | b in Lh())
      ensures dev.blocks == old(CommitDisk(layout, dev.blocks, Lh(), cache, 2 * n + 2))
      ensures dev.trace == old(dev.trace) + old(CommitTrace(layout, dev.blocks, Lh(), cache))
    {
      ghost var d, t, lh, c := dev.blocks, dev.trace, Lh(), cache;
      ghost var f := Filled(layout, d, lh, c, n);
      ghost var h := WithHead(layout, f, lh);
      WriteLog();
      WriteHead();
      assert dev.blocks == h && dev.trace == t + (FilledTrace(layout, d, lh, c, |lh|) + [h]);
      InstallTrans(false);
      n := 0;
      WriteHead();
      assert Lh() == [];
      assert dev.trace == t + CommitTrace(layout, d, lh, c);
    }

    /** commit(): the disk goes through the CommitTrace states and ends with the new blocks at home. */
    method Commit()
      requires Shape() && HeadOk(layout, dev.blocks) && HeadCount(layout, dev.blocks) == 0
      modifies this`n, this`cache, dev
      ensures n == 0 && cache == old(cache - set b | b in Lh())
      ensures HeadOk(layout, dev.blocks) && HeadCount(layout, dev.blocks) == 0
      ensures SameHome(layout, dev.blocks, old(Overlay(dev.blocks, Lh(), cache)))
      ensures dev.trace == old(dev.trace) + old(CommitTrace(layout, dev.blocks, Lh(), cache))
    {
      if n > 0 {
        CommitDone(layout, dev.blocks, Lh(), cache);
        CommitGroup();
      } else {
        assert Lh() == [];
      }
    }

    /** One pass of begin_op's loop; false means it goes to sleep on the log instead. */
    method BeginOp() returns (ok: bool)
      requires Valid()
      modifies this`outstanding
      ensures Valid()
      ensures ok == old(MayBegin(State()))
      ensures !ok <==> old(committing) || old(n) + (old(outstanding) + 1) * MAXOPBLOCKS > LOGSIZE
      ensures State() == if ok then old(State()).(outstanding := old(outstanding) + 1) else old(State())
    {
      if committing {
        ok := false;
      } else if n + (outstanding + 1) * MAXOPBLOCKS > LOGSIZE {
        ok := false;
      } else {
        outstanding := outstanding + 1;
        ok := true;
      }
    }

    /** log_write of a buffer holding `data` for block `b`; false is a panic. */
    method LogWrite(b: int, data: Block) returns (ok: bool)
      requires Valid() && Home(layout, |dev.blocks|, b)
      modifies this`n, this`cache, block
      ensures Valid()
      ensures ok == !old(LogWritePanics(layout, State()))
      ensures ok ==> State() == old(State()).(lh := Absorb(old(Lh()), b)) && cache == old(cache)[b := data]
      ensures !ok ==> State() == old(State()) && cache == old(cache)
    {
      if n >= LOGSIZE || n >= layout.size - 1 {
        return false;
      }
      if outstanding < 1 {
        return false;
      }
      ghost var lh := Lh();
      AbsorbStaysLoggable(layout, |dev.blocks|, lh, b);
      var i := 0;
      while i < n && block[i] != b
        invariant 0 <= i <= n
        invariant b !in block[..i]
      {
        i := i + 1;
      }
      block[i] := b;
      if i == n {
        n := n + 1;
        assert Lh() == lh + [b];
      } else {
        assert b in lh;
        assert Lh() == lh;
      }
      cache := cache[b := data];
      ok := true;
    }

    /** end_op: the last outstanding operation commits the group, all or nothing. */
    method EndOp()
      requires Valid() && outstanding > 0
      modifies this, dev
      ensures Valid() && !committing && outstanding == old(outstanding) - 1
      ensures outstanding > 0 ==> Lh() == old(Lh()) && cache == old(cache) && dev.blocks == old(dev.blocks)
      ensures outstanding == 0 ==> n == 0 && SameHome(layout, dev.blocks, old(Overlay(dev.blocks, Lh(), cache)))
      ensures old(dev.trace) <= dev.trace
      ensures AllOldThenAllNew(layout, dev.trace[|old(dev.trace)|..], old(n), old(dev.blocks),
                               old(Overlay(dev.blocks, Lh(), cache)))
    {
      ghost var t := dev.trace;
      outstanding := outstanding - 1;
      assert !committing;
      var doCommit := false;
      if outstanding == 0 {
        doCommit := true;
        committing := true;
      }
      if doCommit {
        CommitTraceAtomic(layout, dev.blocks, Lh(), cache);
        ghost var states := CommitTrace(layout, dev.blocks, Lh(), cache);
        Commit();
        committing := false;
        assert dev.trace[|t|..] == states;
      }
    }
  }
}
