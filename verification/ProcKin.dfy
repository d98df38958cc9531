// Parents and children over runs of the process table (kernel/proc.c): what exit's status becomes, that
// no process is ever left without a living parent, and that wait sleeps only for a child.

module ProcKin {
  import opened ProcTable
  import opened ProcInv
  import opened ProcPids
  import opened ProcSteps
  import opened ProcRuns

  // ---- the status that wait returns ----

  /** Step `j` of the run, taken in state `u`, is the exit of the process with this pid and status. */
  ghost predicate ExitOf(s: Sys, run: seq<Step>, j: nat, u: Sys, pid: nat, status: int) {
    && j < |run| && Leads(s, run[..j], u) && Enabled(u, run[j])
    && run[j].InExit? && run[j].e == ExitZombie(status) && u.procs[u.cpus[run[j].c].p].pid == pid
  }

  lemma ExitLater(s: Sys, run: seq<Step>, j: nat, u: Sys, pid: nat, status: int)
    requires run != [] && Enabled(s, run[0]) && ExitOf(Apply(s, run[0]), run[1..], j, u, pid, status)
    ensures ExitOf(s, run, j + 1, u, pid, status)
  {
    assert run[..j + 1][1..] == run[1..][..j];
    assert run[1..][j] == run[j + 1];
  }

  lemma {:induction false} ExitedInRun(s: Sys, run: seq<Step>, t: Sys, pid: nat) returns (j: nat, u: Sys)
    requires Leads(s, run, t) && pid in t.exits
    ensures ExitOf(s, run, j, u, pid, t.exits[pid]) || (pid in s.exits && s.exits[pid] == t.exits[pid])
    decreases |run|
  {
    j, u := 0, s;
    if run != [] {
      var s1 := Apply(s, run[0]);
      j, u := ExitedInRun(s1, run[1..], t, pid);
      if ExitOf(s1, run[1..], j, u, pid, t.exits[pid]) {
        ExitLater(s, run, j, u, pid, t.exits[pid]);
        j := j + 1;
      } else {
        j, u := 0, s;
        assert run[..0] == [];
      }
    }
  }

  /** What wait returns with a pid is the status that the process with that pid gave to exit. */
  lemma StatusIsGiven(s: Sys, run: seq<Step>, t: Sys, k: nat) returns (j: nat, u: Sys)
    requires Boot(s) && Leads(s, run, t) && k < |t.reaped|
    ensures ExitOf(s, run, j, u, t.reaped[k].0, t.reaped[k].1)
  {
    EveryZombieReapedOnce(s, run, t, k, k);
    j, u := ExitedInRun(s, run, t, t.reaped[k].0);
  }

  // ---- children always have a parent ----

  /** How much of the table is known to hold no child of a process: what exit's reparent has been through,
      and all of it after that, before the process has started, and when there is none. */
  function Childless(n: nat, r: Proc): nat {
    match r.pc
    case NoThread => n
    case Reparent(i) => i
    case WakingInit(i, _) => i + 1
    case WakingParent(_) => n
    case Exited => n
    case Sched(k) => if k == Never then n else 0
    case Off(k) => if k == Never || (k == AfterFork && r.state == USED) then n else 0
    case _ => 0
  }

  predicate ChildrenAt(s: Sys, z: nat, q: nat)
    requires z < |s.procs| && q < |s.procs|
  {
    s.procs[z].parent == q ==> z >= Childless(|s.procs|, s.procs[q])
  }

  predicate IsLinked(pc: Pc) {
    match pc
    case Linked(_) => true
    case Sched(k) => k.AfterYield? && k.at.AtLinked?
    case Off(k) => k.AfterYield? && k.at.AtLinked?
    case Back(k) => k.AfterYield? && k.at.AtLinked?
    case _ => false
  }

  /** The process that fork makes has no parent, and then its maker. */
  predicate BornAt(s: Sys, p: nat)
    requires p < |s.procs|
  {
    var np := Made(s.procs[p].pc);
    0 <= np < |s.procs| ==> s.procs[np].parent == if IsLinked(s.procs[p].pc) then p else NONE
  }

  /** A thread that has come to wait for something, and has not gone on. */
  predicate Waiting(pc: Pc) {
    match pc
    case Sched(k) => k == AfterWait || k == AfterSleep
    case Off(k) => k == AfterWait || k == AfterSleep
    case Back(k) => k == AfterWait || k == AfterSleep
    case _ => false
  }

  /** Every process but init has a parent once it can run, and a channel only while it waits on it; an entry
      that is not in use has no pid. */
  predicate RootAt(s: Sys, z: nat)
    requires z < |s.procs|
  {
    && (s.procs[z].state != UNUSED && s.procs[z].state != USED && z != s.init ==> s.procs[z].parent != NONE)
    && (s.procs[z].chan != NoChan ==> Waiting(s.procs[z].pc))
    && (s.procs[z].state == UNUSED ==> s.procs[z].pid == 0)
  }

  /** init has been started and does not end. */
  predicate InitAt(s: Sys) {
    s.init < |s.procs| && s.procs[s.init].state != UNUSED && s.procs[s.init].state != USED
  }

  ghost predicate Kin(s: Sys) {
    && InitAt(s)
    && (forall z, q {:trigger ChildrenAt(s, z, q)} | 0 <= z < |s.procs| && 0 <= q < |s.procs| :: ChildrenAt(s, z, q))
    && (forall p {:trigger BornAt(s, p)} | 0 <= p < |s.procs| :: BornAt(s, p))
    && (forall z {:trigger RootAt(s, z)} | 0 <= z < |s.procs| :: RootAt(s, z))
  }

  lemma ForkChildren(s: Sys, p: nat, op: ForkOp, z: nat, q: nat)
    requires p < |s.procs| && z < |s.procs| && q < |s.procs| && MayFork(s, p, op) && OnCpu(s.procs[p].pc)
    requires Settled(s, p, ForkOther(s, p, op)) && StateAt(s, q) && InitAt(s)
    requires ChildrenAt(s, z, q) && ChildrenAt(s, z, p) && BornAt(s, p)
    ensures var t := DoFork(s, p, op); |t.procs| == |s.procs| && ChildrenAt(t, z, q)
  {
    hide LockAt, WaitLockAt;
  }

  lemma ForkBorn(s: Sys, p: nat, op: ForkOp, z: nat)
    requires p < |s.procs| && z < |s.procs| && MayFork(s, p, op) && OnCpu(s.procs[p].pc)
    requires Settled(s, p, ForkOther(s, p, op)) && StateAt(s, z) && MakerAt(s, z) && MakersDiffer(s, z, p) && InitAt(s)
    requires BornAt(s, z) && BornAt(s, p) && RootAt(s, z)
    ensures var t := DoFork(s, p, op); |t.procs| == |s.procs| && BornAt(t, z) && RootAt(t, z) && InitAt(t)
  {
    hide LockAt, WaitLockAt;
  }

  lemma ExitChildren(s: Sys, p: nat, op: ExitOp, z: nat, q: nat)
    requires p < |s.procs| && z < |s.procs| && q < |s.procs| && MayExit(s, p, op) && OnCpu(s.procs[p].pc)
    requires Settled(s, p, p) && StateAt(s, q) && InitAt(s)
    requires ChildrenAt(s, z, q) && ChildrenAt(s, z, p) && BornAt(s, p)
    ensures var t := DoExit(s, p, op); |t.procs| == |s.procs| && ChildrenAt(t, z, q)
  {
    hide LockAt, WaitLockAt;
  }

  lemma ExitBorn(s: Sys, p: nat, op: ExitOp, z: nat)
    requires p < |s.procs| && z < |s.procs| && MayExit(s, p, op) && OnCpu(s.procs[p].pc)
    requires Settled(s, p, p) && StateAt(s, z) && MakerAt(s, z) && MakersDiffer(s, z, p) && InitAt(s)
    requires BornAt(s, z) && BornAt(s, p) && RootAt(s, z)
    ensures var t := DoExit(s, p, op); |t.procs| == |s.procs| && BornAt(t, z) && RootAt(t, z) && InitAt(t)
  {
    hide LockAt, WaitLockAt;
  }

  lemma WakeParents(s: Sys, p: nat, op: WakeOp, x: nat)
    requires p < |s.procs| && x < |s.procs| && MayWake(s, p, op) && PcInRange(|s.procs|, s.procs[p].pc)
    ensures var t := DoWake(s, p, op);
      && |t.procs| == |s.procs| && t.init == s.init && (x != p ==> t.procs[x].pc == s.procs[x].pc)
      && t.procs[x].parent == (if op == ReparentNext && s.procs[p].pc.i == x && s.procs[x].parent == p then s.init
                               else s.procs[x].parent)
      && t.procs[x].chan == s.procs[x].chan && t.procs[x].pid == s.procs[x].pid
      && (IsWaking(t.procs[x].pc) || t.procs[x].pc == s.procs[x].pc)
      && (t.procs[x].state == s.procs[x].state || (s.procs[x].state == SLEEPING && t.procs[x].state == RUNNABLE))
      && IsWaking(s.procs[p].pc) && IsWaking(t.procs[p].pc)
  {
  }

  lemma WakePassed(s: Sys, p: nat, op: WakeOp)
    requires p < |s.procs| && MayWake(s, p, op) && PcInRange(|s.procs|, s.procs[p].pc)
    ensures var t, n, pc := DoWake(s, p, op), |s.procs|, s.procs[p].pc;
      && |t.procs| == n
      && (Childless(n, t.procs[p]) == Childless(n, s.procs[p])
          || (op == ReparentNext && Childless(n, t.procs[p]) == Childless(n, s.procs[p]) + 1 == pc.i + 1))
  {
  }

  lemma WakeChildren(s: Sys, p: nat, op: WakeOp, z: nat, q: nat)
    requires p < |s.procs| && z < |s.procs| && q < |s.procs| && MayWake(s, p, op) && OnCpu(s.procs[p].pc)
    requires Settled(s, p, WakeOther(s, p, op)) && StateAt(s, q) && InitAt(s)
    requires ChildrenAt(s, z, q) && ChildrenAt(s, z, p)
    ensures var t := DoWake(s, p, op); |t.procs| == |s.procs| && ChildrenAt(t, z, q)
  {
    hide DoWake, LockAt, WaitLockAt, MayWake, MakerAt, ReaperAt;
    WakeParents(s, p, op, z);
    WakeParents(s, p, op, q);
    WakePassed(s, p, op);
  }

  lemma WakeBorn(s: Sys, p: nat, op: WakeOp, z: nat)
    requires p < |s.procs| && z < |s.procs| && MayWake(s, p, op) && OnCpu(s.procs[p].pc)
    requires Settled(s, p, WakeOther(s, p, op)) && StateAt(s, z) && MakerAt(s, z) && InitAt(s)
    requires BornAt(s, z) && RootAt(s, z)
    ensures var t := DoWake(s, p, op); |t.procs| == |s.procs| && BornAt(t, z) && RootAt(t, z) && InitAt(t)
  {
    hide DoWake, LockAt, WaitLockAt, StateAt, MayWake;
    WakeParents(s, p, op, z);
    WakeParents(s, p, op, s.init);
    if 0 <= Made(s.procs[z].pc) < |s.procs| {
      WakeParents(s, p, op, Made(s.procs[z].pc));
    }
  }

  lemma WaitChildren(s: Sys, p: nat, op: WaitOp, z: nat, q: nat)
    requires p < |s.procs| && z < |s.procs| && q < |s.procs| && MayWait(s, p, op) && OnCpu(s.procs[p].pc)
    requires Settled(s, p, WaitOther(s, p, op)) && StateAt(s, q) && InitAt(s)
    requires ChildrenAt(s, z, q) && ChildrenAt(s, z, p) && BornAt(s, p)
    ensures var t := DoWait(s, p, op); |t.procs| == |s.procs| && ChildrenAt(t, z, q)
  {
    hide LockAt, WaitLockAt;
  }

  lemma WaitBorn(s: Sys, p: nat, op: WaitOp, z: nat)
    requires p < |s.procs| && z < |s.procs| && MayWait(s, p, op) && OnCpu(s.procs[p].pc)
    requires Settled(s, p, WaitOther(s, p, op)) && StateAt(s, z) && MakerAt(s, z) && MakersDiffer(s, z, p) && InitAt(s)
    requires BornAt(s, z) && BornAt(s, p) && RootAt(s, z)
    ensures var t := DoWait(s, p, op); |t.procs| == |s.procs| && BornAt(t, z) && RootAt(t, z) && InitAt(t)
  {
    hide BornAt, RootAt, InitAt, DoWait, MayWait, Settled, StateAt, MakerAt, MakersDiffer;
    WaitRoot(s, p, op, z);
    WaitMade(s, p, op, z);
  }

  lemma WaitMade(s: Sys, p: nat, op: WaitOp, z: nat)
    requires p < |s.procs| && z < |s.procs| && MayWait(s, p, op) && OnCpu(s.procs[p].pc)
    requires Settled(s, p, WaitOther(s, p, op)) && MakerAt(s, z) && BornAt(s, z)
    ensures var t := DoWait(s, p, op); |t.procs| == |s.procs| && BornAt(t, z)
  {
    hide LockAt, WaitLockAt, InitStays, ShapeAt;
  }

  lemma WaitRoot(s: Sys, p: nat, op: WaitOp, z: nat)
    requires p < |s.procs| && z < |s.procs| && MayWait(s, p, op) && OnCpu(s.procs[p].pc)
    requires Settled(s, p, WaitOther(s, p, op)) && InitAt(s) && RootAt(s, z)
    ensures var t := DoWait(s, p, op); |t.procs| == |s.procs| && RootAt(t, z) && InitAt(t)
  {
    hide LockAt, WaitLockAt, MakerAt, RootAt;
    WaitRootAt(s, p, op, z);
  }

  lemma WaitRootAt(s: Sys, p: nat, op: WaitOp, z: nat)
    requires p < |s.procs| && z < |s.procs| && MayWait(s, p, op) && StateAt(s, p)
    requires RootAt(s, z)
    ensures var t := DoWait(s, p, op); |t.procs| == |s.procs| && RootAt(t, z)
  {
  }

  lemma SleepChildren(s: Sys, p: nat, op: SleepOp, z: nat, q: nat)
    requires p < |s.procs| && z < |s.procs| && q < |s.procs| && MaySleep(s, p, op) && OnCpu(s.procs[p].pc)
    requires Settled(s, p, p) && StateAt(s, q) && InitAt(s)
    requires ChildrenAt(s, z, q) && ChildrenAt(s, z, p) && BornAt(s, p)
    ensures var t := DoSleep(s, p, op); |t.procs| == |s.procs| && ChildrenAt(t, z, q)
  {
    hide LockAt, WaitLockAt;
  }

  lemma SleepBorn(s: Sys, p: nat, op: SleepOp, z: nat)
    requires p < |s.procs| && z < |s.procs| && MaySleep(s, p, op) && OnCpu(s.procs[p].pc)
    requires Settled(s, p, p) && StateAt(s, z) && MakerAt(s, z) && MakersDiffer(s, z, p) && InitAt(s)
    requires BornAt(s, z) && BornAt(s, p) && RootAt(s, z)
    ensures var t := DoSleep(s, p, op); |t.procs| == |s.procs| && BornAt(t, z) && RootAt(t, z) && InitAt(t)
  {
    hide LockAt, WaitLockAt;
  }

  lemma OtherChildren(s: Sys, p: nat, op: OtherOp, z: nat, q: nat)
    requires p < |s.procs| && z < |s.procs| && q < |s.procs| && MayDo(s, p, op) && OnCpu(s.procs[p].pc)
    requires Settled(s, p, DoOther(s, p, op)) && StateAt(s, q) && InitAt(s)
    requires ChildrenAt(s, z, q) && ChildrenAt(s, z, p) && BornAt(s, p)
    ensures var t := Do(s, p, op); |t.procs| == |s.procs| && ChildrenAt(t, z, q)
  {
    hide LockAt, WaitLockAt;
  }

  lemma OtherBorn(s: Sys, p: nat, op: OtherOp, z: nat)
    requires p < |s.procs| && z < |s.procs| && MayDo(s, p, op) && OnCpu(s.procs[p].pc)
    requires Settled(s, p, DoOther(s, p, op)) && StateAt(s, z) && MakerAt(s, z) && MakersDiffer(s, z, p) && InitAt(s)
    requires BornAt(s, z) && BornAt(s, p) && RootAt(s, z)
    ensures var t := Do(s, p, op); |t.procs| == |s.procs| && BornAt(t, z) && RootAt(t, z) && InitAt(t)
  {
    hide LockAt, WaitLockAt;
  }

  lemma SchedChildren(s: Sys, c: nat, op: SchedOp, z: nat, q: nat)
    requires MaySched(s, c, op) && z < |s.procs| && q < |s.procs|
    requires StateAt(s, Handed(s, c, op)) && StateAt(s, q) && ChildrenAt(s, z, q)
    ensures var t := DoSched(s, c, op); |t.procs| == |s.procs| && ChildrenAt(t, z, q)
  {
  }

  lemma SchedBorn(s: Sys, c: nat, op: SchedOp, z: nat)
    requires MaySched(s, c, op) && z < |s.procs| && StateAt(s, Handed(s, c, op)) && StateAt(s, z) && InitAt(s)
    requires BornAt(s, z)
    ensures var t := DoSched(s, c, op); |t.procs| == |s.procs| && BornAt(t, z) && InitAt(t)
  {
  }

  lemma SchedRoot(s: Sys, c: nat, op: SchedOp, z: nat)
    requires MaySched(s, c, op) && z < |s.procs| && StateAt(s, Handed(s, c, op)) && StateAt(s, z)
    requires LockAt(s, Handed(s, c, op), Handed(s, c, op)) && RootAt(s, z)
    ensures var t := DoSched(s, c, op); |t.procs| == |s.procs| && RootAt(t, z)
  {
  }

  lemma ForkKeepsKin(s: Sys, p: nat, op: ForkOp)
    requires Inv(s) && Kin(s) && p < |s.procs| && OnCpu(s.procs[p].pc) && MayFork(s, p, op)
    ensures Kin(DoFork(s, p, op))
  {
    hide DoFork, MayFork, Cpus, Settled, InitStays, InitAt, ShapeAt, StateAt, LockAt, WaitLockAt, MakerAt, MakersDiffer,
         ReaperAt, ScannedAt, ChildAt, WokenAt, ChildrenAt, BornAt, RootAt;
    var t := DoFork(s, p, op);
    IsSettled(s, p, ForkOther(s, p, op));
    assert OneAt(s, p) && PairAt(s, p, p) && BornAt(s, p) && RootAt(s, p);
    ForkBorn(s, p, op, p);
    forall z | 0 <= z < |s.procs| ensures BornAt(t, z) && RootAt(t, z) {
      assert OneAt(s, z) && PairAt(s, z, p) && BornAt(s, z) && RootAt(s, z);
      ForkBorn(s, p, op, z);
    }
    forall z, q | 0 <= z < |s.procs| && 0 <= q < |s.procs| ensures ChildrenAt(t, z, q) {
      assert OneAt(s, q) && ChildrenAt(s, z, q) && ChildrenAt(s, z, p);
      ForkChildren(s, p, op, z, q);
    }
  }

  lemma ExitKeepsKin(s: Sys, p: nat, op: ExitOp)
    requires Inv(s) && Kin(s) && p < |s.procs| && OnCpu(s.procs[p].pc) && MayExit(s, p, op)
    ensures Kin(DoExit(s, p, op))
  {
    hide DoExit, MayExit, Cpus, Settled, InitStays, InitAt, ShapeAt, StateAt, LockAt, WaitLockAt, MakerAt, MakersDiffer,
         ReaperAt, ScannedAt, ChildAt, WokenAt, ChildrenAt, BornAt, RootAt;
    var t := DoExit(s, p, op);
    IsSettled(s, p, p);
    assert OneAt(s, p) && PairAt(s, p, p) && BornAt(s, p) && RootAt(s, p);
    ExitBorn(s, p, op, p);
    forall z | 0 <= z < |s.procs| ensures BornAt(t, z) && RootAt(t, z) {
      assert OneAt(s, z) && PairAt(s, z, p) && BornAt(s, z) && RootAt(s, z);
      ExitBorn(s, p, op, z);
    }
    forall z, q | 0 <= z < |s.procs| && 0 <= q < |s.procs| ensures ChildrenAt(t, z, q) {
      assert OneAt(s, q) && ChildrenAt(s, z, q) && ChildrenAt(s, z, p);
      ExitChildren(s, p, op, z, q);
    }
  }

  lemma WakeKeepsKin(s: Sys, p: nat, op: WakeOp)
    requires Inv(s) && Kin(s) && p < |s.procs| && OnCpu(s.procs[p].pc) && MayWake(s, p, op)
    ensures Kin(DoWake(s, p, op))
  {
    hide DoWake, MayWake, Cpus, Settled, InitStays, InitAt, ShapeAt, StateAt, LockAt, WaitLockAt, MakerAt, MakersDiffer,
         ReaperAt, ScannedAt, ChildAt, WokenAt, ChildrenAt, BornAt, RootAt;
    var t := DoWake(s, p, op);
    IsSettled(s, p, WakeOther(s, p, op));
    assert OneAt(s, p) && PairAt(s, p, p) && BornAt(s, p) && RootAt(s, p);
    WakeBorn(s, p, op, p);
    forall z | 0 <= z < |s.procs| ensures BornAt(t, z) && RootAt(t, z) {
      assert OneAt(s, z) && PairAt(s, z, p) && BornAt(s, z) && RootAt(s, z);
      WakeBorn(s, p, op, z);
    }
    forall z, q | 0 <= z < |s.procs| && 0 <= q < |s.procs| ensures ChildrenAt(t, z, q) {
      assert OneAt(s, q) && ChildrenAt(s, z, q) && ChildrenAt(s, z, p);
      WakeChildren(s, p, op, z, q);
    }
  }

  lemma WaitKeepsKin(s: Sys, p: nat, op: WaitOp)
    requires Inv(s) && Kin(s) && p < |s.procs| && OnCpu(s.procs[p].pc) && MayWait(s, p, op)
    ensures Kin(DoWait(s, p, op))
  {
    hide DoWait, MayWait, Cpus, Settled, InitStays, InitAt, ShapeAt, StateAt, LockAt, WaitLockAt, MakerAt, MakersDiffer,
         ReaperAt, ScannedAt, ChildAt, WokenAt, ChildrenAt, BornAt, RootAt;
    var t := DoWait(s, p, op);
    IsSettled(s, p, WaitOther(s, p, op));
    assert OneAt(s, p) && PairAt(s, p, p) && BornAt(s, p) && RootAt(s, p);
    WaitBorn(s, p, op, p);
    forall z | 0 <= z < |s.procs| ensures BornAt(t, z) && RootAt(t, z) {
      assert OneAt(s, z) && PairAt(s, z, p) && BornAt(s, z) && RootAt(s, z);
      WaitBorn(s, p, op, z);
    }
    forall z, q | 0 <= z < |s.procs| && 0 <= q < |s.procs| ensures ChildrenAt(t, z, q) {
      assert OneAt(s, q) && ChildrenAt(s, z, q) && ChildrenAt(s, z, p);
      WaitChildren(s, p, op, z, q);
    }
  }

  lemma SleepKeepsKin(s: Sys, p: nat, op: SleepOp)
    requires Inv(s) && Kin(s) && p < |s.procs| && OnCpu(s.procs[p].pc) && MaySleep(s, p, op)
    ensures Kin(DoSleep(s, p, op))
  {
    hide DoSleep, MaySleep, Cpus, Settled, InitStays, InitAt, ShapeAt, StateAt, LockAt, WaitLockAt, MakerAt,
         MakersDiffer, ReaperAt, ScannedAt, ChildAt, WokenAt, ChildrenAt, BornAt, RootAt;
    var t := DoSleep(s, p, op);
    IsSettled(s, p, p);
    assert OneAt(s, p) && PairAt(s, p, p) && BornAt(s, p) && RootAt(s, p);
    SleepBorn(s, p, op, p);
    forall z | 0 <= z < |s.procs| ensures BornAt(t, z) && RootAt(t, z) {
      assert OneAt(s, z) && PairAt(s, z, p) && BornAt(s, z) && RootAt(s, z);
      SleepBorn(s, p, op, z);
    }
    forall z, q | 0 <= z < |s.procs| && 0 <= q < |s.procs| ensures ChildrenAt(t, z, q) {
      assert OneAt(s, q) && ChildrenAt(s, z, q) && ChildrenAt(s, z, p);
      SleepChildren(s, p, op, z, q);
    }
  }

  lemma OtherKeepsKin(s: Sys, p: nat, op: OtherOp)
    requires Inv(s) && Kin(s) && p < |s.procs| && OnCpu(s.procs[p].pc) && MayDo(s, p, op)
    ensures Kin(Do(s, p, op))
  {
    hide Do, MayDo, Cpus, Settled, InitStays, InitAt, ShapeAt, StateAt, LockAt, WaitLockAt, MakerAt, MakersDiffer,
         ReaperAt, ScannedAt, ChildAt, WokenAt, ChildrenAt, BornAt, RootAt;
    var t := Do(s, p, op);
    IsSettled(s, p, DoOther(s, p, op));
    assert OneAt(s, p) && PairAt(s, p, p) && BornAt(s, p) && RootAt(s, p);
    OtherBorn(s, p, op, p);
    forall z | 0 <= z < |s.procs| ensures BornAt(t, z) && RootAt(t, z) {
      assert OneAt(s, z) && PairAt(s, z, p) && BornAt(s, z) && RootAt(s, z);
      OtherBorn(s, p, op, z);
    }
    forall z, q | 0 <= z < |s.procs| && 0 <= q < |s.procs| ensures ChildrenAt(t, z, q) {
      assert OneAt(s, q) && ChildrenAt(s, z, q) && ChildrenAt(s, z, p);
      OtherChildren(s, p, op, z, q);
    }
  }

  lemma SchedKeepsKin(s: Sys, c: nat, op: SchedOp)
    requires Inv(s) && Kin(s) && MaySched(s, c, op)
    ensures Kin(DoSched(s, c, op))
  {
    hide DoSched, MaySched, InitStays, InitAt, ShapeAt, StateAt, LockAt, WaitLockAt, MakerAt, MakersDiffer,
         ReaperAt, ScannedAt, ChildAt, WokenAt, ChildrenAt, BornAt, RootAt;
    var t := DoSched(s, c, op);
    HandedIn(s, c, op);
    assert OneAt(s, Handed(s, c, op)) && BornAt(s, Handed(s, c, op));
    assert PairAt(s, Handed(s, c, op), Handed(s, c, op));
    SchedBorn(s, c, op, Handed(s, c, op));
    forall z | 0 <= z < |s.procs| ensures BornAt(t, z) && RootAt(t, z) {
      assert OneAt(s, z) && BornAt(s, z) && RootAt(s, z);
      SchedBorn(s, c, op, z);
      SchedRoot(s, c, op, z);
    }
    forall z, q | 0 <= z < |s.procs| && 0 <= q < |s.procs| ensures ChildrenAt(t, z, q) {
      assert OneAt(s, q) && ChildrenAt(s, z, q);
      SchedChildren(s, c, op, z, q);
    }
  }

  lemma HandedIn(s: Sys, c: nat, op: SchedOp)
    requires MaySched(s, c, op)
    ensures Handed(s, c, op) < |s.procs|
  {
  }

  // ---- the children that wait has counted ----

  /** Process z, among the entries that wait of process x has looked at, is its child. */
  predicate IsKid(s: Sys, x: nat, z: nat) {
    x < |s.procs| && z < |s.procs| && s.procs[x].pc.Scan? && z < s.procs[x].pc.i && s.procs[z].parent == x
  }

  ghost predicate KidsAt(s: Sys, x: nat)
    requires x < |s.procs|
  {
    s.procs[x].pc.Scan? && s.procs[x].pc.kids ==> exists z :: IsKid(s, x, z)
  }

  ghost predicate Kids(s: Sys) {
    forall x {:trigger KidsAt(s, x)} | 0 <= x < |s.procs| :: KidsAt(s, x)
  }

  /** Where the child counted so far is, or the one counted last. */
  function LastSeen(s: Sys, x: nat): nat
    requires x < |s.procs|
  {
    if s.procs[x].pc.Scan? then s.procs[x].pc.i else 0
  }

  predicate Counted(s: Sys, x: nat, z: nat)
    requires x < |s.procs|
  {
    s.procs[x].pc.Scan? && s.procs[x].pc.kids ==> IsKid(s, x, z)
  }

  lemma ForkKeepsKid(s: Sys, p: nat, op: ForkOp, x: nat, z: nat)
    requires p < |s.procs| && x < |s.procs| && MayFork(s, p, op) && Counted(s, x, z) && StateAt(s, p)
    requires WaitLockAt(s, x) && WaitLockAt(s, p) && StateAt(s, x) && MakerAt(s, p) && BornAt(s, p)
    ensures var t := DoFork(s, p, op);
      |t.procs| == |s.procs| && (Counted(t, x, z) || Counted(t, x, LastSeen(s, x)))
  {
  }

  lemma ExitKeepsKid(s: Sys, p: nat, op: ExitOp, x: nat, z: nat)
    requires p < |s.procs| && x < |s.procs| && MayExit(s, p, op) && Counted(s, x, z) && StateAt(s, p)
    requires WaitLockAt(s, x) && WaitLockAt(s, p) && StateAt(s, x) && MakerAt(s, p) && BornAt(s, p)
    ensures var t := DoExit(s, p, op);
      |t.procs| == |s.procs| && (Counted(t, x, z) || Counted(t, x, LastSeen(s, x)))
  {
  }

  lemma WakeKeepsKid(s: Sys, p: nat, op: WakeOp, x: nat, z: nat)
    requires p < |s.procs| && x < |s.procs| && MayWake(s, p, op) && Counted(s, x, z) && StateAt(s, p)
    requires WaitLockAt(s, x) && WaitLockAt(s, p) && StateAt(s, x) && MakerAt(s, p) && BornAt(s, p)
    ensures var t := DoWake(s, p, op);
      |t.procs| == |s.procs| && (Counted(t, x, z) || Counted(t, x, LastSeen(s, x)))
  {
  }

  lemma WaitKeepsKid(s: Sys, p: nat, op: WaitOp, x: nat, z: nat)
    requires p < |s.procs| && x < |s.procs| && MayWait(s, p, op) && Counted(s, x, z) && StateAt(s, p)
    requires WaitLockAt(s, x) && WaitLockAt(s, p) && StateAt(s, x) && MakerAt(s, p) && BornAt(s, p)
    ensures var t := DoWait(s, p, op);
      |t.procs| == |s.procs| && (Counted(t, x, z) || Counted(t, x, LastSeen(s, x)))
  {
  }

  lemma SleepKeepsKid(s: Sys, p: nat, op: SleepOp, x: nat, z: nat)
    requires p < |s.procs| && x < |s.procs| && MaySleep(s, p, op) && Counted(s, x, z) && StateAt(s, p)
    requires WaitLockAt(s, x) && WaitLockAt(s, p) && StateAt(s, x) && MakerAt(s, p) && BornAt(s, p)
    ensures var t := DoSleep(s, p, op);
      |t.procs| == |s.procs| && (Counted(t, x, z) || Counted(t, x, LastSeen(s, x)))
  {
  }

  lemma OtherKeepsKid(s: Sys, p: nat, op: OtherOp, x: nat, z: nat)
    requires p < |s.procs| && x < |s.procs| && MayDo(s, p, op) && Counted(s, x, z) && StateAt(s, p)
    requires WaitLockAt(s, x) && WaitLockAt(s, p) && StateAt(s, x) && MakerAt(s, p) && BornAt(s, p)
    ensures var t := Do(s, p, op);
      |t.procs| == |s.procs| && (Counted(t, x, z) || Counted(t, x, LastSeen(s, x)))
  {
  }

  lemma SchedKeepsKid(s: Sys, c: nat, op: SchedOp, x: nat, z: nat)
    requires MaySched(s, c, op) && x < |s.procs| && Counted(s, x, z) && StateAt(s, x)
    ensures |DoSched(s, c, op).procs| == |s.procs| && Counted(DoSched(s, c, op), x, z)
  {
  }

  lemma ForkKeepsKids(s: Sys, p: nat, op: ForkOp)
    requires Inv(s) && Kin(s) && Kids(s) && p < |s.procs| && MayFork(s, p, op)
    ensures Kids(DoFork(s, p, op))
  {
    hide DoFork, MayFork, Cpus, InitStays, InitAt, ShapeAt, StateAt, LockAt, WaitLockAt, MakerAt, MakersDiffer,
         ReaperAt, ScannedAt, ChildAt, WokenAt, ChildrenAt, BornAt, RootAt, IsKid;
    var t := DoFork(s, p, op);
    assert OneAt(s, p) && BornAt(s, p) && KidsAt(s, p);
    var any := WitnessOf(s, p);
    ForkKeepsKid(s, p, op, p, any);
    forall x | 0 <= x < |s.procs| ensures KidsAt(t, x) {
      assert OneAt(s, x) && KidsAt(s, x);
      var z := WitnessOf(s, x);
      ForkKeepsKid(s, p, op, x, z);
    }
  }

  lemma ExitKeepsKids(s: Sys, p: nat, op: ExitOp)
    requires Inv(s) && Kin(s) && Kids(s) && p < |s.procs| && MayExit(s, p, op)
    ensures Kids(DoExit(s, p, op))
  {
    hide DoExit, MayExit, Cpus, InitStays, InitAt, ShapeAt, StateAt, LockAt, WaitLockAt, MakerAt, MakersDiffer,
         ReaperAt, ScannedAt, ChildAt, WokenAt, ChildrenAt, BornAt, RootAt, IsKid;
    var t := DoExit(s, p, op);
    assert OneAt(s, p) && BornAt(s, p) && KidsAt(s, p);
    var any := WitnessOf(s, p);
    ExitKeepsKid(s, p, op, p, any);
    forall x | 0 <= x < |s.procs| ensures KidsAt(t, x) {
      assert OneAt(s, x) && KidsAt(s, x);
      var z := WitnessOf(s, x);
      ExitKeepsKid(s, p, op, x, z);
    }
  }

  lemma WakeKeepsKids(s: Sys, p: nat, op: WakeOp)
    requires Inv(s) && Kin(s) && Kids(s) && p < |s.procs| && MayWake(s, p, op)
    ensures Kids(DoWake(s, p, op))
  {
    hide DoWake, MayWake, Cpus, InitStays, InitAt, ShapeAt, StateAt, LockAt, WaitLockAt, MakerAt, MakersDiffer,
         ReaperAt, ScannedAt, ChildAt, WokenAt, ChildrenAt, BornAt, RootAt, IsKid;
    var t := DoWake(s, p, op);
    assert OneAt(s, p) && BornAt(s, p) && KidsAt(s, p);
    var any := WitnessOf(s, p);
    WakeKeepsKid(s, p, op, p, any);
    forall x | 0 <= x < |s.procs| ensures KidsAt(t, x) {
      assert OneAt(s, x) && KidsAt(s, x);
      var z := WitnessOf(s, x);
      WakeKeepsKid(s, p, op, x, z);
    }
  }

  lemma WaitKeepsKids(s: Sys, p: nat, op: WaitOp)
    requires Inv(s) && Kin(s) && Kids(s) && p < |s.procs| && MayWait(s, p, op)
    ensures Kids(DoWait(s, p, op))
  {
    hide DoWait, MayWait, Cpus, InitStays, InitAt, ShapeAt, StateAt, LockAt, WaitLockAt, MakerAt, MakersDiffer,
         ReaperAt, ScannedAt, ChildAt, WokenAt, ChildrenAt, BornAt, RootAt, IsKid;
    var t := DoWait(s, p, op);
    assert OneAt(s, p) && BornAt(s, p) && KidsAt(s, p);
    var any := WitnessOf(s, p);
    WaitKeepsKid(s, p, op, p, any);
    forall x | 0 <= x < |s.procs| ensures KidsAt(t, x) {
      assert OneAt(s, x) && KidsAt(s, x);
      var z := WitnessOf(s, x);
      WaitKeepsKid(s, p, op, x, z);
    }
  }

  lemma SleepKeepsKids(s: Sys, p: nat, op: SleepOp)
    requires Inv(s) && Kin(s) && Kids(s) && p < |s.procs| && MaySleep(s, p, op)
    ensures Kids(DoSleep(s, p, op))
  {
    hide DoSleep, MaySleep, Cpus, InitStays, InitAt, ShapeAt, StateAt, LockAt, WaitLockAt, MakerAt, MakersDiffer,
         ReaperAt, ScannedAt, ChildAt, WokenAt, ChildrenAt, BornAt, RootAt, IsKid;
    var t := DoSleep(s, p, op);
    assert OneAt(s, p) && BornAt(s, p) && KidsAt(s, p);
    var any := WitnessOf(s, p);
    SleepKeepsKid(s, p, op, p, any);
    forall x | 0 <= x < |s.procs| ensures KidsAt(t, x) {
      assert OneAt(s, x) && KidsAt(s, x);
      var z := WitnessOf(s, x);
      SleepKeepsKid(s, p, op, x, z);
    }
  }

  lemma OtherKeepsKids(s: Sys, p: nat, op: OtherOp)
    requires Inv(s) && Kin(s) && Kids(s) && p < |s.procs| && MayDo(s, p, op)
    ensures Kids(Do(s, p, op))
  {
    hide Do, MayDo, Cpus, InitStays, InitAt, ShapeAt, StateAt, LockAt, WaitLockAt, MakerAt, MakersDiffer,
         ReaperAt, ScannedAt, ChildAt, WokenAt, ChildrenAt, BornAt, RootAt, IsKid;
    var t := Do(s, p, op);
    assert OneAt(s, p) && BornAt(s, p) && KidsAt(s, p);
    var any := WitnessOf(s, p);
    OtherKeepsKid(s, p, op, p, any);
    forall x | 0 <= x < |s.procs| ensures KidsAt(t, x) {
      assert OneAt(s, x) && KidsAt(s, x);
      var z := WitnessOf(s, x);
      OtherKeepsKid(s, p, op, x, z);
    }
  }

  lemma SchedKeepsKids(s: Sys, c: nat, op: SchedOp)
    requires Inv(s) && Kids(s) && MaySched(s, c, op)
    ensures Kids(DoSched(s, c, op))
  {
    hide DoSched, MaySched, Cpus, InitStays, ShapeAt, StateAt, LockAt, WaitLockAt, MakerAt, MakersDiffer,
         ReaperAt, ScannedAt, ChildAt, WokenAt, IsKid;
    var t := DoSched(s, c, op);
    HandedIn(s, c, op);
    var any := WitnessOf(s, Handed(s, c, op));
    assert OneAt(s, Handed(s, c, op));
    SchedKeepsKid(s, c, op, Handed(s, c, op), any);
    forall x | 0 <= x < |s.procs| ensures KidsAt(t, x) {
      assert OneAt(s, x) && KidsAt(s, x);
      var z := WitnessOf(s, x);
      SchedKeepsKid(s, c, op, x, z);
    }
  }

  lemma WitnessOf(s: Sys, x: nat) returns (z: nat)
    requires x < |s.procs| && Kids(s)
    ensures Counted(s, x, z)
  {
    assert KidsAt(s, x);
    z := 0;
    if s.procs[x].pc.Scan? && s.procs[x].pc.kids {
      z :| IsKid(s, x, z);
    }
  }

  lemma StepKeepsKin(s: Sys, a: Step)
    requires Inv(s) && Kin(s) && Kids(s) && Enabled(s, a)
    ensures Kin(Apply(s, a)) && Kids(Apply(s, a))
  {
    hide OneAt, PairAt, InitStays, Kin, Kids,
         DoFork, DoExit, DoWake, DoWait, DoSleep, Do, DoSched, MayFork, MayExit, MayWake, MayWait, MaySleep, MayDo;
    assert a.c < |s.cpus| ==> CpuAt(s, a.c);
    match a
    case InSched(c, op) => SchedKeepsKin(s, c, op); SchedKeepsKids(s, c, op);
    case InFork(c, op) => ForkKeepsKin(s, s.cpus[c].p, op); ForkKeepsKids(s, s.cpus[c].p, op);
    case InExit(c, op) => ExitKeepsKin(s, s.cpus[c].p, op); ExitKeepsKids(s, s.cpus[c].p, op);
    case InWakeup(c, op) => WakeKeepsKin(s, s.cpus[c].p, op); WakeKeepsKids(s, s.cpus[c].p, op);
    case InWait(c, op) => WaitKeepsKin(s, s.cpus[c].p, op); WaitKeepsKids(s, s.cpus[c].p, op);
    case InSleep(c, op) => SleepKeepsKin(s, s.cpus[c].p, op); SleepKeepsKids(s, s.cpus[c].p, op);
    case Other(c, op) => OtherKeepsKin(s, s.cpus[c].p, op); OtherKeepsKids(s, s.cpus[c].p, op);
  }

  lemma {:induction false} RunKeepsKin(s: Sys, run: seq<Step>, t: Sys)
    requires Inv(s) && Pids(s) && Kin(s) && Kids(s) && Leads(s, run, t)
    ensures Inv(t) && Kin(t) && Kids(t)
    decreases |run|
  {
    hide Inv, Pids, Kin, Kids, Apply, Enabled;
    if run != [] {
      StepKeepsInv(s, run[0]);
      StepKeepsKin(s, run[0]);
      RunKeepsKin(Apply(s, run[0]), run[1..], t);
    }
  }

  /** Nobody is ever an orphan: the parent of a process that can run, or has ended, is init or some other
      process that has not exited and has not been freed. */
  lemma NoOrphans(s: Sys, run: seq<Step>, t: Sys, z: nat)
    requires Boot(s) && Leads(s, run, t) && z < |t.procs| && z != t.init
    requires t.procs[z].state != UNUSED && t.procs[z].state != USED
    ensures var q := t.procs[z].parent;
            0 <= q < |t.procs| && t.procs[q].state != UNUSED && t.procs[q].state != ZOMBIE
  {
    BootInv(s);
    RunKeepsKin(s, run, t);
    var q := t.procs[z].parent;
    assert OneAt(t, z) && RootAt(t, z);
    assert OneAt(t, q) && ChildrenAt(t, z, q);
  }

  /** fork's child is its caller's when it becomes ready to run. */
  lemma ChildIsCallers(s: Sys, run: seq<Step>, t: Sys, c: nat)
    requires Boot(s) && Leads(s, run, t) && Enabled(t, InFork(c, ForkRun))
    ensures var p, u := t.cpus[c].p, Apply(t, InFork(c, ForkRun));
            var np := t.procs[p].pc.np;
            u.procs[np].parent == p && u.procs[np].state == RUNNABLE && t.procs[np].state == USED
  {
    BootInv(s);
    RunKeepsKin(s, run, t);
    var p := t.cpus[c].p;
    assert OneAt(t, p) && BornAt(t, p);
  }

  predicate HasChild(s: Sys, p: nat) {
    exists z :: 0 <= z < |s.procs| && s.procs[z].parent == p
  }

  /** At the end of its loop wait gives up if and only if it has no child or has been killed, and otherwise
      goes to sleep. */
  lemma WaitDecides(s: Sys, run: seq<Step>, t: Sys, p: nat)
    requires Boot(s) && Leads(s, run, t) && p < |t.procs| && Free(t, p)
    requires t.procs[p].pc.Scan? && t.procs[p].pc.i == |t.procs|
    ensures MayWait(t, p, WaitGiveUp) <==> t.procs[p].killed || !HasChild(t, p)
    ensures MayWait(t, p, WaitStay) <==> !t.procs[p].killed && HasChild(t, p)
  {
    BootInv(s);
    RunKeepsKin(s, run, t);
    var z := WitnessOf(t, p);
    forall y | 0 <= y < |t.procs| && t.procs[y].parent == p ensures t.procs[p].pc.kids {
      assert PairAt(t, p, y);
    }
  }

  /** A freed entry is left with no trace of its process' pid. */
  lemma UnusedHasNoPid(s: Sys, run: seq<Step>, t: Sys, p: nat)
    requires Boot(s) && Leads(s, run, t) && p < |t.procs| && t.procs[p].state == UNUSED
    ensures t.procs[p].pid == 0
  {
    BootInv(s);
    RunKeepsKin(s, run, t);
    assert RootAt(t, p);
  }

  /** A thread that goes on has no channel left on which a wakeup could find it. */
  lemma NoStaleChannel(s: Sys, run: seq<Step>, t: Sys, p: nat)
    requires Boot(s) && Leads(s, run, t) && p < |t.procs| && !Waiting(t.procs[p].pc)
    ensures t.procs[p].chan == NoChan
  {
    BootInv(s);
    RunKeepsKin(s, run, t);
    assert RootAt(t, p);
  }

  /** A wakeup, by a thread or an interrupt, makes whoever sleeps on its channel ready to run. */
  lemma WakeupWakes(s: Sys, c: nat, j: nat, a: Step)
    requires Enabled(s, a) && (a == Other(c, WakeElsewhere(j)) || a == InSched(c, WakeIdle(j)))
    requires s.procs[j].state == SLEEPING
    ensures Apply(s, a).procs[j] == s.procs[j].(state := RUNNABLE)
  {
  }

  /** kill leaves its victim awake, wherever it slept. */
  lemma KillWakes(s: Sys, c: nat, j: nat)
    requires Enabled(s, Other(c, Kill(j)))
    ensures var r, u := s.procs[j], Apply(s, Other(c, Kill(j))).procs[j];
            u.killed && u.state == (if r.state == SLEEPING then RUNNABLE else r.state) && u.pid == r.pid
  {
  }
}
