// Runs of the process table: what holds in every state that any interleaving of any number of CPUs can
// reach (kernel/proc.c).

module ProcPids {
  import opened ProcTable
  import opened ProcInv

  predicate Alive(r: Proc) {
    r.state != UNUSED
  }

  /** A live pid is its process' alone, and has exited iff the process is a zombie, with its status. */
  predicate PidAt(s: Sys, p: nat)
    requires p < |s.procs|
  {
    var r := s.procs[p];
    Alive(r) ==>
      && r.pid < s.nextpid
      && (r.state == ZOMBIE <==> r.pid in s.exits) && (r.state == ZOMBIE ==> s.exits[r.pid] == r.xstate)
  }

  predicate PidsDiffer(s: Sys, p: nat, q: nat)
    requires p < |s.procs| && q < |s.procs|
  {
    Alive(s.procs[p]) && Alive(s.procs[q]) && s.procs[p].pid == s.procs[q].pid ==> p == q
  }

  /** What wait has returned: the pid and status of an exit, of a process that is no more. */
  predicate ReapedAt(s: Sys, k: nat)
    requires k < |s.reaped|
  {
    s.reaped[k].0 in s.exits && s.exits[s.reaped[k].0] == s.reaped[k].1
  }

  predicate ReapedGone(s: Sys, k: nat, p: nat)
    requires k < |s.reaped| && p < |s.procs|
  {
    Alive(s.procs[p]) ==> s.procs[p].pid != s.reaped[k].0
  }

  predicate ReapedOnce(s: Sys, j: nat, k: nat)
    requires j < |s.reaped| && k < |s.reaped|
  {
    s.reaped[j].0 == s.reaped[k].0 ==> j == k
  }

  ghost predicate Pids(s: Sys) {
    && (forall p {:trigger PidAt(s, p)} | 0 <= p < |s.procs| :: PidAt(s, p))
    && (forall p, q {:trigger PidsDiffer(s, p, q)} | 0 <= p < |s.procs| && 0 <= q < |s.procs| :: PidsDiffer(s, p, q))
    && (forall x | x in s.exits :: x < s.nextpid)
    && (forall k {:trigger ReapedAt(s, k)} | 0 <= k < |s.reaped| :: ReapedAt(s, k))
    && (forall k, p {:trigger ReapedGone(s, k, p)} | 0 <= k < |s.reaped| && 0 <= p < |s.procs| :: ReapedGone(s, k, p))
    && (forall j, k {:trigger ReapedOnce(s, j, k)} | 0 <= j < |s.reaped| && 0 <= k < |s.reaped| :: ReapedOnce(s, j, k))
  }

  /** Nobody is born, exits or is reaped. */
  predicate SameLife(r: Proc, u: Proc) {
    u.pid == r.pid && u.xstate == r.xstate && (u.state == UNUSED <==> r.state == UNUSED)
    && (u.state == ZOMBIE <==> r.state == ZOMBIE)
  }

  ghost predicate SameLives(s: Sys, t: Sys) {
    && |t.procs| == |s.procs| && t.exits == s.exits && t.reaped == s.reaped && t.nextpid == s.nextpid
    && forall p {:trigger t.procs[p]} | 0 <= p < |s.procs| :: SameLife(s.procs[p], t.procs[p])
  }

  lemma SameLivesSamePids(s: Sys, t: Sys)
    requires Pids(s) && SameLives(s, t)
    ensures Pids(t)
  {
    forall p | 0 <= p < |t.procs| ensures PidAt(t, p) {
      assert PidAt(s, p);
    }
    forall p, q | 0 <= p < |t.procs| && 0 <= q < |t.procs| ensures PidsDiffer(t, p, q) {
      assert PidsDiffer(s, p, q);
    }
    forall k | 0 <= k < |t.reaped| ensures ReapedAt(t, k) {
      assert ReapedAt(s, k);
    }
    forall k, p | 0 <= k < |t.reaped| && 0 <= p < |t.procs| ensures ReapedGone(t, k, p) {
      assert ReapedGone(s, k, p);
    }
    forall j, k | 0 <= j < |t.reaped| && 0 <= k < |t.reaped| ensures ReapedOnce(t, j, k) {
      assert ReapedOnce(s, j, k);
    }
  }
}

module ProcRuns {
  import opened ProcTable
  import opened ProcInv
  import opened ProcSteps
  import opened ProcPids

  lemma ForkKeepsPids(s: Sys, p: nat, op: ForkOp)
    requires Inv(s) && Pids(s) && p < |s.procs| && MayFork(s, p, op)
    ensures Pids(DoFork(s, p, op))
  {
    var t := DoFork(s, p, op);
    assert OneAt(s, p);
    if op.ForkAlloc? || op.ForkFail? {
      BirthOrUndoing(s, p, op);
    } else {
      assert SameLives(s, t);
      SameLivesSamePids(s, t);
    }
  }

  lemma BirthOrUndoing(s: Sys, p: nat, op: ForkOp)
    requires Pids(s) && p < |s.procs| && MayFork(s, p, op) && (op.ForkAlloc? || op.ForkFail?)
    requires Made(s.procs[p].pc) != NONE ==> Made(s.procs[p].pc) != p && s.procs[p].state == RUNNING
    requires s.procs[p].pc.User? ==> s.procs[p].state == RUNNING
    ensures Pids(DoFork(s, p, op))
  {
    var t := DoFork(s, p, op);
    forall q | 0 <= q < |t.procs| ensures PidAt(t, q) {
      assert PidAt(s, q);
    }
    forall q, r | 0 <= q < |t.procs| && 0 <= r < |t.procs| ensures PidsDiffer(t, q, r) {
      assert PidsDiffer(s, q, r) && PidAt(s, q) && PidAt(s, r);
    }
    forall k | 0 <= k < |t.reaped| ensures ReapedAt(t, k) {
      assert ReapedAt(s, k);
    }
    forall k, q | 0 <= k < |t.reaped| && 0 <= q < |t.procs| ensures ReapedGone(t, k, q) {
      assert ReapedGone(s, k, q) && ReapedAt(s, k);
    }
    forall j, k | 0 <= j < |t.reaped| && 0 <= k < |t.reaped| ensures ReapedOnce(t, j, k) {
      assert ReapedOnce(s, j, k);
    }
  }

  lemma ExitKeepsPids(s: Sys, p: nat, op: ExitOp)
    requires Inv(s) && Pids(s) && p < |s.procs| && MayExit(s, p, op)
    ensures Pids(DoExit(s, p, op))
  {
    var t := DoExit(s, p, op);
    assert OneAt(s, p) && PidAt(s, p);
    if !op.ExitZombie? {
      assert SameLives(s, t);
      SameLivesSamePids(s, t);
      return;
    }
    forall q | 0 <= q < |t.procs| ensures PidAt(t, q) {
      assert PidAt(s, q) && PidsDiffer(s, q, p);
    }
    forall q, r | 0 <= q < |t.procs| && 0 <= r < |t.procs| ensures PidsDiffer(t, q, r) {
      assert PidsDiffer(s, q, r);
    }
    forall k | 0 <= k < |t.reaped| ensures ReapedAt(t, k) {
      assert ReapedAt(s, k);
    }
    forall k, q | 0 <= k < |t.reaped| && 0 <= q < |t.procs| ensures ReapedGone(t, k, q) {
      assert ReapedGone(s, k, q);
    }
    forall j, k | 0 <= j < |t.reaped| && 0 <= k < |t.reaped| ensures ReapedOnce(t, j, k) {
      assert ReapedOnce(s, j, k);
    }
  }

  lemma WaitKeepsPids(s: Sys, p: nat, op: WaitOp)
    requires Inv(s) && Pids(s) && p < |s.procs| && MayWait(s, p, op)
    ensures Pids(DoWait(s, p, op))
  {
    var t := DoWait(s, p, op);
    assert OneAt(s, p);
    if op.WaitReap? {
      ReapKeepsPids(s, p);
    } else {
      assert SameLives(s, t);
      SameLivesSamePids(s, t);
    }
  }

  lemma ReapKeepsPids(s: Sys, p: nat)
    requires Pids(s) && p < |s.procs| && MayWait(s, p, WaitReap) && s.procs[p].state == RUNNING
    requires s.procs[s.procs[p].pc.i].state == ZOMBIE
    ensures Pids(DoWait(s, p, WaitReap))
  {
    var t, z := DoWait(s, p, WaitReap), s.procs[p].pc.i;
    assert PidAt(s, z);
    forall q | 0 <= q < |t.procs| ensures PidAt(t, q) {
      assert PidAt(s, q);
    }
    forall q, r | 0 <= q < |t.procs| && 0 <= r < |t.procs| ensures PidsDiffer(t, q, r) {
      assert PidsDiffer(s, q, r);
    }
    forall k | 0 <= k < |t.reaped| ensures ReapedAt(t, k) {
      assert k < |s.reaped| ==> ReapedAt(s, k);
    }
    forall k, q | 0 <= k < |t.reaped| && 0 <= q < |t.procs| ensures ReapedGone(t, k, q) {
      assert k < |s.reaped| ==> ReapedGone(s, k, q);
      assert PidsDiffer(s, z, q);
    }
    forall j, k | 0 <= j < |t.reaped| && 0 <= k < |t.reaped| ensures ReapedOnce(t, j, k) {
      assert j < |s.reaped| && k < |s.reaped| ==> ReapedOnce(s, j, k);
      assert j < |s.reaped| ==> ReapedGone(s, j, z);
      assert k < |s.reaped| ==> ReapedGone(s, k, z);
    }
  }

  lemma WakeKeepsLives(s: Sys, p: nat, op: WakeOp)
    requires Inv(s) && p < |s.procs| && MayWake(s, p, op)
    ensures SameLives(s, DoWake(s, p, op))
  {
    assert OneAt(s, p);
    WakeChanges(s, p, op);
  }

  lemma SleepKeepsLives(s: Sys, p: nat, op: SleepOp)
    requires Inv(s) && p < |s.procs| && MaySleep(s, p, op)
    ensures SameLives(s, DoSleep(s, p, op))
  {
    assert OneAt(s, p);
  }

  lemma OtherKeepsLives(s: Sys, p: nat, op: OtherOp)
    requires Inv(s) && p < |s.procs| && MayDo(s, p, op)
    ensures SameLives(s, Do(s, p, op))
  {
    assert OneAt(s, p);
  }

  lemma SchedKeepsLives(s: Sys, c: nat, op: SchedOp)
    requires Inv(s) && MaySched(s, c, op)
    ensures SameLives(s, DoSched(s, c, op))
  {
    assert OneAt(s, Handed(s, c, op));
  }

  // ---- runs ----

  /** After userinit: one process, init, ready to run. */
  predicate Boot(s: Sys) {
    && s.init < |s.procs| && s.waitLock == NONE && s.nextpid == 2 && s.exits == map[] && s.reaped == []
    && (forall p | 0 <= p < |s.procs| ::
          s.procs[p] == if p == s.init then Proc(RUNNABLE, NoChan, false, 0, 1, NONE, Nobody, Off(AfterFork))
              else FREED)
    && (forall c | 0 <= c < |s.cpus| :: s.cpus[c] == Idle)
  }

  /** `run` leads from state s to state t. */
  ghost predicate Leads(s: Sys, run: seq<Step>, t: Sys)
    decreases |run|
  {
    if run == [] then s == t
    else Enabled(s, run[0]) && Leads(Apply(s, run[0]), run[1..], t)
  }

  lemma BootInv(s: Sys)
    requires Boot(s)
    ensures Inv(s) && Pids(s)
  {
    forall p | 0 <= p < |s.procs| ensures PidAt(s, p) {
    }
  }

  lemma ForkStep(s: Sys, p: nat, op: ForkOp)
    requires Inv(s) && Pids(s) && p < |s.procs| && OnCpu(s.procs[p].pc) && MayFork(s, p, op)
    ensures Inv(DoFork(s, p, op)) && Pids(DoFork(s, p, op))
  {
    hide Inv, Pids, SameLives, DoFork, MayFork;
    ForkKeepsInv(s, p, op);
    ForkKeepsPids(s, p, op);
  }

  lemma ExitStep(s: Sys, p: nat, op: ExitOp)
    requires Inv(s) && Pids(s) && p < |s.procs| && OnCpu(s.procs[p].pc) && MayExit(s, p, op)
    ensures Inv(DoExit(s, p, op)) && Pids(DoExit(s, p, op))
  {
    hide Inv, Pids, SameLives, DoExit, MayExit;
    ExitKeepsInv(s, p, op);
    ExitKeepsPids(s, p, op);
  }

  lemma WakeStep(s: Sys, p: nat, op: WakeOp)
    requires Inv(s) && Pids(s) && p < |s.procs| && OnCpu(s.procs[p].pc) && MayWake(s, p, op)
    ensures Inv(DoWake(s, p, op)) && Pids(DoWake(s, p, op))
  {
    hide Inv, Pids, SameLives, DoWake, MayWake;
    WakeKeepsInv(s, p, op);
    WakeKeepsLives(s, p, op);
    SameLivesSamePids(s, DoWake(s, p, op));
  }

  lemma WaitStep(s: Sys, p: nat, op: WaitOp)
    requires Inv(s) && Pids(s) && p < |s.procs| && OnCpu(s.procs[p].pc) && MayWait(s, p, op)
    ensures Inv(DoWait(s, p, op)) && Pids(DoWait(s, p, op))
  {
    hide Inv, Pids, SameLives, DoWait, MayWait;
    WaitKeepsInv(s, p, op);
    WaitKeepsPids(s, p, op);
  }

  lemma SleepStep(s: Sys, p: nat, op: SleepOp)
    requires Inv(s) && Pids(s) && p < |s.procs| && OnCpu(s.procs[p].pc) && MaySleep(s, p, op)
    ensures Inv(DoSleep(s, p, op)) && Pids(DoSleep(s, p, op))
  {
    hide Inv, Pids, SameLives, DoSleep, MaySleep;
    SleepKeepsInv(s, p, op);
    SleepKeepsLives(s, p, op);
    SameLivesSamePids(s, DoSleep(s, p, op));
  }

  lemma OtherStep(s: Sys, p: nat, op: OtherOp)
    requires Inv(s) && Pids(s) && p < |s.procs| && OnCpu(s.procs[p].pc) && MayDo(s, p, op)
    ensures Inv(Do(s, p, op)) && Pids(Do(s, p, op))
  {
    hide Inv, Pids, SameLives, Do, MayDo;
    OtherKeepsInv(s, p, op);
    OtherKeepsLives(s, p, op);
    SameLivesSamePids(s, Do(s, p, op));
  }

  lemma SchedStep(s: Sys, c: nat, op: SchedOp)
    requires Inv(s) && Pids(s) && MaySched(s, c, op)
    ensures Inv(DoSched(s, c, op)) && Pids(DoSched(s, c, op))
  {
    hide Inv, Pids, SameLives, DoSched, MaySched;
    SchedKeepsInv(s, c, op);
    SchedKeepsLives(s, c, op);
    SameLivesSamePids(s, DoSched(s, c, op));
  }

  lemma StepKeepsInv(s: Sys, a: Step)
    requires Inv(s) && Pids(s) && Enabled(s, a)
    ensures Inv(Apply(s, a)) && Pids(Apply(s, a))
  {
    hide OneAt, PairAt, InitStays, Pids,
         DoFork, DoExit, DoWake, DoWait, DoSleep, Do, DoSched, MayFork, MayExit, MayWake, MayWait, MaySleep, MayDo;
    assert a.c < |s.cpus| ==> CpuAt(s, a.c);
    match a
    case InSched(c, op) => SchedStep(s, c, op);
    case InFork(c, op) => ForkStep(s, s.cpus[c].p, op);
    case InExit(c, op) => ExitStep(s, s.cpus[c].p, op);
    case InWakeup(c, op) => WakeStep(s, s.cpus[c].p, op);
    case InWait(c, op) => WaitStep(s, s.cpus[c].p, op);
    case InSleep(c, op) => SleepStep(s, s.cpus[c].p, op);
    case Other(c, op) => OtherStep(s, s.cpus[c].p, op);
  }

  lemma {:induction false} RunKeepsInv(s: Sys, run: seq<Step>, t: Sys)
    requires Inv(s) && Pids(s) && Leads(s, run, t)
    ensures Inv(t) && Pids(t)
    decreases |run|
  {
    hide Inv, Pids, Apply, Enabled;
    if run != [] {
      StepKeepsInv(s, run[0]);
      RunKeepsInv(Apply(s, run[0]), run[1..], t);
    }
  }

  // ---- what follows in every reachable state ----

  /** Whenever wait_lock is free, no process sleeps in wait() while it has a zombie child, be it its own
      or one that an exit has given to init. */
  lemma NoSleeperMissesAZombie(s: Sys, run: seq<Step>, t: Sys, p: nat, z: nat)
    requires Boot(s) && Leads(s, run, t) && t.waitLock == NONE && p < |t.procs| && z < |t.procs|
    requires t.procs[z].parent == p && t.procs[z].state == ZOMBIE
    ensures !(t.procs[p].state == SLEEPING && t.procs[p].chan == OwnProc)
  {
    BootInv(s);
    RunKeepsInv(s, run, t);
    assert OneAt(t, z);
  }

  /** wait frees a process, and fork one that it gives up, only when no CPU is on its kernel stack. */
  lemma FreeprocOffStack(s: Sys, run: seq<Step>, t: Sys, p: nat, c: nat)
    requires Boot(s) && Leads(s, run, t) && p < |t.procs| && c < |t.cpus|
    ensures MayWait(t, p, WaitReap) ==> t.cpus[c] != On(t.procs[p].pc.i)
    ensures MayFork(t, p, ForkFail) ==> t.cpus[c] != On(t.procs[p].pc.np)
  {
    BootInv(s);
    RunKeepsInv(s, run, t);
    assert OneAt(t, p) && CpuAt(t, c);
  }

  /** No pid is returned by wait twice, and what wait returns with it is the status of its exit. */
  lemma EveryZombieReapedOnce(s: Sys, run: seq<Step>, t: Sys, j: nat, k: nat)
    requires Boot(s) && Leads(s, run, t) && j < |t.reaped| && k < |t.reaped|
    ensures t.reaped[j].0 == t.reaped[k].0 ==> j == k
    ensures t.reaped[j].0 in t.exits && t.exits[t.reaped[j].0] == t.reaped[j].1
  {
    BootInv(s);
    RunKeepsInv(s, run, t);
    assert ReapedOnce(t, j, k) && ReapedAt(t, j);
  }

  /** wait gives up only for a process that has no children, or has been killed. */
  lemma WaitGivesUpRightly(s: Sys, run: seq<Step>, t: Sys, p: nat, z: nat)
    requires Boot(s) && Leads(s, run, t) && p < |t.procs| && z < |t.procs| && MayWait(t, p, WaitGiveUp)
    ensures t.procs[p].killed || t.procs[z].parent != p
  {
    BootInv(s);
    RunKeepsInv(s, run, t);
    assert PairAt(t, p, z);
  }

  /** sched()'s panics: a thread that gets there holds its own lock and no other, and is not RUNNING. */
  lemma SchedDoesNotPanic(s: Sys, run: seq<Step>, t: Sys, c: nat, q: nat)
    requires Boot(s) && Leads(s, run, t) && MaySched(t, c, Swtch) && q < |t.procs|
    ensures var p := t.cpus[c].p;
            && t.procs[p].lock == Thread(p) && (t.procs[q].lock == Thread(p) ==> q == p)
            && t.waitLock != p && t.procs[p].state != RUNNING
  {
    BootInv(s);
    RunKeepsInv(s, run, t);
    var p := t.cpus[c].p;
    assert PairAt(t, p, p) && PairAt(t, p, q) && OneAt(t, p);
  }

  /** No two CPUs run the same process. */
  lemma OneCpuEach(s: Sys, run: seq<Step>, t: Sys, c: nat, d: nat)
    requires Boot(s) && Leads(s, run, t) && c < |t.cpus| && d < |t.cpus|
    requires t.cpus[c].On? && t.cpus[d].On? && t.cpus[c].p == t.cpus[d].p
    ensures c == d
  {
    BootInv(s);
    RunKeepsInv(s, run, t);
    assert CpusDiffer(t, c, d);
  }

  // ---- kill against wait ----

  /** A killed process that sleeps in wait(), or is past the check that would keep it from doing so. */
  predicate Overlooked(r: Proc) {
    r.killed && (r.pc.ToSleep? || r.pc.Asleep1? || r.pc.Asleep2? || (r.state == SLEEPING && r.chan == OwnProc))
  }

  lemma ForkHeeds(s: Sys, me: nat, op: ForkOp, p: nat)
    requires me < |s.procs| && MayFork(s, me, op) && p < |s.procs| && !Overlooked(s.procs[p])
    requires StateAt(s, p) && StateAt(s, me)
    ensures !Overlooked(DoFork(s, me, op).procs[p])
  {
  }

  lemma ExitHeeds(s: Sys, me: nat, op: ExitOp, p: nat)
    requires me < |s.procs| && MayExit(s, me, op) && p < |s.procs| && !Overlooked(s.procs[p])
    requires StateAt(s, p) && StateAt(s, me)
    ensures !Overlooked(DoExit(s, me, op).procs[p])
  {
  }

  lemma WaitHeeds(s: Sys, me: nat, op: WaitOp, p: nat)
    requires me < |s.procs| && MayWait(s, me, op) && p < |s.procs| && !Overlooked(s.procs[p])
    requires StateAt(s, p) && StateAt(s, me)
    ensures !Overlooked(DoWait(s, me, op).procs[p])
  {
  }

  lemma SleepHeeds(s: Sys, me: nat, op: SleepOp, p: nat)
    requires me < |s.procs| && MaySleep(s, me, op) && p < |s.procs| && !Overlooked(s.procs[p])
    requires StateAt(s, p) && StateAt(s, me)
    ensures !Overlooked(DoSleep(s, me, op).procs[p])
  {
  }

  lemma WakeHeeds(s: Sys, me: nat, op: WakeOp, p: nat)
    requires me < |s.procs| && MayWake(s, me, op) && p < |s.procs| && !Overlooked(s.procs[p])
    requires StateAt(s, p) && ShapeAt(s, me)
    ensures !Overlooked(DoWake(s, me, op).procs[p])
  {
    hide DoWake, MayWake;
    WakeChanges(s, me, op);
  }

  lemma OtherHeeds(s: Sys, me: nat, op: OtherOp, p: nat)
    requires me < |s.procs| && MayDo(s, me, op) && p < |s.procs| && !Overlooked(s.procs[p])
    requires StateAt(s, p) && StateAt(s, me) && LockAt(s, p, p)
    ensures Overlooked(Do(s, me, op).procs[p]) <==> op == Kill(p) && s.procs[p].pc.ToSleep?
  {
  }

  lemma SchedHeeds(s: Sys, c: nat, op: SchedOp, p: nat)
    requires MaySched(s, c, op) && p < |s.procs| && !Overlooked(s.procs[p])
    requires StateAt(s, p) && StateAt(s, Handed(s, c, op))
    ensures !Overlooked(DoSched(s, c, op).procs[p])
  {
  }

  /** wait overlooks a kill exactly when it comes after the check of killed(p) and before sleep has taken
      the process' lock. */
  lemma KillOverlookedIff(s: Sys, a: Step, p: nat)
    requires Inv(s) && Pids(s) && Enabled(s, a) && p < |s.procs| && !Overlooked(s.procs[p])
    ensures Overlooked(Apply(s, a).procs[p]) <==> a.Other? && a.o == Kill(p) && s.procs[p].pc.ToSleep?
  {
    hide DoFork, DoExit, DoWake, DoWait, DoSleep, Do, DoSched, MayFork, MayExit, MayWake, MayWait, MaySleep, MayDo,
         Overlooked, StateAt, LockAt, ShapeAt;
    assert OneAt(s, p) && PairAt(s, p, p);
    match a
    case InSched(c, op) =>
      assert CpuAt(s, c) && OneAt(s, Handed(s, c, op));
      SchedHeeds(s, c, op, p);
    case InFork(c, op) =>
      assert OneAt(s, s.cpus[c].p);
      ForkHeeds(s, s.cpus[c].p, op, p);
    case InExit(c, op) =>
      assert OneAt(s, s.cpus[c].p);
      ExitHeeds(s, s.cpus[c].p, op, p);
    case InWakeup(c, op) =>
      assert OneAt(s, s.cpus[c].p);
      WakeHeeds(s, s.cpus[c].p, op, p);
    case InWait(c, op) =>
      assert OneAt(s, s.cpus[c].p);
      WaitHeeds(s, s.cpus[c].p, op, p);
    case InSleep(c, op) =>
      assert OneAt(s, s.cpus[c].p);
      SleepHeeds(s, s.cpus[c].p, op, p);
    case Other(c, op) =>
      assert OneAt(s, s.cpus[c].p);
      OtherHeeds(s, s.cpus[c].p, op, p);
  }

  /** The wakeups that end a sleep in wait(): another kill, and an exit's wakeup of its parent or of init. */
  predicate MayEndSleep(s: Sys, a: Step, p: nat)
    requires p < |s.procs|
  {
    s.procs[p].state == SLEEPING && ((a.Other? && a.o == Kill(p)) || (a.InWakeup? && a.u != ReparentNext))
  }

  /** From the check on, the thread goes nowhere but to sleep. */
  predicate Onward(r: Proc, u: Proc) {
    && (r.pc.ToSleep? ==> u.pc.ToSleep? || u.pc.Asleep1?)
    && (r.pc.Asleep1? ==> u.pc.Asleep1? || u.pc.Asleep2?)
    && (r.pc.Asleep2? ==> u.pc.Asleep2? || (u.state == SLEEPING && u.chan == OwnProc))
  }

  lemma ForkStays(s: Sys, me: nat, op: ForkOp, p: nat)
    requires me < |s.procs| && MayFork(s, me, op) && p < |s.procs| && Overlooked(s.procs[p])
    requires StateAt(s, p) && StateAt(s, me) && MakerAt(s, me) && ReaperAt(s, me)
    ensures var t := DoFork(s, me, op); |t.procs| == |s.procs| && Onward(s.procs[p], t.procs[p])
    ensures Overlooked(DoFork(s, me, op).procs[p])
  {
  }

  lemma ExitStays(s: Sys, me: nat, op: ExitOp, p: nat)
    requires me < |s.procs| && MayExit(s, me, op) && p < |s.procs| && Overlooked(s.procs[p])
    requires StateAt(s, p) && StateAt(s, me) && MakerAt(s, me) && ReaperAt(s, me)
    ensures var t := DoExit(s, me, op); |t.procs| == |s.procs| && Onward(s.procs[p], t.procs[p])
    ensures Overlooked(DoExit(s, me, op).procs[p])
  {
  }

  lemma WakeStays(s: Sys, me: nat, op: WakeOp, p: nat)
    requires me < |s.procs| && MayWake(s, me, op) && p < |s.procs| && Overlooked(s.procs[p])
    requires StateAt(s, p) && StateAt(s, me) && MakerAt(s, me) && ReaperAt(s, me)
    ensures var t := DoWake(s, me, op); |t.procs| == |s.procs| && Onward(s.procs[p], t.procs[p])
    ensures Overlooked(DoWake(s, me, op).procs[p]) || (op != ReparentNext && s.procs[p].state == SLEEPING)
  {
  }

  lemma WaitStays(s: Sys, me: nat, op: WaitOp, p: nat)
    requires me < |s.procs| && MayWait(s, me, op) && p < |s.procs| && Overlooked(s.procs[p])
    requires StateAt(s, p) && StateAt(s, me) && MakerAt(s, me) && ReaperAt(s, me)
    ensures var t := DoWait(s, me, op); |t.procs| == |s.procs| && Onward(s.procs[p], t.procs[p])
    ensures Overlooked(DoWait(s, me, op).procs[p])
  {
  }

  lemma SleepStays(s: Sys, me: nat, op: SleepOp, p: nat)
    requires me < |s.procs| && MaySleep(s, me, op) && p < |s.procs| && Overlooked(s.procs[p])
    requires StateAt(s, p) && StateAt(s, me) && MakerAt(s, me) && ReaperAt(s, me)
    ensures var t := DoSleep(s, me, op); |t.procs| == |s.procs| && Onward(s.procs[p], t.procs[p])
    ensures Overlooked(DoSleep(s, me, op).procs[p])
  {
  }

  lemma OtherStays(s: Sys, me: nat, op: OtherOp, p: nat)
    requires me < |s.procs| && MayDo(s, me, op) && p < |s.procs| && Overlooked(s.procs[p])
    requires StateAt(s, p) && StateAt(s, me) && MakerAt(s, me) && ReaperAt(s, me)
    ensures var t := Do(s, me, op); |t.procs| == |s.procs| && Onward(s.procs[p], t.procs[p])
    ensures Overlooked(Do(s, me, op).procs[p]) || (op == Kill(p) && s.procs[p].state == SLEEPING)
  {
  }

  lemma SchedStays(s: Sys, c: nat, op: SchedOp, p: nat)
    requires MaySched(s, c, op) && p < |s.procs| && Overlooked(s.procs[p])
    requires StateAt(s, p) && StateAt(s, Handed(s, c, op))
    ensures var t := DoSched(s, c, op);
      |t.procs| == |s.procs| && Onward(s.procs[p], t.procs[p]) && Overlooked(t.procs[p])
  {
  }

  /** Once overlooked, the kill stays so, and the thread can only go on to sleep, until it is woken. */
  lemma OverlookedStays(s: Sys, a: Step, p: nat)
    requires Inv(s) && Enabled(s, a) && p < |s.procs| && Overlooked(s.procs[p])
    ensures |Apply(s, a).procs| == |s.procs| && Onward(s.procs[p], Apply(s, a).procs[p])
    ensures Overlooked(Apply(s, a).procs[p]) || MayEndSleep(s, a, p)
  {
    hide DoFork, DoExit, DoWake, DoWait, DoSleep, Do, DoSched, MayFork, MayExit, MayWake, MayWait, MaySleep, MayDo,
         Overlooked, Onward, StateAt, MakerAt, ReaperAt, LockAt, ShapeAt;
    assert OneAt(s, p);
    match a
    case InSched(c, op) =>
      assert CpuAt(s, c) && OneAt(s, Handed(s, c, op));
      SchedStays(s, c, op, p);
    case InFork(c, op) =>
      assert OneAt(s, s.cpus[c].p);
      ForkStays(s, s.cpus[c].p, op, p);
    case InExit(c, op) =>
      assert OneAt(s, s.cpus[c].p);
      ExitStays(s, s.cpus[c].p, op, p);
    case InWakeup(c, op) =>
      assert OneAt(s, s.cpus[c].p);
      WakeStays(s, s.cpus[c].p, op, p);
    case InWait(c, op) =>
      assert OneAt(s, s.cpus[c].p);
      WaitStays(s, s.cpus[c].p, op, p);
    case InSleep(c, op) =>
      assert OneAt(s, s.cpus[c].p);
      SleepStays(s, s.cpus[c].p, op, p);
    case Other(c, op) =>
      assert OneAt(s, s.cpus[c].p);
      OtherStays(s, s.cpus[c].p, op, p);
  }

  lemma {:induction false} OverlookedForLong(s: Sys, run: seq<Step>, t: Sys, p: nat)
    requires Inv(s) && Pids(s) && Leads(s, run, t) && p < |s.procs| && Overlooked(s.procs[p])
    requires forall a | a in run :: !a.InWakeup? && !(a.Other? && a.o == Kill(p))
    ensures p < |t.procs| && Overlooked(t.procs[p])
    decreases |run|
  {
    hide Inv, Pids, Apply, Enabled, Overlooked;
    if run != [] {
      StepKeepsInv(s, run[0]);
      OverlookedStays(s, run[0], p);
      OverlookedForLong(Apply(s, run[0]), run[1..], t, p);
    }
  }

  /** The thread's next three steps put it to sleep on its own address, killed as it is. */
  lemma KilledSleeps(s: Sys, c: nat) returns (t: Sys)
    requires Inv(s) && Runs(s, c) && Free(s, s.cpus[c].p)
    requires s.procs[s.cpus[c].p].pc.ToSleep? && s.procs[s.cpus[c].p].killed
    ensures Leads(s, [InSleep(c, SleepLock), InSleep(c, SleepUnlock), InSleep(c, SleepSet)], t)
    ensures |t.procs| == |s.procs|
    ensures var r := t.procs[s.cpus[c].p]; r.killed && r.state == SLEEPING && r.chan == OwnProc
  {
    var s1 := Apply(s, InSleep(c, SleepLock));
    var s2 := Apply(s1, InSleep(c, SleepUnlock));
    t := Apply(s2, InSleep(c, SleepSet));
    LeadsOn(s2, [], s2, InSleep(c, SleepSet));
    LeadsBefore(s1, InSleep(c, SleepUnlock), [InSleep(c, SleepSet)], t);
    LeadsBefore(s, InSleep(c, SleepLock), [InSleep(c, SleepUnlock), InSleep(c, SleepSet)], t);
  }

  lemma LeadsBefore(s: Sys, a: Step, run: seq<Step>, t: Sys)
    requires Enabled(s, a) && Leads(Apply(s, a), run, t)
    ensures Leads(s, [a] + run, t)
  {
    assert ([a] + run)[1..] == run;
  }

  lemma {:induction false} LeadsOn(s: Sys, run: seq<Step>, t: Sys, a: Step)
    requires Leads(s, run, t) && Enabled(t, a)
    ensures Leads(s, run + [a], Apply(t, a))
    decreases |run|
  {
    if run == [] {
      assert [a][1..] == [];
    } else {
      LeadsOn(Apply(s, run[0]), run[1..], t, a);
      assert (run + [a])[1..] == run[1..] + [a];
    }
  }

  lemma Next(s: Sys, run: seq<Step>, t: Sys, a: Step) returns (run': seq<Step>, t': Sys)
    requires Leads(s, run, t) && Enabled(t, a)
    ensures Leads(s, run', t') && t' == Apply(t, a)
  {
    run', t' := run + [a], Apply(t, a);
    LeadsOn(s, run, t, a);
  }

  /** init, alone on two CPUs, has forked a child that runs on the other. */
  lemma ChildMade() returns (s: Sys, run: seq<Step>, t: Sys)
    ensures Boot(s) && Leads(s, run, t) && t.cpus == [On(0), Idle] && t.waitLock == NONE && |t.procs| == 2
    ensures t.procs[0] == Proc(RUNNING, NoChan, false, 0, 1, NONE, Nobody, User)
    ensures t.procs[1] == Proc(RUNNABLE, NoChan, false, 0, 2, 0, Nobody, Off(AfterFork))
  {
    s := Sys([Proc(RUNNABLE, NoChan, false, 0, 1, NONE, Nobody, Off(AfterFork)), FREED], [Idle, Idle], NONE, 0, 2,
             map[], []);
    run, t := [], s;
    run, t := Next(s, run, t, InSched(0, Pick(0)));
    run, t := Next(s, run, t, InSched(0, Resume));
    run, t := Next(s, run, t, InFork(0, ForkAlloc(1)));
    run, t := Next(s, run, t, InFork(0, ForkRelease));
    run, t := Next(s, run, t, InFork(0, ForkLink));
    run, t := Next(s, run, t, InFork(0, ForkRun));
  }

  /** So wait does sleep after a kill: init's child kills it between its check and its sleep. */
  lemma KillOverlooked() returns (s: Sys, run: seq<Step>, t: Sys)
    ensures Boot(s) && Leads(s, run, t) && |t.procs| == 2
    ensures t.procs[0].killed && t.procs[0].state == SLEEPING && t.procs[0].chan == OwnProc
    ensures t.procs[1].state == RUNNING && t.procs[1].parent == 0
  {
    hide Leads, Boot;
    s, run, t := ChildMade();
    run, t := Next(s, run, t, InSched(1, Pick(1)));
    run, t := Next(s, run, t, InSched(1, Resume));
    run, t := Next(s, run, t, InWait(0, WaitBegin));
    run, t := Next(s, run, t, InWait(0, WaitLook));
    run, t := Next(s, run, t, InWait(0, WaitLook));
    run, t := Next(s, run, t, InWait(0, WaitStay));
    run, t := Next(s, run, t, Other(1, Kill(0)));
    run, t := Next(s, run, t, InSleep(0, SleepLock));
    run, t := Next(s, run, t, InSleep(0, SleepUnlock));
    run, t := Next(s, run, t, InSleep(0, SleepSet));
  }
}
