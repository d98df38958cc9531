// fork, exit, wait, sleep, wakeup, kill and the scheduler (kernel/proc.c) as a step relation: every
// process' kernel thread runs its own program counter, one lock operation or critical section a step.

module ProcTable {

  datatype State = UNUSED | USED | SLEEPING | RUNNABLE | RUNNING | ZOMBIE

  /** What a sleeper waits for: a process waits for its children on its own address. */
  datatype Chan = NoChan | OwnProc | Elsewhere

  /** Who holds a p->lock: a process' thread, or the scheduler of a CPU. */
  datatype Holder = Nobody | Thread(p: nat) | Scheduler(c: nat)

  /** Where the timer can stop a thread: no spinlock is held there. */
  datatype Point = AtUser | AtForked(np: nat) | AtLinked(np: nat) | AtAwake

  /** Where a thread goes on after sched() returns. */
  datatype After = AfterWait | AfterSleep | AfterYield(at: Point) | AfterFork | Never

  datatype Pc =
    | NoThread
    | User                          // anywhere else; no lock of this file held
    | Forking(np: nat)              // allocproc has found np; np->lock held
    | Forked(np: nat)               // np->lock released
    | Linked(np: nat)               // np->parent set
    | Reparent(i: nat)              // exit: wait_lock held; reparent's loop is at entry i
    | WakingInit(i: nat, j: nat)    // reparent's wakeup(initproc) is at entry j
    | WakingParent(j: nat)          // exit's wakeup(p->parent) is at entry j
    | Exited                        // ZOMBIE; wait_lock and own lock held
    | Scan(i: nat, kids: bool)      // wait: wait_lock held; the loop is at entry i
    | Reaping(i: nat)               // wait: a zombie child found, its lock held too
    | ToSleep                       // wait: not killed; about to call sleep
    | Asleep1                       // sleep: own lock and wait_lock held
    | Asleep2                       // sleep: wait_lock released, not yet SLEEPING
    | Sched(k: After)               // at sched(), own lock held, state changed
    | Off(k: After)                 // switched out
    | Back(k: After)                // switched in again, own lock held
    | Awake                         // sleep in wait: own lock released, to take wait_lock again

  datatype Proc = Proc(state: State, chan: Chan, killed: bool, xstate: int, pid: nat, parent: int,
                       lock: Holder, pc: Pc)

  /** What a CPU executes: its scheduler loop, a process' thread, or its scheduler after a thread has
      switched back to it with its lock. */
  datatype Cpu = Idle | On(p: nat) | Returned(p: nat)

  /** The process table. `exits` is the status every pid has exited with, and `reaped` the pids and
      statuses that calls of wait have returned. */
  datatype Sys = Sys(procs: seq<Proc>, cpus: seq<Cpu>, waitLock: int, init: nat, nextpid: nat,
                     exits: map<nat, int>, reaped: seq<(nat, int)>)

  const NONE: int := -1

  datatype ForkOp = ForkAlloc(np: nat) | ForkFail | ForkRelease | ForkLink | ForkRun

  datatype ExitOp = ExitBegin | ExitZombie(status: int) | ExitRelease

  datatype WakeOp = ReparentNext | WakeInit | WakeParent

  datatype WaitOp = WaitBegin | WaitLook | WaitReap | WaitCopyFails | WaitGiveUp | WaitStay

  datatype SleepOp = SleepLock | SleepUnlock | SleepSet | WaitAgain

  datatype OtherOp = SleepElsewhere | Yield | WakeElsewhere(j: nat) | Kill(j: nat)

  datatype SchedOp = Swtch | Resume | Pick(p: nat) | Release | WakeIdle(j: nat)

  /** A step of the thread, or the scheduler, that CPU c executes. */
  datatype Step =
    | InFork(c: nat, f: ForkOp) | InExit(c: nat, e: ExitOp) | InWakeup(c: nat, u: WakeOp) | InWait(c: nat, w: WaitOp)
    | InSleep(c: nat, s: SleepOp) | Other(c: nat, o: OtherOp) | InSched(c: nat, k: SchedOp)

  predicate HoldsWait(pc: Pc) {
    pc.Reparent? || pc.WakingInit? || pc.WakingParent? || pc.Exited? || pc.Scan? || pc.Reaping? || pc.ToSleep?
    || pc.Asleep1?
  }

  predicate HoldsOwn(pc: Pc) {
    pc.Exited? || pc.Asleep1? || pc.Asleep2? || pc.Sched? || pc.Back?
  }

  predicate HoldsOther(pc: Pc, q: nat) {
    (pc.Forking? && pc.np == q) || (pc.Reaping? && pc.i == q)
  }

  /** CPU c executes a process' thread. */
  predicate Runs(s: Sys, c: nat) {
    c < |s.cpus| && s.cpus[c].On? && s.cpus[c].p < |s.procs|
  }

  predicate Free(s: Sys, q: nat) {
    q < |s.procs| && s.procs[q].lock == Nobody
  }

  function With(s: Sys, p: nat, r: Proc): Sys
    requires p < |s.procs|
  {
    s.(procs := s.procs[p := r])
  }

  function At(s: Sys, p: nat, pc: Pc): Sys
    requires p < |s.procs|
  {
    With(s, p, s.procs[p].(pc := pc))
  }

  /** freeproc, and the release of the lock after it. */
  const FREED: Proc := Proc(UNUSED, NoChan, false, 0, 0, NONE, Nobody, NoThread)

  /** wakeup's turn for entry q. */
  function Woken(r: Proc): Proc {
    if r.state == SLEEPING then r.(state := RUNNABLE) else r
  }

  // ---- fork and allocproc ----

  predicate MayFork(s: Sys, p: nat, op: ForkOp)
    requires p < |s.procs|
  {
    var pc := s.procs[p].pc;
    match op
    case ForkAlloc(np) => pc.User? && Free(s, np) && s.procs[np].state == UNUSED
    case ForkFail => pc.Forking? && pc.np < |s.procs|
    case ForkRelease => pc.Forking? && pc.np < |s.procs|
    case ForkLink => pc.Forked? && pc.np < |s.procs| && s.waitLock == NONE
    case ForkRun => pc.Linked? && Free(s, pc.np)
  }

  function DoFork(s: Sys, p: nat, op: ForkOp): Sys
    requires p < |s.procs| && MayFork(s, p, op)
  {
    var pc := s.procs[p].pc;
    match op
    case ForkAlloc(np) =>
      var r := s.procs[np];
      At(With(s, np, r.(state := USED, pid := s.nextpid, lock := Thread(p), pc := Off(AfterFork))), p, Forking(np))
        .(nextpid := s.nextpid + 1)
    case ForkFail => At(With(s, pc.np, FREED), p, User)
    case ForkRelease => At(With(s, pc.np, s.procs[pc.np].(lock := Nobody)), p, Forked(pc.np))
    case ForkLink => At(With(s, pc.np, s.procs[pc.np].(parent := p)), p, Linked(pc.np))
    case ForkRun => At(With(s, pc.np, s.procs[pc.np].(state := RUNNABLE)), p, User)
  }

  // ---- exit ----

  predicate MayExit(s: Sys, p: nat, op: ExitOp)
    requires p < |s.procs|
  {
    var pc := s.procs[p].pc;
    match op
    case ExitBegin => pc.User? && p != s.init && s.waitLock == NONE
    case ExitZombie(_) => pc.WakingParent? && pc.j == |s.procs| && Free(s, p)
    case ExitRelease => pc.Exited?
  }

  function DoExit(s: Sys, p: nat, op: ExitOp): Sys
    requires p < |s.procs| && MayExit(s, p, op)
  {
    var r := s.procs[p];
    match op
    case ExitBegin => At(s, p, Reparent(0)).(waitLock := p)
    case ExitZombie(status) =>
      With(s, p, r.(state := ZOMBIE, xstate := status, lock := Thread(p), pc := Exited))
        .(exits := s.exits[r.pid := status])
    case ExitRelease => At(s, p, Sched(Never)).(waitLock := NONE)
  }

  // ---- the loops of reparent and wakeup inside exit ----

  predicate MayWake(s: Sys, p: nat, op: WakeOp)
    requires p < |s.procs|
  {
    var pc := s.procs[p].pc;
    match op
    case ReparentNext => pc.Reparent? && pc.i <= |s.procs|
    case WakeInit => pc.WakingInit? && (pc.j < |s.procs| && pc.j != p ==> Free(s, pc.j))
    case WakeParent => pc.WakingParent? && pc.j < |s.procs| && (pc.j != p ==> Free(s, pc.j))
  }

  /** wakeup(chan)'s turn for entry j, where chan is process q. */
  function WakeOne(s: Sys, p: nat, j: nat, q: int): Sys
    requires j < |s.procs|
  {
    if j != p && s.procs[j].chan == OwnProc && j == q then With(s, j, Woken(s.procs[j])) else s
  }

  function DoWake(s: Sys, p: nat, op: WakeOp): Sys
    requires p < |s.procs| && MayWake(s, p, op)
  {
    var r, pc := s.procs[p], s.procs[p].pc;
    match op
    case ReparentNext =>
      if pc.i == |s.procs| then At(s, p, WakingParent(0))
      else if s.procs[pc.i].parent == p
      then At(With(s, pc.i, s.procs[pc.i].(parent := s.init)), p, WakingInit(pc.i, 0))
      else At(s, p, Reparent(pc.i + 1))
    case WakeInit =>
      if pc.j >= |s.procs| then At(s, p, Reparent(pc.i + 1))
      else At(WakeOne(s, p, pc.j, s.init), p, WakingInit(pc.i, pc.j + 1))
    case WakeParent => At(WakeOne(s, p, pc.j, r.parent), p, WakingParent(pc.j + 1))
  }

  // ---- wait ----

  predicate MayWait(s: Sys, p: nat, op: WaitOp)
    requires p < |s.procs|
  {
    var r, pc := s.procs[p], s.procs[p].pc;
    match op
    case WaitBegin => pc.User? && s.waitLock == NONE
    case WaitLook => pc.Scan? && pc.i < |s.procs| && (s.procs[pc.i].parent == p ==> Free(s, pc.i))
    case WaitReap => pc.Reaping? && pc.i < |s.procs|
    case WaitCopyFails => pc.Reaping? && pc.i < |s.procs|
    case WaitGiveUp => pc.Scan? && pc.i == |s.procs| && Free(s, p) && (!pc.kids || r.killed)
    case WaitStay => pc.Scan? && pc.i == |s.procs| && Free(s, p) && pc.kids && !r.killed
  }

  function DoWait(s: Sys, p: nat, op: WaitOp): Sys
    requires p < |s.procs| && MayWait(s, p, op)
  {
    var pc := s.procs[p].pc;
    match op
    case WaitBegin => At(s, p, Scan(0, false)).(waitLock := p)
    case WaitLook =>
      if s.procs[pc.i].parent != p then At(s, p, Scan(pc.i + 1, pc.kids))
      else if s.procs[pc.i].state == ZOMBIE
      then At(With(s, pc.i, s.procs[pc.i].(lock := Thread(p))), p, Reaping(pc.i))
      else At(s, p, Scan(pc.i + 1, true))
    case WaitReap =>
      At(With(s, pc.i, FREED), p, User)
        .(waitLock := NONE, reaped := s.reaped + [(s.procs[pc.i].pid, s.procs[pc.i].xstate)])
    case WaitCopyFails => At(With(s, pc.i, s.procs[pc.i].(lock := Nobody)), p, User).(waitLock := NONE)
    case WaitGiveUp => At(s, p, User).(waitLock := NONE)
    case WaitStay => At(s, p, ToSleep)
  }

  // ---- sleep(p, &wait_lock) ----

  predicate MaySleep(s: Sys, p: nat, op: SleepOp)
    requires p < |s.procs|
  {
    var pc := s.procs[p].pc;
    match op
    case SleepLock => pc.ToSleep? && Free(s, p)
    case SleepUnlock => pc.Asleep1?
    case SleepSet => pc.Asleep2?
    case WaitAgain => pc.Awake? && s.waitLock == NONE
  }

  function DoSleep(s: Sys, p: nat, op: SleepOp): Sys
    requires p < |s.procs| && MaySleep(s, p, op)
  {
    var r := s.procs[p];
    match op
    case SleepLock => With(s, p, r.(lock := Thread(p), pc := Asleep1))
    case SleepUnlock => At(s, p, Asleep2).(waitLock := NONE)
    case SleepSet => With(s, p, r.(chan := OwnProc, state := SLEEPING, pc := Sched(AfterWait)))
    case WaitAgain => At(s, p, Scan(0, false)).(waitLock := p)
  }

  // ---- everything else a thread does to the table ----

  predicate Preemptible(pc: Pc) {
    pc.User? || pc.Forked? || pc.Linked? || pc.Awake?
  }

  function Stopped(pc: Pc): Point
    requires Preemptible(pc)
  {
    match pc
    case User => AtUser
    case Forked(np) => AtForked(np)
    case Linked(np) => AtLinked(np)
    case Awake => AtAwake
  }

  function Resumed(k: After): Pc {
    match k
    case AfterWait => Awake
    case AfterYield(AtForked(np)) => Forked(np)
    case AfterYield(AtLinked(np)) => Linked(np)
    case AfterYield(AtAwake) => Awake
    case _ => User
  }

  predicate MayDo(s: Sys, p: nat, op: OtherOp)
    requires p < |s.procs|
  {
    match op
    case SleepElsewhere => s.procs[p].pc.User? && Free(s, p)
    case Yield => Preemptible(s.procs[p].pc) && Free(s, p)
    case WakeElsewhere(j) => Free(s, j) && s.procs[j].chan == Elsewhere
    case Kill(j) => s.procs[p].pc.User? && Free(s, j)
  }

  function Do(s: Sys, p: nat, op: OtherOp): Sys
    requires p < |s.procs| && MayDo(s, p, op)
  {
    var r := s.procs[p];
    match op
    case SleepElsewhere =>
      With(s, p, r.(chan := Elsewhere, state := SLEEPING, lock := Thread(p), pc := Sched(AfterSleep)))
    case Yield => With(s, p, r.(state := RUNNABLE, lock := Thread(p), pc := Sched(AfterYield(Stopped(r.pc)))))
    case WakeElsewhere(j) => With(s, j, Woken(s.procs[j]))
    case Kill(j) => With(s, j, Woken(s.procs[j]).(killed := true))
  }

  // ---- sched and scheduler: the lock of the process goes with the CPU ----

  predicate MaySched(s: Sys, c: nat, op: SchedOp) {
    && c < |s.cpus|
    && match op
       case Swtch => Runs(s, c) && s.procs[s.cpus[c].p].pc.Sched?
       case Resume => Runs(s, c) && s.procs[s.cpus[c].p].pc.Back?
       case Pick(p) => s.cpus[c].Idle? && Free(s, p) && s.procs[p].state == RUNNABLE
       case Release => s.cpus[c].Returned? && s.cpus[c].p < |s.procs|
       case WakeIdle(j) => s.cpus[c].Idle? && Free(s, j) && s.procs[j].chan == Elsewhere   // an interrupt's wakeup
  }

  function DoSched(s: Sys, c: nat, op: SchedOp): Sys
    requires MaySched(s, c, op)
  {
    match op
    case Swtch =>
      var p := s.cpus[c].p;
      var r := s.procs[p];
      With(s, p, r.(lock := Scheduler(c), pc := Off(r.pc.k))).(cpus := s.cpus[c := Returned(p)])
    case Resume =>
      var p := s.cpus[c].p;
      var r := s.procs[p];
      var chan := if r.pc.k == AfterWait || r.pc.k == AfterSleep then NoChan else r.chan;
      With(s, p, r.(chan := chan, lock := Nobody, pc := Resumed(r.pc.k)))
    case Pick(p) =>
      var r := s.procs[p];
      var k := if r.pc.Off? then r.pc.k else Never;
      With(s, p, r.(state := RUNNING, lock := Thread(p), pc := Back(k))).(cpus := s.cpus[c := On(p)])
    case Release =>
      var p := s.cpus[c].p;
      With(s, p, s.procs[p].(lock := Nobody)).(cpus := s.cpus[c := Idle])
    case WakeIdle(j) => With(s, j, Woken(s.procs[j]))
  }

  predicate Enabled(s: Sys, a: Step) {
    match a
    case InSched(c, op) => MaySched(s, c, op)
    case InFork(c, op) => Runs(s, c) && MayFork(s, s.cpus[c].p, op)
    case InExit(c, op) => Runs(s, c) && MayExit(s, s.cpus[c].p, op)
    case InWakeup(c, op) => Runs(s, c) && MayWake(s, s.cpus[c].p, op)
    case InWait(c, op) => Runs(s, c) && MayWait(s, s.cpus[c].p, op)
    case InSleep(c, op) => Runs(s, c) && MaySleep(s, s.cpus[c].p, op)
    case Other(c, op) => Runs(s, c) && MayDo(s, s.cpus[c].p, op)
  }

  function Apply(s: Sys, a: Step): Sys
    requires Enabled(s, a)
  {
    match a
    case InSched(c, op) => DoSched(s, c, op)
    case InFork(c, op) => DoFork(s, s.cpus[c].p, op)
    case InExit(c, op) => DoExit(s, s.cpus[c].p, op)
    case InWakeup(c, op) => DoWake(s, s.cpus[c].p, op)
    case InWait(c, op) => DoWait(s, s.cpus[c].p, op)
    case InSleep(c, op) => DoSleep(s, s.cpus[c].p, op)
    case Other(c, op) => Do(s, s.cpus[c].p, op)
  }
}

module ProcInv {
  import opened ProcTable

  /** The entry that a thread in fork is making, if it is. */
  function Made(pc: Pc): int {
    match pc
    case Forking(np) => np
    case Forked(np) => np
    case Linked(np) => np
    case Sched(k) => MadeAfter(k)
    case Off(k) => MadeAfter(k)
    case Back(k) => MadeAfter(k)
    case _ => NONE
  }

  function MadeAfter(k: After): int {
    match k
    case AfterYield(AtForked(np)) => np
    case AfterYield(AtLinked(np)) => np
    case _ => NONE
  }

  predicate PcInRange(n: nat, pc: Pc) {
    match pc
    case Reparent(i) => i <= n
    case WakingInit(i, j) => i < n && j <= n
    case WakingParent(j) => j <= n
    case Scan(i, _) => i <= n
    case Reaping(i) => i < n
    case _ => true
  }

  predicate ShapeAt(s: Sys, p: nat)
    requires p < |s.procs|
  {
    && (s.procs[p].parent == NONE || 0 <= s.procs[p].parent < |s.procs|)
    && PcInRange(|s.procs|, s.procs[p].pc)
  }

  /** The state that a switched-out thread is in. */
  predicate StateFor(k: After, r: Proc) {
    match k
    case AfterWait => r.state == RUNNABLE || (r.state == SLEEPING && r.chan == OwnProc)
    case AfterSleep => r.state == RUNNABLE || (r.state == SLEEPING && r.chan == Elsewhere)
    case AfterYield(_) => r.state == RUNNABLE
    case AfterFork => r.state == RUNNABLE || r.state == USED
    case Never => r.state == ZOMBIE
  }

  predicate StateAt(s: Sys, p: nat)
    requires p < |s.procs|
  {
    var r := s.procs[p];
    match r.pc
    case NoThread => r.state == UNUSED && r.parent == NONE
    case Sched(k) => k != AfterFork && StateFor(k, r)
    case Off(k) => StateFor(k, r)
    case Exited => r.state == ZOMBIE
    case _ => r.state == RUNNING
  }

  predicate Holds(pc: Pc, p: nat, q: nat) {
    (p == q && HoldsOwn(pc)) || HoldsOther(pc, q)
  }

  /** The p->locks are held by the threads and schedulers whose program counters say so. */
  predicate LockAt(s: Sys, p: nat, q: nat)
    requires p < |s.procs| && q < |s.procs|
  {
    s.procs[q].lock == Thread(p) <==> Holds(s.procs[p].pc, p, q)
  }

  predicate SchedLockAt(s: Sys, c: nat, q: nat)
    requires c < |s.cpus| && q < |s.procs|
  {
    s.procs[q].lock == Scheduler(c) <==> s.cpus[c] == Returned(q)
  }

  predicate WaitLockAt(s: Sys, p: nat)
    requires p < |s.procs|
  {
    s.waitLock == p <==> HoldsWait(s.procs[p].pc)
  }

  predicate OnCpu(pc: Pc) {
    !pc.Off? && !pc.NoThread?
  }

  predicate CpuAt(s: Sys, c: nat)
    requires c < |s.cpus|
  {
    && (s.cpus[c].On? ==> s.cpus[c].p < |s.procs| && OnCpu(s.procs[s.cpus[c].p].pc))
    && (s.cpus[c].Returned? ==> s.cpus[c].p < |s.procs|)
  }

  /** No two CPUs execute the same thread. */
  predicate CpusDiffer(s: Sys, c: nat, d: nat)
    requires c < |s.cpus| && d < |s.cpus|
  {
    s.cpus[c].On? && s.cpus[d] == s.cpus[c] ==> c == d
  }

  /** A process being made is USED and its thread has not started. */
  predicate MakerAt(s: Sys, p: nat)
    requires p < |s.procs|
  {
    var np := Made(s.procs[p].pc);
    np != NONE ==> 0 <= np < |s.procs| && s.procs[np].pc == Off(AfterFork) && s.procs[np].state == USED
  }

  predicate MakersDiffer(s: Sys, p: nat, q: nat)
    requires p < |s.procs| && q < |s.procs|
  {
    Made(s.procs[p].pc) == Made(s.procs[q].pc) != NONE ==> p == q
  }

  /** A child found to be a zombie has switched out for good, and stays what it is. */
  predicate ReaperAt(s: Sys, p: nat)
    requires p < |s.procs|
  {
    var pc := s.procs[p].pc;
    pc.Reaping? ==>
      && pc.i < |s.procs| && s.procs[pc.i].state == ZOMBIE && s.procs[pc.i].pc == Off(Never)
      && s.procs[pc.i].parent == p
  }

  /** How many entries of the table wait has looked at without finding a zombie. */
  function Seen(n: nat, pc: Pc): nat {
    match pc
    case Scan(i, _) => i
    case Reaping(i) => i
    case ToSleep => n
    case Asleep1 => n
    case _ => 0
  }

  predicate ScannedAt(s: Sys, p: nat, z: nat)
    requires p < |s.procs| && z < |s.procs|
  {
    var pc := s.procs[p].pc;
    s.procs[z].parent == p && z < Seen(|s.procs|, pc) ==>
      s.procs[z].state != ZOMBIE && (pc.Scan? ==> pc.kids)
  }

  /** A process is asleep in wait(), or has let go of wait_lock in order to be. */
  predicate Committed(r: Proc) {
    r.pc.Asleep2? || (r.state == SLEEPING && r.chan == OwnProc)
  }

  /** A zombie whose parent sleeps: only while an exit that gave it to init has yet to reach init. */
  predicate ChildAt(s: Sys, z: nat)
    requires z < |s.procs|
  {
    var q := s.procs[z].parent;
    s.procs[z].state == ZOMBIE && 0 <= q < |s.procs| && Committed(s.procs[q]) ==>
      && q == s.init && 0 <= s.waitLock < |s.procs|
      && s.procs[s.waitLock].pc.WakingInit? && s.procs[s.waitLock].pc.j <= q
  }

  /** An exit past its parent's entry in wakeup has woken it. */
  predicate WokenAt(s: Sys, e: nat)
    requires e < |s.procs|
  {
    var q, pc := s.procs[e].parent, s.procs[e].pc;
    pc.WakingParent? && 0 <= q < pc.j && q < |s.procs| ==> !Committed(s.procs[q])
  }

  /** init does not exit. */
  predicate InitStays(s: Sys) {
    && s.init < |s.procs|
    && var pc := s.procs[s.init].pc;
       !pc.Reparent? && !pc.WakingInit? && !pc.WakingParent? && !pc.Exited? && pc != Sched(Never) && pc != Off(Never)
  }

  /** What holds of one entry, ... */
  predicate OneAt(s: Sys, p: nat)
    requires p < |s.procs|
  {
    && ShapeAt(s, p) && StateAt(s, p) && WaitLockAt(s, p) && MakerAt(s, p) && ReaperAt(s, p)
    && ChildAt(s, p) && WokenAt(s, p)
  }

  /** ... of two, ... */
  predicate PairAt(s: Sys, p: nat, q: nat)
    requires p < |s.procs| && q < |s.procs|
  {
    LockAt(s, p, q) && MakersDiffer(s, p, q) && ScannedAt(s, p, q)
  }

  /** ... and of the CPUs. */
  ghost predicate Cpus(s: Sys) {
    && (forall c {:trigger CpuAt(s, c)} | 0 <= c < |s.cpus| :: CpuAt(s, c))
    && (forall c, d {:trigger CpusDiffer(s, c, d)} | 0 <= c < |s.cpus| && 0 <= d < |s.cpus| :: CpusDiffer(s, c, d))
    && (forall c, q {:trigger SchedLockAt(s, c, q)} | 0 <= c < |s.cpus| && 0 <= q < |s.procs| :: SchedLockAt(s, c, q))
  }

  ghost predicate Inv(s: Sys) {
    && InitStays(s) && (s.waitLock == NONE || 0 <= s.waitLock < |s.procs|) && Cpus(s)
    && (forall p {:trigger OneAt(s, p)} | 0 <= p < |s.procs| :: OneAt(s, p))
    && (forall p, q {:trigger PairAt(s, p, q)} | 0 <= p < |s.procs| && 0 <= q < |s.procs| :: PairAt(s, p, q))
  }
}

module ProcSteps {
  import opened ProcTable
  import opened ProcInv

  /** What the process `p` that takes a step, and the other process `o` that the step changes, are like. */
  predicate Settled(s: Sys, p: nat, o: nat)
    requires p < |s.procs|
  {
    && o < |s.procs| && InitStays(s) && (s.waitLock == NONE || 0 <= s.waitLock < |s.procs|)
    && ShapeAt(s, p) && StateAt(s, p) && MakerAt(s, p) && ReaperAt(s, p) && WaitLockAt(s, p)
    && ShapeAt(s, o) && StateAt(s, o) && LockAt(s, o, o) && LockAt(s, p, o)
  }

  lemma IsSettled(s: Sys, p: nat, o: nat)
    requires Inv(s) && p < |s.procs| && o < |s.procs|
    ensures Settled(s, p, o)
  {
    hide Cpus;
    assert OneAt(s, p) && OneAt(s, o) && PairAt(s, o, o) && PairAt(s, p, o);
  }

  /** A thread's step changes entries of the table, and who holds wait_lock. */
  predicate Framed(s: Sys, t: Sys) {
    && |t.procs| == |s.procs| && t.cpus == s.cpus && t.init == s.init && InitStays(t)
    && (t.waitLock == NONE || 0 <= t.waitLock < |t.procs|)
  }

  /** Of an entry, a thread's step changes nothing that concerns the CPUs. */
  predicate SameForCpus(r: Proc, u: Proc) {
    && (OnCpu(r.pc) ==> OnCpu(u.pc))
    && (u.lock != r.lock ==> !u.lock.Scheduler? && !r.lock.Scheduler?)
  }

  lemma CpusKept(s: Sys, t: Sys)
    requires Cpus(s) && |t.procs| == |s.procs| && t.cpus == s.cpus
    requires forall x | 0 <= x < |s.procs| :: SameForCpus(s.procs[x], t.procs[x])
    ensures Cpus(t)
  {
    forall c | 0 <= c < |t.cpus| ensures CpuAt(t, c) {
      assert CpuAt(s, c);
    }
    forall c, d | 0 <= c < |t.cpus| && 0 <= d < |t.cpus| ensures CpusDiffer(t, c, d) {
      assert CpusDiffer(s, c, d);
    }
    forall c, q | 0 <= c < |t.cpus| && 0 <= q < |t.procs| ensures SchedLockAt(t, c, q) {
      assert SchedLockAt(s, c, q) && SameForCpus(s.procs[q], t.procs[q]);
    }
  }

  /** The other process that a step changes, if there is one. */
  function ForkOther(s: Sys, p: nat, op: ForkOp): (o: nat)
    requires p < |s.procs|
  {
    var np := Made(s.procs[p].pc);
    if op.ForkAlloc? && op.np < |s.procs| then op.np
    else if 0 <= np < |s.procs| then np else p
  }

  function WakeOther(s: Sys, p: nat, op: WakeOp): (o: nat)
    requires p < |s.procs|
    ensures o < |s.procs|
  {
    var pc := s.procs[p].pc;
    if pc.Reparent? && pc.i < |s.procs| then pc.i
    else if (pc.WakingInit? || pc.WakingParent?) && pc.j < |s.procs| then pc.j else p
  }

  function WaitOther(s: Sys, p: nat, op: WaitOp): nat
    requires p < |s.procs|
  {
    var pc := s.procs[p].pc;
    if (pc.Scan? || pc.Reaping?) && pc.i < |s.procs| then pc.i else p
  }

  function DoOther(s: Sys, p: nat, op: OtherOp): nat
    requires p < |s.procs|
  {
    if (op.WakeElsewhere? || op.Kill?) && op.j < |s.procs| then op.j else p
  }

  // ---- Fork ----

  lemma ForkFrame(s: Sys, p: nat, op: ForkOp, x: nat)
    requires p < |s.procs| && x < |s.procs| && MayFork(s, p, op) && OnCpu(s.procs[p].pc)
    requires Settled(s, p, ForkOther(s, p, op)) && ShapeAt(s, x) && StateAt(s, x)
    ensures var t := DoFork(s, p, op); Framed(s, t) && ShapeAt(t, x) && SameForCpus(s.procs[x], t.procs[x])
  {
  }

  lemma ForkState(s: Sys, p: nat, op: ForkOp, x: nat)
    requires p < |s.procs| && x < |s.procs| && MayFork(s, p, op) && OnCpu(s.procs[p].pc)
    requires Settled(s, p, ForkOther(s, p, op)) && StateAt(s, x)
    ensures var t := DoFork(s, p, op); |t.procs| == |s.procs| && StateAt(t, x)
  {
    hide InitStays, WaitLockAt, ReaperAt;
  }

  lemma ForkWaitLock(s: Sys, p: nat, op: ForkOp, x: nat)
    requires p < |s.procs| && x < |s.procs| && MayFork(s, p, op) && OnCpu(s.procs[p].pc)
    requires Settled(s, p, ForkOther(s, p, op)) && WaitLockAt(s, x)
    ensures var t := DoFork(s, p, op); |t.procs| == |s.procs| && WaitLockAt(t, x)
  {
    hide InitStays, LockAt;
  }

  lemma ForkLocks(s: Sys, p: nat, op: ForkOp, x: nat, y: nat)
    requires p < |s.procs| && x < |s.procs| && y < |s.procs| && MayFork(s, p, op) && OnCpu(s.procs[p].pc)
    requires Settled(s, p, ForkOther(s, p, op)) && LockAt(s, x, y) && LockAt(s, p, y)
    ensures var t := DoFork(s, p, op); |t.procs| == |s.procs| && LockAt(t, x, y)
  {
    hide InitStays, ShapeAt, WaitLockAt, ReaperAt;
  }

  lemma ForkMaker(s: Sys, p: nat, op: ForkOp, x: nat)
    requires p < |s.procs| && x < |s.procs| && MayFork(s, p, op) && OnCpu(s.procs[p].pc)
    requires Settled(s, p, ForkOther(s, p, op)) && StateAt(s, x) && MakerAt(s, x)
    requires MakersDiffer(s, x, p)
    ensures var t := DoFork(s, p, op); |t.procs| == |s.procs| && MakerAt(t, x)
  {
    hide InitStays, LockAt, WaitLockAt, ShapeAt, ReaperAt;
  }

  lemma ForkMakers(s: Sys, p: nat, op: ForkOp, x: nat, y: nat)
    requires p < |s.procs| && x < |s.procs| && y < |s.procs| && MayFork(s, p, op) && OnCpu(s.procs[p].pc)
    requires Settled(s, p, ForkOther(s, p, op)) && StateAt(s, x) && MakerAt(s, x) && MakerAt(s, y)
    requires MakersDiffer(s, x, p) && MakersDiffer(s, x, y)
    ensures var t := DoFork(s, p, op); |t.procs| == |s.procs| && MakersDiffer(t, x, y)
  {
    hide InitStays, LockAt, WaitLockAt, ShapeAt, ReaperAt;
  }

  lemma ForkReaped(s: Sys, p: nat, op: ForkOp, x: nat)
    requires p < |s.procs| && x < |s.procs| && MayFork(s, p, op) && OnCpu(s.procs[p].pc)
    requires Settled(s, p, ForkOther(s, p, op)) && ReaperAt(s, x) && LockAt(s, x, ForkOther(s, p, op))
    requires WaitLockAt(s, x)
    ensures var t := DoFork(s, p, op); |t.procs| == |s.procs| && ReaperAt(t, x)
  {
    hide InitStays;
  }

  lemma ForkScanned(s: Sys, p: nat, op: ForkOp, x: nat, y: nat)
    requires p < |s.procs| && x < |s.procs| && y < |s.procs| && MayFork(s, p, op) && OnCpu(s.procs[p].pc)
    requires Settled(s, p, ForkOther(s, p, op)) && ScannedAt(s, x, y) && WaitLockAt(s, x) && StateAt(s, y)
    ensures var t := DoFork(s, p, op); |t.procs| == |s.procs| && ScannedAt(t, x, y)
  {
    hide InitStays;
  }

  lemma ForkChild(s: Sys, p: nat, op: ForkOp, x: nat)
    requires p < |s.procs| && x < |s.procs| && MayFork(s, p, op) && OnCpu(s.procs[p].pc)
    requires Settled(s, p, ForkOther(s, p, op)) && WokenAt(s, p) && ChildAt(s, x) && ScannedAt(s, p, x)
    ensures var t := DoFork(s, p, op); |t.procs| == |s.procs| && ChildAt(t, x)
  {
  }

  lemma ForkWoken(s: Sys, p: nat, op: ForkOp, x: nat)
    requires p < |s.procs| && x < |s.procs| && MayFork(s, p, op) && OnCpu(s.procs[p].pc)
    requires Settled(s, p, ForkOther(s, p, op)) && WokenAt(s, x) && WaitLockAt(s, x)
    ensures var t := DoFork(s, p, op); |t.procs| == |s.procs| && WokenAt(t, x)
  {
  }

  lemma ForkKeepsInv(s: Sys, p: nat, op: ForkOp)
    requires Inv(s) && p < |s.procs| && MayFork(s, p, op) && OnCpu(s.procs[p].pc)
    ensures Inv(DoFork(s, p, op))
  {
    hide DoFork, MayFork, Cpus, Settled, SameForCpus, InitStays,
         ShapeAt, StateAt, LockAt, WaitLockAt, MakerAt, MakersDiffer, ReaperAt, ScannedAt, ChildAt, WokenAt;
    var t, o := DoFork(s, p, op), ForkOther(s, p, op);
    IsSettled(s, p, o);
    assert OneAt(s, p);
    ForkFrame(s, p, op, p);
    forall x | 0 <= x < |s.procs| ensures OneAt(t, x) && SameForCpus(s.procs[x], t.procs[x]) {
      assert OneAt(s, x) && PairAt(s, x, o) && PairAt(s, x, p);
      assert PairAt(s, x, x) && PairAt(s, p, x);
      ForkFrame(s, p, op, x);
      ForkState(s, p, op, x);
      ForkWaitLock(s, p, op, x);
      ForkLocks(s, p, op, x, x);
      ForkMaker(s, p, op, x);
      ForkReaped(s, p, op, x);
      ForkChild(s, p, op, x);
      ForkWoken(s, p, op, x);
    }
    forall x, y | 0 <= x < |s.procs| && 0 <= y < |s.procs| ensures PairAt(t, x, y) {
      assert OneAt(s, x) && OneAt(s, y) && PairAt(s, x, y) && PairAt(s, x, p) && PairAt(s, p, y);
      ForkLocks(s, p, op, x, y);
      ForkMakers(s, p, op, x, y);
      ForkScanned(s, p, op, x, y);
    }
    CpusKept(s, t);
  }

  // ---- Exit ----

  lemma ExitState(s: Sys, p: nat, op: ExitOp, x: nat)
    requires p < |s.procs| && x < |s.procs| && MayExit(s, p, op) && OnCpu(s.procs[p].pc)
    requires Settled(s, p, p) && ShapeAt(s, x) && StateAt(s, x) && WaitLockAt(s, x)
    ensures var t := DoExit(s, p, op);
      && Framed(s, t) && SameForCpus(s.procs[x], t.procs[x])
      && ShapeAt(t, x) && StateAt(t, x) && WaitLockAt(t, x)
  {
  }

  lemma ExitLinks(s: Sys, p: nat, op: ExitOp, x: nat)
    requires p < |s.procs| && x < |s.procs| && MayExit(s, p, op) && OnCpu(s.procs[p].pc)
    requires Settled(s, p, p) && StateAt(s, x) && WaitLockAt(s, x) && LockAt(s, x, p)
    requires MakerAt(s, x) && MakersDiffer(s, x, p) && ReaperAt(s, x) && WokenAt(s, x)
    ensures var t := DoExit(s, p, op);
      |t.procs| == |s.procs| && MakerAt(t, x) && ReaperAt(t, x) && WokenAt(t, x)
  {
    hide InitStays;
  }

  lemma ExitChild(s: Sys, p: nat, op: ExitOp, x: nat)
    requires p < |s.procs| && x < |s.procs| && MayExit(s, p, op) && OnCpu(s.procs[p].pc)
    requires Settled(s, p, p) && WokenAt(s, p) && ChildAt(s, x) && ScannedAt(s, p, x)
    ensures var t := DoExit(s, p, op); |t.procs| == |s.procs| && ChildAt(t, x)
  {
  }

  lemma ExitPair(s: Sys, p: nat, op: ExitOp, x: nat, y: nat)
    requires p < |s.procs| && x < |s.procs| && y < |s.procs| && MayExit(s, p, op) && OnCpu(s.procs[p].pc)
    requires Settled(s, p, p) && StateAt(s, x) && StateAt(s, y) && WaitLockAt(s, x) && MakerAt(s, x) && MakerAt(s, y)
    requires LockAt(s, p, y) && MakersDiffer(s, x, p) && PairAt(s, x, y)
    ensures var t := DoExit(s, p, op); |t.procs| == |s.procs| && PairAt(t, x, y)
  {
    hide InitStays, ShapeAt;
  }

  lemma ExitKeepsInv(s: Sys, p: nat, op: ExitOp)
    requires Inv(s) && p < |s.procs| && MayExit(s, p, op) && OnCpu(s.procs[p].pc)
    ensures Inv(DoExit(s, p, op))
  {
    hide DoExit, MayExit, Cpus, Settled, SameForCpus, InitStays,
         ShapeAt, StateAt, LockAt, WaitLockAt, MakerAt, MakersDiffer, ReaperAt, ScannedAt, ChildAt, WokenAt;
    var t, o := DoExit(s, p, op), p;
    IsSettled(s, p, o);
    assert OneAt(s, p);
    ExitState(s, p, op, p);
    forall x | 0 <= x < |s.procs| ensures OneAt(t, x) && SameForCpus(s.procs[x], t.procs[x]) {
      assert OneAt(s, x) && PairAt(s, x, o) && PairAt(s, x, p);
      assert PairAt(s, x, x) && PairAt(s, p, x);
      ExitState(s, p, op, x);
      ExitLinks(s, p, op, x);
      ExitChild(s, p, op, x);
    }
    forall x, y | 0 <= x < |s.procs| && 0 <= y < |s.procs| ensures PairAt(t, x, y) {
      assert OneAt(s, x) && OneAt(s, y) && PairAt(s, x, y) && PairAt(s, x, p) && PairAt(s, p, y);
      ExitPair(s, p, op, x, y);
    }
    CpusKept(s, t);
  }

  // ---- Wake ----

  predicate IsWaking(pc: Pc) {
    pc.Reparent? || pc.WakingInit? || pc.WakingParent?
  }

  /** All that the loops of exit can change: the program counter, and another process' parent, or its
      state from SLEEPING to RUNNABLE. */
  predicate WakeEffect(s: Sys, t: Sys, p: nat, o: nat)
    requires p < |s.procs| && o < |s.procs|
  {
    && t == s.(procs := t.procs) && |t.procs| == |s.procs|
    && (forall x | 0 <= x < |s.procs| && x != p && x != o :: t.procs[x] == s.procs[x])
    && t.procs[p] == s.procs[p].(pc := t.procs[p].pc, parent := t.procs[p].parent)
    && IsWaking(s.procs[p].pc) && IsWaking(t.procs[p].pc) && PcInRange(|s.procs|, t.procs[p].pc)
    && t.procs[p].parent in {s.procs[p].parent, s.init} && t.procs[o].parent in {s.procs[o].parent, s.init}
    && (o != p ==>
          && t.procs[o] == s.procs[o].(state := t.procs[o].state, parent := t.procs[o].parent)
          && (t.procs[o].state == s.procs[o].state
              || (s.procs[o].state == SLEEPING && t.procs[o].state == RUNNABLE))
          && (s.procs[o].parent == NONE ==> t.procs[o].parent == NONE))
  }

  lemma WakeChanges(s: Sys, p: nat, op: WakeOp)
    requires p < |s.procs| && MayWake(s, p, op) && PcInRange(|s.procs|, s.procs[p].pc)
    ensures WakeEffect(s, DoWake(s, p, op), p, WakeOther(s, p, op))
  {
  }

  lemma WakeFrame(s: Sys, p: nat, op: WakeOp, x: nat)
    requires p < |s.procs| && x < |s.procs| && MayWake(s, p, op) && OnCpu(s.procs[p].pc)
    requires Settled(s, p, WakeOther(s, p, op)) && ShapeAt(s, x) && StateAt(s, x)
    ensures var t := DoWake(s, p, op); Framed(s, t) && ShapeAt(t, x) && SameForCpus(s.procs[x], t.procs[x])
  {
    hide DoWake, MayWake, WakeOther;
    WakeChanges(s, p, op);
  }

  lemma WakeState(s: Sys, p: nat, op: WakeOp, x: nat)
    requires p < |s.procs| && x < |s.procs| && MayWake(s, p, op) && OnCpu(s.procs[p].pc)
    requires Settled(s, p, WakeOther(s, p, op)) && StateAt(s, x)
    ensures var t := DoWake(s, p, op); |t.procs| == |s.procs| && StateAt(t, x)
  {
    hide WaitLockAt, DoWake, MayWake, WakeOther;
    WakeChanges(s, p, op);
  }

  lemma WakeWaitLock(s: Sys, p: nat, op: WakeOp, x: nat)
    requires p < |s.procs| && x < |s.procs| && MayWake(s, p, op) && OnCpu(s.procs[p].pc)
    requires Settled(s, p, WakeOther(s, p, op)) && WaitLockAt(s, x)
    ensures var t := DoWake(s, p, op); |t.procs| == |s.procs| && WaitLockAt(t, x)
  {
    hide LockAt, DoWake, MayWake, WakeOther;
    WakeChanges(s, p, op);
  }

  lemma WakeLocks(s: Sys, p: nat, op: WakeOp, x: nat, y: nat)
    requires p < |s.procs| && x < |s.procs| && y < |s.procs| && MayWake(s, p, op) && OnCpu(s.procs[p].pc)
    requires Settled(s, p, WakeOther(s, p, op)) && LockAt(s, x, y) && LockAt(s, p, y)
    ensures var t := DoWake(s, p, op); |t.procs| == |s.procs| && LockAt(t, x, y)
  {
    hide DoWake, MayWake, WakeOther;
    WakeChanges(s, p, op);
  }

  lemma WakeMaker(s: Sys, p: nat, op: WakeOp, x: nat)
    requires p < |s.procs| && x < |s.procs| && MayWake(s, p, op) && OnCpu(s.procs[p].pc)
    requires Settled(s, p, WakeOther(s, p, op)) && StateAt(s, x) && MakerAt(s, x)
    requires MakersDiffer(s, x, p)
    ensures var t := DoWake(s, p, op); |t.procs| == |s.procs| && MakerAt(t, x)
  {
    hide LockAt, WaitLockAt, DoWake, MayWake, WakeOther;
    WakeChanges(s, p, op);
  }

  lemma WakeMakers(s: Sys, p: nat, op: WakeOp, x: nat, y: nat)
    requires p < |s.procs| && x < |s.procs| && y < |s.procs| && MayWake(s, p, op) && OnCpu(s.procs[p].pc)
    requires Settled(s, p, WakeOther(s, p, op)) && StateAt(s, x) && MakerAt(s, x) && MakerAt(s, y)
    requires MakersDiffer(s, x, p) && MakersDiffer(s, x, y)
    ensures var t := DoWake(s, p, op); |t.procs| == |s.procs| && MakersDiffer(t, x, y)
  {
    hide LockAt, WaitLockAt, DoWake, MayWake, WakeOther;
    WakeChanges(s, p, op);
  }

  lemma WakeReaped(s: Sys, p: nat, op: WakeOp, x: nat)
    requires p < |s.procs| && x < |s.procs| && MayWake(s, p, op) && OnCpu(s.procs[p].pc)
    requires Settled(s, p, WakeOther(s, p, op)) && ReaperAt(s, x) && LockAt(s, x, WakeOther(s, p, op))
    requires WaitLockAt(s, x)
    ensures var t := DoWake(s, p, op); |t.procs| == |s.procs| && ReaperAt(t, x)
  {
    hide InitStays;
  }

  lemma WakeScanned(s: Sys, p: nat, op: WakeOp, x: nat, y: nat)
    requires p < |s.procs| && x < |s.procs| && y < |s.procs| && MayWake(s, p, op) && OnCpu(s.procs[p].pc)
    requires Settled(s, p, WakeOther(s, p, op)) && ScannedAt(s, x, y) && WaitLockAt(s, x) && StateAt(s, y)
    ensures var t := DoWake(s, p, op); |t.procs| == |s.procs| && ScannedAt(t, x, y)
  {
    hide InitStays;
  }

  lemma ReparentKeepsChild(s: Sys, p: nat, x: nat)
    requires p < |s.procs| && x < |s.procs| && MayWake(s, p, ReparentNext) && OnCpu(s.procs[p].pc)
    requires Settled(s, p, WakeOther(s, p, ReparentNext)) && WokenAt(s, p) && ChildAt(s, x)
    ensures |DoWake(s, p, ReparentNext).procs| == |s.procs| && ChildAt(DoWake(s, p, ReparentNext), x)
  {
  }

  lemma WakeInitKeepsChild(s: Sys, p: nat, x: nat)
    requires p < |s.procs| && x < |s.procs| && MayWake(s, p, WakeInit) && OnCpu(s.procs[p].pc)
    requires Settled(s, p, WakeOther(s, p, WakeInit)) && WokenAt(s, p) && ChildAt(s, x)
    ensures |DoWake(s, p, WakeInit).procs| == |s.procs| && ChildAt(DoWake(s, p, WakeInit), x)
  {
  }

  lemma WakeParentKeepsChild(s: Sys, p: nat, x: nat)
    requires p < |s.procs| && x < |s.procs| && MayWake(s, p, WakeParent) && OnCpu(s.procs[p].pc)
    requires Settled(s, p, WakeOther(s, p, WakeParent)) && WokenAt(s, p) && ChildAt(s, x)
    ensures |DoWake(s, p, WakeParent).procs| == |s.procs| && ChildAt(DoWake(s, p, WakeParent), x)
  {
  }

  lemma WakeChild(s: Sys, p: nat, op: WakeOp, x: nat)
    requires p < |s.procs| && x < |s.procs| && MayWake(s, p, op) && OnCpu(s.procs[p].pc)
    requires Settled(s, p, WakeOther(s, p, op)) && WokenAt(s, p) && ChildAt(s, x) && ScannedAt(s, p, x)
    ensures var t := DoWake(s, p, op); |t.procs| == |s.procs| && ChildAt(t, x)
  {
    match op
    case ReparentNext => ReparentKeepsChild(s, p, x);
    case WakeInit => WakeInitKeepsChild(s, p, x);
    case WakeParent => WakeParentKeepsChild(s, p, x);
  }

  lemma WakeWoken(s: Sys, p: nat, op: WakeOp, x: nat)
    requires p < |s.procs| && x < |s.procs| && MayWake(s, p, op) && OnCpu(s.procs[p].pc)
    requires Settled(s, p, WakeOther(s, p, op)) && WokenAt(s, x) && WaitLockAt(s, x)
    ensures var t := DoWake(s, p, op); |t.procs| == |s.procs| && WokenAt(t, x)
  {
  }

  lemma WakeKeepsInv(s: Sys, p: nat, op: WakeOp)
    requires Inv(s) && p < |s.procs| && MayWake(s, p, op) && OnCpu(s.procs[p].pc)
    ensures Inv(DoWake(s, p, op))
  {
    hide DoWake, MayWake, Cpus, Settled, SameForCpus, InitStays,
         ShapeAt, StateAt, LockAt, WaitLockAt, MakerAt, MakersDiffer, ReaperAt, ScannedAt, ChildAt, WokenAt;
    var t, o := DoWake(s, p, op), WakeOther(s, p, op);
    IsSettled(s, p, o);
    assert OneAt(s, p);
    WakeFrame(s, p, op, p);
    forall x | 0 <= x < |s.procs| ensures OneAt(t, x) && SameForCpus(s.procs[x], t.procs[x]) {
      assert OneAt(s, x) && PairAt(s, x, o) && PairAt(s, x, p);
      assert PairAt(s, x, x) && PairAt(s, p, x);
      WakeFrame(s, p, op, x);
      WakeState(s, p, op, x);
      WakeWaitLock(s, p, op, x);
      WakeLocks(s, p, op, x, x);
      WakeMaker(s, p, op, x);
      WakeReaped(s, p, op, x);
      WakeChild(s, p, op, x);
      WakeWoken(s, p, op, x);
    }
    forall x, y | 0 <= x < |s.procs| && 0 <= y < |s.procs| ensures PairAt(t, x, y) {
      assert OneAt(s, x) && OneAt(s, y) && PairAt(s, x, y) && PairAt(s, x, p) && PairAt(s, p, y);
      WakeLocks(s, p, op, x, y);
      WakeMakers(s, p, op, x, y);
      WakeScanned(s, p, op, x, y);
    }
    CpusKept(s, t);
  }

  // ---- Wait ----

  lemma WaitFrame(s: Sys, p: nat, op: WaitOp, x: nat)
    requires p < |s.procs| && x < |s.procs| && MayWait(s, p, op) && OnCpu(s.procs[p].pc)
    requires Settled(s, p, WaitOther(s, p, op)) && ShapeAt(s, x) && StateAt(s, x)
    ensures var t := DoWait(s, p, op); Framed(s, t) && SameForCpus(s.procs[x], t.procs[x])
  {
    hide WaitLockAt, MakerAt;
  }

  lemma WaitShape(s: Sys, p: nat, op: WaitOp, x: nat)
    requires p < |s.procs| && x < |s.procs| && MayWait(s, p, op) && OnCpu(s.procs[p].pc)
    requires Settled(s, p, WaitOther(s, p, op)) && ShapeAt(s, x) && StateAt(s, x)
    ensures var t := DoWait(s, p, op); |t.procs| == |s.procs| && ShapeAt(t, x)
  {
    hide InitStays, WaitLockAt, MakerAt;
  }

  lemma WaitState(s: Sys, p: nat, op: WaitOp, x: nat)
    requires p < |s.procs| && x < |s.procs| && MayWait(s, p, op) && OnCpu(s.procs[p].pc)
    requires Settled(s, p, WaitOther(s, p, op)) && StateAt(s, x)
    ensures var t := DoWait(s, p, op); |t.procs| == |s.procs| && StateAt(t, x)
  {
    hide InitStays, WaitLockAt, MakerAt;
  }

  lemma WaitWaitLock(s: Sys, p: nat, op: WaitOp, x: nat)
    requires p < |s.procs| && x < |s.procs| && MayWait(s, p, op) && OnCpu(s.procs[p].pc)
    requires Settled(s, p, WaitOther(s, p, op)) && WaitLockAt(s, x)
    ensures var t := DoWait(s, p, op); |t.procs| == |s.procs| && WaitLockAt(t, x)
  {
    hide InitStays, LockAt;
  }

  lemma WaitLockOf(s: Sys, p: nat, op: WaitOp, x: nat, y: nat)
    requires p < |s.procs| && x < |s.procs| && y < |s.procs| && MayWait(s, p, op) && OnCpu(s.procs[p].pc)
    requires Settled(s, p, WaitOther(s, p, op)) && LockAt(s, x, y) && LockAt(s, p, y)
    requires y == WaitOther(s, p, op)
    ensures var t := DoWait(s, p, op); |t.procs| == |s.procs| && LockAt(t, x, y)
  {
    hide InitStays, ShapeAt, WaitLockAt, MakerAt;
  }

  lemma WaitLockElse(s: Sys, p: nat, op: WaitOp, x: nat, y: nat)
    requires p < |s.procs| && x < |s.procs| && y < |s.procs| && MayWait(s, p, op) && OnCpu(s.procs[p].pc)
    requires Settled(s, p, WaitOther(s, p, op)) && LockAt(s, x, y) && LockAt(s, p, y)
    requires y != WaitOther(s, p, op)
    ensures var t := DoWait(s, p, op); |t.procs| == |s.procs| && LockAt(t, x, y)
  {
    hide InitStays, ShapeAt, WaitLockAt, MakerAt;
  }

  lemma WaitLocks(s: Sys, p: nat, op: WaitOp, x: nat, y: nat)
    requires p < |s.procs| && x < |s.procs| && y < |s.procs| && MayWait(s, p, op) && OnCpu(s.procs[p].pc)
    requires Settled(s, p, WaitOther(s, p, op)) && LockAt(s, x, y) && LockAt(s, p, y)
    ensures var t := DoWait(s, p, op); |t.procs| == |s.procs| && LockAt(t, x, y)
  {
    hide DoWait, MayWait, Settled, LockAt;
    if y == WaitOther(s, p, op) {
      WaitLockOf(s, p, op, x, y);
    } else {
      WaitLockElse(s, p, op, x, y);
    }
  }

  lemma WaitMaker(s: Sys, p: nat, op: WaitOp, x: nat)
    requires p < |s.procs| && x < |s.procs| && MayWait(s, p, op) && OnCpu(s.procs[p].pc)
    requires Settled(s, p, WaitOther(s, p, op)) && StateAt(s, x) && MakerAt(s, x)
    requires MakersDiffer(s, x, p)
    ensures var t := DoWait(s, p, op); |t.procs| == |s.procs| && MakerAt(t, x)
  {
    hide InitStays, LockAt, WaitLockAt, ShapeAt;
  }

  lemma WaitMakers(s: Sys, p: nat, op: WaitOp, x: nat, y: nat)
    requires p < |s.procs| && x < |s.procs| && y < |s.procs| && MayWait(s, p, op) && OnCpu(s.procs[p].pc)
    requires Settled(s, p, WaitOther(s, p, op)) && StateAt(s, x) && MakerAt(s, x) && MakerAt(s, y)
    requires MakersDiffer(s, x, p) && MakersDiffer(s, x, y)
    ensures var t := DoWait(s, p, op); |t.procs| == |s.procs| && MakersDiffer(t, x, y)
  {
    hide InitStays, LockAt, WaitLockAt, ShapeAt;
  }

  lemma WaitReaped(s: Sys, p: nat, op: WaitOp, x: nat)
    requires p < |s.procs| && x < |s.procs| && MayWait(s, p, op) && OnCpu(s.procs[p].pc)
    requires Settled(s, p, WaitOther(s, p, op)) && ReaperAt(s, x) && LockAt(s, x, WaitOther(s, p, op))
    requires WaitLockAt(s, x)
    ensures var t := DoWait(s, p, op); |t.procs| == |s.procs| && ReaperAt(t, x)
  {
    hide InitStays;
  }

  lemma WaitScanned(s: Sys, p: nat, op: WaitOp, x: nat, y: nat)
    requires p < |s.procs| && x < |s.procs| && y < |s.procs| && MayWait(s, p, op) && OnCpu(s.procs[p].pc)
    requires Settled(s, p, WaitOther(s, p, op)) && ScannedAt(s, x, y) && WaitLockAt(s, x) && StateAt(s, y)
    ensures var t := DoWait(s, p, op); |t.procs| == |s.procs| && ScannedAt(t, x, y)
  {
    hide InitStays;
  }

  lemma ReapKeepsChild(s: Sys, p: nat, op: WaitOp, x: nat)
    requires p < |s.procs| && x < |s.procs| && MayWait(s, p, op) && OnCpu(s.procs[p].pc)
    requires Settled(s, p, WaitOther(s, p, op)) && WokenAt(s, p) && ChildAt(s, x) && ScannedAt(s, p, x)
    requires op.WaitReap? || op.WaitCopyFails?
    ensures var t := DoWait(s, p, op); |t.procs| == |s.procs| && ChildAt(t, x)
  {
    hide InitStays, MakerAt;
  }

  lemma ScanKeepsChild(s: Sys, p: nat, op: WaitOp, x: nat)
    requires p < |s.procs| && x < |s.procs| && MayWait(s, p, op) && OnCpu(s.procs[p].pc)
    requires Settled(s, p, WaitOther(s, p, op)) && WokenAt(s, p) && ChildAt(s, x) && ScannedAt(s, p, x)
    requires !op.WaitReap? && !op.WaitCopyFails?
    ensures var t := DoWait(s, p, op); |t.procs| == |s.procs| && ChildAt(t, x)
  {
    hide InitStays, MakerAt;
  }

  lemma WaitChild(s: Sys, p: nat, op: WaitOp, x: nat)
    requires p < |s.procs| && x < |s.procs| && MayWait(s, p, op) && OnCpu(s.procs[p].pc)
    requires Settled(s, p, WaitOther(s, p, op)) && WokenAt(s, p) && ChildAt(s, x) && ScannedAt(s, p, x)
    ensures var t := DoWait(s, p, op); |t.procs| == |s.procs| && ChildAt(t, x)
  {
    hide DoWait, MayWait, Settled, ChildAt;
    if op.WaitReap? || op.WaitCopyFails? {
      ReapKeepsChild(s, p, op, x);
    } else {
      ScanKeepsChild(s, p, op, x);
    }
  }

  lemma WaitWoken(s: Sys, p: nat, op: WaitOp, x: nat)
    requires p < |s.procs| && x < |s.procs| && MayWait(s, p, op) && OnCpu(s.procs[p].pc)
    requires Settled(s, p, WaitOther(s, p, op)) && WokenAt(s, x) && WaitLockAt(s, x)
    ensures var t := DoWait(s, p, op); |t.procs| == |s.procs| && WokenAt(t, x)
  {
  }

  lemma WaitKeepsInv(s: Sys, p: nat, op: WaitOp)
    requires Inv(s) && p < |s.procs| && MayWait(s, p, op) && OnCpu(s.procs[p].pc)
    ensures Inv(DoWait(s, p, op))
  {
    hide DoWait, MayWait, Cpus, Settled, SameForCpus, InitStays,
         ShapeAt, StateAt, LockAt, WaitLockAt, MakerAt, MakersDiffer, ReaperAt, ScannedAt, ChildAt, WokenAt;
    var t, o := DoWait(s, p, op), WaitOther(s, p, op);
    IsSettled(s, p, o);
    assert OneAt(s, p);
    WaitFrame(s, p, op, p);
    forall x | 0 <= x < |s.procs| ensures OneAt(t, x) && SameForCpus(s.procs[x], t.procs[x]) {
      assert OneAt(s, x) && PairAt(s, x, o) && PairAt(s, x, p);
      assert PairAt(s, x, x) && PairAt(s, p, x);
      WaitFrame(s, p, op, x);
      WaitShape(s, p, op, x);
      WaitState(s, p, op, x);
      WaitWaitLock(s, p, op, x);
      WaitLocks(s, p, op, x, x);
      WaitMaker(s, p, op, x);
      WaitReaped(s, p, op, x);
      WaitChild(s, p, op, x);
      WaitWoken(s, p, op, x);
    }
    forall x, y | 0 <= x < |s.procs| && 0 <= y < |s.procs| ensures PairAt(t, x, y) {
      assert OneAt(s, x) && OneAt(s, y) && PairAt(s, x, y) && PairAt(s, x, p) && PairAt(s, p, y);
      WaitLocks(s, p, op, x, y);
      WaitMakers(s, p, op, x, y);
      WaitScanned(s, p, op, x, y);
    }
    CpusKept(s, t);
  }

  // ---- Sleep ----

  lemma SleepState(s: Sys, p: nat, op: SleepOp, x: nat)
    requires p < |s.procs| && x < |s.procs| && MaySleep(s, p, op) && OnCpu(s.procs[p].pc)
    requires Settled(s, p, p) && ShapeAt(s, x) && StateAt(s, x) && WaitLockAt(s, x)
    ensures var t := DoSleep(s, p, op);
      && Framed(s, t) && SameForCpus(s.procs[x], t.procs[x])
      && ShapeAt(t, x) && StateAt(t, x) && WaitLockAt(t, x)
  {
  }

  lemma SleepLinks(s: Sys, p: nat, op: SleepOp, x: nat)
    requires p < |s.procs| && x < |s.procs| && MaySleep(s, p, op) && OnCpu(s.procs[p].pc)
    requires Settled(s, p, p) && StateAt(s, x) && WaitLockAt(s, x) && LockAt(s, x, p)
    requires MakerAt(s, x) && MakersDiffer(s, x, p) && ReaperAt(s, x) && WokenAt(s, x)
    ensures var t := DoSleep(s, p, op);
      |t.procs| == |s.procs| && MakerAt(t, x) && ReaperAt(t, x) && WokenAt(t, x)
  {
    hide InitStays;
  }

  lemma SleepChild(s: Sys, p: nat, op: SleepOp, x: nat)
    requires p < |s.procs| && x < |s.procs| && MaySleep(s, p, op) && OnCpu(s.procs[p].pc)
    requires Settled(s, p, p) && WokenAt(s, p) && ChildAt(s, x) && ScannedAt(s, p, x)
    ensures var t := DoSleep(s, p, op); |t.procs| == |s.procs| && ChildAt(t, x)
  {
  }

  lemma SleepLocks(s: Sys, p: nat, op: SleepOp, x: nat, y: nat)
    requires p < |s.procs| && x < |s.procs| && y < |s.procs| && MaySleep(s, p, op) && OnCpu(s.procs[p].pc)
    requires Settled(s, p, p) && StateAt(s, x) && WaitLockAt(s, x) && LockAt(s, p, y) && LockAt(s, x, y)
    ensures var t := DoSleep(s, p, op); |t.procs| == |s.procs| && LockAt(t, x, y)
  {
    hide InitStays, ShapeAt, MakerAt;
  }

  lemma SleepPair(s: Sys, p: nat, op: SleepOp, x: nat, y: nat)
    requires p < |s.procs| && x < |s.procs| && y < |s.procs| && MaySleep(s, p, op) && OnCpu(s.procs[p].pc)
    requires Settled(s, p, p) && StateAt(s, x) && StateAt(s, y) && WaitLockAt(s, x) && MakerAt(s, x) && MakerAt(s, y)
    requires MakersDiffer(s, x, p) && MakersDiffer(s, x, y) && ScannedAt(s, x, y)
    ensures var t := DoSleep(s, p, op); |t.procs| == |s.procs| && MakersDiffer(t, x, y) && ScannedAt(t, x, y)
  {
    hide InitStays, ShapeAt, LockAt;
  }

  lemma SleepKeepsInv(s: Sys, p: nat, op: SleepOp)
    requires Inv(s) && p < |s.procs| && MaySleep(s, p, op) && OnCpu(s.procs[p].pc)
    ensures Inv(DoSleep(s, p, op))
  {
    hide DoSleep, MaySleep, Cpus, Settled, SameForCpus, InitStays,
         ShapeAt, StateAt, LockAt, WaitLockAt, MakerAt, MakersDiffer, ReaperAt, ScannedAt, ChildAt, WokenAt;
    var t, o := DoSleep(s, p, op), p;
    IsSettled(s, p, o);
    assert OneAt(s, p);
    SleepState(s, p, op, p);
    forall x | 0 <= x < |s.procs| ensures OneAt(t, x) && SameForCpus(s.procs[x], t.procs[x]) {
      assert OneAt(s, x) && PairAt(s, x, o) && PairAt(s, x, p);
      assert PairAt(s, x, x) && PairAt(s, p, x);
      SleepState(s, p, op, x);
      SleepLinks(s, p, op, x);
      SleepChild(s, p, op, x);
    }
    forall x, y | 0 <= x < |s.procs| && 0 <= y < |s.procs| ensures PairAt(t, x, y) {
      assert OneAt(s, x) && OneAt(s, y) && PairAt(s, x, y) && PairAt(s, x, p) && PairAt(s, p, y);
      SleepLocks(s, p, op, x, y);
      SleepPair(s, p, op, x, y);
    }
    CpusKept(s, t);
  }

  // ---- Other ----

  lemma OtherState(s: Sys, p: nat, op: OtherOp, x: nat)
    requires p < |s.procs| && x < |s.procs| && MayDo(s, p, op) && OnCpu(s.procs[p].pc)
    requires Settled(s, p, DoOther(s, p, op)) && ShapeAt(s, x) && StateAt(s, x) && WaitLockAt(s, x)
    ensures var t := Do(s, p, op);
      && Framed(s, t) && SameForCpus(s.procs[x], t.procs[x])
      && ShapeAt(t, x) && StateAt(t, x) && WaitLockAt(t, x)
  {
  }

  lemma OtherLinks(s: Sys, p: nat, op: OtherOp, x: nat)
    requires p < |s.procs| && x < |s.procs| && MayDo(s, p, op) && OnCpu(s.procs[p].pc)
    requires Settled(s, p, DoOther(s, p, op)) && StateAt(s, x) && WaitLockAt(s, x) && LockAt(s, x, DoOther(s, p, op))
    requires MakerAt(s, x) && MakersDiffer(s, x, p) && ReaperAt(s, x) && WokenAt(s, x)
    ensures var t := Do(s, p, op);
      |t.procs| == |s.procs| && MakerAt(t, x) && ReaperAt(t, x) && WokenAt(t, x)
  {
    hide InitStays;
  }

  lemma OtherChild(s: Sys, p: nat, op: OtherOp, x: nat)
    requires p < |s.procs| && x < |s.procs| && MayDo(s, p, op) && OnCpu(s.procs[p].pc)
    requires Settled(s, p, DoOther(s, p, op)) && WokenAt(s, p) && ChildAt(s, x) && ScannedAt(s, p, x)
    ensures var t := Do(s, p, op); |t.procs| == |s.procs| && ChildAt(t, x)
  {
  }

  lemma OtherLocks(s: Sys, p: nat, op: OtherOp, x: nat, y: nat)
    requires p < |s.procs| && x < |s.procs| && y < |s.procs| && MayDo(s, p, op) && OnCpu(s.procs[p].pc)
    requires Settled(s, p, DoOther(s, p, op)) && LockAt(s, x, y) && LockAt(s, p, y)
    ensures var t := Do(s, p, op); |t.procs| == |s.procs| && LockAt(t, x, y)
  {
    hide InitStays, ShapeAt;
  }

  lemma OtherPair(s: Sys, p: nat, op: OtherOp, x: nat, y: nat)
    requires p < |s.procs| && x < |s.procs| && y < |s.procs| && MayDo(s, p, op) && OnCpu(s.procs[p].pc)
    requires Settled(s, p, DoOther(s, p, op)) && StateAt(s, x) && StateAt(s, y) && MakerAt(s, x) && MakerAt(s, y)
    requires WaitLockAt(s, x) && MakersDiffer(s, x, p) && MakersDiffer(s, x, y) && ScannedAt(s, x, y)
    ensures var t := Do(s, p, op); |t.procs| == |s.procs| && MakersDiffer(t, x, y) && ScannedAt(t, x, y)
  {
    hide InitStays, ShapeAt, LockAt;
  }

  lemma OtherKeepsInv(s: Sys, p: nat, op: OtherOp)
    requires Inv(s) && p < |s.procs| && MayDo(s, p, op) && OnCpu(s.procs[p].pc)
    ensures Inv(Do(s, p, op))
  {
    hide Do, MayDo, Cpus, Settled, SameForCpus, InitStays,
         ShapeAt, StateAt, LockAt, WaitLockAt, MakerAt, MakersDiffer, ReaperAt, ScannedAt, ChildAt, WokenAt;
    var t, o := Do(s, p, op), DoOther(s, p, op);
    IsSettled(s, p, o);
    assert OneAt(s, p);
    OtherState(s, p, op, p);
    forall x | 0 <= x < |s.procs| ensures OneAt(t, x) && SameForCpus(s.procs[x], t.procs[x]) {
      assert OneAt(s, x) && PairAt(s, x, o) && PairAt(s, x, p);
      assert PairAt(s, x, x) && PairAt(s, p, x);
      OtherState(s, p, op, x);
      OtherLinks(s, p, op, x);
      OtherChild(s, p, op, x);
    }
    forall x, y | 0 <= x < |s.procs| && 0 <= y < |s.procs| ensures PairAt(t, x, y) {
      assert OneAt(s, x) && OneAt(s, y) && PairAt(s, x, y) && PairAt(s, x, p) && PairAt(s, p, y);
      OtherLocks(s, p, op, x, y);
      OtherPair(s, p, op, x, y);
    }
    CpusKept(s, t);
  }

  // ---- sched and scheduler ----

  /** The process whose entry a scheduler's step changes. */
  function Handed(s: Sys, c: nat, op: SchedOp): nat
    requires MaySched(s, c, op)
  {
    if op.Pick? then op.p else if op.WakeIdle? then op.j else s.cpus[c].p
  }

  /** What that process, and the CPU, are like. */
  predicate SettledCpu(s: Sys, c: nat, h: nat)
    requires c < |s.cpus|
  {
    && h < |s.procs| && InitStays(s) && (s.waitLock == NONE || 0 <= s.waitLock < |s.procs|)
    && CpuAt(s, c) && SchedLockAt(s, c, h) && ShapeAt(s, h) && StateAt(s, h) && LockAt(s, h, h)
  }

  lemma IsSettledCpu(s: Sys, c: nat, op: SchedOp)
    requires Inv(s) && MaySched(s, c, op)
    ensures SettledCpu(s, c, Handed(s, c, op))
  {
    var h := Handed(s, c, op);
    assert CpuAt(s, c) && OneAt(s, h) && PairAt(s, h, h) && SchedLockAt(s, c, h);
  }

  lemma SchedState(s: Sys, c: nat, op: SchedOp, x: nat)
    requires MaySched(s, c, op) && x < |s.procs| && SettledCpu(s, c, Handed(s, c, op))
    requires ShapeAt(s, x) && StateAt(s, x)
    ensures var t := DoSched(s, c, op);
      |t.procs| == |s.procs| && InitStays(t) && t.waitLock == s.waitLock && ShapeAt(t, x) && StateAt(t, x)
  {
  }

  lemma SchedMaker(s: Sys, c: nat, op: SchedOp, x: nat)
    requires MaySched(s, c, op) && x < |s.procs| && SettledCpu(s, c, Handed(s, c, op))
    requires MakerAt(s, x) && WaitLockAt(s, x)
    ensures var t := DoSched(s, c, op); |t.procs| == |s.procs| && MakerAt(t, x) && WaitLockAt(t, x)
  {
  }

  lemma SchedReaped(s: Sys, c: nat, op: SchedOp, x: nat)
    requires MaySched(s, c, op) && x < |s.procs| && SettledCpu(s, c, Handed(s, c, op))
    requires ReaperAt(s, x) && LockAt(s, x, Handed(s, c, op))
    ensures var t := DoSched(s, c, op); |t.procs| == |s.procs| && ReaperAt(t, x)
  {
  }

  lemma SchedChild(s: Sys, c: nat, op: SchedOp, x: nat)
    requires MaySched(s, c, op) && x < |s.procs| && SettledCpu(s, c, Handed(s, c, op))
    requires ChildAt(s, x) && WokenAt(s, x)
    ensures var t := DoSched(s, c, op); |t.procs| == |s.procs| && ChildAt(t, x) && WokenAt(t, x)
  {
  }

  lemma SchedLocks(s: Sys, c: nat, op: SchedOp, x: nat, y: nat)
    requires MaySched(s, c, op) && x < |s.procs| && y < |s.procs| && SettledCpu(s, c, Handed(s, c, op))
    requires var h := Handed(s, c, op); LockAt(s, x, y) && LockAt(s, x, h) && LockAt(s, h, y)
    ensures |DoSched(s, c, op).procs| == |s.procs| && LockAt(DoSched(s, c, op), x, y)
  {
  }

  lemma SchedPair(s: Sys, c: nat, op: SchedOp, x: nat, y: nat)
    requires MaySched(s, c, op) && x < |s.procs| && y < |s.procs| && SettledCpu(s, c, Handed(s, c, op))
    requires MakersDiffer(s, x, y) && ScannedAt(s, x, y)
    ensures var t := DoSched(s, c, op);
      |t.procs| == |s.procs| && MakersDiffer(t, x, y) && ScannedAt(t, x, y)
  {
  }

  lemma SchedKeepsCpus(s: Sys, c: nat, op: SchedOp)
    requires Cpus(s) && MaySched(s, c, op) && SettledCpu(s, c, Handed(s, c, op))
    ensures Cpus(DoSched(s, c, op))
  {
    var t, h := DoSched(s, c, op), Handed(s, c, op);
    forall d | 0 <= d < |t.cpus| ensures CpuAt(t, d) {
      assert CpuAt(s, d) && CpusDiffer(s, c, d) && CpusDiffer(s, d, c);
    }
    forall d, e | 0 <= d < |t.cpus| && 0 <= e < |t.cpus| ensures CpusDiffer(t, d, e) {
      assert CpusDiffer(s, d, e) && CpuAt(s, d) && CpuAt(s, e);
    }
    forall d, y | 0 <= d < |t.cpus| && 0 <= y < |t.procs| ensures SchedLockAt(t, d, y) {
      assert SchedLockAt(s, d, y) && SchedLockAt(s, d, h) && SchedLockAt(s, c, y);
    }
  }

  lemma SchedKeepsInv(s: Sys, c: nat, op: SchedOp)
    requires Inv(s) && MaySched(s, c, op)
    ensures Inv(DoSched(s, c, op))
  {
    hide DoSched, Cpus, SettledCpu, InitStays,
         ShapeAt, StateAt, LockAt, WaitLockAt, MakerAt, MakersDiffer, ReaperAt, ScannedAt, ChildAt, WokenAt;
    var t, h := DoSched(s, c, op), Handed(s, c, op);
    IsSettledCpu(s, c, op);
    SchedKeepsCpus(s, c, op);
    assert OneAt(s, h) && PairAt(s, h, h);
    SchedState(s, c, op, h);
    forall x | 0 <= x < |t.procs| ensures OneAt(t, x) {
      assert OneAt(s, x) && PairAt(s, x, h);
      SchedState(s, c, op, x);
      SchedMaker(s, c, op, x);
      SchedReaped(s, c, op, x);
      SchedChild(s, c, op, x);
    }
    forall x, y | 0 <= x < |t.procs| && 0 <= y < |t.procs| ensures PairAt(t, x, y) {
      assert PairAt(s, x, y) && PairAt(s, x, h) && PairAt(s, h, y);
      SchedLocks(s, c, op, x, y);
      SchedPair(s, c, op, x, y);
    }
  }
}
