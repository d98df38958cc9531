// The log as a system: many processes between begin_op and end_op, one committing group at a
// time, and a machine that may crash between any two disk writes, also while it recovers.

module LogSystem {
  import opened LogLayout
  import opened LogOps

  datatype Write = Write(op: nat, block: int, data: Block)
  type Group = seq<Write>

  /** A process outside any operation, or inside operation `op` having logged `blocks`. */
  datatype Process = Idle | InOp(op: nat, blocks: set<int>)

  /** `done` counts the disk writes made so far by the commit or recovery in progress. */
  datatype Phase = Running | Committing(done: nat) | Recovering(done: nat)

  datatype Sys = Sys(
    disk: Disk,
    base: Disk,               // the disk when the commit or recovery in progress began
    phase: Phase,
    log: LogState,
    cache: map<int, Block>,
    procs: seq<Process>,
    panicked: bool,
    // What happened, for the statements below only.
    current: Group,           // log_writes since the last commit, in order
    closed: seq<Group>,       // groups handed to commit() since the last boot
    booted: nat,              // how many groups were durable at the last boot
    durable: seq<Group>,      // groups whose header reached the disk
    returned: nat,            // groups whose commit() returned
    history: seq<Write>,      // every log_write ever
    nextOp: nat)

  datatype Step =
    | Begin(p: nat)
    | LogWrite(p: nat, b: int, data: Block)
    | End(p: nat)
    | CommitWrite
    | CommitReturn
    | Crash
    | RecoverWrite
    | RecoverReturn

  ghost predicate Initial(l: Layout, init: Disk, s: Sys) {
    && HeadOk(l, init) && HeadCount(l, init) == 0
    && s.disk == init && s.base == init && s.phase == Running
    && s.log == LogState(0, false, []) && s.cache == map[]
    && (forall p | 0 <= p < |s.procs| :: s.procs[p] == Idle)
    && !s.panicked && s.current == [] && s.closed == [] && s.booted == 0
    && s.durable == [] && s.returned == 0 && s.history == [] && s.nextOp == 0
  }

  /** The number of disk writes commit() makes. */
  function CommitWrites(s: Sys): nat {
    if s.log.lh == [] then 0 else 2 * |s.log.lh| + 2
  }

  // A system in a shape in which the functions of LogLayout apply to it.
  ghost predicate Sound(l: Layout, s: Sys) {
    && Loggable(l, |s.disk|, s.log.lh) && |s.base| == |s.disk|
    && (forall b | b in s.log.lh :: b in s.cache)
    && HeadOk(l, s.base)
    && (s.phase.Committing? ==> s.phase.done <= CommitWrites(s))
    && (s.phase.Recovering? ==> s.phase.done <= |Head(l, s.base)| + 1)
  }

  ghost predicate Enabled(l: Layout, s: Sys, step: Step)
    requires Sound(l, s)
  {
    && !s.panicked
    && match step
       case Begin(p) => !s.phase.Recovering? && p < |s.procs| && s.procs[p].Idle? && MayBegin(s.log)
       case LogWrite(p, b, data) => p < |s.procs| && s.procs[p].InOp? && Home(l, |s.disk|, b)
       case End(p) => p < |s.procs| && s.procs[p].InOp?
       case CommitWrite => s.phase.Committing? && s.phase.done < CommitWrites(s)
       case CommitReturn => s.phase.Committing? && s.phase.done == CommitWrites(s)
       case Crash => true
       case RecoverWrite => s.phase.Recovering? && s.phase.done < |Head(l, s.base)| + 1
       case RecoverReturn => s.phase.Recovering? && s.phase.done == |Head(l, s.base)| + 1
  }

  ghost function Apply(l: Layout, s: Sys, step: Step): Sys
    requires Sound(l, s) && Enabled(l, s, step)
  {
    match step
    case Begin(p) =>
      s.(log := s.log.(outstanding := s.log.outstanding + 1),
         procs := s.procs[p := InOp(s.nextOp, {})],
         nextOp := s.nextOp + 1)
    case LogWrite(p, b, data) =>
      if LogWritePanics(l, s.log) then s.(panicked := true) else
        var w := Write(s.procs[p].op, b, data);
        s.(log := s.log.(lh := Absorb(s.log.lh, b)),
           cache := s.cache[b := data],
           procs := s.procs[p := InOp(s.procs[p].op, s.procs[p].blocks + {b})],
           current := s.current + [w],
           history := s.history + [w])
    case End(p) =>
      if s.log.committing then s.(panicked := true) else
        var left := s.log.outstanding - 1;
        var t := s.(log := s.log.(outstanding := left), procs := s.procs[p := Idle]);
        if left != 0 then t else
          t.(log := t.log.(committing := true), phase := Committing(0), base := s.disk,
             closed := if s.log.lh == [] then s.closed else s.closed + [s.current])
    case CommitWrite =>
      var i := s.phase.done + 1;
      s.(phase := Committing(i),
         disk := CommitDisk(l, s.base, s.log.lh, s.cache, i),
         durable := if i == |s.log.lh| + 1 then s.durable + [s.current] else s.durable)
    case CommitReturn =>
      s.(phase := Running, log := LogState(s.log.outstanding, false, []),
         cache := map[], current := [], returned := |s.durable|)
    case Crash =>
      s.(phase := Recovering(0), base := s.disk, log := LogState(0, false, []), cache := map[],
         procs := seq(|s.procs|, _ => Idle), current := [], closed := [], booted := |s.durable|)
    case RecoverWrite =>
      var i := s.phase.done + 1;
      s.(phase := Recovering(i), disk := RecoverDisk(l, s.base, i))
    case RecoverReturn =>
      s.(phase := Running)
  }

  // ---- what a list of writes does to a disk ----

  function Effect(d: Disk, ws: Group): (r: Disk)
    ensures |r| == |d|
  {
    if ws == [] then d else
      var e := Effect(d, ws[..|ws| - 1]);
      var w := ws[|ws| - 1];
      if 0 <= w.block < |d| then e[w.block := w.data] else e
  }

  /** The disk after whole groups, one after the other. */
  function Effects(d: Disk, gs: seq<Group>): (r: Disk)
    ensures |r| == |d|
  {
    if gs == [] then d else Effect(Effects(d, gs[..|gs| - 1]), gs[|gs| - 1])
  }

  lemma EffectOfAppend(d: Disk, ws: Group, w: Write)
    requires 0 <= w.block < |d|
    ensures Effect(d, ws + [w]) == Effect(d, ws)[w.block := w.data]
  {
    assert (ws + [w])[..|ws|] == ws;
  }

  lemma EffectsOfAppend(d: Disk, gs: seq<Group>, g: Group)
    ensures Effects(d, gs + [g]) == Effect(Effects(d, gs), g)
  {
    assert (gs + [g])[..|gs|] == gs;
  }

  // ---- counting over the process table ----

  function Active(procs: seq<Process>): nat {
    if procs == [] then 0 else
      Active(procs[..|procs| - 1]) + if procs[|procs| - 1].InOp? then 1 else 0
  }

  /** Log slots still promised to the operations that are running. */
  function Unused(procs: seq<Process>): int {
    if procs == [] then 0 else
      Unused(procs[..|procs| - 1]) + Promise(procs[|procs| - 1])
  }

  function Promise(p: Process): int {
    match p case Idle => 0 case InOp(_, blocks) => MAXOPBLOCKS - |blocks|
  }

  lemma {:induction false} CountsAfterUpdate(procs: seq<Process>, p: nat, q: Process)
    requires p < |procs|
    ensures Active(procs[p := q]) == Active(procs)
              - (if procs[p].InOp? then 1 else 0) + (if q.InOp? then 1 else 0)
    ensures Unused(procs[p := q]) == Unused(procs) - Promise(procs[p]) + Promise(q)
  {
    var last := |procs| - 1;
    if p == last {
      assert procs[p := q][..last] == procs[..last];
    } else {
      CountsAfterUpdate(procs[..last], p, q);
      assert procs[p := q][..last] == procs[..last][p := q];
    }
  }

  lemma {:induction false} NoneActive(procs: seq<Process>)
    ensures Active(procs) == 0 <==> forall p | 0 <= p < |procs| :: procs[p].Idle?
    ensures Active(procs) == 0 ==> Unused(procs) == 0
  {
    if procs != [] {
      NoneActive(procs[..|procs| - 1]);
      var last := |procs| - 1;
      assert forall p | 0 <= p < last :: procs[..last][p] == procs[p];
    }
  }

  lemma {:induction false} UnusedBounded(procs: seq<Process>)
    requires forall p | 0 <= p < |procs| && procs[p].InOp? :: |procs[p].blocks| <= MAXOPBLOCKS
    ensures 0 <= Unused(procs) <= Active(procs) * MAXOPBLOCKS
  {
    if procs != [] {
      UnusedBounded(procs[..|procs| - 1]);
    }
  }

  lemma {:induction false} UnusedCoversOne(procs: seq<Process>, p: nat)
    requires p < |procs|
    requires forall q | 0 <= q < |procs| && procs[q].InOp? :: |procs[q].blocks| <= MAXOPBLOCKS
    ensures Promise(procs[p]) <= Unused(procs)
  {
    var last := |procs| - 1;
    UnusedBounded(procs[..last]);
    if p < last {
      UnusedCoversOne(procs[..last], p);
    }
  }

  // ---- the invariant ----

  /** Has the header of the group being committed reached the disk? */
  predicate PastCommitPoint(s: Sys) {
    s.phase.Committing? && s.phase.done > |s.log.lh| > 0
  }

  /** The groups that were durable before the group now collected or committed. */
  function Settled(s: Sys): seq<Group> {
    if PastCommitPoint(s) && s.durable != [] then s.durable[..|s.durable| - 1] else s.durable
  }

  ghost predicate DiskInv(l: Layout, init: Disk, s: Sys) {
    && Sound(l, s) && |s.disk| == |init|
    && HeadOk(l, s.disk)
    && SameHome(l, Recover(l, s.disk), Effects(init, s.durable))
    && match s.phase
       case Running => HeadCount(l, s.disk) == 0
       case Committing(i) =>
         && HeadCount(l, s.base) == 0
         && SameHome(l, s.base, Effects(init, Settled(s)))
         && s.disk == (if s.log.lh == [] then s.base else CommitDisk(l, s.base, s.log.lh, s.cache, i))
       case Recovering(i) => s.disk == RecoverDisk(l, s.base, i)
  }

  /** The cached copies of the logged blocks are what the current group's writes amount to. */
  ghost predicate GroupInv(l: Layout, init: Disk, s: Sys) {
    && (forall b | b in s.log.lh :: b in s.cache)
    && |s.disk| == |init|
    && SameHome(l, Overlay(Effects(init, Settled(s)), s.log.lh, s.cache),
                   Effect(Effects(init, Settled(s)), s.current))
    && (s.log.lh == [] ==> s.current == [])
    && (PastCommitPoint(s) ==> s.durable != [] && s.durable[|s.durable| - 1] == s.current)
    && (s.phase.Recovering? ==> s.log.lh == [] && s.current == [])
  }

  /** Every group of this boot is durable except the one whose header is not yet written. */
  ghost predicate PrefixInv(s: Sys) {
    && s.booted <= |s.durable| && s.returned <= |s.durable|
    && (s.phase.Recovering? ==> s.closed == [])
    && (if s.phase.Committing? && s.log.lh != [] && !PastCommitPoint(s)
        then s.closed == s.durable[s.booted..] + [s.current]
        else s.closed == s.durable[s.booted..])
  }

  ghost predicate CountInv(s: Sys) {
    && s.log.outstanding == Active(s.procs)
    && (s.log.committing <==> s.phase.Committing?)
    && (s.phase != Running ==> s.log.outstanding == 0)
  }

  /** What the operations of a run that stay within their budgets keep of the reservations. */
  ghost predicate SpaceInv(s: Sys) {
    && |s.log.lh| + Unused(s.procs) <= LOGSIZE
    && forall p | 0 <= p < |s.procs| && s.procs[p].InOp? ::
         |s.procs[p].blocks| <= MAXOPBLOCKS && forall b | b in s.procs[p].blocks :: b in s.log.lh
  }

  /** All writes that operation `op` ever made are in group `g`. */
  ghost predicate WhollyIn(op: nat, g: Group, history: seq<Write>) {
    forall h | h in history && h.op == op :: h in g
  }

  ghost predicate OpsInv(s: Sys) {
    && (forall h | h in s.history :: h.op < s.nextOp)
    && (forall w | w in s.current :: w in s.history && WhollyIn(w.op, s.current, s.history))
    && (forall g, w | g in s.durable && w in g :: w in s.history && WhollyIn(w.op, g, s.history))
    && (forall p | 0 <= p < |s.procs| && s.procs[p].InOp? ::
          && s.procs[p].op < s.nextOp
          && WhollyIn(s.procs[p].op, s.current, s.history)
          && forall g, w | g in s.durable && w in g :: w.op != s.procs[p].op)
  }

  ghost predicate Inv(l: Layout, init: Disk, s: Sys) {
    && DiskInv(l, init, s) && GroupInv(l, init, s) && PrefixInv(s)
    && CountInv(s) && OpsInv(s)
  }
}

module LogRuns {
  import opened LogLayout
  import opened LogOps
  import opened LogSystem

  lemma InitialInv(l: Layout, init: Disk, s: Sys)
    requires Initial(l, init, s)
    ensures Inv(l, init, s)
  {
    NoneActive(s.procs);
    RecoverOfEmptyHead(l, init);
    assert CountInv(s);
  }

  // ---- preservation, step by step ----

  /** The system with process `p` in an operation of its own, whatever begin_op would say. */
  function Admitted(s: Sys, p: nat): Sys
    requires p < |s.procs|
  {
    s.(log := s.log.(outstanding := s.log.outstanding + 1), procs := s.procs[p := InOp(s.nextOp, {})],
       nextOp := s.nextOp + 1)
  }

  lemma AdmittedKeepsInv(l: Layout, init: Disk, s: Sys, p: nat)
    requires Inv(l, init, s) && p < |s.procs| && s.procs[p].Idle? && s.phase == Running
    ensures Inv(l, init, Admitted(s, p))
  {
    var t := Admitted(s, p);
    CountsAfterUpdate(s.procs, p, t.procs[p]);
    assert DiskInv(l, init, t);
    assert OpsInv(t);
  }

  lemma BeginKeepsInv(l: Layout, init: Disk, s: Sys, p: nat)
    requires Inv(l, init, s) && Enabled(l, s, Begin(p))
    ensures Inv(l, init, Apply(l, s, Begin(p)))
  {
    AdmittedKeepsInv(l, init, s, p);
    assert Apply(l, s, Begin(p)) == Admitted(s, p);
  }

  lemma LogWriteKeepsInv(l: Layout, init: Disk, s: Sys, p: nat, b: int, data: Block)
    requires Inv(l, init, s) && Enabled(l, s, LogWrite(p, b, data)) && !LogWritePanics(l, s.log)
    ensures Inv(l, init, Apply(l, s, LogWrite(p, b, data)))
  {
    var t := Apply(l, s, LogWrite(p, b, data));
    var w := Write(s.procs[p].op, b, data);
    NoneActive(s.procs);
    assert s.phase == Running;
    AbsorbStaysLoggable(l, |s.disk|, s.log.lh, b);
    assert DiskInv(l, init, t);
    LogWriteKeepsGroup(l, init, s, p, b, data);
    LogWriteKeepsCounts(l, s, p, b, data);
    LogWriteKeepsOps(l, s, p, b, data);
    assert PrefixInv(t);
  }

  lemma LogWriteKeepsCounts(l: Layout, s: Sys, p: nat, b: int, data: Block)
    requires Sound(l, s) && CountInv(s) && Enabled(l, s, LogWrite(p, b, data)) && !LogWritePanics(l, s.log)
    ensures CountInv(Apply(l, s, LogWrite(p, b, data)))
  {
    CountsAfterUpdate(s.procs, p, Apply(l, s, LogWrite(p, b, data)).procs[p]);
  }

  lemma LogWriteKeepsOps(l: Layout, s: Sys, p: nat, b: int, data: Block)
    requires Sound(l, s) && OpsInv(s) && Enabled(l, s, LogWrite(p, b, data))
    requires !LogWritePanics(l, s.log)
    ensures OpsInv(Apply(l, s, LogWrite(p, b, data)))
  {
  }

  lemma LogWriteKeepsGroup(l: Layout, init: Disk, s: Sys, p: nat, b: int, data: Block)
    requires DiskInv(l, init, s) && GroupInv(l, init, s) && Enabled(l, s, LogWrite(p, b, data))
    requires !LogWritePanics(l, s.log) && s.phase == Running
    ensures GroupInv(l, init, Apply(l, s, LogWrite(p, b, data)))
  {
    var t := Apply(l, s, LogWrite(p, b, data));
    var e := Effects(init, s.durable);
    var o := Overlay(e, s.log.lh, s.cache);
    var o' := Overlay(e, t.log.lh, t.cache);
    EffectOfAppend(e, s.current, Write(s.procs[p].op, b, data));
    forall x | Home(l, |o'|, x) ensures o'[x] == Effect(e, t.current)[x] {
      assert Home(l, |o|, x);
    }
  }

  lemma EndKeepsDisk(l: Layout, init: Disk, s: Sys, p: nat)
    requires DiskInv(l, init, s) && s.phase == Running && !s.log.committing && Enabled(l, s, End(p))
    ensures DiskInv(l, init, Apply(l, s, End(p)))
  {
    RecoverOfEmptyHead(l, s.disk);
    assert SameHome(l, s.disk, Recover(l, s.disk));
    SameHomeTransitive(l, s.disk, Recover(l, s.disk), Effects(init, s.durable));
  }

  lemma EndKeepsCounts(l: Layout, s: Sys, p: nat)
    requires Sound(l, s) && s.phase == Running && Enabled(l, s, End(p))
    requires CountInv(s) && OpsInv(s)
    ensures var t := Apply(l, s, End(p)); CountInv(t) && OpsInv(t)
  {
    CountsAfterUpdate(s.procs, p, Idle);
  }

  lemma EndKeepsInv(l: Layout, init: Disk, s: Sys, p: nat)
    requires Inv(l, init, s) && Enabled(l, s, End(p))
    ensures !s.log.committing
    ensures Inv(l, init, Apply(l, s, End(p)))
  {
    NoneActive(s.procs);
    EndKeepsDisk(l, init, s, p);
    EndKeepsCounts(l, s, p);
  }

  /** One more disk write of commit(), as recovery sees it. */
  lemma CommitWriteRecovers(l: Layout, init: Disk, base: Disk, gs: seq<Group>, g: Group,
                            lh: seq<int>, cache: map<int, Block>, i: nat)
    requires Loggable(l, |base|, lh) && HeadOk(l, base) && HeadCount(l, base) == 0 && i <= 2 * |lh| + 2
    requires forall b | b in lh :: b in cache
    requires SameHome(l, base, Effects(init, gs))
    requires SameHome(l, Overlay(Effects(init, gs), lh, cache), Effect(Effects(init, gs), g))
    ensures var d := CommitDisk(l, base, lh, cache, i);
            && HeadOk(l, d)
            && SameHome(l, Recover(l, d), Effects(init, if i <= |lh| then gs else gs + [g]))
  {
    var d := CommitDisk(l, base, lh, cache, i);
    CommitAtomic(l, base, lh, cache, i);
    if i <= |lh| {
      SameHomeTransitive(l, Recover(l, d), base, Effects(init, gs));
    } else {
      NewGroupInstalled(l, init, base, Recover(l, d), gs, g, lh, cache);
    }
  }

  lemma NewGroupInstalled(l: Layout, init: Disk, base: Disk, r: Disk, gs: seq<Group>, g: Group,
                          lh: seq<int>, cache: map<int, Block>)
    requires forall b | b in lh :: b in cache
    requires SameHome(l, r, Overlay(base, lh, cache)) && SameHome(l, base, Effects(init, gs))
    requires SameHome(l, Overlay(Effects(init, gs), lh, cache), Effect(Effects(init, gs), g))
    ensures SameHome(l, r, Effects(init, gs + [g]))
  {
    var e := Effects(init, gs);
    EffectsOfAppend(init, gs, g);
    OverlayOfSameHome(l, base, e, lh, cache);
    SameHomeTransitive(l, r, Overlay(base, lh, cache), Overlay(e, lh, cache));
    SameHomeTransitive(l, r, Overlay(e, lh, cache), Effects(init, gs + [g]));
  }

  lemma OverlayOfSameHome(l: Layout, d: Disk, e: Disk, lh: seq<int>, cache: map<int, Block>)
    requires SameHome(l, d, e) && forall b | b in lh :: b in cache
    ensures SameHome(l, Overlay(d, lh, cache), Overlay(e, lh, cache))
  {
    var o, o' := Overlay(d, lh, cache), Overlay(e, lh, cache);
    forall b | Home(l, |o|, b) ensures o[b] == o'[b] {
      assert Home(l, |d|, b);
    }
  }

  lemma CommitWriteKeepsSettled(l: Layout, s: Sys)
    requires Sound(l, s) && Enabled(l, s, CommitWrite)
    requires PastCommitPoint(s) ==> s.durable != [] && s.durable[|s.durable| - 1] == s.current
    ensures var t := Apply(l, s, CommitWrite);
            && Settled(t) == Settled(s)
            && t.durable == (if t.phase.done <= |s.log.lh| then Settled(s) else Settled(s) + [s.current])
  {
  }

  lemma CommitWriteKeepsSound(l: Layout, s: Sys)
    requires Sound(l, s) && Enabled(l, s, CommitWrite)
    ensures Sound(l, Apply(l, s, CommitWrite))
  {
  }

  lemma LastGroupDurable(l: Layout, init: Disk, s: Sys)
    requires Sound(l, s) && GroupInv(l, init, s)
    ensures PastCommitPoint(s) ==> s.durable != [] && s.durable[|s.durable| - 1] == s.current
    ensures SameHome(l, Overlay(Effects(init, Settled(s)), s.log.lh, s.cache),
                        Effect(Effects(init, Settled(s)), s.current))
    ensures s.log.lh == [] ==> s.current == []
  {
  }

  lemma CommitWriteKeepsDisk(l: Layout, init: Disk, s: Sys)
    requires DiskInv(l, init, s) && GroupInv(l, init, s) && Enabled(l, s, CommitWrite)
    ensures DiskInv(l, init, Apply(l, s, CommitWrite))
  {
    hide GroupInv, SameHome, Recover, Overlay, Effect, Effects, CommitDisk, HeadOk, HeadCount;
    CommitWriteKeepsSound(l, s);
    LastGroupDurable(l, init, s);
    CommitWriteKeepsSettled(l, s);
    CommitWriteRecovers(l, init, s.base, Settled(s), s.current, s.log.lh, s.cache, s.phase.done + 1);
  }

  lemma CommitWriteKeepsGroup(l: Layout, init: Disk, s: Sys)
    requires Sound(l, s) && GroupInv(l, init, s) && PrefixInv(s) && Enabled(l, s, CommitWrite)
    ensures GroupInv(l, init, Apply(l, s, CommitWrite)) && PrefixInv(Apply(l, s, CommitWrite))
  {
    CommitWriteKeepsSettled(l, s);
  }

  lemma CommitWriteKeepsInv(l: Layout, init: Disk, s: Sys)
    requires Inv(l, init, s) && Enabled(l, s, CommitWrite)
    ensures Inv(l, init, Apply(l, s, CommitWrite))
  {
    CommitWriteKeepsDisk(l, init, s);
    CommitWriteKeepsGroup(l, init, s);
    CommitWriteKeepsOps(l, s);
  }

  lemma CommitWriteKeepsOps(l: Layout, s: Sys)
    requires Sound(l, s) && CountInv(s) && OpsInv(s) && Enabled(l, s, CommitWrite)
    ensures OpsInv(Apply(l, s, CommitWrite))
  {
    NoneActive(s.procs);
  }

  lemma CommitReturnKeepsInv(l: Layout, init: Disk, s: Sys)
    requires Inv(l, init, s) && Enabled(l, s, CommitReturn)
    ensures Inv(l, init, Apply(l, s, CommitReturn))
  {
    var t := Apply(l, s, CommitReturn);
    NoneActive(s.procs);
    assert s.log.outstanding == 0;
    if s.log.lh != [] {
      CommitDone(l, s.base, s.log.lh, s.cache);
    }
    assert DiskInv(l, init, t);
    assert OpsInv(t);
  }

  lemma CrashKeepsInv(l: Layout, init: Disk, s: Sys)
    requires Inv(l, init, s) && Enabled(l, s, Crash)
    ensures Inv(l, init, Apply(l, s, Crash))
  {
    var t := Apply(l, s, Crash);
    NoneActive(t.procs);
    assert DiskInv(l, init, t);
    assert OpsInv(t);
  }

  lemma RecoverWriteKeepsDisk(l: Layout, init: Disk, s: Sys)
    requires DiskInv(l, init, s) && s.log.lh == [] && Enabled(l, s, RecoverWrite)
    ensures DiskInv(l, init, Apply(l, s, RecoverWrite))
  {
    hide SameHome, Recover, RecoverDisk, Effects, HeadOk;
    var t := Apply(l, s, RecoverWrite);
    RecoveryRestartable(l, s.base, s.phase.done);
    RecoveryRestartable(l, s.base, t.phase.done);
    SameHomeTransitive(l, Recover(l, t.disk), Recover(l, s.base), Recover(l, s.disk));
    SameHomeTransitive(l, Recover(l, t.disk), Recover(l, s.disk), Effects(init, s.durable));
  }

  lemma RecoverReturnKeepsDisk(l: Layout, init: Disk, s: Sys)
    requires DiskInv(l, init, s) && s.log.lh == [] && Enabled(l, s, RecoverReturn)
    ensures DiskInv(l, init, Apply(l, s, RecoverReturn))
  {
    var lh := Head(l, s.base);
    WithHeadReadsBack(l, Installed(l, s.base, lh, |lh|), []);
  }

  lemma RecoverKeepsInv(l: Layout, init: Disk, s: Sys, step: Step)
    requires Inv(l, init, s) && step in {RecoverWrite, RecoverReturn} && Enabled(l, s, step)
    ensures Inv(l, init, Apply(l, s, step))
  {
    if step.RecoverWrite? {
      RecoverWriteKeepsDisk(l, init, s);
    } else {
      RecoverReturnKeepsDisk(l, init, s);
    }
  }

  lemma LogWriteOrPanicKeepsInv(l: Layout, init: Disk, s: Sys, p: nat, b: int, data: Block)
    requires Inv(l, init, s) && Enabled(l, s, LogWrite(p, b, data))
    ensures Inv(l, init, Apply(l, s, LogWrite(p, b, data)))
  {
    if LogWritePanics(l, s.log) {
      var t := Apply(l, s, LogWrite(p, b, data));
      assert Settled(t) == Settled(s);
      assert DiskInv(l, init, t) && OpsInv(t);
    } else {
      LogWriteKeepsInv(l, init, s, p, b, data);
    }
  }

  /** Every step keeps the invariant, and only a log_write into a full log panics:
      the panic of end_op is out of reach. */
  lemma StepKeepsInv(l: Layout, init: Disk, s: Sys, step: Step)
    requires Inv(l, init, s) && Enabled(l, s, step)
    ensures Inv(l, init, Apply(l, s, step))
    ensures Apply(l, s, step).panicked <==> step.LogWrite? && LogWritePanics(l, s.log)
  {
    match step
    case Begin(p) => BeginKeepsInv(l, init, s, p);
    case LogWrite(p, b, data) => LogWriteOrPanicKeepsInv(l, init, s, p, b, data);
    case End(p) => EndKeepsInv(l, init, s, p);
    case CommitWrite => CommitWriteKeepsInv(l, init, s);
    case CommitReturn => CommitReturnKeepsInv(l, init, s);
    case Crash => CrashKeepsInv(l, init, s);
    case _ => RecoverKeepsInv(l, init, s, step);
  }

  // ---- whole runs ----

  ghost predicate IsRun(l: Layout, init: Disk, ss: seq<Sys>, steps: seq<Step>) {
    && |ss| == |steps| + 1
    && Initial(l, init, ss[0])
    && forall i | 0 <= i < |steps| ::
         Sound(l, ss[i]) && Enabled(l, ss[i], steps[i]) && ss[i + 1] == Apply(l, ss[i], steps[i])
  }

  lemma {:induction false} RunKeepsInv(l: Layout, init: Disk, ss: seq<Sys>, steps: seq<Step>, i: nat)
    requires IsRun(l, init, ss, steps) && i < |ss|
    ensures Inv(l, init, ss[i])
  {
    if i == 0 {
      InitialInv(l, init, ss[0]);
    } else {
      RunKeepsInv(l, init, ss, steps, i - 1);
      StepKeepsInv(l, init, ss[i - 1], steps[i - 1]);
    }
  }

  lemma {:induction false} DurableOnlyGrows(l: Layout, init: Disk, ss: seq<Sys>, steps: seq<Step>, i: nat, j: nat)
    requires IsRun(l, init, ss, steps) && i <= j < |ss|
    ensures ss[i].durable <= ss[j].durable
  {
    if i < j {
      DurableOnlyGrows(l, init, ss, steps, i, j - 1);
    }
  }

  /** At every moment of every run: stop the machine there, let recovery be cut off any number of times
      and then finish, and the disk holds exactly the durable groups' writes in commit order.
      Groups whose commit() had returned by an earlier moment are among them. */
  lemma RecoveredDiskIsDurableGroups(l: Layout, init: Disk, ss: seq<Sys>, steps: seq<Step>,
                                     i: nat, j: nat, cuts: seq<nat>, e: Disk)
    requires IsRun(l, init, ss, steps) && i <= j < |ss|
    requires CutRecoveries(l, ss[j].disk, cuts, e)
    ensures HeadOk(l, e) && SameHome(l, Recover(l, e), Effects(init, ss[j].durable))
    ensures ss[i].returned <= |ss[i].durable| && ss[i].durable <= ss[j].durable
  {
    RunKeepsInv(l, init, ss, steps, i);
    RunKeepsInv(l, init, ss, steps, j);
    DurableOnlyGrows(l, init, ss, steps, i, j);
    CutRecoveriesConverge(l, ss[j].disk, cuts, e);
    SameHomeTransitive(l, Recover(l, e), Recover(l, ss[j].disk), Effects(init, ss[j].durable));
  }

  /** What is durable is a prefix of the groups handed to commit() since the last boot, short of at
      most the one being committed now. */
  lemma DurableIsPrefixOfClosed(l: Layout, init: Disk, ss: seq<Sys>, steps: seq<Step>, i: nat)
    requires IsRun(l, init, ss, steps) && i < |ss|
    ensures var s := ss[i];
            && s.booted <= |s.durable|
            && s.durable[s.booted..] <= s.closed
            && |s.closed| - 1 <= |s.durable| - s.booted
            && (s.phase == Running ==> s.closed == s.durable[s.booted..])
  {
    RunKeepsInv(l, init, ss, steps, i);
  }

  /** No operation is split: if one of its writes is durable, all its writes of the whole run are,
      in the same group. */
  lemma OperationsAreAtomic(l: Layout, init: Disk, ss: seq<Sys>, steps: seq<Step>,
                            i: nat, g: Group, w: Write, j: nat, h: Write)
    requires IsRun(l, init, ss, steps) && i <= j < |ss|
    requires g in ss[i].durable && w in g
    requires h in ss[j].history && h.op == w.op
    ensures h in g
  {
    DurableOnlyGrows(l, init, ss, steps, i, j);
    RunKeepsInv(l, init, ss, steps, j);
    assert WhollyIn(w.op, g, ss[j].history);
  }

  /** While a commit runs, no operation is outstanding, so none can log. */
  lemma CommittingExcludesOperations(l: Layout, init: Disk, ss: seq<Sys>, steps: seq<Step>, i: nat, p: nat)
    requires IsRun(l, init, ss, steps) && i < |ss| && p < |ss[i].procs|
    ensures ss[i].log.committing ==> ss[i].log.outstanding == 0 && ss[i].procs[p].Idle?
  {
    RunKeepsInv(l, init, ss, steps, i);
    NoneActive(ss[i].procs);
  }

  predicate IdleAndEmpty(s: Sys) {
    s.phase == Running && s.log.outstanding == 0 ==> s.log.lh == []
  }

  lemma StepKeepsIdle(l: Layout, s: Sys, step: Step)
    requires Sound(l, s) && CountInv(s) && Enabled(l, s, step) && IdleAndEmpty(s)
    requires s.phase.Recovering? ==> s.log.lh == []
    ensures IdleAndEmpty(Apply(l, s, step))
  {
    hide CommitDisk, RecoverDisk, Absorb, Active;
    if step.LogWrite? { NoneActive(s.procs); }
  }

  /** No write is left waiting in the log when no operation is running: the last end_op has committed it. */
  lemma {:induction false} IdleLogIsEmpty(l: Layout, init: Disk, ss: seq<Sys>, steps: seq<Step>, i: nat)
    requires IsRun(l, init, ss, steps) && i < |ss|
    ensures ss[i].phase == Running && ss[i].log.outstanding == 0 ==> ss[i].log.lh == []
  {
    hide Apply, Sound, Enabled, DiskInv, PrefixInv, OpsInv, CountInv;
    if i > 0 {
      IdleLogIsEmpty(l, init, ss, steps, i - 1);
      RunKeepsInv(l, init, ss, steps, i - 1);
      StepKeepsIdle(l, ss[i - 1], steps[i - 1]);
    }
  }

  // ---- log space: runs in which no operation logs more than MAXOPBLOCKS blocks ----

  ghost predicate WithinBudget(s: Sys, step: Step) {
    step.LogWrite? && step.p < |s.procs| && s.procs[step.p].InOp? ==>
      |s.procs[step.p].blocks + {step.b}| <= MAXOPBLOCKS
  }

  ghost predicate IsThriftyRun(l: Layout, init: Disk, ss: seq<Sys>, steps: seq<Step>) {
    IsRun(l, init, ss, steps) && forall i | 0 <= i < |steps| :: WithinBudget(ss[i], steps[i])
  }

  lemma LogWriteKeepsSpace(l: Layout, s: Sys, p: nat, b: int, data: Block)
    requires Sound(l, s) && SpaceInv(s) && Enabled(l, s, LogWrite(p, b, data))
    requires WithinBudget(s, LogWrite(p, b, data)) && !LogWritePanics(l, s.log)
    ensures SpaceInv(Apply(l, s, LogWrite(p, b, data)))
  {
    CountsAfterUpdate(s.procs, p, Apply(l, s, LogWrite(p, b, data)).procs[p]);
    if b in s.procs[p].blocks {
      assert s.procs[p].blocks + {b} == s.procs[p].blocks;
    }
  }

  lemma BeginKeepsSpace(l: Layout, s: Sys, p: nat)
    requires Sound(l, s) && CountInv(s) && SpaceInv(s) && Enabled(l, s, Begin(p))
    ensures SpaceInv(Apply(l, s, Begin(p)))
  {
    CountsAfterUpdate(s.procs, p, InOp(s.nextOp, {}));
    UnusedBounded(s.procs);
  }

  lemma StepKeepsSpace(l: Layout, s: Sys, step: Step)
    requires Sound(l, s) && CountInv(s) && SpaceInv(s) && Enabled(l, s, step) && WithinBudget(s, step)
    ensures SpaceInv(Apply(l, s, step))
  {
    match step
    case Begin(p) => BeginKeepsSpace(l, s, p);
    case LogWrite(p, b, data) =>
      if !LogWritePanics(l, s.log) {
        LogWriteKeepsSpace(l, s, p, b, data);
      }
    case End(p) => CountsAfterUpdate(s.procs, p, Idle);
    case CommitReturn => NoneActive(s.procs);
    case Crash => NoneActive(Apply(l, s, Crash).procs);
    case _ =>
  }

  lemma {:induction false} RunKeepsSpace(l: Layout, init: Disk, ss: seq<Sys>, steps: seq<Step>, i: nat)
    requires IsThriftyRun(l, init, ss, steps) && i < |ss|
    ensures SpaceInv(ss[i])
  {
    if i == 0 {
      NoneActive(ss[0].procs);
    } else {
      RunKeepsInv(l, init, ss, steps, i - 1);
      RunKeepsSpace(l, init, ss, steps, i - 1);
      StepKeepsSpace(l, ss[i - 1], steps[i - 1]);
    }
  }

  /** A log_write that an operation within its budget of MAXOPBLOCKS blocks may make in state `s`. */
  ghost predicate MayLog(l: Layout, s: Sys, p: nat, b: int, data: Block) {
    Sound(l, s) && Enabled(l, s, LogWrite(p, b, data)) && |s.procs[p].blocks| < MAXOPBLOCKS
  }

  /** The reservation made by begin_op suffices: with one slot more than LOGSIZE in the log area, an
      operation that has logged fewer than MAXOPBLOCKS blocks never finds the log full. */
  lemma ReservationSuffices(l: Layout, init: Disk, ss: seq<Sys>, steps: seq<Step>, i: nat, p: nat, b: int, data: Block)
    requires l.size >= LOGSIZE + 1
    requires IsThriftyRun(l, init, ss, steps) && i < |ss| && MayLog(l, ss[i], p, b, data)
    ensures !LogWritePanics(l, ss[i].log)
  {
    var s := ss[i];
    RunKeepsInv(l, init, ss, steps, i);
    RunKeepsSpace(l, init, ss, steps, i);
    UnusedCoversOne(s.procs, p);
    NoneActive(s.procs);
  }

  // Three operations that fill the log with the `k` blocks behind the log area, ten blocks each.
  ghost predicate Crowded(l: Layout, s: Sys, k: nat) {
    && s.phase == Running && !s.panicked && Sound(l, s)
    && s.log.outstanding == 3 && !s.log.committing && |s.procs| == 3
    && |s.log.lh| == k && (forall x | x in s.log.lh :: l.start + l.size <= x < l.start + l.size + k)
    && (forall q | 0 <= q < 3 ::
          && s.procs[q].InOp?
          && |s.procs[q].blocks| == (if k <= 10 * q then 0 else if k >= 10 * q + 10 then 10 else k - 10 * q)
          && forall x | x in s.procs[q].blocks :: x in s.log.lh)
    && (k > 0 ==> l.start + l.size in s.procs[0].blocks)
  }

  function NextLogWrite(l: Layout, k: nat, data: Block): Step {
    LogWrite(k / 10, l.start + l.size + k, data)
  }

  lemma OneMoreLogged(l: Layout, s: Sys, k: nat, data: Block)
    requires Crowded(l, s, k) && l.start + l.size + LOGSIZE <= |s.disk|
    requires k < LOGSIZE && k < l.size - 1
    ensures Enabled(l, s, NextLogWrite(l, k, data)) && WithinBudget(s, NextLogWrite(l, k, data))
    ensures Crowded(l, Apply(l, s, NextLogWrite(l, k, data)), k + 1)
  {
    var b, p := l.start + l.size + k, k / 10;
    assert s.procs[p].InOp?;
    assert b !in s.log.lh && b !in s.procs[p].blocks;
    AbsorbStaysLoggable(l, |s.disk|, s.log.lh, b);
  }

  lemma ThreeBegun(l: Layout, init: Disk) returns (ss: seq<Sys>, steps: seq<Step>)
    requires HeadOk(l, init) && HeadCount(l, init) == 0
    ensures IsThriftyRun(l, init, ss, steps) && Crowded(l, ss[|ss| - 1], 0) && |ss[|ss| - 1].disk| == |init|
  {
    var s0 := Sys(init, init, Running, LogState(0, false, []), map[], [Idle, Idle, Idle], false,
                  [], [], 0, [], 0, [], 0);
    var s1 := Apply(l, s0, Begin(0));
    var s2 := Apply(l, s1, Begin(1));
    var s3 := Apply(l, s2, Begin(2));
    ss, steps := [s0, s1, s2, s3], [Begin(0), Begin(1), Begin(2)];
    assert s3.procs == [InOp(0, {}), InOp(1, {}), InOp(2, {})];
  }

  lemma ExtendRun(l: Layout, init: Disk, ss: seq<Sys>, steps: seq<Step>, step: Step)
      returns (ss': seq<Sys>, steps': seq<Step>)
    requires IsThriftyRun(l, init, ss, steps)
    requires Sound(l, ss[|ss| - 1]) && Enabled(l, ss[|ss| - 1], step) && WithinBudget(ss[|ss| - 1], step)
    ensures IsThriftyRun(l, init, ss', steps') && ss'[|ss'| - 1] == Apply(l, ss[|ss| - 1], step)
  {
    ss', steps' := ss + [Apply(l, ss[|ss| - 1], step)], steps + [step];
  }

  lemma {:induction false} FillTheLog(l: Layout, init: Disk, k: nat) returns (ss: seq<Sys>, steps: seq<Step>)
    requires HeadOk(l, init) && HeadCount(l, init) == 0 && l.start + l.size + LOGSIZE <= |init|
    requires k <= LOGSIZE && k < l.size
    ensures IsThriftyRun(l, init, ss, steps) && Crowded(l, ss[|ss| - 1], k) && |ss[|ss| - 1].disk| == |init|
  {
    if k == 0 {
      ss, steps := ThreeBegun(l, init);
    } else {
      ss, steps := FillTheLog(l, init, k - 1);
      OneMoreLogged(l, ss[|ss| - 1], k - 1, init[0]);
      ss, steps := ExtendRun(l, init, ss, steps, NextLogWrite(l, k - 1, init[0]));
    }
  }

  /** Log space is enough for every operation within its budget exactly when the log area holds
      LOGSIZE slots behind its header, that is LOGSIZE + 1 blocks. */
  lemma RoomIffOneMoreThanLogsize(l: Layout, init: Disk)
    requires HeadOk(l, init) && HeadCount(l, init) == 0 && l.start + l.size + LOGSIZE <= |init|
    ensures l.size >= LOGSIZE + 1 <==>
      forall ss: seq<Sys>, steps, i: nat, p, b, data |
        IsThriftyRun(l, init, ss, steps) && i < |ss| && MayLog(l, ss[i], p, b, data) :: !LogWritePanics(l, ss[i].log)
  {
    if l.size >= LOGSIZE + 1 {
      forall ss: seq<Sys>, steps, i: nat, p, b, data |
        IsThriftyRun(l, init, ss, steps) && i < |ss| && MayLog(l, ss[i], p, b, data)
        ensures !LogWritePanics(l, ss[i].log)
      {
        ReservationSuffices(l, init, ss, steps, i, p, b, data);
      }
    } else {
      var k := l.size - 1;
      var ss, steps := FillTheLog(l, init, k);
      var i := |ss| - 1;
      assert MayLog(l, ss[i], k / 10, l.start + l.size + k, init[0]);
      assert LogWritePanics(l, ss[i].log);
    }
  }

  /** The log mkfs lays out has LOGSIZE blocks, header included: one slot short. */
  lemma MkfsLogIsOneSlotShort(init: Disk) returns (ss: seq<Sys>, steps: seq<Step>, p: nat, b: int)
    requires var l := Layout(2, LOGSIZE); HeadOk(l, init) && HeadCount(l, init) == 0 && |init| == 2000
    ensures var l := Layout(2, LOGSIZE);
      && IsThriftyRun(l, init, ss, steps)
      && MayLog(l, ss[|ss| - 1], p, b, init[0]) && LogWritePanics(l, ss[|ss| - 1].log)
  {
    var l := Layout(2, LOGSIZE);
    ss, steps := FillTheLog(l, init, LOGSIZE - 1);
    p, b := 2, 2 + LOGSIZE + LOGSIZE - 1;
  }

  /** log_write checks for a full log before it looks for absorption: an operation that has used up its
      MAXOPBLOCKS blocks can panic by logging one of them again, whatever the size of the log area. */
  lemma FullLogRejectsAbsorption(l: Layout, init: Disk)
      returns (ss: seq<Sys>, steps: seq<Step>, p: nat, b: int)
    requires HeadOk(l, init) && HeadCount(l, init) == 0 && l.start + l.size + LOGSIZE <= |init|
    requires l.size >= LOGSIZE + 1
    ensures IsThriftyRun(l, init, ss, steps) && var s := ss[|ss| - 1];
      && Sound(l, s) && Enabled(l, s, LogWrite(p, b, init[0])) && LogWritePanics(l, s.log)
      && b in s.log.lh && |s.procs[p].blocks| == MAXOPBLOCKS
  {
    ss, steps := FillTheLog(l, init, LOGSIZE);
    var s := ss[|ss| - 1];
    p := 0;
    b := l.start + l.size;
    assert s.procs[0].blocks + {b} == s.procs[0].blocks;
  }

  // ---- when letting an operation begin can fill the log ----

  /** A thrifty run from state `s` on. */
  ghost predicate GoesOn(l: Layout, s: Sys, ss: seq<Sys>, steps: seq<Step>) {
    && |ss| == |steps| + 1 && ss[0] == s
    && forall i | 0 <= i < |steps| ::
         Sound(l, ss[i]) && Enabled(l, ss[i], steps[i]) && WithinBudget(ss[i], steps[i])
         && ss[i + 1] == Apply(l, ss[i], steps[i])
  }

  ghost predicate EndsFull(l: Layout, s: Sys, ss: seq<Sys>, steps: seq<Step>, p: nat, b: int, data: Block) {
    GoesOn(l, s, ss, steps) && MayLog(l, ss[|ss| - 1], p, b, data) && LogWritePanics(l, ss[|ss| - 1].log)
  }

  /** From `s`, operations that stay within their budgets can come to find the log full. */
  ghost predicate MayOverflow(l: Layout, s: Sys) {
    exists ss, steps, p, b, data :: EndsFull(l, s, ss, steps, p, b, data)
  }

  lemma {:induction false} GoingOnKeeps(l: Layout, init: Disk, s: Sys, ss: seq<Sys>, steps: seq<Step>, i: nat)
    requires Inv(l, init, s) && SpaceInv(s) && GoesOn(l, s, ss, steps) && i < |ss|
    ensures Inv(l, init, ss[i]) && SpaceInv(ss[i])
  {
    if i > 0 {
      GoingOnKeeps(l, init, s, ss, steps, i - 1);
      StepKeepsInv(l, init, ss[i - 1], steps[i - 1]);
      StepKeepsSpace(l, ss[i - 1], steps[i - 1]);
    }
  }

  lemma EnoughNeverOverflows(l: Layout, init: Disk, s: Sys)
    requires Inv(l, init, s) && SpaceInv(s) && l.size >= LOGSIZE + 1
    ensures !MayOverflow(l, s)
  {
    forall ss: seq<Sys>, steps, p, b, data ensures !EndsFull(l, s, ss, steps, p, b, data) {
      if GoesOn(l, s, ss, steps) && MayLog(l, ss[|ss| - 1], p, b, data) {
        var t := ss[|ss| - 1];
        GoingOnKeeps(l, init, s, ss, steps, |ss| - 1);
        UnusedCoversOne(t.procs, p);
        NoneActive(t.procs);
      }
    }
  }

  lemma {:induction false} SomeoneMayLog(procs: seq<Process>) returns (p: nat)
    requires Unused(procs) > 0
    ensures p < |procs| && procs[p].InOp? && |procs[p].blocks| < MAXOPBLOCKS
  {
    var n := |procs| - 1;
    if Promise(procs[n]) > 0 {
      p := n;
    } else {
      p := SomeoneMayLog(procs[..n]);
    }
  }

  /** One of any |lh| + 1 blocks in a row is not in `lh`. */
  lemma {:induction false} FreshBlock(lh: seq<int>, from: nat) returns (b: nat)
    ensures from <= b <= from + |lh| && b !in lh
    decreases |lh|
  {
    if from !in lh {
      b := from;
    } else {
      var i :| 0 <= i < |lh| && lh[i] == from;
      var rest := lh[..i] + lh[i + 1..];
      b := FreshBlock(rest, from + 1);
      forall j | 0 <= j < |lh| ensures lh[j] != b {
        if j != i {
          assert lh[j] == rest[if j < i then j else j - 1];
        }
      }
    }
  }

  /** A system in which somebody can still log: nothing is being committed. */
  ghost predicate Busy(l: Layout, init: Disk, s: Sys) {
    && Inv(l, init, s) && s.phase == Running && !s.panicked
    && l.size >= LOGSIZE + 1 && l.start + l.size + LOGSIZE < |s.disk|
    && forall q | 0 <= q < |s.procs| && s.procs[q].InOp? :: forall x | x in s.procs[q].blocks :: x in s.log.lh
  }

  lemma BusyLogs(l: Layout, init: Disk, s: Sys, p: nat, b: nat, data: Block)
    requires Busy(l, init, s) && p < |s.procs| && s.procs[p].InOp? && |s.procs[p].blocks| < MAXOPBLOCKS
    requires b !in s.log.lh && l.start + l.size <= b <= l.start + l.size + LOGSIZE
    ensures |s.log.lh| <= LOGSIZE && MayLog(l, s, p, b, data) && WithinBudget(s, LogWrite(p, b, data))
    ensures LogWritePanics(l, s.log) <==> |s.log.lh| == LOGSIZE
    ensures |s.log.lh| < LOGSIZE ==>
              var t := Apply(l, s, LogWrite(p, b, data));
              Busy(l, init, t) && |t.log.lh| == |s.log.lh| + 1 && Unused(t.procs) == Unused(s.procs) - 1
  {
    hide GroupInv, PrefixInv, OpsInv, Effects, Effect, Recover;
    NoneActive(s.procs);
    if |s.log.lh| < LOGSIZE {
      LogWriteKeepsInv(l, init, s, p, b, data);
      CountsAfterUpdate(s.procs, p, Apply(l, s, LogWrite(p, b, data)).procs[p]);
    }
  }

  /** While more is promised than there is room for, somebody within budget can log one block more, until
      the log is full. */
  lemma {:induction false} FillsUp(l: Layout, init: Disk, s: Sys, data: Block)
      returns (ss: seq<Sys>, steps: seq<Step>, p: nat, b: nat)
    requires Busy(l, init, s) && |s.log.lh| + Unused(s.procs) > LOGSIZE && |s.log.lh| <= LOGSIZE
    ensures EndsFull(l, s, ss, steps, p, b, data)
    decreases LOGSIZE - |s.log.lh|
  {
    hide Inv, Apply, Enabled, LogWritePanics;
    p := SomeoneMayLog(s.procs);
    b := FreshBlock(s.log.lh, l.start + l.size);
    BusyLogs(l, init, s, p, b, data);
    if |s.log.lh| == LOGSIZE {
      ss, steps := [s], [];
    } else {
      var step := LogWrite(p, b, data);
      ss, steps, p, b := FillsUp(l, init, Apply(l, s, step), data);
      ss, steps := GoesOnFrom(l, s, step, ss, steps);
    }
  }

  lemma GoesOnFrom(l: Layout, s: Sys, step: Step, ss: seq<Sys>, steps: seq<Step>)
      returns (ss': seq<Sys>, steps': seq<Step>)
    requires Sound(l, s) && Enabled(l, s, step) && WithinBudget(s, step) && GoesOn(l, Apply(l, s, step), ss, steps)
    ensures GoesOn(l, s, ss', steps') && ss'[|ss'| - 1] == ss[|ss| - 1]
  {
    ss', steps' := [s] + ss, [step] + steps;
  }

  /** What letting `p` begin would lead to: operations within their budgets can find the log full if and only
      if the blocks logged, what the running operations have left, and one more budget exceed the log. */
  lemma OverflowsIff(l: Layout, init: Disk, ss: seq<Sys>, steps: seq<Step>, i: nat, p: nat)
    requires IsThriftyRun(l, init, ss, steps) && i < |ss| && ss[i].phase == Running && !ss[i].panicked
    requires p < |ss[i].procs| && ss[i].procs[p].Idle?
    requires l.size >= LOGSIZE + 1 && l.start + l.size + LOGSIZE < |ss[i].disk|
    ensures MayOverflow(l, Admitted(ss[i], p)) <==>
              |ss[i].log.lh| + Unused(ss[i].procs) + MAXOPBLOCKS > LOGSIZE
  {
    var s := ss[i];
    var t := Admitted(s, p);
    RunKeepsInv(l, init, ss, steps, i);
    RunKeepsSpace(l, init, ss, steps, i);
    AdmittedKeepsInv(l, init, s, p);
    CountsAfterUpdate(s.procs, p, t.procs[p]);
    if |s.log.lh| + Unused(s.procs) + MAXOPBLOCKS > LOGSIZE {
      var ts, more, q, b := FillsUp(l, init, t, init[0]);
    } else {
      EnoughNeverOverflows(l, init, t);
    }
  }

  /** begin_op lets nobody in who could fill the log, but it counts a whole budget for every running
      operation. So it refuses, while no commit runs, whoever could fill the log, and besides exactly those
      whom only what the running operations have already used makes harmless. */
  lemma RefusedIff(l: Layout, init: Disk, ss: seq<Sys>, steps: seq<Step>, i: nat, p: nat)
    requires IsThriftyRun(l, init, ss, steps) && i < |ss| && ss[i].phase == Running && !ss[i].panicked
    requires p < |ss[i].procs| && ss[i].procs[p].Idle?
    requires l.size >= LOGSIZE + 1 && l.start + l.size + LOGSIZE < |ss[i].disk|
    ensures var used := ss[i].log.outstanding * MAXOPBLOCKS - Unused(ss[i].procs);
      && used >= 0
      && (!MayBegin(ss[i].log) <==>
            || MayOverflow(l, Admitted(ss[i], p))
            || LOGSIZE - used < |ss[i].log.lh| + Unused(ss[i].procs) + MAXOPBLOCKS <= LOGSIZE)
  {
    OverflowsIff(l, init, ss, steps, i, p);
    RunKeepsInv(l, init, ss, steps, i);
    RunKeepsSpace(l, init, ss, steps, i);
    UnusedBounded(ss[i].procs);
  }

  /** One operation that has used up its ten blocks, one that has used one of them, and a third that must
      wait although no operation within its budget could then have found the log full. */
  lemma RefusedNeedlessly(l: Layout, init: Disk) returns (ss: seq<Sys>, steps: seq<Step>, p: nat)
    requires HeadOk(l, init) && HeadCount(l, init) == 0 && l.start + l.size + LOGSIZE < |init| && l.size >= LOGSIZE + 1
    ensures IsThriftyRun(l, init, ss, steps) && var s := ss[|ss| - 1];
      && s.phase == Running && p < |s.procs| && s.procs[p].Idle?
      && |s.log.lh| == 11 && s.log.outstanding == 2
      && !MayBegin(s.log) && !MayOverflow(l, Admitted(s, p))
  {
    hide MayOverflow;
    ss, steps := FillTheLog(l, init, 11);
    var s := ss[|ss| - 1];
    p := 2;
    assert s.procs[2].InOp?;
    ss, steps := ExtendRun(l, init, ss, steps, End(2));
    var t := ss[|ss| - 1];
    UnusedOfThree(t.procs);
    OverflowsIff(l, init, ss, steps, |ss| - 1, p);
  }

  lemma UnusedOfThree(procs: seq<Process>)
    requires |procs| == 3
    ensures Unused(procs) == Promise(procs[0]) + Promise(procs[1]) + Promise(procs[2])
  {
    assert procs[..2][..1] == procs[..1] && procs[..1][..0] == [];
    assert Unused(procs[..1]) == Unused([]) + Promise(procs[0]);
  }
}
