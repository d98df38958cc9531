// The virtio disk driver (kernel/virtio_disk.c) against a device that completes requests in any order
// (sections 2.6 and 5.2 of VIRTIO 1.1): descriptor chains, the two rings, and what a request achieves.

module VirtioQueue {

  const NUM: nat := 8
  const IDX: nat := 0x1_0000        // avail->idx, used->idx and used_idx are uint16
  const BSIZE: nat := 1024
  const F_NEXT: nat := 1
  const F_WRITE: nat := 2

  type Block = seq<int>

  /** What a descriptor points to: a command header, a buffer's data, or a status byte. */
  datatype Addr = Null | Header(i: int) | Data(b: int) | Status(i: int)

  datatype Desc = Desc(addr: Addr, len: int, flags: int, next: int)

  const NO_DESC: Desc := Desc(Null, 0, 0, 0)

  /** The device goes on to the next descriptor. */
  predicate Chained(d: Desc) {
    d.flags / F_NEXT % 2 == 1
  }

  /** The device may write what the descriptor points to, and otherwise only read it. */
  predicate Writable(d: Desc) {
    d.flags / F_WRITE % 2 == 1
  }

  datatype Req = Req(write: bool, sector: int)

  datatype Stage = Posted | Fetched | Used | Finished

  /** A request: its three descriptors, buffer, direction and block, and how far it has come. */
  datatype Chain = Chain(i1: int, i2: int, b: int, write: bool, blockno: int, stage: Stage)

  /** What belongs to the chain with head i0, in the descriptor table. */
  predicate Formatted(desc: seq<Desc>, ops: seq<Req>, i0: int, c: Chain)
    requires |desc| == NUM && |ops| == NUM
  {
    && 0 <= i0 < NUM && 0 <= c.i1 < NUM && 0 <= c.i2 < NUM && i0 != c.i1 && i0 != c.i2 && c.i1 != c.i2
    && desc[i0] == Desc(Header(i0), 16, F_NEXT, c.i1)
    && ops[i0] == Req(c.write, c.blockno * (BSIZE / 512))
    && desc[c.i1] == Desc(Data(c.b), BSIZE, if c.write then F_NEXT else F_WRITE + F_NEXT, c.i2)
    && desc[c.i2] == Desc(Status(i0), 1, F_WRITE, 0)
  }

  /** `owner[i]` is the head of the chain that descriptor i is in, or NUM if i is free. */
  predicate DescAt(free: seq<bool>, desc: seq<Desc>, owner: seq<int>, chains: map<int, Chain>, i: nat)
    requires |free| == |desc| == |owner| == NUM && i < NUM
  {
    if free[i] then owner[i] == NUM && desc[i] == NO_DESC
    else owner[i] in chains && (i == owner[i] || i == chains[owner[i]].i1 || i == chains[owner[i]].i2)
  }

  predicate ChainAt(free: seq<bool>, desc: seq<Desc>, ops: seq<Req>, owner: seq<int>, chains: map<int, Chain>, h: int)
    requires |free| == |desc| == |ops| == |owner| == NUM && h in chains
  {
    && Formatted(desc, ops, h, chains[h])
    && owner[h] == owner[chains[h].i1] == owner[chains[h].i2] == h
    && !free[h] && !free[chains[h].i1] && !free[chains[h].i2]
  }

  /** The descriptors not free are the disjoint union of the chains. */
  ghost predicate ChainsOk(free: seq<bool>, desc: seq<Desc>, ops: seq<Req>, owner: seq<int>, chains: map<int, Chain>) {
    && |free| == |desc| == |ops| == |owner| == NUM
    && (forall i {:trigger DescAt(free, desc, owner, chains, i)} | 0 <= i < NUM :: DescAt(free, desc, owner, chains, i))
    && (forall h {:trigger ChainAt(free, desc, ops, owner, chains, h)} | h in chains ::
          ChainAt(free, desc, ops, owner, chains, h))
  }

  // ---- counting ----

  function Count(free: seq<bool>): nat {
    if free == [] then 0 else (if free[|free| - 1] then 1 else 0) + Count(free[..|free| - 1])
  }

  lemma {:induction false} CountSet(free: seq<bool>, i: nat, v: bool)
    requires i < |free|
    ensures Count(free[i := v]) == Count(free) + (if v then 1 else 0) - (if free[i] then 1 else 0)
  {
    var n := |free| - 1;
    if i == n {
      assert free[i := v][..n] == free[..n];
    } else {
      assert free[i := v][..n] == free[..n][i := v];
      CountSet(free[..n], i, v);
    }
  }

  lemma {:induction false} CountNone(free: seq<bool>)
    requires forall i | 0 <= i < |free| :: !free[i]
    ensures Count(free) == 0
  {
    if free != [] {
      CountNone(free[..|free| - 1]);
    }
  }

  lemma {:induction false} CountAll(free: seq<bool>)
    requires forall i | 0 <= i < |free| :: free[i]
    ensures Count(free) == |free|
  {
    if free != [] {
      CountAll(free[..|free| - 1]);
    }
  }

  lemma {:induction false} DistinctLength(q: seq<int>, keys: set<int>)
    requires forall k | 0 <= k < |q| :: q[k] in keys
    requires forall j, k | 0 <= j < k < |q| :: q[j] != q[k]
    ensures |q| <= |keys|
  {
    if q != [] {
      var n := |q| - 1;
      forall k | 0 <= k < n ensures q[..n][k] in keys - {q[n]} {
        assert q[k] != q[n];
      }
      DistinctLength(q[..n], keys - {q[n]});
    }
  }

  // ---- the rings ----

  /** The last entries made in a ring whose index stands at `total` are those of the queue. */
  ghost predicate RingOk(ring: seq<int>, total: nat, queue: seq<int>) {
    && |ring| == NUM && |queue| <= total && |queue| <= NUM
    && forall k | 0 <= k < |queue| :: RingAt(ring, total, queue, k)
  }

  predicate RingAt(ring: seq<int>, total: nat, queue: seq<int>, k: nat)
    requires |ring| == NUM && k < |queue| <= total
  {
    ring[Slot(total - |queue| + k)] == queue[k]
  }

  lemma RingPush(ring: seq<int>, total: nat, queue: seq<int>, h: int)
    requires RingOk(ring, total, queue) && |queue| < NUM
    ensures RingOk(ring[Slot(total) := h], total + 1, queue + [h])
  {
    var ring', queue', total' := ring[Slot(total) := h], queue + [h], total + 1;
    forall k | 0 <= k < |queue'| ensures RingAt(ring', total', queue', k) {
      if k < |queue| {
        assert RingAt(ring, total, queue, k);
        SlotsDiffer(total - |queue| + k, total);
      }
    }
  }

  lemma SlotsDiffer(j: nat, k: nat)
    requires j < k < j + NUM
    ensures Slot(j) != Slot(k)
  {
  }

  lemma RingPop(ring: seq<int>, total: nat, queue: seq<int>)
    requires RingOk(ring, total, queue) && queue != []
    ensures ring[Slot(total - |queue|)] == queue[0]
    ensures RingOk(ring, total, queue[1..])
  {
    assert RingAt(ring, total, queue, 0);
    forall k | 0 <= k < |queue| - 1 ensures RingAt(ring, total, queue[1..], k) {
      assert RingAt(ring, total, queue, k + 1);
    }
  }

  /** A uint16. */
  function U16(n: nat): nat { n % IDX }

  function Slot(n: nat): (i: nat)
    ensures i < NUM
  {
    n % NUM
  }

  /** A 16-bit index picks the same ring entry as the true count, and two of them that are less than
      2^16 apart are equal only if the counts are. */
  lemma Wraps(j: nat, k: nat)
    requires j <= k < j + IDX
    ensures Slot(U16(j)) == Slot(j) && U16(U16(j) + 1) == U16(j + 1)
    ensures U16(j) == U16(k) <==> j == k
  {
    var q, r := j / IDX, j % IDX;
    assert j == q * 0x2000 * NUM + r;
    Multiples(q * 0x2000, r);
  }

  lemma Multiples(q: nat, r: nat)
    ensures (q * NUM + r) % NUM == r % NUM
  {
  }

  /** The queue lists exactly the chains of one stage, each once. */
  ghost predicate QueueOk(chains: map<int, Chain>, queue: seq<int>, stage: Stage) {
    && (forall k | 0 <= k < |queue| :: queue[k] in chains && chains[queue[k]].stage == stage)
    && (forall j, k | 0 <= j < k < |queue| :: queue[j] != queue[k])
    && (forall h | h in chains && chains[h].stage == stage :: h in queue)
  }

  function Staged(chains: map<int, Chain>, h: int, stage: Stage): map<int, Chain>
    requires h in chains
  {
    chains[h := chains[h].(stage := stage)]
  }

  lemma QueuePop(chains: map<int, Chain>, queue: seq<int>, stage: Stage, next: Stage)
    requires QueueOk(chains, queue, stage) && queue != [] && next != stage
    ensures QueueOk(Staged(chains, queue[0], next), queue[1..], stage)
  {
    var chains', q := Staged(chains, queue[0], next), queue[1..];
    forall k | 0 <= k < |q| ensures q[k] in chains' && chains'[q[k]].stage == stage {
      assert q[k] == queue[k + 1];
    }
    forall h | h in chains' && chains'[h].stage == stage ensures h in q {
      var k :| 0 <= k < |queue| && queue[k] == h;
      assert q[k - 1] == h;
    }
  }

  lemma QueuePush(chains: map<int, Chain>, queue: seq<int>, stage: Stage, chains': map<int, Chain>, h: int)
    requires QueueOk(chains, queue, stage) && (h in chains ==> chains[h].stage != stage)
    requires h in chains' && chains'[h].stage == stage && chains' == chains[h := chains'[h]]
    ensures QueueOk(chains', queue + [h], stage)
  {
    var q := queue + [h];
    assert forall k | 0 <= k < |queue| :: queue[k] != h;
    forall g | g in chains' && chains'[g].stage == stage ensures g in q {
      if g != h {
        assert g in queue;
      } else {
        assert q[|queue|] == h;
      }
    }
  }

  lemma QueueElsewhere(chains: map<int, Chain>, queue: seq<int>, stage: Stage, chains': map<int, Chain>, h: int)
    requires QueueOk(chains, queue, stage) && (h in chains ==> chains[h].stage != stage)
    requires || chains' == chains - {h}
             || (h in chains' && chains' == chains[h := chains'[h]] && chains'[h].stage != stage)
    ensures QueueOk(chains', queue, stage)
  {
    assert forall k | 0 <= k < |queue| :: queue[k] != h;
  }

  // ---- requests and buffers ----

  /** What the driver's and the device's records say of the request with head h. */
  predicate RequestAt(chains: map<int, Chain>, info: seq<int>, status: seq<int>, busy: set<int>,
                      data: map<int, Block>, store: map<int, Block>, h: int)
    requires |info| == |status| == NUM && h in chains
  {
    var c := chains[h];
    && 0 <= h < NUM && info[h] == c.b && c.b in data && c.blockno in store
    && (c.b in busy <==> c.stage != Finished)
    && status[h] == (if c.stage == Posted || c.stage == Fetched then 0xff else 0)
    && (c.stage == Used || c.stage == Finished ==> data[c.b] == store[c.blockno])
  }

  predicate RequestsDiffer(chains: map<int, Chain>, g: int, h: int)
    requires g in chains && h in chains
  {
    chains[g].b == chains[h].b || chains[g].blockno == chains[h].blockno ==> g == h
  }

  ghost predicate RequestsOk(chains: map<int, Chain>, info: seq<int>, status: seq<int>, busy: set<int>,
                             data: map<int, Block>, store: map<int, Block>) {
    && |info| == |status| == NUM
    && (forall h {:trigger RequestAt(chains, info, status, busy, data, store, h)} | h in chains ::
          RequestAt(chains, info, status, busy, data, store, h))
    && (forall g, h {:trigger RequestsDiffer(chains, g, h)} | g in chains && h in chains ::
        RequestsDiffer(chains, g, h))
  }

  // ---- the steps of the driver and the device ----

  lemma ChainAdded(free: seq<bool>, desc: seq<Desc>, ops: seq<Req>, owner: seq<int>, chains: map<int, Chain>,
                   desc': seq<Desc>, ops': seq<Req>, h: int, c: Chain)
    requires ChainsOk(free, desc, ops, owner, chains) && |desc'| == |ops'| == NUM
    requires 0 <= h < NUM && 0 <= c.i1 < NUM && 0 <= c.i2 < NUM && free[h] && free[c.i1] && free[c.i2]
    requires Formatted(desc', ops', h, c)
    requires forall i | 0 <= i < NUM && i != h && i != c.i1 && i != c.i2 :: desc'[i] == desc[i]
    requires forall i | 0 <= i < NUM && i != h :: ops'[i] == ops[i]
    ensures h !in chains
    ensures ChainsOk(free[h := false][c.i1 := false][c.i2 := false], desc', ops',
                     owner[h := h][c.i1 := h][c.i2 := h], chains[h := c])
  {
    var free', owner', chains' := free[h := false][c.i1 := false][c.i2 := false], owner[h := h][c.i1 := h][c.i2 := h],
                                  chains[h := c];
    assert h in chains ==> ChainAt(free, desc, ops, owner, chains, h);
    forall i | 0 <= i < NUM ensures DescAt(free', desc', owner', chains', i) {
      assert DescAt(free, desc, owner, chains, i);
    }
    forall g | g in chains' ensures ChainAt(free', desc', ops', owner', chains', g) {
      assert g in chains ==> ChainAt(free, desc, ops, owner, chains, g);
    }
  }

  lemma ChainRemoved(free: seq<bool>, desc: seq<Desc>, ops: seq<Req>, owner: seq<int>, chains: map<int, Chain>, h: int)
    requires ChainsOk(free, desc, ops, owner, chains) && h in chains
    ensures 0 <= h < NUM && 0 <= chains[h].i1 < NUM && 0 <= chains[h].i2 < NUM
    ensures var c := chains[h];
            && h != c.i1 && h != c.i2 && c.i1 != c.i2 && !free[h] && !free[c.i1] && !free[c.i2]
            && ChainsOk(free[h := true][c.i1 := true][c.i2 := true],
                desc[h := NO_DESC][c.i1 := NO_DESC][c.i2 := NO_DESC],
                        ops, owner[h := NUM][c.i1 := NUM][c.i2 := NUM], chains - {h})
  {
    var c := chains[h];
    assert ChainAt(free, desc, ops, owner, chains, h);
    var free', desc' := free[h := true][c.i1 := true][c.i2 := true],
        desc[h := NO_DESC][c.i1 := NO_DESC][c.i2 := NO_DESC];
    var owner', chains' := owner[h := NUM][c.i1 := NUM][c.i2 := NUM], chains - {h};
    forall i | 0 <= i < NUM ensures DescAt(free', desc', owner', chains', i) {
      assert DescAt(free, desc, owner, chains, i);
    }
    forall g | g in chains' ensures ChainAt(free', desc', ops, owner', chains', g) {
      assert ChainAt(free, desc, ops, owner, chains, g);
    }
  }

  /** How far a request has come does not matter to the descriptors. */
  lemma ChainsStaged(free: seq<bool>, desc: seq<Desc>, ops: seq<Req>, owner: seq<int>, chains: map<int, Chain>,
                     h: int, stage: Stage)
    requires ChainsOk(free, desc, ops, owner, chains) && h in chains
    ensures ChainsOk(free, desc, ops, owner, Staged(chains, h, stage)) && |Staged(chains, h, stage)| == |chains|
  {
    var chains' := Staged(chains, h, stage);
    assert chains'.Keys == chains.Keys;
    SameSize(chains, chains');
    forall i | 0 <= i < NUM ensures DescAt(free, desc, owner, chains', i) {
      assert DescAt(free, desc, owner, chains, i);
    }
    forall g | g in chains' ensures ChainAt(free, desc, ops, owner, chains', g) {
      assert ChainAt(free, desc, ops, owner, chains, g);
    }
  }

  lemma SameSize(m: map<int, Chain>, n: map<int, Chain>)
    requires m.Keys == n.Keys
    ensures |m| == |n|
  {
    assert |m| == |m.Keys| && |n| == |n.Keys|;
  }

  /** The requests that the driver has not yet seen completed. */
  function Unseen(chains: map<int, Chain>): set<int> {
    set h | h in chains && chains[h].stage != Finished
  }

  predicate IsServed(c: Chain) {
    c.stage == Used || c.stage == Finished
  }

  /** Only stages have changed, none of them backwards, and the device has served the requests in `done`. */
  ghost predicate Advanced(chains0: map<int, Chain>, chains: map<int, Chain>, done: set<int>) {
    && chains.Keys == chains0.Keys
    && forall h | h in chains ::
         && chains[h] == chains0[h].(stage := chains[h].stage)
         && (IsServed(chains[h]) <==> IsServed(chains0[h]) || h in done) && (h in done ==> !IsServed(chains0[h]))
         && (chains0[h].stage == Finished ==> chains[h].stage == Finished)
         && (chains0[h].stage == Fetched ==> chains[h].stage != Posted)
  }

  lemma AdvancedSeen(chains0: map<int, Chain>, chains: map<int, Chain>, done: set<int>, h: int)
    requires Advanced(chains0, chains, done) && h in chains && chains[h].stage == Used
    ensures Advanced(chains0, Staged(chains, h, Finished), done)
    ensures Unseen(Staged(chains, h, Finished)) < Unseen(chains)
  {
    assert h in Unseen(chains) && h !in Unseen(Staged(chains, h, Finished));
  }

  lemma AdvancedServed(chains0: map<int, Chain>, chains: map<int, Chain>, done: set<int>, h: int)
    requires Advanced(chains0, chains, done) && h in chains && chains[h].stage == Fetched
    ensures Advanced(chains0, Staged(chains, h, Used), done + {h})
    ensures Unseen(Staged(chains, h, Used)) == Unseen(chains)
  {
  }

  lemma AdvancedFetched(chains0: map<int, Chain>, chains: map<int, Chain>, done: set<int>, h: int)
    requires Advanced(chains0, chains, done) && h in chains && chains[h].stage == Posted
    ensures Advanced(chains0, Staged(chains, h, Fetched), done)
    ensures Unseen(Staged(chains, h, Fetched)) == Unseen(chains)
  {
  }

  lemma NothingAdvanced(chains: map<int, Chain>)
    ensures Advanced(chains, chains, {})
  {
  }

  lemma NoneLeft(chains: map<int, Chain>, used: seq<int>)
    requires QueueOk(chains, used, Used) && used == []
    ensures forall h | h in chains :: chains[h].stage != Used
  {
  }

  lemma QueueShort(chains: map<int, Chain>, queue: seq<int>, stage: Stage)
    requires QueueOk(chains, queue, stage)
    ensures |queue| <= |chains|
  {
    DistinctLength(queue, chains.Keys);
    assert |chains| == |chains.Keys|;
  }

  /** The requests made available that the device has not seen, and those completed that the driver has
      not seen, and how many entries the two rings have had. */
  datatype Queues = Queues(posted: seq<int>, used: seq<int>, nAvail: nat, nUsed: nat)

  /** A ring as the driver or the device writes it: entries, and a uint16 index. */
  datatype Ring = Ring(ring: seq<int>, idx: nat)

  function Entered(r: Ring, h: int): Ring
    requires |r.ring| == NUM
  {
    Ring(r.ring[Slot(r.idx) := h], U16(r.idx + 1))
  }

  /** The two rings and their four indices, against the queues of requests that they stand for. */
  ghost predicate QueuesOk(chains: map<int, Chain>, q: Queues, avail: Ring, used: Ring, fetchIdx: nat, seenIdx: nat) {
    && RingOk(avail.ring, q.nAvail, q.posted) && RingOk(used.ring, q.nUsed, q.used)
    && QueueOk(chains, q.posted, Posted) && QueueOk(chains, q.used, Used)
    && avail.idx == U16(q.nAvail) && fetchIdx == U16(q.nAvail - |q.posted|)
    && used.idx == U16(q.nUsed) && seenIdx == U16(q.nUsed - |q.used|)
    && |chains| <= 2
  }

  lemma RingIndices(chains: map<int, Chain>, q: Queues, avail: Ring, used: Ring, fetchIdx: nat, seenIdx: nat)
    requires QueuesOk(chains, q, avail, used, fetchIdx, seenIdx)
    ensures |avail.ring| == |used.ring| == NUM && QueueOk(chains, q.used, Used)
    ensures fetchIdx == avail.idx <==> q.posted == []
    ensures seenIdx == used.idx <==> q.used == []
  {
    QueueShort(chains, q.posted, Posted);
    QueueShort(chains, q.used, Used);
    Wraps(q.nAvail - |q.posted|, q.nAvail);
    Wraps(q.nUsed - |q.used|, q.nUsed);
  }

  function Post(q: Queues, h: int): Queues { q.(posted := q.posted + [h], nAvail := q.nAvail + 1) }
  function Use(q: Queues, h: int): Queues { q.(used := q.used + [h], nUsed := q.nUsed + 1) }
  function Fetch(q: Queues): Queues requires q.posted != [] { q.(posted := q.posted[1..]) }
  function See(q: Queues): Queues requires q.used != [] { q.(used := q.used[1..]) }

  lemma QueuesPost(chains: map<int, Chain>, q: Queues, avail: Ring, used: Ring, fetchIdx: nat, seenIdx: nat,
                   h: int, chains': map<int, Chain>)
    requires QueuesOk(chains, q, avail, used, fetchIdx, seenIdx) && |chains'| <= 2
    requires h !in chains && h in chains' && chains'[h].stage == Posted && chains' == chains[h := chains'[h]]
    ensures |avail.ring| == NUM
    ensures QueuesOk(chains', Post(q, h), Entered(avail, h), used, fetchIdx, seenIdx)
  {
    QueueShort(chains, q.posted, Posted);
    Wraps(q.nAvail, q.nAvail);
    RingPush(avail.ring, q.nAvail, q.posted, h);
    QueuePush(chains, q.posted, Posted, chains', h);
    QueueElsewhere(chains, q.used, Used, chains', h);
  }

  lemma QueuesFetch(chains: map<int, Chain>, q: Queues, avail: Ring, used: Ring, fetchIdx: nat, seenIdx: nat)
    requires QueuesOk(chains, q, avail, used, fetchIdx, seenIdx) && q.posted != []
    ensures |avail.ring| == NUM && avail.ring[Slot(fetchIdx)] == q.posted[0]
    ensures q.posted[0] in chains && chains[q.posted[0]].stage == Posted
    ensures QueuesOk(Staged(chains, q.posted[0], Fetched), Fetch(q), avail, used, U16(fetchIdx + 1), seenIdx)
  {
    QueueShort(chains, q.posted, Posted);
    Wraps(q.nAvail - |q.posted|, q.nAvail);
    RingPop(avail.ring, q.nAvail, q.posted);
    QueuePop(chains, q.posted, Posted, Fetched);
    QueueElsewhere(chains, q.used, Used, Staged(chains, q.posted[0], Fetched), q.posted[0]);
    StagedSize(chains, q.posted[0], Fetched);
  }

  lemma QueuesUse(chains: map<int, Chain>, q: Queues, avail: Ring, used: Ring, fetchIdx: nat, seenIdx: nat, h: int)
    requires QueuesOk(chains, q, avail, used, fetchIdx, seenIdx) && h in chains && chains[h].stage == Fetched
    ensures |used.ring| == NUM
    ensures QueuesOk(Staged(chains, h, Used), Use(q, h), avail, Entered(used, h), fetchIdx, seenIdx)
  {
    var chains' := Staged(chains, h, Used);
    QueueShort(chains, q.used, Used);
    Wraps(q.nUsed, q.nUsed);
    RingPush(used.ring, q.nUsed, q.used, h);
    QueuePush(chains, q.used, Used, chains', h);
    QueueElsewhere(chains, q.posted, Posted, chains', h);
    StagedSize(chains, h, Used);
  }

  lemma QueuesSee(chains: map<int, Chain>, q: Queues, avail: Ring, used: Ring, fetchIdx: nat, seenIdx: nat)
    requires QueuesOk(chains, q, avail, used, fetchIdx, seenIdx) && q.used != []
    ensures |used.ring| == NUM && used.ring[Slot(seenIdx)] == q.used[0]
    ensures q.used[0] in chains && chains[q.used[0]].stage == Used
    ensures QueuesOk(Staged(chains, q.used[0], Finished), See(q), avail, used, fetchIdx, U16(seenIdx + 1))
  {
    QueueShort(chains, q.used, Used);
    Wraps(q.nUsed - |q.used|, q.nUsed);
    RingPop(used.ring, q.nUsed, q.used);
    QueuePop(chains, q.used, Used, Finished);
    QueueElsewhere(chains, q.posted, Posted, Staged(chains, q.used[0], Finished), q.used[0]);
    StagedSize(chains, q.used[0], Finished);
  }

  lemma QueuesFinish(chains: map<int, Chain>, q: Queues, avail: Ring, used: Ring, fetchIdx: nat, seenIdx: nat, h: int)
    requires QueuesOk(chains, q, avail, used, fetchIdx, seenIdx) && h in chains && chains[h].stage == Finished
    ensures QueuesOk(chains - {h}, q, avail, used, fetchIdx, seenIdx)
  {
    QueueElsewhere(chains, q.posted, Posted, chains - {h}, h);
    QueueElsewhere(chains, q.used, Used, chains - {h}, h);
    assert chains == (chains - {h})[h := chains[h]];
  }

  /** The three descriptors as virtio_disk_rw fills them in. */
  function Filled(desc: seq<Desc>, i0: int, i1: int, i2: int, b: int, write: bool): seq<Desc>
    requires |desc| == NUM && 0 <= i0 < NUM && 0 <= i1 < NUM && 0 <= i2 < NUM
  {
    desc[i0 := Desc(Header(i0), 16, F_NEXT, i1)]
        [i1 := Desc(Data(b), BSIZE, if write then F_NEXT else F_WRITE + F_NEXT, i2)]
        [i2 := Desc(Status(i0), 1, F_WRITE, 0)]
  }

  /** A new request in three free descriptors. */
  lemma ChainMade(free: seq<bool>, desc: seq<Desc>, ops: seq<Req>, owner: seq<int>, chains: map<int, Chain>,
                  i0: int, c: Chain)
    requires ChainsOk(free, desc, ops, owner, chains)
    requires |free| == |desc| == |ops| == |owner| == NUM
    requires 0 <= i0 < NUM && 0 <= c.i1 < NUM && 0 <= c.i2 < NUM && i0 != c.i1 && i0 != c.i2 && c.i1 != c.i2
    requires free[i0] && free[c.i1] && free[c.i2]
    requires Count(free) + 3 * |chains| == NUM
    ensures i0 !in chains && |chains[i0 := c]| == |chains| + 1
    ensures ChainsOk(free[i0 := false][c.i1 := false][c.i2 := false], Filled(desc, i0, c.i1, c.i2, c.b, c.write),
                     ops[i0 := Req(c.write, c.blockno * (BSIZE / 512))],
                     owner[i0 := i0][c.i1 := i0][c.i2 := i0], chains[i0 := c])
    ensures Count(free[i0 := false][c.i1 := false][c.i2 := false]) + 3 * |chains[i0 := c]| == NUM
  {
    ChainAdded(free, desc, ops, owner, chains, Filled(desc, i0, c.i1, c.i2, c.b, c.write),
               ops[i0 := Req(c.write, c.blockno * (BSIZE / 512))], i0, c);
    CountThree(free, i0, c.i1, c.i2, false);
    assert chains == chains[i0 := c] - {i0};
  }

  /** `s` with `v` at a chain's three places. */
  function Reset<T>(s: seq<T>, h: int, c: Chain, v: T): seq<T>
    requires |s| == NUM && 0 <= h < NUM && 0 <= c.i1 < NUM && 0 <= c.i2 < NUM
  {
    s[h := v][c.i1 := v][c.i2 := v]
  }

  lemma ChainDropped(free: seq<bool>, desc: seq<Desc>, ops: seq<Req>, owner: seq<int>, chains: map<int, Chain>, h: int)
    requires ChainsOk(free, desc, ops, owner, chains) && h in chains && Count(free) + 3 * |chains| == NUM
    ensures 0 <= h < NUM && 0 <= chains[h].i1 < NUM && 0 <= chains[h].i2 < NUM
    ensures |free| == |desc| == |owner| == NUM
    ensures var c := chains[h];
            && ChainsOk(Reset(free, h, c, true), Reset(desc, h, c, NO_DESC), ops, Reset(owner, h, c, NUM), chains - {h})
            && Count(Reset(free, h, c, true)) + 3 * |chains - {h}| == NUM
  {
    ChainRemoved(free, desc, ops, owner, chains, h);
    CountThree(free, h, chains[h].i1, chains[h].i2, true);
    assert chains == (chains - {h})[h := chains[h]];
  }

  lemma StagedSize(chains: map<int, Chain>, h: int, stage: Stage)
    requires h in chains
    ensures |Staged(chains, h, stage)| == |chains|
  {
    SameSize(chains, Staged(chains, h, stage));
  }

  lemma RequestAdded(chains: map<int, Chain>, info: seq<int>, status: seq<int>, busy: set<int>,
                     data: map<int, Block>, store: map<int, Block>, h: int, c: Chain)
    requires RequestsOk(chains, info, status, busy, data, store)
    requires h !in chains && 0 <= h < NUM && c.stage == Posted && c.b in data && c.blockno in store
    requires forall g | g in chains :: chains[g].b != c.b && chains[g].blockno != c.blockno
    ensures RequestsOk(chains[h := c], info[h := c.b], status[h := 0xff], busy + {c.b}, data, store)
  {
    var chains', info', status', busy' := chains[h := c], info[h := c.b], status[h := 0xff], busy + {c.b};
    forall g | g in chains' ensures RequestAt(chains', info', status', busy', data, store, g) {
      assert g in chains ==> RequestAt(chains, info, status, busy, data, store, g);
    }
    forall f, g | f in chains' && g in chains' ensures RequestsDiffer(chains', f, g) {
      assert f in chains && g in chains ==> RequestsDiffer(chains, f, g);
    }
  }

  lemma RequestRemoved(chains: map<int, Chain>, info: seq<int>, status: seq<int>, busy: set<int>,
                       data: map<int, Block>, store: map<int, Block>, h: int, x: int)
    requires RequestsOk(chains, info, status, busy, data, store) && 0 <= h < NUM
    ensures RequestsOk(chains - {h}, info[h := x], status, busy, data, store)
  {
    var chains' := chains - {h};
    forall g | g in chains' ensures RequestAt(chains', info[h := x], status, busy, data, store, g) {
      assert RequestAt(chains, info, status, busy, data, store, g);
    }
    forall f, g | f in chains' && g in chains' ensures RequestsDiffer(chains', f, g) {
      assert RequestsDiffer(chains, f, g);
    }
  }

  lemma RequestFetched(chains: map<int, Chain>, info: seq<int>, status: seq<int>, busy: set<int>,
                       data: map<int, Block>, store: map<int, Block>, h: int)
    requires RequestsOk(chains, info, status, busy, data, store) && h in chains && chains[h].stage == Posted
    ensures RequestsOk(Staged(chains, h, Fetched), info, status, busy, data, store)
  {
    var chains' := Staged(chains, h, Fetched);
    forall g | g in chains' ensures RequestAt(chains', info, status, busy, data, store, g) {
      assert RequestAt(chains, info, status, busy, data, store, g);
    }
    forall f, g | f in chains' && g in chains' ensures RequestsDiffer(chains', f, g) {
      assert RequestsDiffer(chains, f, g);
    }
  }

  /** The device carries a request out: the buffer's block and the disk's are the same from then on. */
  lemma RequestServed(chains: map<int, Chain>, info: seq<int>, status: seq<int>, busy: set<int>,
                      data: map<int, Block>, store: map<int, Block>, h: int)
    requires RequestsOk(chains, info, status, busy, data, store) && h in chains && chains[h].stage == Fetched
    ensures 0 <= h < NUM && chains[h].b in data && chains[h].blockno in store
    ensures var c := chains[h];
            RequestsOk(Staged(chains, h, Used), info, status[h := 0], busy,
                       if c.write then data else data[c.b := store[c.blockno]],
                       if c.write then store[c.blockno := data[c.b]] else store)
  {
    assert RequestAt(chains, info, status, busy, data, store, h);
    var c, chains', status' := chains[h], Staged(chains, h, Used), status[h := 0];
    var data' := if c.write then data else data[c.b := store[c.blockno]];
    var store' := if c.write then store[c.blockno := data[c.b]] else store;
    forall g | g in chains' ensures RequestAt(chains', info, status', busy, data', store', g) {
      assert RequestAt(chains, info, status, busy, data, store, g) && RequestsDiffer(chains, g, h);
    }
    forall f, g | f in chains' && g in chains' ensures RequestsDiffer(chains', f, g) {
      assert RequestsDiffer(chains, f, g);
    }
  }

  lemma RequestSeen(chains: map<int, Chain>, info: seq<int>, status: seq<int>, busy: set<int>,
                    data: map<int, Block>, store: map<int, Block>, h: int)
    requires RequestsOk(chains, info, status, busy, data, store) && h in chains && chains[h].stage == Used
    ensures 0 <= h < NUM && status[h] == 0 && info[h] == chains[h].b
    ensures RequestsOk(Staged(chains, h, Finished), info, status, busy - {chains[h].b}, data, store)
  {
    assert RequestAt(chains, info, status, busy, data, store, h);
    var chains', busy' := Staged(chains, h, Finished), busy - {chains[h].b};
    forall g | g in chains' ensures RequestAt(chains', info, status, busy', data, store, g) {
      assert RequestAt(chains, info, status, busy, data, store, g) && RequestsDiffer(chains, g, h);
    }
    forall f, g | f in chains' && g in chains' ensures RequestsDiffer(chains', f, g) {
      assert RequestsDiffer(chains, f, g);
    }
  }

  lemma FreeAreEmpty(free: seq<bool>, desc: seq<Desc>, ops: seq<Req>, owner: seq<int>, chains: map<int, Chain>)
    requires ChainsOk(free, desc, ops, owner, chains)
    ensures |free| == |desc| == |ops| == |owner| == NUM
    ensures forall i | 0 <= i < NUM && free[i] :: desc[i] == NO_DESC
  {
    forall i | 0 <= i < NUM && free[i] ensures desc[i] == NO_DESC {
      assert DescAt(free, desc, owner, chains, i);
    }
  }

  lemma ChainIs(free: seq<bool>, desc: seq<Desc>, ops: seq<Req>, owner: seq<int>, chains: map<int, Chain>, h: int)
    requires ChainsOk(free, desc, ops, owner, chains) && h in chains
    ensures |free| == |desc| == |ops| == |owner| == NUM && Formatted(desc, ops, h, chains[h])
    ensures ops[h].sector / (BSIZE / 512) == chains[h].blockno
  {
    assert ChainAt(free, desc, ops, owner, chains, h);
  }

  lemma RequestIs(chains: map<int, Chain>, info: seq<int>, status: seq<int>, busy: set<int>,
                  data: map<int, Block>, store: map<int, Block>, h: int)
    requires RequestsOk(chains, info, status, busy, data, store) && h in chains
    ensures |info| == |status| == NUM && RequestAt(chains, info, status, busy, data, store, h)
    ensures 0 <= h < NUM && info[h] == chains[h].b && chains[h].b in data && chains[h].blockno in store
    ensures chains[h].b in busy <==> chains[h].stage != Finished
    ensures chains[h].stage == Finished ==> data[chains[h].b] == store[chains[h].blockno]
  {
  }

  lemma RequestSizes(chains: map<int, Chain>, info: seq<int>, status: seq<int>, busy: set<int>,
                     data: map<int, Block>, store: map<int, Block>)
    requires RequestsOk(chains, info, status, busy, data, store)
    ensures |info| == |status| == NUM
  {
  }

  /** What the end of a request leaves. */
  lemma RequestDone(free: seq<bool>, desc: seq<Desc>, ops: seq<Req>, owner: seq<int>, chains: map<int, Chain>,
                    info: seq<int>, status: seq<int>, busy: set<int>, data: map<int, Block>, store: map<int, Block>,
                    q: Queues, avail: Ring, used: Ring, fetchIdx: nat, seenIdx: nat, h: int)
    requires ChainsOk(free, desc, ops, owner, chains) && Count(free) + 3 * |chains| == NUM
    requires QueuesOk(chains, q, avail, used, fetchIdx, seenIdx) && RequestsOk(chains, info, status, busy, data, store)
    requires h in chains && chains[h].stage == Finished
    ensures 0 <= h < NUM && 0 <= chains[h].i1 < NUM && 0 <= chains[h].i2 < NUM
    ensures |free| == |desc| == |owner| == |info| == NUM
    ensures var c := chains[h];
      && ChainsOk(Reset(free, h, c, true), Reset(desc, h, c, NO_DESC), ops, Reset(owner, h, c, NUM), chains - {h})
      && Count(Reset(free, h, c, true)) + 3 * |chains - {h}| == NUM
    ensures QueuesOk(chains - {h}, q, avail, used, fetchIdx, seenIdx)
    ensures RequestsOk(chains - {h}, info[h := 0], status, busy, data, store)
  {
    hide ChainsOk, RequestsOk, QueuesOk, Count, RequestAt, Reset;
    RequestIs(chains, info, status, busy, data, store, h);
    RequestRemoved(chains, info, status, busy, data, store, h, 0);
    ChainDropped(free, desc, ops, owner, chains, h);
    QueuesFinish(chains, q, avail, used, fetchIdx, seenIdx, h);
  }

  lemma EmptyOk(data: map<int, Block>, store: map<int, Block>)
    ensures var free, ring := seq(NUM, _ => true), Ring(seq(NUM, _ => 0), 0);
      && ChainsOk(free, seq(NUM, _ => NO_DESC), seq(NUM, _ => Req(false, 0)), seq(NUM, _ => NUM), map[])
      && Count(free) == NUM && QueuesOk(map[], Queues([], [], 0, 0), ring, ring, 0, 0)
      && RequestsOk(map[], seq(NUM, _ => 0), seq(NUM, _ => 0), {}, data, store)
  {
    CountAll(seq(NUM, _ => true));
  }

  lemma CountThree(free: seq<bool>, i: nat, j: nat, k: nat, v: bool)
    requires i < |free| && j < |free| && k < |free| && i != j && i != k && j != k
    requires free[i] != v && free[j] != v && free[k] != v
    ensures Count(free[i := v][j := v][k := v]) == Count(free) + (if v then 3 else -3)
  {
    CountSet(free, i, v);
    CountSet(free[i := v], j, v);
    CountSet(free[i := v][j := v], k, v);
  }
}

module Virtio {
  import opened VirtioQueue

  class Disk {
    var desc: seq<Desc>
    var free: seq<bool>
    var ops: seq<Req>
    var info: seq<int>            // info[i].b
    var status: seq<int>          // info[i].status
    var avail: Ring
    var used: Ring
    var seenIdx: nat              // used_idx
    var busy: set<int>            // the buffers with b->disk == 1
    var data: map<int, Block>     // b->data
    var sleepers: set<int>        // processes asleep on &disk.free[0]
    var waiting: set<int>         // buffers whose request's process is asleep on b

    var store: map<int, Block>    // the disk
    var fetchIdx: nat             // how far the device has read the avail ring

    var chains: map<int, Chain>   // the requests under way, and how far the device and the driver are
    ghost var owner: seq<int>
    ghost var q: Queues

    ghost predicate Ok()
      reads this
    {
      && ChainsOk(free, desc, ops, owner, chains)
      && Count(free) + 3 * |chains| == NUM
      && QueuesOk(chains, q, avail, used, fetchIdx, seenIdx)
      && RequestsOk(chains, info, status, busy, data, store)
    }

    /** Nobody sleeps in vain: for descriptors only while fewer than three are free, and for a buffer
        only while the device has it. */
    ghost predicate Awake()
      reads this
    {
      (sleepers != {} ==> Count(free) < 3) && waiting <= busy
    }

    /** A fresh, empty queue. */
    constructor (data: map<int, Block>, store: map<int, Block>)
      ensures Ok() && Awake() && chains == map[] && this.data == data && this.store == store
    {
      desc, free, ops := seq(NUM, _ => NO_DESC), seq(NUM, _ => true), seq(NUM, _ => Req(false, 0));
      info, status := seq(NUM, _ => 0), seq(NUM, _ => 0);
      avail, used, fetchIdx, seenIdx := Ring(seq(NUM, _ => 0), 0), Ring(seq(NUM, _ => 0), 0), 0, 0;
      busy, sleepers, waiting := {}, {}, {};
      this.data, this.store := data, store;
      chains, owner, q := map[], seq(NUM, _ => NUM), Queues([], [], 0, 0);
      EmptyOk(data, store);
    }

    /** The lowest free descriptor, taken; -1 exactly if all are in use. */
    method AllocDesc() returns (i: int)
      requires |free| == NUM
      modifies this`free
      ensures i == -1 <==> Count(old(free)) == 0
      ensures i == -1 ==> free == old(free)
      ensures i != -1 ==> 0 <= i < NUM && old(free)[i] && free == old(free)[i := false]
      ensures forall k | 0 <= k < (if i == -1 then NUM else i) :: !old(free)[k]
      ensures i != -1 ==> Count(free) == Count(old(free)) - 1
    {
      i := 0;
      while i < NUM
        invariant 0 <= i <= NUM && free == old(free) && forall k | 0 <= k < i :: !free[k]
      {
        if free[i] {
          CountSet(free, i, false);
          free := free[i := false];
          return;
        }
        i := i + 1;
      }
      CountNone(free);
      i := -1;
    }

    /** Descriptor `i`, in use so far, can be allocated again. Its two panics are the precondition. */
    method FreeDesc(i: int)
      requires |free| == |desc| == NUM && 0 <= i < NUM && !free[i]
      modifies this`free, this`desc, this`sleepers
      ensures free == old(free)[i := true] && desc == old(desc)[i := NO_DESC] && sleepers == {}
    {
      desc := desc[i := NO_DESC];
      free := free[i := true];
      sleepers := {};
    }

    /** Three descriptors or none: if there are not three, everything is as before. */
    method Alloc3() returns (ok: bool, idx: seq<int>)
      requires |free| == |desc| == NUM && forall i | 0 <= i < NUM && free[i] :: desc[i] == NO_DESC
      modifies this`free, this`desc, this`sleepers
      ensures ok <==> Count(old(free)) >= 3
      ensures desc == old(desc) && sleepers <= old(sleepers)
      ensures !ok ==> free == old(free)
      ensures ok ==> && |idx| == 3 && 0 <= idx[0] < NUM && 0 <= idx[1] < NUM && 0 <= idx[2] < NUM
                     && idx[0] != idx[1] && idx[0] != idx[2] && idx[1] != idx[2]
                     && old(free)[idx[0]] && old(free)[idx[1]] && old(free)[idx[2]]
                     && free == old(free)[idx[0] := false][idx[1] := false][idx[2] := false]
                     && sleepers == old(sleepers)
    {
      idx := [];
      while |idx| < 3
        invariant |idx| <= 3 && |free| == NUM && desc == old(desc) && sleepers == old(sleepers)
        invariant forall k | 0 <= k < |idx| :: 0 <= idx[k] < NUM && old(free)[idx[k]]
        invariant forall j, k | 0 <= j < k < |idx| :: idx[j] != idx[k]
        invariant forall i | 0 <= i < NUM :: free[i] == (old(free)[i] && i !in idx)
        invariant Count(free) == Count(old(free)) - |idx|
        decreases 3 - |idx|
      {
        var i := AllocDesc();
        if i < 0 {
          var j := 0;
          while j < |idx|
            invariant j <= |idx| && |free| == NUM && desc == old(desc) && sleepers <= old(sleepers)
            invariant forall i | 0 <= i < NUM :: free[i] == (old(free)[i] && i !in idx[j..])
          {
            assert idx[j] in idx[j..] && forall i :: i in idx[j..] <==> i == idx[j] || i in idx[j + 1..];
            assert idx[j] !in idx[j + 1..];
            FreeDesc(idx[j]);
            j := j + 1;
          }
          assert free == old(free);
          return false, [];
        }
        assert forall k :: k in idx + [i] <==> k in idx || k == i;
        idx := idx + [i];
      }
      assert free == old(free)[idx[0] := false][idx[1] := false][idx[2] := false];
      ok := true;
    }

    /** The loop along the next fields frees exactly the chain's three descriptors, none of them free before. */
    method FreeChain(h: int)
      requires ChainsOk(free, desc, ops, owner, chains) && h in chains
      modifies this`free, this`desc, this`sleepers
      ensures 0 <= h < NUM && 0 <= chains[h].i1 < NUM && 0 <= chains[h].i2 < NUM && |old(free)| == |old(desc)| == NUM
      ensures free == Reset(old(free), h, chains[h], true) && desc == Reset(old(desc), h, chains[h], NO_DESC)
      ensures sleepers == {}
    {
      assert ChainAt(free, desc, ops, owner, chains, h);
      ghost var c := chains[h];
      var i := h;
      ghost var left: nat := 3;
      while true
        invariant 1 <= left <= 3 && i == (if left == 3 then h else if left == 2 then c.i1 else c.i2)
        invariant left == 3 ==> free == old(free) && desc == old(desc)
        invariant left == 2 ==> free == old(free)[h := true] && desc == old(desc)[h := NO_DESC]
        invariant left == 1 ==>
                    free == old(free)[h := true][c.i1 := true] && desc == old(desc)[h := NO_DESC][c.i1 := NO_DESC]
        decreases left
      {
        var flag, nxt := desc[i].flags, desc[i].next;
        FreeDesc(i);
        if flag % 2 == 1 {                   // VRING_DESC_F_NEXT
          i := nxt;
        } else {
          break;
        }
        left := left - 1;
      }
    }

    /** virtio_disk_rw fills in the three descriptors and its own records, and tells the device the head
        of the chain. */
    method Format(i0: int, i1: int, i2: int, b: int, write: bool, blockno: int)
      requires |desc| == |ops| == |status| == |info| == NUM && 0 <= i0 < NUM && 0 <= i1 < NUM && 0 <= i2 < NUM
      requires |avail.ring| == NUM
      modifies this`desc, this`ops, this`info, this`status, this`busy, this`avail, this`q
      ensures desc == Filled(old(desc), i0, i1, i2, b, write)
      ensures ops == old(ops)[i0 := Req(write, blockno * (BSIZE / 512))]
      ensures info == old(info)[i0 := b] && status == old(status)[i0 := 0xff] && busy == old(busy) + {b}
      ensures avail == Entered(old(avail), i0) && q == Post(old(q), i0)
    {
      ops := ops[i0 := Req(write, blockno * (BSIZE / 512))];
      desc := desc[i0 := Desc(Header(i0), 16, F_NEXT, i1)];
      desc := desc[i1 := Desc(Data(b), BSIZE, if write then F_NEXT else F_WRITE + F_NEXT, i2)];
      status := status[i0 := 0xff];
      desc := desc[i2 := Desc(Status(i0), 1, F_WRITE, 0)];
      busy := busy + {b};
      info := info[i0 := b];
      avail := avail.(ring := avail.ring[Slot(avail.idx) := i0]);
      avail := avail.(idx := U16(avail.idx + 1));
      q := Post(q, i0);
    }

    /** virtio_disk_rw once it has its three descriptors. `free0` is the free map before that. */
    method Start(h: int, i1: int, i2: int, b: int, write: bool, blockno: int, ghost free0: seq<bool>)
      requires |free0| == NUM && 0 <= h < NUM && 0 <= i1 < NUM && 0 <= i2 < NUM && h != i1 && h != i2 && i1 != i2
      requires free0[h] && free0[i1] && free0[i2] && free == free0[h := false][i1 := false][i2 := false]
      requires ChainsOk(free0, desc, ops, owner, chains) && Count(free0) + 3 * |chains| == NUM && Count(free0) >= 3
      requires QueuesOk(chains, q, avail, used, fetchIdx, seenIdx)
      requires RequestsOk(chains, info, status, busy, data, store)
      requires b in data && blockno in store
      requires forall g | g in chains :: chains[g].b != b && chains[g].blockno != blockno
      modifies this`desc, this`ops, this`info, this`status, this`avail, this`busy,
               this`chains, this`owner, this`q
      ensures Ok() && h !in old(chains) && busy == old(busy) + {b}
      ensures chains == old(chains)[h := Chain(i1, i2, b, write, blockno, Posted)]
    {
      hide ChainsOk, RequestsOk, QueuesOk, Count, U16, QueueOk, Slot, Filled, RequestAt, ChainAt, Formatted, DescAt,
          Entered, Post;
      FreeAreEmpty(free0, desc, ops, owner, chains);
      RequestSizes(chains, info, status, busy, data, store);
      var c := Chain(i1, i2, b, write, blockno, Posted);
      ChainMade(free0, desc, ops, owner, chains, h, c);
      RequestAdded(chains, info, status, busy, data, store, h, c);
      QueuesPost(chains, q, avail, used, fetchIdx, seenIdx, h, chains[h := c]);
      Format(h, i1, i2, b, write, blockno);
      chains, owner := chains[h := c], owner[h := h][i1 := h][i2 := h];
    }

    /** virtio_disk_rw up to its wait for the device: false if process `me` has to wait for descriptors. */
    method Submit(me: int, b: int, write: bool, blockno: int) returns (ok: bool, h: int)
      requires Ok() && b in data && blockno in store
      requires forall g | g in chains :: chains[g].b != b && chains[g].blockno != blockno
      modifies this`desc, this`free, this`ops, this`info, this`status, this`avail, this`busy,
               this`sleepers, this`chains, this`owner, this`q
      ensures Ok() && (old(Awake()) ==> Awake())
      ensures ok <==> |old(chains)| < 2
      ensures !ok ==> chains == old(chains) && free == old(free) && me in sleepers && busy == old(busy)
      ensures ok ==> && h !in old(chains) && h in chains && chains == old(chains)[h := chains[h]]
                     && chains[h].b == b && chains[h].write == write && chains[h].blockno == blockno
                     && chains[h].stage == Posted && busy == old(busy) + {b}
    {
      hide ChainsOk, RequestsOk, QueuesOk, Count;
      FreeAreEmpty(free, desc, ops, owner, chains);
      ghost var free0 := free;
      var idx;
      ok, idx := Alloc3();
      if !ok {
        sleepers := sleepers + {me};
        return false, 0;
      }
      h := idx[0];
      Start(h, idx[1], idx[2], b, write, blockno, free0);
    }

    /** The device looks for a request it has not seen. */
    method DeviceFetch() returns (found: bool, h: int)
      requires Ok()
      modifies this`fetchIdx, this`chains, this`q
      ensures Ok() && (old(Awake()) ==> Awake())
      ensures found <==> old(q).posted != []
      ensures found ==> h in old(chains) && old(chains)[h].stage == Posted
      ensures if found then old(q).posted[0] == h && h in old(chains) && chains == Staged(old(chains), h, Fetched)
              else chains == old(chains)
    {
      hide ChainsOk, RequestsOk, QueuesOk, Count, U16, QueueOk;
      RingIndices(chains, q, avail, used, fetchIdx, seenIdx);
      if fetchIdx == avail.idx {
        return false, 0;
      }
      QueuesFetch(chains, q, avail, used, fetchIdx, seenIdx);
      h := avail.ring[Slot(fetchIdx)];
      ChainsStaged(free, desc, ops, owner, chains, h, Fetched);
      RequestFetched(chains, info, status, busy, data, store, h);
      fetchIdx := U16(fetchIdx + 1);
      chains, q := Staged(chains, h, Fetched), Fetch(q);
      found := true;
    }

    /** The device follows the descriptors from the head it was given. It moves the block and reports success,
        if they are a header and a block that it may use as the request says, and a status byte that it may
        write, and puts the head in the used ring. */
    method Transfer(h: int)
      requires ChainsOk(free, desc, ops, owner, chains) && RequestsOk(chains, info, status, busy, data, store)
      requires h in chains && |used.ring| == NUM
      modifies this`data, this`store, this`status, this`used
      ensures |old(status)| == NUM && 0 <= h < NUM && status == old(status)[h := 0]
      ensures chains[h].b in old(data) && chains[h].blockno in old(store)
      ensures data == if chains[h].write then old(data) else old(data)[chains[h].b := old(store)[chains[h].blockno]]
      ensures store == if chains[h].write then old(store)[chains[h].blockno := old(data)[chains[h].b]] else old(store)
      ensures used == Entered(old(used), h)
    {
      hide ChainsOk, RequestsOk, U16, Slot;
      ChainIs(free, desc, ops, owner, chains, h);
      RequestIs(chains, info, status, busy, data, store, h);
      var d0 := desc[h];
      var d1 := desc[d0.next];
      var d2 := desc[d1.next];
      var op := ops[d0.addr.i];
      var n := op.sector / (BSIZE / 512);
      if Chained(d0) && Chained(d1) && !Chained(d2) && !Writable(d0) && Writable(d2)
          && d0.len == 16 && d1.len == BSIZE && d2.len == 1 && op.sector % (BSIZE / 512) == 0 {
        if op.write && !Writable(d1) {
          store := store[n := data[d1.addr.b]];
          status := status[d2.addr.i := 0];
        } else if !op.write && Writable(d1) {
          data := data[d1.addr.b := store[n]];
          status := status[d2.addr.i := 0];
        }
      }
      used := used.(ring := used.ring[Slot(used.idx) := h]);
      used := used.(idx := U16(used.idx + 1));
    }

    /** The device carries out any request that it has seen. */
    method DeviceComplete(h: int)
      requires Ok() && h in chains && chains[h].stage == Fetched
      modifies this`data, this`store, this`status, this`used, this`chains, this`q
      ensures Ok() && (old(Awake()) ==> Awake())
      ensures chains == Staged(old(chains), h, Used)
      ensures old(chains)[h].b in old(data) && old(chains)[h].blockno in old(store)
      ensures data == if old(chains)[h].write then old(data)
                      else old(data)[old(chains)[h].b := old(store)[old(chains)[h].blockno]]
      ensures store == if old(chains)[h].write then old(store)[old(chains)[h].blockno := old(data)[old(chains)[h].b]]
                       else old(store)
    {
      hide ChainsOk, RequestsOk, QueuesOk, Count, U16, QueueOk, Slot, Staged, RequestAt, ChainAt, Formatted, Entered,
           Use;
      RequestServed(chains, info, status, busy, data, store, h);
      ChainsStaged(free, desc, ops, owner, chains, h, Used);
      QueuesUse(chains, q, avail, used, fetchIdx, seenIdx, h);
      Transfer(h);
      chains, q := Staged(chains, h, Used), Use(q, h);
    }

    /** What the device may do at any moment: fetch a request, complete one that it has fetched, or nothing. */
    method DeviceActs(ghost chains0: map<int, Chain>, ghost done0: set<int>) returns (ghost done: set<int>)
      requires Ok() && Advanced(chains0, chains, done0)
      modifies this`data, this`store, this`status, this`used, this`fetchIdx, this`chains, this`q
      ensures Ok() && (old(Awake()) ==> Awake())
      ensures Advanced(chains0, chains, done) && done0 <= done && Unseen(chains) == Unseen(old(chains))
    {
      hide ChainsOk, RequestsOk, QueuesOk, Count, U16, QueueOk, Staged, Advanced, Unseen;
      done := done0;
      if * {
        ghost var before := chains;
        var found, h := DeviceFetch();
        if found {
          AdvancedFetched(chains0, before, done, h);
        }
      } else if h :| h in chains && chains[h].stage == Fetched {
        AdvancedServed(chains0, chains, done, h);
        done := done + {h};
        DeviceComplete(h);
      }
    }

    /** virtio_disk_intr: every completed request's buffer is given back and its process woken, also when the
        device completes more of them, those in `done`, while the loop runs. */
    method Intr() returns (ghost done: set<int>)
      requires Ok()
      modifies this`busy, this`waiting, this`seenIdx, this`chains, this`q,
               this`data, this`store, this`status, this`used, this`fetchIdx
      ensures Ok() && (old(Awake()) ==> Awake())
      ensures Advanced(old(chains), chains, done)
      ensures forall h | h in chains :: chains[h].stage != Used
    {
      hide ChainsOk, RequestsOk, QueuesOk, Count, U16, QueueOk, Staged, Advanced, Unseen;
      ghost var chains0 := chains;
      done := {};
      NothingAdvanced(chains);
      RingIndices(chains, q, avail, used, fetchIdx, seenIdx);
      while seenIdx != used.idx
        invariant Ok() && (old(Awake()) ==> Awake()) && Advanced(chains0, chains, done)
        invariant seenIdx == used.idx <==> q.used == []
        decreases Unseen(chains)
      {
        ghost var chains1, id := chains, q.used[0];
        SeeOne();
        AdvancedSeen(chains0, chains1, done, id);
        done := DeviceActs(chains0, done);
        RingIndices(chains, q, avail, used, fetchIdx, seenIdx);
      }
      RingIndices(chains, q, avail, used, fetchIdx, seenIdx);
      NoneLeft(chains, q.used);
    }

    /** One turn of virtio_disk_intr's loop. */
    method SeeOne()
      requires Ok() && q.used != []
      modifies this`busy, this`waiting, this`seenIdx, this`chains, this`q
      ensures Ok() && (old(Awake()) ==> Awake())
      ensures q.used == old(q).used[1..] && old(q).used[0] in old(chains)
      ensures old(chains)[old(q).used[0]].stage == Used && chains == Staged(old(chains), old(q).used[0], Finished)
    {
      hide ChainsOk, RequestsOk, QueuesOk, Count, U16, QueueOk;
      RingIndices(chains, q, avail, used, fetchIdx, seenIdx);
      QueuesSee(chains, q, avail, used, fetchIdx, seenIdx);
      var id := used.ring[Slot(seenIdx)];
      RequestSeen(chains, info, status, busy, data, store, id);
      ChainsStaged(free, desc, ops, owner, chains, id, Finished);
      assert status[id] == 0;                // the status panic
      var b := info[id];
      busy := busy - {b};
      waiting := waiting - {b};
      seenIdx := U16(seenIdx + 1);
      chains, q := Staged(chains, id, Finished), See(q);
    }

    /** The end of virtio_disk_rw for a request that is done: its descriptors are free again. */
    method Drop(h: int)
      requires Ok() && h in chains && chains[h].stage == Finished
      modifies this`info, this`free, this`desc, this`sleepers, this`chains, this`owner
      ensures Ok() && chains == old(chains) - {h} && sleepers == {}
    {
      hide ChainsOk, RequestsOk, QueuesOk, Count, RequestAt, ChainAt, DescAt, Formatted, U16, QueueOk, Reset;
      ghost var c := chains[h];
      RequestDone(free, desc, ops, owner, chains, info, status, busy, data, store, q, avail, used, fetchIdx, seenIdx,
          h);
      info := info[h := 0];
      FreeChain(h);
      chains, owner := chains - {h}, Reset(owner, h, c, NUM);
    }

    /** virtio_disk_rw waits for the request with head `h`: false while its process has to sleep on. When it
        returns, the buffer holds what the disk does. */
    method Finish(h: int) returns (ok: bool)
      requires Ok() && h in chains
      modifies this`info, this`free, this`desc, this`sleepers, this`waiting, this`chains, this`owner
      ensures Ok() && (old(Awake()) ==> Awake())
      ensures ok <==> old(chains)[h].stage == Finished
      ensures !ok ==> chains == old(chains) && waiting == old(waiting) + {chains[h].b}
      ensures ok ==> && chains == old(chains) - {h} && sleepers == {}
                     && old(chains)[h].b in data && old(chains)[h].blockno in store
                     && data[old(chains)[h].b] == store[old(chains)[h].blockno]
    {
      hide ChainsOk, RequestsOk, QueuesOk, Count, RequestAt;
      RequestIs(chains, info, status, busy, data, store, h);
      if info[h] in busy {
        waiting := waiting + {info[h]};
        return false;
      }
      Drop(h);
      ok := true;
    }

    /** At most two requests are with the device at any time. */
    lemma AtMostTwo()
      requires Ok()
      ensures |chains| <= 2 && (|chains| == 2 <==> Count(free) < 3)
    {
    }
  }
}
