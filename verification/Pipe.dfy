// Pipes (kernel/pipe.c): a ring buffer under 32-bit counters, and who sleeps on it. Each method is what
// happens under one hold of the pipe's lock: from acquire to release, or to the sleep that releases it.

module PipeRing {

  const PIPESIZE: nat := 512
  const UINT: nat := 0x1_0000_0000

  type Byte = x: int | 0 <= x < 256

  /** `data` holds the bytes of `stored` from `taken` on, each at its own index modulo the size. */
  ghost predicate Holds(data: seq<Byte>, stored: seq<Byte>, taken: nat) {
    && |data| == PIPESIZE && taken <= |stored| <= taken + PIPESIZE
    && forall k | taken <= k < |stored| :: data[k % PIPESIZE] == stored[k]
  }

  /** The counters may wrap: an index computed from a wrapped counter is that of the true count. */
  lemma WrappedIndex(k: nat)
    ensures k % UINT % PIPESIZE == k % PIPESIZE
  {
    var q, r := k / UINT, k % UINT;
    assert k == (q * 0x80_0000) * PIPESIZE + r;
    Multiples(q * 0x80_0000, r);
  }

  lemma Multiples(q: nat, r: nat)
    ensures (q * PIPESIZE + r) % PIPESIZE == r % PIPESIZE
  {
  }

  lemma WrappedNext(k: nat)
    ensures (k % UINT + 1) % UINT == (k + 1) % UINT
  {
  }

  /** Full and empty can be told from the wrapped counters. */
  lemma FullAndEmpty(taken: nat, stored: nat)
    requires taken <= stored <= taken + PIPESIZE
    ensures stored % UINT == (taken % UINT + PIPESIZE) % UINT <==> stored == taken + PIPESIZE
    ensures taken % UINT == stored % UINT <==> taken == stored
    ensures (stored % UINT - taken % UINT) % UINT == stored - taken
  {
    var d := stored - taken;
    assert stored % UINT == (taken % UINT + d) % UINT;
  }

  /** Numbers less than PIPESIZE apart have different indices. */
  lemma IndicesDiffer(a: nat, b: nat)
    requires a < b < a + PIPESIZE
    ensures a % PIPESIZE != b % PIPESIZE
  {
    var q := b / PIPESIZE - a / PIPESIZE;
    assert b - a == q * PIPESIZE + (b % PIPESIZE - a % PIPESIZE);
  }

  lemma Pushed(data: seq<Byte>, stored: seq<Byte>, taken: nat, ch: Byte)
    requires Holds(data, stored, taken) && |stored| < taken + PIPESIZE
    ensures Holds(data[|stored| % PIPESIZE := ch], stored + [ch], taken)
  {
    var n := |stored|;
    forall k | taken <= k < n ensures k % PIPESIZE != n % PIPESIZE {
      IndicesDiffer(k, n);
    }
  }
}

module Pipes {
  import opened PipeRing

  /** How a hold of the lock by pipewrite or piperead ends. */
  datatype Outcome = Done | Asleep | Killed | ReadersGone

  class Pipe {
    var data: array<Byte>
    var nread: nat             // uint: how many bytes have been taken out so far
    var nwrite: nat            // uint: how many have been put in
    var readopen: bool
    var writeopen: bool
    var readers: set<nat>      // processes asleep on &nread
    var writers: set<nat>      // processes asleep on &nwrite

    ghost var stored: seq<Byte>   // all bytes ever written
    ghost var taken: nat          // how many of them have been read

    ghost predicate Valid()
      reads this, data
    {
      && Holds(data[..], stored, taken)
      && nread == taken % UINT && nwrite == |stored| % UINT
    }

    /** Nobody sleeps who has something to do. */
    ghost predicate Awake()
      reads this
    {
      && (readers != {} ==> taken == |stored| && writeopen)
      && (writers != {} ==> |stored| == taken + PIPESIZE && readopen)
    }

    constructor ()
      ensures Valid() && Awake() && fresh(data)
      ensures stored == [] && taken == 0 && readopen && writeopen && readers == {} && writers == {}
    {
      data := new Byte[PIPESIZE](_ => 0);
      nread, nwrite, readopen, writeopen := 0, 0, true, true;
      readers, writers, stored, taken := {}, {}, [], 0;
    }

    /** The writer comes to the turn at which killed(pr) says yes: it finds room for the bytes before. */
    ghost predicate CutShort(src: seq<Byte>, n: nat, from: nat, alive: nat)
      reads this
      requires from <= n && from <= |src| <= n
    {
      && readopen && alive < n - from && alive <= |src| - from
      && |stored| + alive <= taken + PIPESIZE
    }

    /** Process `me` writes from its `i`-th byte on. `src` are the bytes that copyin can read of the `n`
        asked for, and `alive` is how often killed(pr) will still say no. */
    method Write(me: nat, src: seq<Byte>, n: nat, from: nat, alive: nat) returns (i: nat, how: Outcome)
      requires Valid() && from <= n && from <= |src| <= n
      modifies this`nwrite, this`readers, this`writers, this`stored, data
      ensures Valid() && from <= i <= |src| && i - from <= alive && stored == old(stored) + src[from..i]
      ensures how == Done ==> (i == n || i == |src|) && readers == {} && writers == old(writers)
      ensures how == Asleep ==> i < n && |stored| == taken + PIPESIZE && readers == {} && writers == old(writers) + {me}
      ensures how == Killed <==> old(CutShort(src, n, from, alive))
      ensures how == ReadersGone <==> from < n && !readopen
      ensures how == ReadersGone ==> i == from && readers == old(readers) && writers == old(writers)
      ensures how == Killed ==> i - from == alive && i < n && readers == old(readers) && writers == old(writers)
      ensures how != ReadersGone && from < n ==> readopen
      // Sleepers are never left behind, unless a kill cuts the write short after bytes were stored.
      ensures old(Awake()) ==> (Awake() <==> !(old(readers) != {} && alive > 0 && old(CutShort(src, n, from, alive))))
    {
      i := from;
      var turns: nat := 0;
      how := Done;
      while i < n
        invariant from <= i <= |src| && turns == i - from && turns <= alive
        invariant Valid() && stored == old(stored) + src[from..i]
        invariant taken == old(taken) && readopen == old(readopen)
        invariant readers == old(readers) && writers == old(writers) && how == Done
        invariant old(Awake()) && i > from ==> old(writers) == {}
        invariant i > from ==> readopen
        decreases n - i
      {
        FullAndEmpty(taken, |stored|);
        if !readopen {
          how := ReadersGone;
          break;
        }
        if turns >= alive {
          how := Killed;
          break;
        }
        turns := turns + 1;
        if nwrite == (nread + PIPESIZE) % UINT {
          readers := {};
          writers := writers + {me};
          how := Asleep;
          break;
        }
        if i >= |src| {
          break;
        }
        Store(src[i]);
        assert src[from..i + 1] == src[from..i] + [src[i]];
        i := i + 1;
      }
      if how == Done {
        readers := {};
      }
    }

    /** pi->data[pi->nwrite++ % PIPESIZE] = ch. */
    method Store(ch: Byte)
      requires Valid() && |stored| < taken + PIPESIZE
      modifies this`nwrite, this`stored, data
      ensures Valid() && stored == old(stored) + [ch]
    {
      WrappedIndex(|stored|);
      WrappedNext(|stored|);
      Pushed(data[..], stored, taken, ch);
      data[nwrite % PIPESIZE] := ch;
      nwrite := (nwrite + 1) % UINT;
      stored := stored + [ch];
      assert data[..] == old(data[..])[|old(stored)| % PIPESIZE := ch];
    }

    /** Process `me` reads up to `n` bytes; copyout fails after `room` of them. A byte whose copyout fails
        is gone. */
    method Read(me: nat, n: nat, room: nat, killed: bool) returns (dst: seq<Byte>, how: Outcome)
      requires Valid()
      modifies this`nread, this`readers, this`writers, this`taken
      ensures Valid() && old(taken) <= taken
      ensures how != ReadersGone
      ensures how == Asleep ==> && taken == old(taken) == |stored| && writeopen && !killed && dst == []
                                && readers == old(readers) + {me} && writers == old(writers)
      ensures how == Killed ==> && killed && taken == old(taken) == |stored| && writeopen && dst == []
                                && readers == old(readers) && writers == old(writers)
      ensures how == Done ==> writers == {} && readers == old(readers)
      // First in, first out: what is delivered is the next bytes stored.
      ensures how == Done ==> |dst| <= n && |dst| <= room && old(taken) + |dst| <= |stored|
      ensures how == Done ==> dst == stored[old(taken)..old(taken) + |dst|]
      ensures how == Done ==>
                taken == old(taken) + |dst| + (if |dst| == room < n && old(taken) + room < |stored| then 1 else 0)
      ensures how == Done && |dst| < n && |dst| < room ==> taken == |stored|
      ensures how == Done && dst == [] && n > 0 && room > 0 ==> !writeopen
      ensures old(Awake()) ==> Awake()
    {
      dst := [];
      FullAndEmpty(taken, |stored|);
      if nread == nwrite && writeopen {
        if killed {
          return [], Killed;
        }
        readers := readers + {me};
        return [], Asleep;
      }
      var i := 0;
      how := Done;
      while i < n
        invariant i == |dst| <= n && i <= room && taken == old(taken) + i <= |stored|
        invariant Valid() && dst == stored[old(taken)..old(taken) + i]
        invariant readers == old(readers) && stored == old(stored)
        invariant i == 0 && taken == |stored| ==> !writeopen
      {
        FullAndEmpty(taken, |stored|);
        if nread == nwrite {
          break;
        }
        var ch := Fetch();
        if i >= room {
          break;
        }
        dst := dst + [ch];
        i := i + 1;
      }
      writers := {};
    }

    /** ch = pi->data[pi->nread++ % PIPESIZE]. */
    method Fetch() returns (ch: Byte)
      requires Valid() && taken < |stored|
      modifies this`nread, this`taken
      ensures Valid() && taken == old(taken) + 1 && ch == stored[old(taken)]
    {
      WrappedIndex(taken);
      WrappedNext(taken);
      ch := data[nread % PIPESIZE];
      nread := (nread + 1) % UINT;
      taken := taken + 1;
    }

    /** One end is closed for good: nobody is in a call on that end, for a call keeps its file open. */
    method Close(writable: bool) returns (gone: bool)
      requires Valid() && (if writable then writers == {} else readers == {})
      modifies this`readopen, this`writeopen, this`readers, this`writers
      ensures Valid() && (old(Awake()) ==> Awake())
      ensures writeopen == (old(writeopen) && !writable) && readopen == (old(readopen) && writable)
      ensures readers == (if writable then {} else old(readers)) && writers == (if writable then old(writers) else {})
      ensures gone <==> !readopen && !writeopen
    {
      if writable {
        writeopen := false;
        readers := {};
      } else {
        readopen := false;
        writers := {};
      }
      gone := !readopen && !writeopen;
    }
  }

  /** The run that loses a wakeup: a reader sleeps, and a writer of two bytes is killed after the first. */
  method LostWakeup() returns (p: Pipe)
    ensures fresh(p) && p.Valid() && p.stored == [7] && p.taken == 0 && p.readers == {1} && !p.Awake()
  {
    p := new Pipe();
    var dst, how := p.Read(1, 1, 1, false);
    assert how == Asleep;
    var i;
    i, how := p.Write(2, [7, 8], 2, 0, 1);
    assert how == Killed && i == 1;
  }
}
