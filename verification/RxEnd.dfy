/** The receive queue object together with the device on its other end.  The
    ghost log records every step either party has taken since initialisation;
    `Valid` says the objects are where that run leads, so what is proved of all
    runs holds of the object after any sequence of calls. */
module RxEndpoint {
  import opened Machine
  import opened Rings
  import opened Virtqueue
  import opened MemoryPools
  import opened Channels
  import opened QueueObject
  import opened RxProtocol
  import opened RxTheorems

  class RxEnd {
    const vq: VirtQueue
    /** Ids inside the device. */
    var held: multiset<u16>
    /** The pool as `virtq_init` left it. */
    ghost const pool0: Pool
    ghost var log: seq<RxEvent>
    /** Ids drained without their memory being freed. */
    ghost var kept: set<u16>

    ghost predicate Valid()
      reads this, vq, vq.desc, vq.avail, vq.used, vq.pool, vq.pool.mem
    {
      vq.Valid() && RxPool(vq.n, pool0) && RxPossible(Start(), log) && RxAfter(Start(), log) == System()
    }

    /** The state from which the log leads here. */
    ghost function Start(): (s: RxSystem)
      requires RingSize(vq.n) && RxPool(vq.n, pool0)
      ensures s.ch.Shape()
    {
      RxStart(vq.n, pool0)
    }

    ghost function System(): RxSystem
      reads this, vq, vq.desc, vq.avail, vq.used, vq.pool, vq.pool.mem
    {
      RxSystem(vq.State(), held, Drains(log), kept)
    }

    /** Buffers returned and not yet taken. */
    ghost function Queued(): nat
      reads vq, vq.desc, vq.avail, vq.used
    {
      vq.Queue().used.Count()
    }

    lemma NoneQueued()
      requires vq.usedIdx == vq.lastUsed
      ensures Queued() == 0
    {
    }

    lemma Sound()
      requires Valid()
      ensures System().Inv()
    {
      RxStartIsSound(vq.n, pool0);
      RxRunKeepsInv(Start(), log);
    }

    /** The posting loop of `virtio_console_init`, on a fresh queue. */
    constructor (vq: VirtQueue)
      requires vq.Valid() && vq.Queue() == Fresh(vq.n) && RxPool(vq.n, vq.pool.State())
      modifies vq, vq.desc, vq.avail, vq.pool
      ensures Valid() && this.vq == vq && log == [] && held == multiset{} && kept == {}
      ensures pool0 == old(vq.pool.State()) && vq.State() == PostedUpTo(vq.n, pool0, vq.n)
    {
      pool0 := vq.pool.State();
      PostBuffers(vq);
      this.vq, held, log, kept := vq, multiset{}, [], {};
    }

    /** Its NULL branch is never taken. */
    static method PostBuffers(q: VirtQueue)
      requires q.Valid() && q.Queue() == Fresh(q.n) && RxPool(q.n, q.pool.State())
      modifies q, q.desc, q.avail, q.pool
      ensures q.Valid() && q.State() == PostedUpTo(q.n, old(q.pool.State()), q.n)
    {
      ghost var p0 := q.pool.State();
      ghost var k := 0;
      PostingStarts(q.n, p0);
      while q.numFree != 0
        invariant 0 <= k <= q.n && q.Valid() && q.State() == PostedUpTo(q.n, p0, k)
        decreases q.n - k
      {
        PostingAdvances(q.n, p0, k);
        var id := q.GetFreeDescId();
        var ptr := q.pool.Alloc(RX_BUFFER_SIZE);
        if ptr.None? {
          break;
        }
        q.SetDesc(id, ptr.value, RX_BUFFER_SIZE, true);
        q.AddAvailBuf(id);
        k := k + 1;
      }
    }

    // ---------- the device, at any moment ----------

    method DeviceTakes()
      requires Valid() && vq.Queue().avail.HasBuf()
      modifies `log, `held, vq`availLast
      ensures Valid() && log == old(log) + [Take]
    {
      ghost var s := System();
      Advances(Start(), log, s, Take);
      var id := vq.GetAvailBufId();
      held, log := held + multiset{id}, log + [Take];
      assert System() == s.Apply(Take);
    }

    method DeviceReturns(id: u16, len: nat)
      requires Valid() && id in held
      modifies `log, `held, vq`usedIdx, vq.used
      ensures Valid() && log == old(log) + [Complete(id, len)]
    {
      ghost var s := System();
      Advances(Start(), log, s, Complete(id, len));
      vq.AddUsedBuf(id, len);
      held, log := held - multiset{id}, log + [Complete(id, len)];
      assert System() == s.Apply(Complete(id, len));
    }

    /** The device stores bytes in a buffer it holds. */
    method DeviceFills(id: u16, bytes: seq<byte>)
      requires Valid() && id in held && |bytes| <= vq.Queue().DescOf(id).len
      modifies `log, vq.pool.mem
      ensures Valid() && log == old(log) + [Write(id, bytes)]
    {
      ghost var s := System();
      Advances(Start(), log, s, Write(id, bytes));
      var d := vq.DescById(id);
      if vq.pool.base <= d.addr && d.addr - vq.pool.base + |bytes| <= vq.pool.mem.Length {
        vq.pool.Store(d.addr, bytes);
      }
      log := log + [Write(id, bytes)];
      assert vq.pool.State() == DeviceWrite(s.ch.pool, d.addr, bytes);
      assert System() == s.(ch := s.ch.(pool := vq.pool.State()));
      assert System() == s.Apply(Write(id, bytes));
    }

    /** One step of the device's choice, if it has one. */
    method DeviceSteps()
      requires Valid()
      modifies `log, `held, vq`availLast, vq`usedIdx, vq.used, vq.pool.mem
      ensures Valid() && DeviceRan(old(System()), System())
    {
      Sound();
      ghost var s := System();
      if
      case vq.availIdx != vq.availLast =>
        DeviceKeepsReturned(s, Take);
        RxExtend(Start(), log, Take);
        DeviceTakes();
      case held != multiset{} =>
        var id :| id in held;
        var len: nat := *;
        DeviceKeepsReturned(s, Complete(id, len));
        RxExtend(Start(), log, Complete(id, len));
        DeviceReturns(id, len);
      case held != multiset{} =>
        var id :| id in held;
        var d := vq.DescById(id);
        var bytes: seq<byte> := *;
        if |bytes| <= d.len {
          DeviceKeepsReturned(s, Write(id, bytes));
          RxExtend(Start(), log, Write(id, bytes));
          DeviceFills(id, bytes);
        }
      case true =>
    }

    /** The device performs any number of steps of its choice; a message it has
        returned stays where it is and reads the same. */
    method DeviceRuns()
      requires Valid()
      modifies `log, `held, vq`availLast, vq`usedIdx, vq.used, vq.pool.mem
      ensures Valid() && DeviceRan(old(System()), System())
      ensures old(vq.Queue().used.HasBuf()) ==> vq.Queue().used.HasBuf() && Oldest(System()) == Oldest(old(System()))
      ensures Queued() >= old(Queued())
    {
      var steps: nat := *;
      Sound();
      ghost var s := System();
      while steps > 0
        invariant Valid() && DeviceRan(s, System())
      {
        ghost var before := System();
        DeviceSteps();
        DeviceRanTwice(s, before, System());
        steps := steps - 1;
      }
      if s.ch.q.used.HasBuf() {
        Sound();
        OldestStays(s, System());
      }
    }

    // ---------- the driver ----------

    /** `virtq_get_used_buf_id` and `virtq_put_free_desc`, as the receive loop
        does first, and the address it then reads from the descriptor. */
    method TakeBack() returns (id: u16, ptr: nat)
      requires Valid() && vq.Queue().used.HasBuf()
      modifies `log, `kept, vq`lastUsed, vq`nextFree, vq`numFree, vq.desc
      ensures Valid() && log == old(log) + [Drain]
      ensures id !in old(kept) && kept == old(kept) + {id}
      ensures vq.numFree == old(vq.numFree) + 1 <= vq.n && id in vq.Queue().FreeIds()
      ensures Queued() == old(Queued()) - 1
      ensures vq.pool.base <= ptr && ptr - vq.pool.base + RX_BUFFER_SIZE <= vq.pool.size
      ensures vq.pool.mem[ptr - vq.pool.base..ptr - vq.pool.base + RX_BUFFER_SIZE] == Oldest(old(System()))
    {
      Sound();
      OldestIsPosted(System());
      CountSteps(vq.Queue().used);
      ghost var s := System();
      Advances(Start(), log, s, Drain);
      id := vq.TakeBack();
      log, kept := log + [Drain], kept + {id};
      assert System() == s.Apply(Drain);
      var d := vq.DescById(id);
      ptr := d.addr;
    }

    /** `virtio_memory_pool_free` on the buffer of a drained descriptor. */
    method FreeBuffer(id: u16) returns (ok: bool)
      requires Valid() && id in vq.Queue().FreeIds()
      modifies `log, `kept, vq.pool.mem
      ensures Valid() && log == old(log) + [Free(id)] && kept == old(kept) - {id}
      ensures ok && vq.numFree == old(vq.numFree) && Queued() == old(Queued())
    {
      Sound();
      FreeSucceeds(System(), id);
      ghost var s := System();
      Advances(Start(), log, s, Free(id));
      var d := vq.DescById(id);
      ok := vq.pool.Free(d.addr, d.len);
      log, kept := log + [Free(id)], kept - {id};
      assert System() == s.Apply(Free(id));
    }
  }

  /** The log grows by one event, which the state after it answers to. */
  lemma Advances(start: RxSystem, log: seq<RxEvent>, s: RxSystem, e: RxEvent)
    requires start.ch.Shape() && RxPossible(start, log) && RxAfter(start, log) == s && s.Enabled(e)
    ensures RxPossible(start, log + [e]) && RxAfter(start, log + [e]) == s.Apply(e)
    ensures Drains(log + [e]) == Drains(log) + if e.Drain? then 1 else 0
  {
    RxExtend(start, log, e);
    DrainsAppend(log, e);
  }

  lemma {:induction false} DrainsAppend(es: seq<RxEvent>, e: RxEvent)
    ensures Drains(es + [e]) == Drains(es) + if e.Drain? then 1 else 0
    decreases |es|
  {
    if es == [] {
      assert ([] + [e])[1..] == [];
    } else {
      assert (es + [e])[1..] == es[1..] + [e];
      DrainsAppend(es[1..], e);
    }
  }

  /** Whatever calls the driver and steps the device make, the messages taken so far
      are the first ones returned, in order and unaltered. */
  lemma ReceivedSoFar(t: RxEnd)
    requires t.Valid()
    ensures Taken(t.Start(), t.log) <= Returned(t.Start(), t.log)
    ensures |Taken(t.Start(), t.log)| == t.vq.numFree
  {
    ReceiveEndToEnd(t.vq.n, t.pool0, t.log);
    ReceiveOwnership(t.vq.n, t.pool0, t.log);
  }
}
