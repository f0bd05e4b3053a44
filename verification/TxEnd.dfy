/** The transmit queue object together with the device on its other end; see
    the receive side for the role of the log. */
module TxEndpoint {
  import opened Machine
  import opened Rings
  import opened Virtqueue
  import opened MemoryPools
  import opened Channels
  import opened QueueObject
  import opened TxLedger
  import opened TxProtocol
  import opened TxTheorems
  import opened TxDelivery

  class TxEnd {
    const vq: VirtQueue
    /** Ids inside the device. */
    var held: multiset<u16>
    /** The pool as `virtq_init` left it. */
    ghost const pool0: Pool
    ghost var log: seq<TxEvent>

    ghost predicate Valid()
      reads this, vq, vq.desc, vq.avail, vq.used, vq.pool, vq.pool.mem
    {
      vq.Valid() && FreshPool(pool0) && Possible(Begin(), log)
      && System().ch == vq.State() && System().held == held
    }

    /** The state from which the log leads here. */
    ghost function Begin(): (s: TxSystem)
      requires RingSize(vq.n) && pool0.Shape()
      ensures s.ch.Shape()
    {
      Start(vq.n, pool0)
    }

    ghost function System(): TxSystem
      reads this
      requires RingSize(vq.n) && pool0.Shape()
    {
      After(Begin(), log)
    }

    lemma Sound()
      requires Valid()
      ensures System().Safe()
    {
      StartIsSound(vq.n, pool0);
      RunKeepsSafe(Begin(), log);
    }

    constructor (vq: VirtQueue)
      requires vq.Valid() && vq.Queue() == Fresh(vq.n) && FreshPool(vq.pool.State())
      ensures Valid() && this.vq == vq && log == [] && held == multiset{}
      ensures pool0 == vq.pool.State()
    {
      this.vq, held, log, pool0 := vq, multiset{}, [], vq.pool.State();
    }

    // ---------- the device, at any moment ----------

    method DeviceTakes()
      requires Valid() && vq.Queue().avail.HasBuf()
      modifies `log, `held, vq`availLast
      ensures Valid() && log == old(log) + [Take]
    {
      Extend(Begin(), log, Take);
      var id := vq.GetAvailBufId();
      held := held + multiset{id};
      log := log + [Take];
    }

    method DeviceReturns(id: u16, len: nat)
      requires Valid() && id in held
      modifies `log, `held, vq`usedIdx, vq.used
      ensures Valid() && log == old(log) + [Complete(id, len)]
    {
      Extend(Begin(), log, Complete(id, len));
      vq.AddUsedBuf(id, len);
      held := held - multiset{id};
      log := log + [Complete(id, len)];
    }

    /** One step of the device's choice, if it has one. */
    method DeviceSteps()
      requires Valid()
      modifies `log, `held, vq`availLast, vq`usedIdx, vq.used
      ensures Valid() && old(log) <= log && Sends(log) == old(Sends(log))
    {
      if
      case vq.availIdx != vq.availLast =>
        SendsAppend(log, Take);
        DeviceTakes();
      case held != multiset{} =>
        var id :| id in held;
        var len: nat := *;
        SendsAppend(log, Complete(id, len));
        DeviceReturns(id, len);
      case true =>
    }

    /** The device performs any number of steps of its choice. */
    method DeviceRuns()
      requires Valid()
      modifies `log, `held, vq`availLast, vq`usedIdx, vq.used
      ensures Valid() && old(log) <= log && Sends(log) == old(Sends(log))
    {
      var steps: nat := *;
      while steps > 0
        invariant Valid() && old(log) <= log && Sends(log) == old(Sends(log))
      {
        DeviceSteps();
        steps := steps - 1;
      }
    }

    // ---------- the driver ----------

    /** The part of `virtio_console_transmit` that runs under the lock; true when
        the message was published.  The source asserts that a descriptor is
        free. */
    method Publish(data: seq<byte>) returns (ok: bool)
      requires Valid() && Text(data) && vq.Queue().HasFreeSlots()
      modifies `log, vq`nextFree, vq`numFree, vq`availIdx, vq.desc, vq.avail, vq.pool, vq.pool.mem
      ensures Valid() && log == old(log) + [Transmit(data)]
      ensures ok <==> old(vq.State()).pool.Alloc(|data|).1.Some?
    {
      ghost var ch := vq.State();
      Extend(Begin(), log, Transmit(data));
      log := log + [Transmit(data)];
      var id := vq.GetFreeDescId();
      var buffer := vq.pool.Alloc(|data|);
      if buffer.None? {
        return false;
      }
      AllocIsFree(ch.pool, |data|);
      vq.pool.StrCpy(buffer.value, data);
      vq.SetDesc(id, buffer.value, |data|, false);
      vq.AddAvailBuf(id);
      return true;
    }

    /** One turn of the receive loop on this queue; freeing always succeeds. */
    method RecycleOne() returns (ok: bool)
      requires Valid() && vq.Queue().used.HasBuf()
      modifies `log, vq`lastUsed, vq`nextFree, vq`numFree, vq.desc, vq.pool.mem
      ensures Valid() && log == old(log) + [Recycle] && ok
      ensures vq.numFree == old(vq.numFree) + 1 <= vq.n
    {
      assert Recyclable(vq.State()) by {
        Sound();
        RecycleIsReady(System());
      }
      Extend(Begin(), log, Recycle);
      log := log + [Recycle];
      ok := TakeAndFree();
    }

    method TakeAndFree() returns (ok: bool)
      requires vq.Valid() && vq.Queue().used.HasBuf() && Recyclable(vq.State())
      modifies vq`lastUsed, vq`nextFree, vq`numFree, vq.desc, vq.pool.mem
      ensures vq.Valid() && vq.State() == old(vq.State()).Recycle() && ok
      ensures vq.numFree == old(vq.numFree) + 1 <= vq.n
    {
      var id := vq.TakeBack();
      var d := vq.DescById(id);
      ok := vq.pool.Free(d.addr, d.len);
    }
  }

  /** What one recycling turn needs: room in the free list, and a descriptor that
      describes a region of the pool. */
  predicate Recyclable(ch: Chan)
    requires ch.Shape()
  {
    var (ch', id) := ch.TakeBack();
    var d := ch'.q.DescOf(id);
    && ch.q.numFree < |ch.q.desc| && ch'.q.numFree == ch.q.numFree + 1
    && ch.pool.base <= d.addr && d.addr - ch.pool.base + d.len <= ch.pool.size
    && ch'.FreeBuffer(id).1
  }

  lemma RecycleIsReady(s: TxSystem)
    requires s.Safe() && s.ch.q.used.HasBuf()
    ensures Recyclable(s.ch)
  {
    RecycleSucceeds(s);
    RecycleQueue(s.ch.q, s.held + s.lost);
  }

  /** The messages handed to `virtio_console_transmit` along a run. */
  function Sends(es: seq<TxEvent>): seq<seq<byte>> {
    if es == [] then []
    else (if es[0].Transmit? then [es[0].data] else []) + Sends(es[1..])
  }

  lemma {:induction false} SendsAppend(es: seq<TxEvent>, e: TxEvent)
    ensures Sends(es + [e]) == Sends(es) + if e.Transmit? then [e.data] else []
    decreases |es|
  {
    if es == [] {
      assert ([] + [e])[1..] == [];
    } else {
      assert (es + [e])[1..] == es[1..] + [e];
      SendsAppend(es[1..], e);
      Associate(if es[0].Transmit? then [es[0].data] else [], Sends(es[1..]), if e.Transmit? then [e.data] else []);
    }
  }

  /** Whatever calls the driver and steps the device make, what the device has
      read is, in order and unaltered, what was published, as long as every zero
      written missed the outstanding buffers. */
  lemma DeliveredSoFar(t: TxEnd)
    requires t.Valid() && AllSparing(t.Begin(), t.log)
    ensures Delivers(t.System())
  {
    StartDelivers(t.vq.n, t.pool0);
    RunDelivering(t.Begin(), t.log);
    DeliveringDelivers(t.System());
  }
}
