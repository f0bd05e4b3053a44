/** The console driver: transmission, and the receive routine that drains what
    the device has returned on both queues while the device keeps running. */
module ConsoleObject {
  import opened Machine
  import opened Rings
  import opened Virtqueue
  import opened MemoryPools
  import opened Channels
  import opened QueueObject
  import opened RxProtocol
  import opened RxEndpoint
  import opened TxProtocol
  import opened TxEndpoint
  import opened ReceiveBuffers

  /** The bit of InterruptStatus that reports a configuration change; a word is the
      set of its one bits. */
  const INT_CONFIG: nat := 1

  class Console {
    const rx: RxEnd
    const tx: TxEnd
    const rxBuffer: ReceiveBuffer
    var ready: bool
    /** Values written to the QueueNotify and InterruptACK registers. */
    var notifications: seq<nat>
    var acks: seq<set<nat>>

    ghost predicate Separate() {
      && rx.vq != tx.vq && rx.vq.desc != tx.vq.desc && rx.vq.avail != tx.vq.avail && rx.vq.used != tx.vq.used
      && rx.vq.pool != tx.vq.pool && rx.vq.pool.mem != tx.vq.pool.mem
      && rxBuffer.data != rx.vq.pool.mem && rxBuffer.data != tx.vq.pool.mem
    }

    ghost predicate Valid()
      reads rxBuffer, rx, rx.vq, rx.vq.desc, rx.vq.avail, rx.vq.used, rx.vq.pool, rx.vq.pool.mem
      reads tx, tx.vq, tx.vq.desc, tx.vq.avail, tx.vq.used, tx.vq.pool, tx.vq.pool.mem
    {
      Separate() && rx.Valid() && tx.Valid() && rxBuffer.Valid()
    }

    /** `virtio_console_init` up to the transport handshake, over shared memory of
        arbitrary contents. */
    constructor (n: nat, rxBase: nat, rxMem: array<byte>, txBase: nat, txSize: nat, txMem: array<byte>)
      requires RingSize(n) && rxMem.Length > 2 * RX_BUFFER_SIZE * n && txMem.Length > 2 * txSize && rxMem != txMem
      modifies rxMem, txMem
      ensures Valid() && !ready && rx.log == [] && tx.log == [] && rx.kept == {}
      ensures rx.vq.n == tx.vq.n == n && rx.vq.pool.base == rxBase && tx.vq.pool.base == txBase
      ensures rx.vq.index == 0 && tx.vq.index == 1 && rxBuffer.pos == 0 && rxBuffer.data[0] == 0
      ensures rx.vq.State() == PostedUpTo(n, rx.pool0, n) && tx.vq.Queue() == Fresh(n) && tx.vq.pool.size == txSize
    {
      var q0, q1 := MakeEnds(n, rxBase, rxMem, txBase, txSize, txMem);
      rx, tx := q0, q1;
      rxBuffer := new ReceiveBuffer();
      ready, notifications, acks := false, [], [];
    }

    /** Both queues, the receive queue with all its buffers posted. */
    static method MakeEnds(n: nat, rxBase: nat, rxMem: array<byte>, txBase: nat, txSize: nat, txMem: array<byte>)
      returns (rx: RxEnd, tx: TxEnd)
      requires RingSize(n) && rxMem.Length > 2 * RX_BUFFER_SIZE * n && txMem.Length > 2 * txSize && rxMem != txMem
      modifies rxMem, txMem
      ensures rx.Valid() && tx.Valid() && rx.log == [] && tx.log == [] && rx.kept == {}
      ensures rx.vq.n == tx.vq.n == n && rx.vq.pool.base == rxBase && tx.vq.pool.base == txBase
      ensures rx.vq.index == 0 && tx.vq.index == 1
      ensures rx.vq.State() == PostedUpTo(n, rx.pool0, n) && tx.vq.Queue() == Fresh(n) && tx.vq.pool.size == txSize
      ensures rx.vq.pool.mem == rxMem && tx.vq.pool.mem == txMem
      ensures rx.vq != tx.vq && rx.vq.desc != tx.vq.desc && rx.vq.avail != tx.vq.avail && rx.vq.used != tx.vq.used
      ensures rx.vq.pool != tx.vq.pool
    {
      var q0 := new VirtQueue(n, 0, rxBase, RX_BUFFER_SIZE * n, rxMem);
      rx := new RxEnd(q0);
      var q1 := new VirtQueue(n, 1, txBase, txSize, txMem);
      tx := new TxEnd(q1);
    }

    // ---------- transmission ----------

    /** `virtio_console_transmit`.  The queue must have a free descriptor (the
        source asserts it), and `data` is a C string without its terminator. */
    method Transmit(data: seq<byte>)
      requires Valid() && (data != [] ==> Text(data))
      requires ready && data != [] ==> tx.vq.numFree != 0
      modifies `notifications, tx`log, tx.vq`nextFree, tx.vq`numFree, tx.vq`availIdx
      modifies tx.vq.desc, tx.vq.avail, tx.vq.pool, tx.vq.pool.mem
      ensures Valid()
      ensures if ready && data != [] then tx.log == old(tx.log) + [TxEvent.Transmit(data)] else tx.log == old(tx.log)
      ensures notifications == old(notifications) +
                (if ready && data != [] && old(tx.vq.State()).pool.Alloc(|data|).1.Some? then [tx.vq.index] else [])
    {
      ghost var room := tx.vq.State().pool.Alloc(|data|).1.Some?;
      if !ready {
        return;
      }
      if |data| == 0 {
        return;
      }
      Send(data, room);
    }

    /** What runs under the lock: publish the message and notify the device. */
    method Send(data: seq<byte>, ghost room: bool)
      requires Valid() && Text(data) && tx.vq.numFree != 0
      requires room <==> tx.vq.State().pool.Alloc(|data|).1.Some?
      modifies `notifications, tx`log, tx.vq`nextFree, tx.vq`numFree, tx.vq`availIdx
      modifies tx.vq.desc, tx.vq.avail, tx.vq.pool, tx.vq.pool.mem
      ensures Valid() && tx.log == old(tx.log) + [TxEvent.Transmit(data)]
      ensures notifications == old(notifications) + if room then [tx.vq.index] else []
    {
      var published := tx.Publish(data);
      if published {
        notifications := notifications + [tx.vq.index];
      }
    }

    // ---------- reception ----------

    /** One turn of the receive loop on the receive queue.  `msg` is the message
        taken; false when the console's own buffer is full. */
    method ReceiveOne() returns (ok: bool, ghost msg: seq<byte>)
      requires rxBuffer.data != rx.vq.pool.mem && rx.Valid() && rxBuffer.Valid() && rx.vq.Queue().used.HasBuf()
      modifies rxBuffer.data, rxBuffer`pos, rx`log, rx`kept
      modifies rx.vq`lastUsed, rx.vq`nextFree, rx.vq`numFree, rx.vq.desc, rx.vq.pool.mem
      ensures rx.Valid() && rxBuffer.Valid()
      ensures rx.vq.numFree == old(rx.vq.numFree) + 1 <= rx.vq.n && rx.Queued() == old(rx.Queued()) - 1
      ensures if ok then rx.kept == old(rx.kept) else old(rx.kept) < rx.kept
      ensures msg == Oldest(old(rx.System())) && |msg| == RX_BUFFER_SIZE
      ensures ok <==> old(rxBuffer.pos) < RX_CONSOLE_SIZE - RX_BUFFER_SIZE
      ensures ok ==> rxBuffer.pos == old(rxBuffer.pos) + RX_BUFFER_SIZE - 1
      ensures rxBuffer.data[..] ==
              if ok then Copied(old(rxBuffer.data[..]), msg, old(rxBuffer.pos)) else old(rxBuffer.data[..])
    {
      msg := Oldest(rx.System());
      var id, ptr := rx.TakeBack();
      ok := rxBuffer.Append(rx.vq.pool.mem, ptr - rx.vq.pool.base);
      if !ok {
        return;
      }
      var freed := rx.FreeBuffer(id);
      if !freed {
        return false, msg;
      }
    }

    /** The same, and the device running on before the loop looks again. */
    method Turn() returns (ok: bool, ghost msg: seq<byte>)
      requires rxBuffer.data != rx.vq.pool.mem && rx.Valid() && rxBuffer.Valid() && rx.vq.Queue().used.HasBuf()
      modifies rxBuffer.data, rxBuffer`pos, rx`log, rx`held, rx`kept, rx.vq, rx.vq.used, rx.vq.desc, rx.vq.pool.mem
      ensures rx.Valid() && rxBuffer.Valid()
      ensures rx.vq.numFree == old(rx.vq.numFree) + 1 <= rx.vq.n && rx.Queued() >= old(rx.Queued()) - 1
      ensures if ok then rx.kept == old(rx.kept) else old(rx.kept) < rx.kept
      ensures msg == Oldest(old(rx.System())) && |msg| == RX_BUFFER_SIZE
      ensures ok <==> old(rxBuffer.pos) < RX_CONSOLE_SIZE - RX_BUFFER_SIZE
      ensures ok ==> rxBuffer.pos == old(rxBuffer.pos) + RX_BUFFER_SIZE - 1
      ensures rxBuffer.data[..] ==
              if ok then Copied(old(rxBuffer.data[..]), msg, old(rxBuffer.pos)) else old(rxBuffer.data[..])
    {
      ok, msg := ReceiveOne();
      if ok {
        rx.DeviceRuns();
      }
    }

    /** The console's buffer after `d` messages, the first of which was `first`. */
    static predicate Holds(now: seq<byte>, was: seq<byte>, first: seq<byte>, d: nat) {
      if d == 0 then now == was else |first| == RX_BUFFER_SIZE && now == Copied(was, first, 0)
    }

    /** The receive loop on the receive queue.  Each turn frees a descriptor, so
        it ends even if the device never stops returning buffers. */
    method DrainRx() returns (ok: bool, ghost d: nat, ghost first: seq<byte>)
      requires rxBuffer.data != rx.vq.pool.mem && rx.Valid() && rxBuffer.Valid() && rxBuffer.pos == 0
      modifies rxBuffer.data, rxBuffer`pos, rx`log, rx`held, rx`kept, rx.vq, rx.vq.used, rx.vq.desc, rx.vq.pool.mem
      ensures rx.Valid() && rxBuffer.Valid()
      ensures rx.vq.numFree == old(rx.vq.numFree) + d
      ensures if ok then d <= 4 && rxBuffer.pos == d * (RX_BUFFER_SIZE - 1) else d == 5
      ensures if ok then rx.kept == old(rx.kept) else old(rx.kept) < rx.kept
      ensures ok ==> !rx.vq.Queue().used.HasBuf() && d >= old(rx.Queued())
      ensures Holds(rxBuffer.data[..], old(rxBuffer.data[..]), first, d)
      ensures old(Waiting()).Some? ==> d > 0 && first == old(Waiting()).value
    {
      ghost var waiting, queued, free := Waiting(), rx.Queued(), rx.vq.numFree;
      ghost var was, kept := rxBuffer.data[..], rx.kept;
      d, first := 0, [];
      rx.DeviceRuns();
      while rx.vq.usedIdx != rx.vq.lastUsed
        invariant rx.Valid() && rxBuffer.Valid()
        invariant rx.vq.numFree == free + d && d <= 4
        invariant d + rx.Queued() >= queued
        invariant rxBuffer.pos == d * (RX_BUFFER_SIZE - 1)
        invariant Holds(rxBuffer.data[..], was, first, d)
        invariant rx.kept == kept
        invariant waiting.Some? ==> if d == 0 then Waiting() == waiting else first == waiting.value
        decreases rx.vq.n - rx.vq.numFree
      {
        ghost var msg;
        ok, msg := Turn();
        first, d := if d == 0 then msg else first, d + 1;
        if !ok {
          return;
        }
      }
      ok := true;
      rx.NoneQueued();
    }

    /** The same after emptying the console's buffer. */
    method DrainAfresh() returns (ok: bool, ghost d: nat, ghost first: seq<byte>)
      requires Valid()
      modifies rxBuffer.data, rxBuffer`pos, rx`log, rx`held, rx`kept, rx.vq, rx.vq.used, rx.vq.desc, rx.vq.pool.mem
      ensures Valid() && Sends(tx.log) == old(Sends(tx.log))
      ensures rx.vq.numFree == old(rx.vq.numFree) + d
      ensures if ok then Ready(rxBuffer.data[..], rxBuffer.pos, old(Waiting()), old(rxBuffer.data[..]), first, d)
              else d == 5 && (old(Waiting()).Some? ==> first == old(Waiting()).value)
      ensures if ok then rx.kept == old(rx.kept) else old(rx.kept) < rx.kept
      ensures ok ==> !rx.vq.Queue().used.HasBuf() && d >= old(rx.Queued())
    {
      rxBuffer.Reset();
      ok, d, first := DrainRx();
    }

    /** The receive loop on the transmit queue, whose data is not looked at. */
    method DrainTx() returns (ok: bool)
      requires tx.Valid()
      modifies tx`log, tx`held, tx.vq, tx.vq.used, tx.vq.desc, tx.vq.pool.mem
      ensures tx.Valid() && ok && Sends(tx.log) == old(Sends(tx.log))
      ensures !tx.vq.Queue().used.HasBuf()
    {
      tx.DeviceRuns();
      while tx.vq.usedIdx != tx.vq.lastUsed
        invariant tx.Valid() && Sends(tx.log) == old(Sends(tx.log))
        decreases tx.vq.n - tx.vq.numFree
      {
        SendsAppend(tx.log, Recycle);
        ok := tx.RecycleOne();
        if !ok {
          return;
        }
        tx.DeviceRuns();
      }
      ok := true;
    }

    /** The oldest message that was already there to take, if any. */
    ghost function Waiting(): Option<seq<byte>>
      reads rx, rx.vq, rx.vq.desc, rx.vq.avail, rx.vq.used, rx.vq.pool, rx.vq.pool.mem
      requires rx.Valid()
    {
      if rx.vq.Queue().used.HasBuf() then Some(Oldest(rx.System())) else None
    }

    /** What a call that drained `d` buffers reports and leaves: it succeeds exactly
        when it drained one to four, it starts with the oldest message waiting, and
        on success that message is what the console's buffer holds. */
    static predicate Outcome(ok: bool, first: seq<byte>, d: nat, waiting: Option<seq<byte>>,
                             was: seq<byte>, now: seq<byte>) {
      && d <= 5 && (ok <==> 1 <= d <= 4)
      && (waiting.Some? ==> d > 0 && first == waiting.value)
      && (ok ==> Delivered(now, was, first, d))
    }

    /** What becomes of the buffers, of which `queued` were waiting at the call: unless
        the fifth message overflowed, all of those and whatever came meanwhile were
        drained, their memory was freed, and neither queue has one left to take. */
    static predicate Recovered(d: nat, queued: nat, kept: set<u16>, kept': set<u16>, rxq: Virtq, txq: Virtq) {
      if d <= 4 then d >= queued && kept' == kept && !rxq.used.HasBuf() && !txq.used.HasBuf() else kept < kept'
    }

    /** `virtio_console_receive`, with `status` read from InterruptStatus. */
    method Receive(status: set<nat>) returns (ok: bool, ghost first: seq<byte>, ghost d: nat)
      requires Valid()
      modifies `acks, rxBuffer.data, rxBuffer`pos
      modifies rx`log, rx`held, rx`kept, rx.vq, rx.vq.used, rx.vq.desc, rx.vq.pool.mem
      modifies tx`log, tx`held, tx.vq, tx.vq.used, tx.vq.desc, tx.vq.pool.mem
      ensures Valid() && Sends(tx.log) == old(Sends(tx.log))
      ensures acks == old(acks) + if ready then [status] else []
      ensures rx.vq.numFree == old(rx.vq.numFree) + d
      ensures !ready || INT_CONFIG in status ==>
                !ok && rx.log == old(rx.log) && tx.log == old(tx.log) && rxBuffer.data[..] == old(rxBuffer.data[..])
      ensures ready && INT_CONFIG !in status ==>
                Outcome(ok, first, d, old(Waiting()), old(rxBuffer.data[..]), rxBuffer.data[..])
      ensures ready && INT_CONFIG !in status ==>
                Recovered(d, old(rx.Queued()), old(rx.kept), rx.kept, rx.vq.Queue(), tx.vq.Queue())
    {
      ghost var waiting, was := Waiting(), rxBuffer.data[..];
      var proceed := Acknowledge(status);
      if !proceed {
        return false, [], 0;
      }
      ok, first, d := DrainQueues(waiting, was);
    }

    /** Its first part: nothing is acknowledged before the console is ready, and
        nothing is drained on a configuration change. */
    method Acknowledge(status: set<nat>) returns (proceed: bool)
      modifies `acks
      ensures acks == old(acks) + if ready then [status] else []
      ensures proceed <==> ready && INT_CONFIG !in status
    {
      if !ready {
        return false;
      }
      acks := acks + [status];
      if INT_CONFIG in status {
        return false;
      }
      return true;
    }

    /** After `d` messages the buffer holds the first 63 bytes of the first one, a
        zero after the space of `d` messages, and otherwise what it held. */
    static predicate Delivered(now: seq<byte>, was: seq<byte>, first: seq<byte>, d: nat) {
      && |first| == RX_BUFFER_SIZE && d * (RX_BUFFER_SIZE - 1) < |was|
      && now == Copied(was, first, 0)[d * (RX_BUFFER_SIZE - 1) := 0]
    }

    /** Clearing the first byte beforehand makes no difference to a message. */
    static lemma DrainedOutcome(now: seq<byte>, was: seq<byte>, first: seq<byte>, d: nat, waiting: Option<seq<byte>>)
      requires |was| == |now| == RX_CONSOLE_SIZE && d <= 4 && Holds(now, was[0 := 0], first, d)
      requires waiting.Some? ==> d > 0 && first == waiting.value
      ensures Outcome(d > 0, first, d, waiting, was, now[d * (RX_BUFFER_SIZE - 1) := 0])
    {
      if d > 0 {
        assert Copied(was[0 := 0], first, 0) == Copied(was, first, 0);
      }
    }

    /** The rest of `virtio_console_receive`: both loops, then the terminator. */
    method DrainQueues(ghost waiting: Option<seq<byte>>, ghost was: seq<byte>)
      returns (ok: bool, ghost first: seq<byte>, ghost d: nat)
      requires Valid() && waiting == Waiting() && was == rxBuffer.data[..]
      modifies rxBuffer.data, rxBuffer`pos
      modifies rx`log, rx`held, rx`kept, rx.vq, rx.vq.used, rx.vq.desc, rx.vq.pool.mem
      modifies tx`log, tx`held, tx.vq, tx.vq.used, tx.vq.desc, tx.vq.pool.mem
      ensures rx.Valid() && tx.Valid() && rxBuffer.Valid() && Sends(tx.log) == old(Sends(tx.log))
      ensures rx.vq.numFree == old(rx.vq.numFree) + d
      ensures Outcome(ok, first, d, waiting, was, rxBuffer.data[..])
      ensures Recovered(d, old(rx.Queued()), old(rx.kept), rx.kept, rx.vq.Queue(), tx.vq.Queue())
    {
      ok, d, first := DrainAfresh();
      if !ok {
        return;
      }
      ok := Finish(waiting, was, first, d);
    }

    /** What is left after the receive queue: the transmit queue and the terminator. */
    method Finish(ghost waiting: Option<seq<byte>>, ghost was: seq<byte>, ghost first: seq<byte>, ghost d: nat)
      returns (ok: bool)
      requires Valid() && Ready(rxBuffer.data[..], rxBuffer.pos, waiting, was, first, d)
      modifies rxBuffer.data, rxBuffer`pos
      modifies tx`log, tx`held, tx.vq, tx.vq.used, tx.vq.desc, tx.vq.pool.mem
      ensures rx.Valid() && tx.Valid() && rxBuffer.Valid() && Sends(tx.log) == old(Sends(tx.log))
      ensures !tx.vq.Queue().used.HasBuf() && rx.vq.numFree == old(rx.vq.numFree) && rx.kept == old(rx.kept)
      ensures rx.vq.usedIdx == old(rx.vq.usedIdx) && rx.vq.lastUsed == old(rx.vq.lastUsed)
      ensures Outcome(ok, first, d, waiting, was, rxBuffer.data[..])
    {
      ghost var now := rxBuffer.data[..];
      ok := DrainTx();
      assert rxBuffer.data[..] == now;
      if ok {
        ok := Terminate(waiting, was, first, d);
      }
    }

    static predicate Ready(now: seq<byte>, pos: nat, waiting: Option<seq<byte>>,
                           was: seq<byte>, first: seq<byte>, d: nat) {
      && |was| == RX_CONSOLE_SIZE && d <= 4 && pos == d * (RX_BUFFER_SIZE - 1) && Holds(now, was[0 := 0], first, d)
      && (waiting.Some? ==> d > 0 && first == waiting.value)
    }

    /** The terminator, after `d` messages. */
    method Terminate(ghost waiting: Option<seq<byte>>, ghost was: seq<byte>, ghost first: seq<byte>, ghost d: nat)
      returns (ok: bool)
      requires rxBuffer.Valid() && Ready(rxBuffer.data[..], rxBuffer.pos, waiting, was, first, d)
      modifies rxBuffer.data, rxBuffer`pos
      ensures rxBuffer.Valid() && Outcome(ok, first, d, waiting, was, rxBuffer.data[..])
    {
      DrainedOutcome(rxBuffer.data[..], was, first, d, waiting);
      ok := rxBuffer.AppendNull();
      if !ok {
        return;
      }
      ok := rxBuffer.HasBuffers();
    }
  }
}
