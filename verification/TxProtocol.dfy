/** The transmit side as a protocol between the driver and the device.  A run
    interleaves transmissions, the device taking, reading and returning
    buffers, and the driver recycling them, in any order. */
module TxProtocol {
  import opened Machine
  import opened Rings
  import opened Virtqueue
  import opened MemoryPools
  import opened Channels
  import opened TxLedger

  datatype TxEvent =
    | Transmit(data: seq<byte>)
    | Take
    | Complete(id: u16, len: nat)
    | Recycle

  /** `held` are the ids inside the device.  The rest is history: `lost` the ids
      of transmissions that found no memory (counted by `failures`), `live` the
      buffer and text of every transmission not yet recycled, `sent` the texts
      published, `seen` what the device read, both in order. */
  datatype TxSystem = TxSystem(ch: Chan, held: multiset<u16>, lost: multiset<u16>, failures: nat,
                               live: map<u16, Block>, sent: seq<seq<byte>>, seen: seq<seq<byte>>) {
    predicate Enabled(e: TxEvent)
      requires ch.Shape()
    {
      match e
      case Transmit(data) => Text(data) && ch.q.HasFreeSlots()
      case Take => ch.q.avail.HasBuf()
      case Complete(id, _) => id in held
      case Recycle => ch.q.used.HasBuf()
    }

    function Apply(e: TxEvent): (s: TxSystem)
      requires ch.Shape()
      ensures s.ch.Shape()
    {
      match e
      case Transmit(data) => AfterTransmit(data)
      case Take => AfterTake()
      case Complete(id, len) =>
        this.(ch := ch.(q := ch.q.AddUsed(id, len)), held := held - multiset{id})
      case Recycle =>
        this.(ch := ch.Recycle(), live := live - {ch.q.GetUsed().1})
    }

    function AfterTransmit(data: seq<byte>): TxSystem
      requires ch.Shape()
    {
      var id := ch.q.GetFree().1;
      var ptr := ch.pool.Alloc(|data|).1;
      if ptr.None? then
        this.(ch := ch.Transmit(data), lost := lost + multiset{id}, failures := failures + 1)
      else
        this.(ch := ch.Transmit(data), sent := sent + [data],
              live := live[id := Block(ptr.value - ch.pool.base, data)])
    }

    function AfterTake(): TxSystem
      requires ch.Shape()
    {
      var (q1, id) := ch.q.GetAvail();
      this.(ch := ch.(q := q1), held := held + multiset{id}, seen := seen + [DeviceRead(id)])
    }

    /** What the device reads when it follows descriptor `id`. */
    function DeviceRead(id: u16): seq<byte>
      requires ch.Shape()
    {
      var d := ch.q.DescOf(id);
      ch.pool.Read(d.addr, d.len)
    }

    /** The terminator that `strcpy` adds falls outside the pool or on a free
        byte.  A caller can evaluate this before transmitting. */
    predicate Clear(e: TxEvent)
      requires ch.Shape()
    {
      e.Transmit? && ch.pool.Alloc(|e.data|).1.Some? ==>
        var end := ch.pool.Alloc(|e.data|).1.value - ch.pool.base + |e.data|;
        end == ch.pool.size || (end < ch.pool.size && ch.pool.mem[end] == 0)
    }

    /** Every buffer in flight still reads as the text that was transmitted. */
    ghost predicate AllUnaltered()
      requires ch.Shape()
    {
      forall id :: id in live ==> DeviceRead(id) == live[id].data
    }

    /** Every id has one owner, and lost ids are counted. */
    ghost predicate OwnedOk() {
      ch.Shape() && ch.q.Owned(held + lost) && |lost| == failures
    }

    /** What the protocol state says once the rings are read as queues. */
    ghost function Books(): Ledger
      requires ch.Shape()
    {
      Ledger(ch.q.AvailIds(), held, ch.q.UsedIds(), live, sent, seen)
    }

    /** Ownership and addressing: kept by every run. */
    ghost predicate Safe() {
      OwnedOk() && Books().Routed(ch.q.desc, ch.pool)
    }

    /** With the contents of the pool: kept while terminators are clear. */
    ghost predicate Inv() {
      Safe() && Books().Faithful(ch.pool)
    }
  }

  /** The state `virtq_init` leaves, over a pool it has zeroed. */
  function Start(n: nat, pool: Pool): TxSystem
    requires RingSize(n)
  {
    TxSystem(Chan(Fresh(n), pool), multiset{}, multiset{}, 0, map[], [], [])
  }

  lemma StartIsSound(n: nat, pool: Pool)
    requires RingSize(n) && FreshPool(pool)
    ensures Start(n, pool).Inv()
  {
    FreshIsOwned(n);
    var s := Start(n, pool);
    assert s.held + s.lost == multiset{};
    assert s.Books() == Ledger([], multiset{}, [], map[], [], []);
    assert s.Books().InFlight() == multiset{};
    assert s.seen + Texts([], s.live) == [];
  }

  // ---------- transmission ----------

  /** Each id is in one place only. */
  lemma OneOwner(s: TxSystem, id: u16)
    requires s.OwnedOk()
    ensures multiset(s.ch.q.FreeIds())[id] + multiset(s.ch.q.AvailIds())[id] + multiset(s.ch.q.UsedIds())[id]
            + s.held[id] + s.lost[id] == if id < |s.ch.q.desc| then 1 else 0
  {
    OwnedOnce(s.ch.q, s.held + s.lost);
    assert (s.held + s.lost)[id] == s.held[id] + s.lost[id];
  }

  lemma FreeIsNotLive(s: TxSystem, id: u16)
    requires s.Safe() && id in s.ch.q.FreeIds()
    ensures id !in s.live
  {
    OneOwner(s, id);
    assert multiset(s.ch.q.FreeIds())[id] >= 1;
    assert s.Books().InFlight()[id] == 0;
  }

  /** A transmission that finds no memory takes the head of the free list, which is
      lost, and changes nothing else. */
  lemma LostKeeps(s: TxSystem, data: seq<byte>)
    requires s.OwnedOk() && s.ch.q.HasFreeSlots() && s.ch.pool.Alloc(|data|).1.None?
    ensures var s' := s.AfterTransmit(data);
            && s'.OwnedOk() && s'.ch.q.desc == s.ch.q.desc && s'.ch.pool == s.ch.pool && s'.Books() == s.Books()
            && s.ch.q.FreeIds() == [s.ch.q.nextFree] + s'.ch.q.FreeIds() && s'.ch.q.numFree == s.ch.q.numFree - 1
            && s'.lost == s.lost + multiset{s.ch.q.nextFree} && s'.failures == s.failures + 1
  {
    var s', id := s.AfterTransmit(data), s.ch.q.GetFree().1;
    GetFreeMoves(s.ch.q, s.held + s.lost);
    assert s.held + s.lost + multiset{id} == s'.held + s'.lost;
  }

  /** The queue side of a successful transmission. */
  lemma TransmitQueue(q: Virtq, out: multiset<u16>, ptr: nat, len: nat, flags: u16)
    requires q.Owned(out) && q.HasFreeSlots()
    ensures var (q1, id) := q.GetFree();
            var q' := q1.SetDesc(id, ptr, len, flags).AddAvail(id);
            && id in q.FreeIds() && id < |q.desc|
            && q'.Owned(out)
            && q'.AvailIds() == q.AvailIds() + [id] && q'.UsedIds() == q.UsedIds()
            && q'.desc == q.desc[id := Desc(ptr, len, flags, 0)]
  {
    var (q1, id) := q.GetFree();
    GetFreeMoves(q, out);
    SetDescKeeps(q1, out + multiset{id}, id, ptr, len, flags);
    AddAvailMoves(q1.SetDesc(id, ptr, len, flags), out, id);
  }

  /** It keeps ownership and changes one descriptor. */
  lemma SentOwned(s: TxSystem, data: seq<byte>, id: u16, ptr: nat)
    requires s.OwnedOk() && s.ch.q.HasFreeSlots() && s.ch.pool.Alloc(|data|).1 == Some(ptr)
    requires id == s.ch.q.GetFree().1
    ensures id in s.ch.q.FreeIds() && id < |s.ch.q.desc|
    ensures s.AfterTransmit(data).OwnedOk()
    ensures s.AfterTransmit(data).ch.q.desc == s.ch.q.desc[id := Desc(ptr, |data|, 0, 0)]
  {
    TransmitQueue(s.ch.q, s.held + s.lost, ptr, |data|, ReadOnly(0));
    assert ReadOnly(0) == 0;
  }

  /** The id and the block that transmitting `b.data` will use. */
  ghost predicate Uses(s: TxSystem, id: u16, b: Block)
    requires s.ch.Shape()
  {
    && id == s.ch.q.GetFree().1
    && s.ch.pool.Alloc(|b.data|).1 == Some(s.ch.pool.base + b.off)
    && b.off + |b.data| <= s.ch.pool.size
  }

  lemma SentUses(s: TxSystem, data: seq<byte>) returns (id: u16, b: Block)
    requires s.ch.Shape() && s.ch.pool.Alloc(|data|).1.Some?
    ensures b.data == data && Uses(s, id, b)
  {
    AllocIsFree(s.ch.pool, |data|);
    id, b := s.ch.q.GetFree().1, Block(s.ch.pool.Alloc(|data|).1.value - s.ch.pool.base, data);
  }

  /** It publishes one block in the ledger. */
  lemma SentLedger(s: TxSystem, id: u16, b: Block)
    requires s.OwnedOk() && s.ch.q.HasFreeSlots() && Uses(s, id, b)
    ensures s.AfterTransmit(b.data).Books() == s.Books().Publish(id, b)
  {
    SentIds(s.ch, s.held + s.lost, b.data);
  }

  lemma SentIds(ch: Chan, out: multiset<u16>, data: seq<byte>)
    requires ch.Shape() && ch.q.Owned(out) && ch.q.HasFreeSlots() && ch.pool.Alloc(|data|).1.Some?
    ensures ch.Transmit(data).q.AvailIds() == ch.q.AvailIds() + [ch.q.GetFree().1]
    ensures ch.Transmit(data).q.UsedIds() == ch.q.UsedIds()
  {
    TransmitQueue(ch.q, out, ch.pool.Alloc(|data|).1.value, |data|, ReadOnly(0));
  }

  lemma SafeFrom(s: TxSystem, k: Ledger, desc: seq<Desc>, p: Pool)
    requires s.OwnedOk() && s.Books() == k && s.ch.q.desc == desc && s.ch.pool == p && k.Routed(desc, p)
    ensures s.Safe()
  {
  }

  lemma SentPool(s: TxSystem, data: seq<byte>)
    requires s.ch.Shape()
    ensures s.AfterTransmit(data).ch.pool.base == s.ch.pool.base && s.AfterTransmit(data).ch.pool.size == s.ch.pool.size
  {
  }

  lemma SafeAfterPublish(s: TxSystem, k: Ledger, desc: seq<Desc>, p: Pool, id: u16, b: Block)
    requires k.Routed(desc, p) && id !in k.live && id < |desc| && b.data != [] && b.off + |b.data| <= p.size
    requires s.OwnedOk() && s.Books() == k.Publish(id, b) && s.ch.pool.base == p.base && s.ch.pool.size == p.size
    requires s.ch.q.desc == desc[id := Desc(p.base + b.off, |b.data|, 0, 0)]
    ensures s.Safe()
  {
    PublishRoutes(k, desc, p, s.ch.pool, id, b);
    SafeFrom(s, k.Publish(id, b), desc[id := Desc(p.base + b.off, |b.data|, 0, 0)], s.ch.pool);
  }

  lemma SentIsFresh(s: TxSystem, id: u16, b: Block)
    requires s.Safe() && s.ch.q.HasFreeSlots() && Uses(s, id, b)
    ensures id !in s.live
  {
    SentOwned(s, b.data, id, s.ch.pool.base + b.off);
    FreeIsNotLive(s, id);
  }

  lemma SentKeepsSafe(s: TxSystem, id: u16, b: Block)
    requires s.Safe() && s.Enabled(Transmit(b.data)) && Uses(s, id, b) && id !in s.live
    ensures s.AfterTransmit(b.data).Safe()
  {
    var s' := s.AfterTransmit(b.data);
    SentOwned(s, b.data, id, s.ch.pool.base + b.off);
    SentLedger(s, id, b);
    SentPool(s, b.data);
    assert b.data != [];
    SafeAfterPublish(s', s.Books(), s.ch.q.desc, s.ch.pool, id, b);
  }

  lemma TerminatorOutside(p: Pool, b: Block, offset: nat)
    requires p.Shape() && b.off + |b.data| <= p.size && offset <= p.size
    requires b.off + |b.data| == p.size || p.mem[b.off + |b.data|] == 0
    ensures Filled(p, b, p.(offset := offset).StrCpy(p.base + b.off, b.data))
  {
  }

  /** The pool side of a transmission whose terminator does no harm. */
  lemma SentAccounted(s: TxSystem, id: u16, b: Block)
    requires s.ch.Shape() && Accounted(s.ch.pool, s.live) && Text(b.data) && id !in s.live
    requires Uses(s, id, b) && s.Clear(Transmit(b.data))
    ensures Accounted(s.ch.Transmit(b.data).pool, s.live[id := b])
  {
    var p := s.ch.pool;
    AllocIsFree(p, |b.data|);
    TerminatorOutside(p, b, p.Alloc(|b.data|).0.offset);
    FillKeepsAccounts(p, s.live, id, b, s.ch.Transmit(b.data).pool);
  }

  lemma SentFaithful(s: TxSystem, id: u16, b: Block)
    requires s.Inv() && s.Enabled(Transmit(b.data)) && Uses(s, id, b) && s.Clear(Transmit(b.data))
    requires id !in s.live
    ensures s.AfterTransmit(b.data).Books().Faithful(s.ch.Transmit(b.data).pool)
  {
    SentLedger(s, id, b);
    SentAccounted(s, id, b);
    PublishFaithful(s.Books(), s.ch.pool, s.ch.Transmit(b.data).pool, id, b);
  }

  lemma TransmitKeepsSafe(s: TxSystem, data: seq<byte>)
    requires s.Safe() && s.Enabled(Transmit(data))
    ensures s.AfterTransmit(data).Safe()
  {
    if s.ch.pool.Alloc(|data|).1.None? {
      LostKeeps(s, data);
    } else {
      var id, b := SentUses(s, data);
      SentIsFresh(s, id, b);
      SentKeepsSafe(s, id, b);
    }
  }

  lemma TransmitKeepsFaithful(s: TxSystem, data: seq<byte>)
    requires s.Inv() && s.Enabled(Transmit(data)) && s.Clear(Transmit(data))
    ensures s.AfterTransmit(data).Books().Faithful(s.ch.Transmit(data).pool)
  {
    if s.ch.pool.Alloc(|data|).1.None? {
      LostKeeps(s, data);
    } else {
      var id, b := SentUses(s, data);
      SentIsFresh(s, id, b);
      SentFaithful(s, id, b);
    }
  }

  // ---------- the device ----------

  lemma TakeLedger(s: TxSystem)
    requires s.OwnedOk() && s.ch.q.avail.HasBuf()
    ensures s.AfterTake().OwnedOk() && s.Books().avail != []
    ensures s.ch.q.GetAvail().1 == s.Books().avail[0] < |s.ch.q.desc|
    ensures s.AfterTake().Books() == s.Books().Take(s.DeviceRead(s.Books().avail[0]))
  {
    var s' := s.AfterTake();
    var (q1, id) := s.ch.q.GetAvail();
    GetAvailMoves(s.ch.q, s.held + s.lost);
    assert s.held + s.lost + multiset{id} == s'.held + s'.lost;
    assert s.ch.q.AvailIds()[1..] == q1.AvailIds();
  }

  lemma TakeKeepsSafe(s: TxSystem)
    requires s.Safe() && s.Enabled(Take)
    ensures s.AfterTake().Safe()
  {
    TakeLedger(s);
    TakeRoutes(s.Books(), s.ch.q.desc, s.ch.pool, s.DeviceRead(s.Books().avail[0]));
  }

  lemma TakeKeepsFaithful(s: TxSystem)
    requires s.Inv() && s.Enabled(Take)
    ensures s.AfterTake().Books().Faithful(s.ch.pool)
  {
    TakeLedger(s);
    PendingReads(s.Books(), s.ch.q.desc, s.ch.pool, 0);
    TakeFaithful(s.Books(), s.ch.pool);
  }

  lemma CompleteLedger(s: TxSystem, id: u16, len: nat)
    requires s.OwnedOk() && id in s.held
    ensures s.Apply(Complete(id, len)).OwnedOk()
    ensures s.Apply(Complete(id, len)).Books() == s.Books().Complete(id)
  {
    var s' := s.Apply(Complete(id, len));
    assert s.held + s.lost == s'.held + s'.lost + multiset{id};
    AddUsedMoves(s.ch.q, s'.held + s'.lost, id, len);
  }

  // ---------- recycling ----------

  /** The queue side of recycling; the source's assertion holds. */
  lemma RecycleQueue(q: Virtq, out: multiset<u16>)
    requires q.Owned(out) && q.used.HasBuf()
    ensures var (q1, id) := q.GetUsed();
            var q' := q1.PutFree(id);
            && q1.numFree < |q1.desc|
            && q.UsedIds() != [] && id == q.UsedIds()[0] && q'.UsedIds() == q.UsedIds()[1..]
            && q'.AvailIds() == q.AvailIds() && q'.Owned(out)
            && id < |q.desc| && Relinked(q.desc, q'.desc)
            && q'.numFree == q.numFree + 1
  {
    var (q1, id) := q.GetUsed();
    GetUsedMoves(q, out);
    PutFreeMoves(q1, out, id);
    assert q.UsedIds()[1..] == q1.UsedIds();
  }

  lemma RecycleLedger(s: TxSystem)
    requires s.OwnedOk() && s.ch.q.used.HasBuf()
    ensures s.Books().used != [] && s.ch.q.GetUsed().1 == s.Books().used[0]
    ensures s.Apply(Recycle).OwnedOk()
    ensures s.Apply(Recycle).Books() == s.Books().Retire()
    ensures Relinked(s.ch.q.desc, s.Apply(Recycle).ch.q.desc)
  {
    RecycleQueue(s.ch.q, s.held + s.lost);
  }

  lemma UsedOnce(s: TxSystem)
    requires s.Safe() && s.Books().used != []
    ensures s.Books().InFlight()[s.Books().used[0]] == 1 && s.Books().used[0] in s.live
  {
    var id := s.Books().used[0];
    OneOwner(s, id);
    assert multiset(s.Books().used)[id] >= 1;
    assert id in s.Books().InFlight();
  }

  /** The freed descriptor still describes the buffer that the allocator
      returned; freeing it succeeds and touches only bytes of the pool. */
  lemma RecycleSucceeds(s: TxSystem)
    requires s.Safe() && s.Enabled(Recycle)
    ensures s.ch.q.GetUsed().0.numFree < |s.ch.q.desc|
    ensures var (ch', id) := s.ch.TakeBack();
            && id in s.live
            && ch'.q.DescOf(id).addr == s.ch.pool.base + s.live[id].off
            && ch'.q.DescOf(id).len == |s.live[id].data|
            && s.live[id].off + |s.live[id].data| <= s.ch.pool.size
            && ch'.FreeBuffer(id).1
  {
    RecycleQueue(s.ch.q, s.held + s.lost);
    UsedOnce(s);
  }

  lemma RecycleKeepsSafe(s: TxSystem)
    requires s.Safe() && s.Enabled(Recycle)
    ensures s.Apply(Recycle).Safe()
    ensures s.Books().used != [] && s.Books().used[0] !in s.Books().avail
  {
    RecycleLedger(s);
    UsedOnce(s);
    RetireRoutes(s.Books(), s.ch.q.desc, s.Apply(Recycle).ch.q.desc, s.ch.pool, s.Apply(Recycle).ch.pool);
  }

  lemma RecycleAccounted(s: TxSystem)
    requires s.Inv() && s.Enabled(Recycle)
    ensures s.Books().used != []
    ensures Accounted(s.Apply(Recycle).ch.pool, s.live - {s.Books().used[0]})
  {
    RecycleLedger(s);
    RecycleSucceeds(s);
    var b := s.live[s.Books().used[0]];
    FreeKeepsAccounts(s.ch.pool, s.live, s.Books().used[0]);
    assert s.Apply(Recycle).ch.pool == s.ch.pool.Free(s.ch.pool.base + b.off, |b.data|).0;
  }

  lemma RecycleKeepsFaithful(s: TxSystem)
    requires s.Inv() && s.Enabled(Recycle)
    ensures s.Apply(Recycle).Books().Faithful(s.Apply(Recycle).ch.pool)
  {
    RecycleLedger(s);
    RecycleKeepsSafe(s);
    RecycleAccounted(s);
    RetireFaithful(s.Books(), s.ch.pool, s.Apply(Recycle).ch.pool);
  }

  // ---------- every step ----------

  lemma StepKeepsSafe(s: TxSystem, e: TxEvent)
    requires s.Safe() && s.Enabled(e)
    ensures s.Apply(e).Safe()
  {
    match e
    case Transmit(data) => TransmitKeepsSafe(s, data);
    case Take => TakeKeepsSafe(s);
    case Complete(id, len) =>
      CompleteLedger(s, id, len);
      CompleteRoutes(s.Books(), s.ch.q.desc, s.ch.pool, id);
    case Recycle => RecycleKeepsSafe(s);
  }

  lemma StepKeepsInv(s: TxSystem, e: TxEvent)
    requires s.Inv() && s.Enabled(e) && s.Clear(e)
    ensures s.Apply(e).Inv()
  {
    StepKeepsSafe(s, e);
    match e
    case Transmit(data) => TransmitKeepsFaithful(s, data);
    case Take => TakeKeepsFaithful(s);
    case Complete(id, len) => CompleteLedger(s, id, len);
    case Recycle => RecycleKeepsFaithful(s);
  }
}
