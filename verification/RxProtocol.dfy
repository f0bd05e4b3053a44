/** The receive side: every descriptor is posted once, at initialisation, with
    its own 64-byte buffer; the device fills and returns buffers; the driver
    drains them and never posts them again. */
module RxProtocol {
  import opened Machine
  import opened Rings
  import opened Virtqueue
  import opened MemoryPools
  import opened Channels

  // ---------- the posting loop ----------

  function PostedDesc(n: nat, base: nat, k: nat): seq<Desc>
    requires k <= n <= 0x1_0000
  {
    seq(n, i requires 0 <= i < n =>
      if i < k then Desc(base + RX_BUFFER_SIZE * i, RX_BUFFER_SIZE, WriteOnly(0), 0) else FreshDesc(n)[i])
  }

  /** The channel after `k` turns of the posting loop. */
  function PostedUpTo(n: nat, pool: Pool, k: nat): Chan
    requires RingSize(n) && k <= n
  {
    Chan(Virtq(PostedDesc(n, pool.base, k), if k < n then k else 0, n - k,
               Ring(seq(n, i requires 0 <= i < n => if i < k then i else 0), k, 0),
               Fresh(n).used),
         pool.(offset := RX_BUFFER_SIZE * k))
  }

  predicate RxPool(n: nat, pool: Pool) {
    pool.Shape() && pool.size == RX_BUFFER_SIZE * n && pool.offset == 0 && pool.Zeroed(0, pool.size)
  }

  lemma PostingStarts(n: nat, pool: Pool)
    requires RingSize(n) && RxPool(n, pool)
    ensures PostedUpTo(n, pool, 0) == Chan(Fresh(n), pool)
  {
    var ch := PostedUpTo(n, pool, 0);
    assert ch.q.desc == FreshDesc(n);
    assert ch.q.avail.slots == Fresh(n).avail.slots;
  }

  /** Each turn allocates the next 64 bytes (never NULL) and posts the next id. */
  lemma PostingAdvances(n: nat, pool: Pool, k: nat)
    requires RingSize(n) && RxPool(n, pool) && k < n
    ensures var ch := PostedUpTo(n, pool, k);
            && ch.Shape() && ch.q.HasFreeSlots() && ch.q.GetFree().1 == k
            && ch.pool.Alloc(RX_BUFFER_SIZE).1 == Some(pool.base + RX_BUFFER_SIZE * k)
            && ch.Post() == PostedUpTo(n, pool, k + 1)
  {
    var ch, ch' := PostedUpTo(n, pool, k), PostedUpTo(n, pool, k + 1);
    assert ch.pool.Zeroed(RX_BUFFER_SIZE * k, RX_BUFFER_SIZE);
    PostedEntries(n, pool, k);
    assert ch.Post().q.desc == ch'.q.desc;
    assert ch.Post().q.avail.slots == ch'.q.avail.slots;
    assert ch.Post().q.avail == ch'.q.avail;
    assert ch.Post().pool == ch'.pool;
  }

  lemma PostedEntries(n: nat, pool: Pool, k: nat)
    requires RingSize(n) && k < n
    ensures PostedUpTo(n, pool, k).q.desc[k := Desc(pool.base + RX_BUFFER_SIZE * k, RX_BUFFER_SIZE, WriteOnly(0), 0)]
            == PostedUpTo(n, pool, k + 1).q.desc
    ensures PostedUpTo(n, pool, k).q.avail.slots[k := k as u16] == PostedUpTo(n, pool, k + 1).q.avail.slots
  {
  }

  lemma PostedIsOwned(n: nat, pool: Pool)
    requires RingSize(n)
    ensures var q := PostedUpTo(n, pool, n).q;
            && q.AvailIds() == seq(n, i requires 0 <= i < n => i as u16)
            && q.FreeIds() == [] && q.UsedIds() == [] && q.Owned(multiset{})
  {
    var q := PostedUpTo(n, pool, n).q;
    assert q.avail.Count() == n;
    forall i | 0 <= i < n
      ensures q.AvailIds()[i] == i
    {
      assert Slot(0 + i, n) == i;
    }
    CountingUp(n);
  }

  // ---------- the protocol ----------

  /** `Drain` takes the next used entry and frees its descriptor; `Free` then
      frees the buffer, unless the console's own buffer was full. */
  datatype RxEvent =
    | Take
    | Write(id: u16, bytes: seq<byte>)
    | Complete(id: u16, len: nat)
    | Drain
    | Free(id: u16)

  /** `held` are the ids inside the device.  The rest is history: `received` counts
      drained buffers, and `kept` are the drained ids whose memory was not freed. */
  datatype RxSystem = RxSystem(ch: Chan, held: multiset<u16>, received: nat, kept: set<u16>) {
    predicate Enabled(e: RxEvent)
      requires ch.Shape()
    {
      match e
      case Take => ch.q.avail.HasBuf()
      case Write(id, bytes) => id in held && |bytes| <= ch.q.DescOf(id).len
      case Complete(id, _) => id in held
      case Drain => ch.q.used.HasBuf()
      case Free(id) => id in ch.q.FreeIds()
    }

    function Apply(e: RxEvent): (s: RxSystem)
      requires ch.Shape()
      ensures s.ch.Shape()
    {
      match e
      case Take =>
        var (q1, id) := ch.q.GetAvail();
        this.(ch := ch.(q := q1), held := held + multiset{id})
      case Write(id, bytes) =>
        this.(ch := ch.(pool := DeviceWrite(ch.pool, ch.q.DescOf(id).addr, bytes)))
      case Complete(id, len) =>
        this.(ch := ch.(q := ch.q.AddUsed(id, len)), held := held - multiset{id})
      case Drain => this.(ch := ch.TakeBack().0, received := received + 1, kept := kept + {ch.TakeBack().1})
      case Free(id) => this.(ch := ch.FreeBuffer(id).0, kept := kept - {id})
    }

    ghost predicate Inv() {
      && ch.Shape() && ch.q.Owned(held) && Posted(ch.q.desc, ch.pool) && received == ch.q.numFree
      && (forall id :: id in kept ==> id in ch.q.FreeIds()) && Wiped(ch, kept)
    }
  }

  /** The buffers of received messages are zero again, but for those kept. */
  ghost predicate Wiped(ch: Chan, kept: set<u16>)
    requires ch.Shape()
  {
    forall id :: id in ch.q.FreeIds() && id !in kept ==> WipedAt(ch.pool, id)
  }

  ghost predicate WipedAt(p: Pool, id: u16) {
    RX_BUFFER_SIZE * id + RX_BUFFER_SIZE <= |p.mem| && p.Zeroed(RX_BUFFER_SIZE * id, RX_BUFFER_SIZE)
  }

  /** The device stores bytes in the buffer at `ptr`; stores outside the pool are
      not part of it. */
  function DeviceWrite(p: Pool, ptr: nat, bytes: seq<byte>): Pool {
    if p.base <= ptr && ptr - p.base + |bytes| <= |p.mem|
    then p.(mem := Patched(p.mem, ptr - p.base, bytes)) else p
  }

  /** Descriptor `id` describes the `id`-th 64 bytes of the pool, for the device
      to write; this never changes, because nothing is ever posted again. */
  ghost predicate Posted(desc: seq<Desc>, pool: Pool) {
    pool.size == RX_BUFFER_SIZE * |desc| &&
    forall id :: 0 <= id < |desc| ==>
      && desc[id].addr == pool.base + RX_BUFFER_SIZE * id
      && desc[id].len == RX_BUFFER_SIZE
      && desc[id].flags == WriteOnly(0)
  }

  function RxStart(n: nat, pool: Pool): (s: RxSystem)
    requires RingSize(n)
  {
    RxSystem(PostedUpTo(n, pool, n), multiset{}, 0, {})
  }

  lemma RxStartIsSound(n: nat, pool: Pool)
    requires RingSize(n) && RxPool(n, pool)
    ensures RxStart(n, pool).Inv()
  {
    PostedIsOwned(n, pool);
  }

  lemma RxTakeKeepsInv(s: RxSystem)
    requires s.Inv() && s.Enabled(Take)
    ensures s.Apply(Take).Inv()
  {
    GetAvailMoves(s.ch.q, s.held);
  }

  lemma RxCompleteKeepsInv(s: RxSystem, id: u16, len: nat)
    requires s.Inv() && s.Enabled(Complete(id, len))
    ensures s.Apply(Complete(id, len)).Inv()
  {
    assert s.held == s.held - multiset{id} + multiset{id};
    AddUsedMoves(s.ch.q, s.held - multiset{id}, id, len);
  }

  /** Draining moves the oldest returned id to the head of the free list; the
      source's assertion holds. */
  lemma DrainMoves(s: RxSystem)
    requires s.Inv() && s.ch.q.used.HasBuf()
    ensures s.ch.q.GetUsed().0.numFree < |s.ch.q.desc|
    ensures var (ch', id) := s.ch.TakeBack();
            && s.ch.q.UsedIds() == [id] + ch'.q.UsedIds() && ch'.q.FreeIds() == [id] + s.ch.q.FreeIds()
            && ch'.q.Owned(s.held) && ch'.q.numFree == s.ch.q.numFree + 1 && |ch'.q.desc| == |s.ch.q.desc|
            && Posted(ch'.q.desc, s.ch.pool)
  {
    var (q1, id) := s.ch.q.GetUsed();
    GetUsedMoves(s.ch.q, s.held);
    PutFreeMoves(q1, s.held, id);
  }

  /** Freeing the buffer of a drained id succeeds and clears exactly the region
      that was posted, wholly inside the pool. */
  lemma FreeFits(ch: Chan, held: multiset<u16>, id: u16)
    requires ch.Shape() && ch.q.Owned(held) && Posted(ch.q.desc, ch.pool) && id in ch.q.FreeIds()
    ensures id < |ch.q.desc|
    ensures ch.q.DescOf(id).addr == ch.pool.base + RX_BUFFER_SIZE * id && ch.q.DescOf(id).len == RX_BUFFER_SIZE
    ensures RX_BUFFER_SIZE * id + RX_BUFFER_SIZE <= ch.pool.size
    ensures ch.FreeBuffer(id).1
  {
    FreeListIsProper(ch.q, held);
    assert ch.q.DescOf(id) == ch.q.desc[id];
  }

  lemma FreeSucceeds(s: RxSystem, id: u16)
    requires s.Inv() && s.Enabled(Free(id))
    ensures id < |s.ch.q.desc|
    ensures s.ch.q.DescOf(id).addr == s.ch.pool.base + RX_BUFFER_SIZE * id && s.ch.q.DescOf(id).len == RX_BUFFER_SIZE
    ensures RX_BUFFER_SIZE * id + RX_BUFFER_SIZE <= s.ch.pool.size
    ensures s.ch.FreeBuffer(id).1
  {
    FreeFits(s.ch, s.held, id);
  }

  lemma RxDrainKeepsInv(s: RxSystem)
    requires s.Inv() && s.Enabled(Drain)
    ensures s.Apply(Drain).Inv()
  {
    DrainMoves(s);
    DrainedIsNew(s);
  }

  /** The id drained was not free before, and is now. */
  lemma DrainedIsNew(s: RxSystem)
    requires s.Inv() && s.ch.q.used.HasBuf()
    ensures var (ch', id) := s.ch.TakeBack();
            id in ch'.q.FreeIds() && id !in s.ch.q.FreeIds() && id !in s.kept
  {
    DrainMoves(s);
    var (ch', id) := s.ch.TakeBack();
    assert ch'.q.FreeIds()[0] == id;
    FreeListIsProper(s.ch.q, s.held);
    assert s.ch.q.UsedIds()[0] == id;
  }

  lemma RxFreeKeepsInv(s: RxSystem, id: u16)
    requires s.Inv() && s.Enabled(Free(id))
    ensures s.Apply(Free(id)).Inv()
  {
    FreeSucceeds(s, id);
    var p, p' := s.ch.pool, s.ch.FreeBuffer(id).0.pool;
    forall x | x in s.ch.q.FreeIds() && x !in s.kept - {id}
      ensures WipedAt(p', x)
    {
      if x != id {
        assert WipedAt(p, x);
      }
    }
  }

  lemma RxWriteKeepsInv(s: RxSystem, id: u16, bytes: seq<byte>)
    requires s.Inv() && s.Enabled(Write(id, bytes))
    ensures s.Apply(Write(id, bytes)).Inv()
  {
    FreeListIsProper(s.ch.q, s.held);
    HeldIsPosted(s, id);
    forall x | x in s.ch.q.FreeIds() && x !in s.kept
      ensures WipedAt(s.Apply(Write(id, bytes)).ch.pool, x)
    {
      assert WipedAt(s.ch.pool, x) && x != id;
    }
  }

  lemma HeldIsPosted(s: RxSystem, id: u16)
    requires s.Inv() && id in s.held
    ensures id < |s.ch.q.desc| && s.ch.q.DescOf(id).addr == s.ch.pool.base + RX_BUFFER_SIZE * id
    ensures s.ch.q.DescOf(id).len == RX_BUFFER_SIZE && RX_BUFFER_SIZE * id + RX_BUFFER_SIZE <= s.ch.pool.size
  {
    OwnedOnce(s.ch.q, s.held);
    assert s.held[id] >= 1;
    assert s.ch.q.DescOf(id) == s.ch.q.desc[id];
  }

  lemma RxStepKeepsInv(s: RxSystem, e: RxEvent)
    requires s.Inv() && s.Enabled(e)
    ensures s.Apply(e).Inv()
    ensures |s.Apply(e).ch.q.desc| == |s.ch.q.desc|
    ensures s.Apply(e).received == s.received + Drains([e])
  {
    assert [e][1..] == [];
    match e
    case Take => RxTakeKeepsInv(s);
    case Write(id, bytes) => RxWriteKeepsInv(s, id, bytes);
    case Complete(id, len) => RxCompleteKeepsInv(s, id, len);
    case Drain => RxDrainKeepsInv(s);
    case Free(id) => RxFreeKeepsInv(s, id);
  }

  // ---------- runs ----------

  predicate RxPossible(s: RxSystem, es: seq<RxEvent>)
    requires s.ch.Shape()
    decreases |es|
  {
    es == [] || (s.Enabled(es[0]) && RxPossible(s.Apply(es[0]), es[1..]))
  }

  function RxAfter(s: RxSystem, es: seq<RxEvent>): (s': RxSystem)
    requires s.ch.Shape()
    ensures s'.ch.Shape()
    decreases |es|
  {
    if es == [] then s else RxAfter(s.Apply(es[0]), es[1..])
  }

  /** A run followed by one more event. */
  lemma {:induction false} RxExtend(s: RxSystem, es: seq<RxEvent>, e: RxEvent)
    requires s.ch.Shape() && RxPossible(s, es) && RxAfter(s, es).Enabled(e)
    ensures RxPossible(s, es + [e]) && RxAfter(s, es + [e]) == RxAfter(s, es).Apply(e)
    decreases |es|
  {
    if es == [] {
      assert ([] + [e])[1..] == [];
    } else {
      RxExtend(s.Apply(es[0]), es[1..], e);
      assert (es + [e])[1..] == es[1..] + [e];
    }
  }

  function Drains(es: seq<RxEvent>): nat {
    if es == [] then 0 else (if es[0].Drain? then 1 else 0) + Drains(es[1..])
  }

  lemma {:induction false} RxRunKeepsInv(s: RxSystem, es: seq<RxEvent>)
    requires s.Inv() && RxPossible(s, es)
    ensures RxAfter(s, es).Inv()
    ensures RxAfter(s, es).received == s.received + Drains(es)
    ensures |RxAfter(s, es).ch.q.desc| == |s.ch.q.desc|
    decreases |es|
  {
    if es != [] {
      RxStepKeepsInv(s, es[0]);
      assert Drains(es) == Drains([es[0]]) + Drains(es[1..]) by {
        assert [es[0]][1..] == [];
      }
      RxRunKeepsInv(s.Apply(es[0]), es[1..]);
    }
  }

  /** In how many places id `x` is. */
  ghost function Owners(s: RxSystem, x: u16): nat
    requires s.ch.Shape()
  {
    multiset(s.ch.q.FreeIds())[x] + multiset(s.ch.q.AvailIds())[x] + s.held[x] + multiset(s.ch.q.UsedIds())[x]
  }

  /** Over every run from initialisation, the driver's free count is the number
      of buffers it has received, so no run drains more than the queue size; the
      ids not yet received are pending, in the device, or returned; and the memory
      of received buffers is zero again unless it was kept. */
  lemma ReceiveOwnership(n: nat, pool: Pool, es: seq<RxEvent>)
    requires RingSize(n) && RxPool(n, pool) && RxPossible(RxStart(n, pool), es)
    ensures var s := RxAfter(RxStart(n, pool), es);
            && s.ch.q.numFree == Drains(es) <= n
            && Drains(es) + |s.ch.q.AvailIds()| + |s.held| + |s.ch.q.UsedIds()| == n
            && s.ch.q.Owned(s.held) && Posted(s.ch.q.desc, s.ch.pool) && |s.ch.q.desc| == n
            && (forall x: u16 :: Owners(s, x) == if x < n then 1 else 0)
            && (forall id :: id in s.ch.q.FreeIds() ==> s.ch.FreeBuffer(id).1)
            && Wiped(s.ch, s.kept)
  {
    RxStartIsSound(n, pool);
    RxRunKeepsInv(RxStart(n, pool), es);
    var s := RxAfter(RxStart(n, pool), es);
    OwnedOnce(s.ch.q, s.held);
    forall id | id in s.ch.q.FreeIds()
      ensures s.ch.FreeBuffer(id).1
    {
      FreeSucceeds(s, id);
    }
  }

  // ---------- messages the device has returned ----------

  /** The bytes of the `id`-th buffer. */
  function Message(s: RxSystem, id: u16): seq<byte> {
    s.ch.pool.Read(s.ch.pool.base + RX_BUFFER_SIZE * id, RX_BUFFER_SIZE)
  }

  /** Every message already returned is still queued in the same place and still
      reads the same. */
  ghost predicate KeepsReturned(s: RxSystem, s': RxSystem)
    requires s.ch.Shape() && s'.ch.Shape()
  {
    s.ch.q.UsedIds() <= s'.ch.q.UsedIds() &&
    forall id :: id in s.ch.q.UsedIds() ==> Message(s', id) == Message(s, id)
  }

  /** What the driver may rely on while only the device runs. */
  ghost predicate DeviceRan(s: RxSystem, s': RxSystem) {
    && s.ch.Shape() && s'.ch.Shape()
    && s'.ch.q.numFree == s.ch.q.numFree && s'.received == s.received
    && KeepsReturned(s, s')
  }

  predicate ByDevice(e: RxEvent) {
    e.Take? || e.Write? || e.Complete?
  }

  /** What a device step that touches neither buffers nor the free list keeps. */
  lemma SamePoolKeepsReturned(s: RxSystem, s': RxSystem)
    requires s.ch.Shape() && s'.ch.Shape() && s'.ch.pool == s.ch.pool && s.ch.q.UsedIds() <= s'.ch.q.UsedIds()
    requires s'.ch.q.numFree == s.ch.q.numFree && s'.received == s.received
    ensures DeviceRan(s, s')
  {
    assert forall x: u16 :: Message(s', x) == Message(s, x);
  }

  lemma WriteKeepsReturned(s: RxSystem, id: u16, bytes: seq<byte>)
    requires s.Inv() && s.Enabled(Write(id, bytes))
    ensures DeviceRan(s, s.Apply(Write(id, bytes)))
  {
    forall x | x in s.ch.q.UsedIds()
      ensures Message(s.Apply(Write(id, bytes)), x) == Message(s, x)
    {
      WriteLeavesOthers(s, id, bytes, x);
    }
  }

  /** The device cannot disturb what it has returned. */
  lemma DeviceKeepsReturned(s: RxSystem, e: RxEvent)
    requires s.Inv() && s.Enabled(e) && ByDevice(e)
    ensures DeviceRan(s, s.Apply(e))
  {
    match e
    case Take =>
      GetAvailMoves(s.ch.q, s.held);
      SamePoolKeepsReturned(s, s.Apply(e));
    case Complete(id, len) =>
      assert s.held == s.held - multiset{id} + multiset{id};
      AddUsedMoves(s.ch.q, s.held - multiset{id}, id, len);
      SamePoolKeepsReturned(s, s.Apply(e));
    case Write(id, bytes) => WriteKeepsReturned(s, id, bytes);
  }

  lemma WriteLeavesOthers(s: RxSystem, id: u16, bytes: seq<byte>, x: u16)
    requires s.Inv() && s.Enabled(Write(id, bytes)) && x in s.ch.q.UsedIds()
    ensures Message(s.Apply(Write(id, bytes)), x) == Message(s, x)
  {
    UsedIsPosted(s, x);
    HeldIsPosted(s, id);
    PatchElsewhere(s.ch.pool, RX_BUFFER_SIZE * id, bytes, RX_BUFFER_SIZE * x, RX_BUFFER_SIZE);
  }

  /** A returned id is neither free nor in the device, and its buffer is in the pool. */
  lemma UsedIsPosted(s: RxSystem, x: u16)
    requires s.Inv() && x in s.ch.q.UsedIds()
    ensures x < |s.ch.q.desc| && x !in s.held && x !in s.ch.q.FreeIds()
    ensures RX_BUFFER_SIZE * x + RX_BUFFER_SIZE <= s.ch.pool.size
  {
    OwnedOnce(s.ch.q, s.held);
    assert multiset(s.ch.q.UsedIds())[x] >= 1;
    assert multiset(s.ch.q.FreeIds())[x] == 0;
  }

  lemma PatchElsewhere(p: Pool, off: nat, bytes: seq<byte>, at: nat, len: nat)
    requires off + |bytes| <= |p.mem| && at + len <= |p.mem|
    requires at + len <= off || off + |bytes| <= at
    ensures p.(mem := Patched(p.mem, off, bytes)).Read(p.base + at, len) == p.Read(p.base + at, len)
  {
  }

  lemma DeviceRanTwice(a: RxSystem, b: RxSystem, c: RxSystem)
    requires DeviceRan(a, b) && DeviceRan(b, c)
    ensures DeviceRan(a, c)
  {
  }

  /** The message that the device returned first and the driver has not taken. */
  function Oldest(s: RxSystem): seq<byte>
    requires s.ch.Shape()
  {
    Message(s, s.ch.q.GetUsed().1)
  }

  /** The oldest message stays the oldest, unaltered, while the device runs. */
  lemma OldestStays(s: RxSystem, s': RxSystem)
    requires s.Inv() && s'.Inv() && DeviceRan(s, s') && s.ch.q.used.HasBuf() && s'.ch.pool.base == s.ch.pool.base
    ensures s'.ch.q.used.HasBuf() && Oldest(s') == Oldest(s)
  {
    GetUsedMoves(s.ch.q, s.held);
    assert s.ch.q.UsedIds()[0] == s'.ch.q.UsedIds()[0];
    CountSteps(s'.ch.q.used);
    GetUsedMoves(s'.ch.q, s'.held);
  }

  lemma DrainedFits(s: RxSystem)
    requires s.Inv() && s.ch.q.used.HasBuf()
    ensures var (ch', id) := s.ch.TakeBack();
            && ch'.q.DescOf(id).addr == s.ch.pool.base + RX_BUFFER_SIZE * id
            && RX_BUFFER_SIZE * id + RX_BUFFER_SIZE <= s.ch.pool.size
  {
    DrainMoves(s);
    DrainedIsNew(s);
    var (ch', id) := s.ch.TakeBack();
    FreeFits(ch', s.held, id);
  }

  /** Taking it finds the descriptor as posted, and leaves the message in place. */
  lemma OldestIsPosted(s: RxSystem)
    requires s.Inv() && s.ch.q.used.HasBuf()
    ensures var (ch', id) := s.ch.TakeBack();
            && id in ch'.q.FreeIds() && id !in s.kept
            && ch'.q.DescOf(id).addr == s.ch.pool.base + RX_BUFFER_SIZE * id
            && RX_BUFFER_SIZE * id + RX_BUFFER_SIZE <= s.ch.pool.size
            && ch'.q.numFree == s.ch.q.numFree + 1 <= |s.ch.q.desc|
            && Oldest(s) == s.ch.pool.Read(s.ch.pool.base + RX_BUFFER_SIZE * id, RX_BUFFER_SIZE)
  {
    DrainMoves(s);
    DrainedIsNew(s);
    DrainedFits(s);
    OldestIsRead(s);
  }

  lemma OldestIsRead(s: RxSystem)
    requires s.ch.Shape()
    ensures Oldest(s) == s.ch.pool.Read(s.ch.pool.base + RX_BUFFER_SIZE * s.ch.TakeBack().1, RX_BUFFER_SIZE)
  {
    assert s.ch.TakeBack().1 == s.ch.q.GetUsed().1;
  }
}
