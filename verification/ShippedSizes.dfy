/** The sizes the driver is built with: queues of 1024 entries, pools of 64 KiB. */
module ShippedSizes {
  import opened Machine
  import opened Rings
  import opened Virtqueue
  import opened MemoryPools
  import opened Channels
  import opened RxProtocol
  import opened TxProtocol
  import opened TxTheorems
  import opened TxLoss
  import Layout

  const VIRTQ_SIZE := 1024
  const POOL_SIZE := VIRTQ_SIZE * 64

  lemma ShippedSizeFits()
    ensures RingSize(VIRTQ_SIZE) && POOL_SIZE == RX_BUFFER_SIZE * VIRTQ_SIZE == 0x1_0000
  {
    SlotIsRemainder(0x1_0000, VIRTQ_SIZE);
  }

  /** After the posting loop: descriptor `i` is the `i`-th 64 bytes of the pool, for
      the device to write; the available ring lists every id in order; nothing is
      free; and the pool's cursor has reached its end. */
  ghost predicate AllPosted(ch: Chan, n: nat) {
    && |ch.q.desc| == |ch.q.avail.slots| == n
    && ch.q.numFree == 0 && ch.q.avail.idx == n && ch.pool.offset == ch.pool.size == 64 * n
    && forall i | 0 <= i < n ::
         ch.q.desc[i] == Desc(ch.pool.base + 64 * i, 64, WRITE, 0) && ch.q.avail.slots[i] == i
  }

  lemma PostingPostsAll(n: nat, pool: Pool)
    requires RingSize(n) && RxPool(n, pool)
    ensures AllPosted(PostedUpTo(n, pool, n), n)
  {
    var ch := PostedUpTo(n, pool, n);
    assert WriteOnly(0) == WRITE;
    assert ch.q.desc == PostedDesc(n, pool.base, n);
    forall i | 0 <= i < n
      ensures ch.q.desc[i] == Desc(ch.pool.base + 64 * i, 64, WRITE, 0) && ch.q.avail.slots[i] == i
    {
      assert ch.q.desc[i] == PostedDesc(n, pool.base, n)[i];
    }
  }

  /** At the size the driver is built with, the cursor ends at 65536. */
  lemma ShippedPosting(n: nat, pool: Pool)
    requires n == VIRTQ_SIZE && pool.Shape() && pool.size == POOL_SIZE
    requires pool.offset == 0 && pool.Zeroed(0, pool.size)
    ensures RingSize(n) && RxPool(n, pool)
    ensures AllPosted(PostedUpTo(n, pool, n), n) && PostedUpTo(n, pool, n).pool.offset == 0x1_0000
  {
    ShippedSizeFits();
    PostingPostsAll(n, pool);
  }

  ghost predicate Misdelivers(s: TxSystem, es: seq<TxEvent>)
    requires s.ch.Shape()
  {
    Possible(s, es) && !(DeviceReads(s, es) <= Published(s, es))
  }

  /** At that size the terminator can corrupt a message: a run of transmissions of
      half the pool each, after which the device has read what was never sent. */
  lemma ShippedCorruption(n: nat, pool: Pool)
    requires n == VIRTQ_SIZE && FreshPool(pool) && pool.size == POOL_SIZE
    ensures RingSize(n)
    ensures exists es: seq<TxEvent> :: Misdelivers(Start(n, pool), es)
  {
    ShippedSizeFits();
    var text: seq<byte> := seq(pool.size / 2, _ => 1);
    TerminatorCanCorrupt(n, pool, text, text, text);
    assert Misdelivers(Start(n, pool), Corrupting(text, text, text));
  }

  /** At that size 1024 transmissions of a text of 65537 bytes or more, each refused
      for want of memory, leave the driver without a descriptor for good. */
  lemma ShippedWedge(n: nat, pool: Pool, data: seq<byte>)
    requires n == VIRTQ_SIZE && FreshPool(pool) && pool.size == POOL_SIZE && Text(data) && |data| > POOL_SIZE
    ensures RingSize(n)
    ensures var es := seq(n, _ => Transmit(data));
            Possible(Start(n, pool), es) && Idle(After(Start(n, pool), es)) && Wedged(After(Start(n, pool), es))
  {
    ShippedSizeFits();
    TooLongWedges(n, pool, seq(n, _ => Transmit(data)));
  }

  /** The layout at that size: 16, 4 and 12 KiB for the rings, 96 KiB for a queue. */
  lemma ShippedLayout(base: nat)
    ensures Layout.AreasAt(base, VIRTQ_SIZE) == Layout.Areas(base, base + 0x4000, base + 0x5000, base + 0x8000)
    ensures Layout.TotalSize(VIRTQ_SIZE) == 0x1_8000
  {
  }
}
