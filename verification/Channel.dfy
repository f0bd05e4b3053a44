/** A virtqueue with its memory pool (`struct virtq`), and the driver's three
    ways of using one: posting an empty buffer, transmitting a string, and
    taking back a buffer the device has returned. */
module Channels {
  import opened Machine
  import opened Virtqueue
  import opened MemoryPools

  const RX_BUFFER_SIZE := 64

  datatype Chan = Chan(q: Virtq, pool: Pool) {
    predicate Shape() {
      q.Shape() && pool.Shape()
    }

    /** One turn of the posting loop of `virtio_console_init`. */
    function Post(): Chan
      requires Shape()
    {
      var (q1, id) := q.GetFree();
      var (p1, ptr) := pool.Alloc(RX_BUFFER_SIZE);
      if ptr.None? then Chan(q1, p1)
      else Chan(q1.SetDesc(id, ptr.value, RX_BUFFER_SIZE, WriteOnly(0)).AddAvail(id), p1)
    }

    /** The body of `virtio_console_transmit` between the two lock operations. */
    function Transmit(data: seq<byte>): Chan
      requires Shape()
    {
      var (q1, id) := q.GetFree();
      var (p1, ptr) := pool.Alloc(|data|);
      if ptr.None? then Chan(q1, p1)
      else Chan(q1.SetDesc(id, ptr.value, |data|, ReadOnly(0)).AddAvail(id), p1.StrCpy(ptr.value, data))
    }

    /** Take the next used entry and put its descriptor back in the free list. */
    function TakeBack(): (Chan, u16)
      requires Shape()
    {
      var (q1, id) := q.GetUsed();
      (Chan(q1.PutFree(id), pool), id)
    }

    /** Free the buffer that descriptor `id` describes. */
    function FreeBuffer(id: u16): (Chan, bool)
      requires Shape()
    {
      var (p1, ok) := pool.Free(q.DescOf(id).addr, q.DescOf(id).len);
      (Chan(q, p1), ok)
    }

    /** One full turn of the receive loop: the buffer is freed through the
        descriptor that has already been relinked. */
    function Recycle(): Chan
      requires Shape()
    {
      var (ch, id) := TakeBack();
      ch.FreeBuffer(id).0
    }
  }

  predicate HasWrite(flags: u16) {
    flags / WRITE % 2 == 1
  }

  /** `flags & ~VIRTQ_DESC_F_WRITE` */
  function ReadOnly(flags: u16): u16 {
    if HasWrite(flags) then flags - WRITE else flags
  }

  /** `flags | VIRTQ_DESC_F_WRITE` */
  function WriteOnly(flags: u16): u16 {
    if HasWrite(flags) then flags else flags + WRITE
  }
}
