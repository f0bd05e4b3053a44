/** The virtqueue the driver and the device update in place.  Each method is
    proved to do what the corresponding operation on the value does. */
module QueueObject {
  import opened Machine
  import opened Rings
  import opened Virtqueue
  import opened MemoryPools
  import opened Channels

  class VirtQueue {
    const n: nat
    const index: nat
    const desc: array<Desc>
    const avail: array<u16>
    const used: array<UsedElem>
    const pool: MemoryPool
    var nextFree: u16
    var numFree: u16
    var availIdx: u16
    var availLast: u16
    var usedIdx: u16
    var lastUsed: u16

    ghost predicate Valid()
      reads this, pool
    {
      RingSize(n) && desc.Length == n && avail.Length == n && used.Length == n && pool.Valid()
    }

    function Queue(): Virtq
      reads this, desc, avail, used
    {
      Virtq(desc[..], nextFree, numFree, Ring(avail[..], availIdx, availLast), Ring(used[..], usedIdx, lastUsed))
    }

    function State(): (ch: Chan)
      reads this, desc, avail, used, pool, pool.mem
    {
      Chan(Queue(), pool.State())
    }

    /** `virtq_init`, over pool memory of arbitrary contents. */
    constructor (n: nat, index: nat, base: nat, size: nat, mem: array<byte>)
      requires RingSize(n) && mem.Length > 2 * size
      modifies mem
      ensures Valid() && this.n == n && this.index == index
      ensures pool.mem == mem && pool.base == base && pool.size == size
      ensures fresh(desc) && fresh(avail) && fresh(used) && fresh(pool)
      ensures Queue() == Fresh(n)
      ensures pool.State().offset == 0 && pool.State().Zeroed(0, size)
    {
      this.n, this.index := n, index;
      desc := new Desc[n];
      avail := new u16[n];
      used := new UsedElem[n];
      pool := new MemoryPool(base, size, mem);
      nextFree, numFree := 0, n;
      availIdx, availLast, usedIdx, lastUsed := 0, 0, 0, 0;
      new;
      InitDesc();
      InitRings();
    }

    method InitDesc()
      requires Valid()
      modifies desc
      ensures desc[..] == FreshDesc(n)
    {
      var i := 0;
      while i < n
        invariant 0 <= i <= n
        invariant forall j | 0 <= j < i :: desc[j] == Desc(0, 0, 0, j + 1)
      {
        desc[i] := Desc(0, 0, 0, i + 1);
        i := i + 1;
      }
      desc[n - 1] := desc[n - 1].(next := 0);
    }

    method InitRings()
      requires Valid()
      modifies avail, used
      ensures avail[..] == seq(n, i => 0 as u16) && used[..] == seq(n, i => UsedElem(0, 0))
    {
      var i := 0;
      while i < n
        invariant 0 <= i <= n
        invariant forall j | 0 <= j < i :: avail[j] == 0
      {
        avail[i] := 0;
        i := i + 1;
      }
      i := 0;
      while i < n
        invariant 0 <= i <= n
        invariant forall j | 0 <= j < n :: avail[j] == 0
        invariant forall j | 0 <= j < i :: used[j] == UsedElem(0, 0)
      {
        used[i] := UsedElem(0, 0);
        i := i + 1;
      }
    }

    method GetFreeDescId() returns (id: u16)
      requires Valid() && Queue().HasFreeSlots()
      modifies `nextFree, `numFree
      ensures Valid() && (Queue(), id) == old(Queue()).GetFree()
    {
      id := nextFree;
      SlotIsRemainder(id, n);
      nextFree := desc[id % n].next;
      numFree := numFree - 1;
    }

    method PutFreeDesc(id: u16)
      requires Valid() && numFree < n
      modifies desc, `nextFree, `numFree
      ensures Valid() && Queue() == old(Queue()).PutFree(id)
    {
      SlotIsRemainder(id, n);
      desc[id % n] := desc[id % n].(next := nextFree);
      nextFree := id;
      numFree := numFree + 1;
    }

    /** `virtq_desc_init` followed by one of the two direction setters. */
    method SetDesc(id: u16, addr: nat, len: nat, deviceWrites: bool)
      requires Valid()
      modifies desc
      ensures Valid()
      ensures Queue() == old(Queue()).SetDesc(id, addr, len, if deviceWrites then WriteOnly(0) else ReadOnly(0))
    {
      SlotIsRemainder(id, n);
      var k := id % n;
      desc[k] := Desc(addr, len, 0, 0);
      desc[k] := desc[k].(flags := if deviceWrites then WriteOnly(desc[k].flags) else ReadOnly(desc[k].flags));
    }

    method DescById(id: u16) returns (d: Desc)
      requires Valid()
      ensures d == Queue().DescOf(id)
    {
      SlotIsRemainder(id, n);
      d := desc[id % n];
    }

    method AddAvailBuf(id: u16)
      requires Valid()
      modifies avail, `availIdx
      ensures Valid() && Queue() == old(Queue()).AddAvail(id)
    {
      SlotIsRemainder(availIdx, n);
      avail[availIdx % n] := id;
      availIdx := Inc16(availIdx);
    }

    method GetAvailBufId() returns (id: u16)
      requires Valid() && Queue().avail.HasBuf()
      modifies `availLast
      ensures Valid() && (Queue(), id) == old(Queue()).GetAvail()
    {
      SlotIsRemainder(availLast, n);
      id := avail[availLast % n];
      availLast := Inc16(availLast);
    }

    method AddUsedBuf(id: u16, len: nat)
      requires Valid()
      modifies used, `usedIdx
      ensures Valid() && Queue() == old(Queue()).AddUsed(id, len)
    {
      SlotIsRemainder(usedIdx, n);
      used[usedIdx % n] := used[usedIdx % n].(id := id);
      used[usedIdx % n] := used[usedIdx % n].(len := len);
      usedIdx := Inc16(usedIdx);
    }

    method GetUsedBufId() returns (id: u16)
      requires Valid() && Queue().used.HasBuf()
      modifies `lastUsed
      ensures Valid() && (Queue(), id) == old(Queue()).GetUsed()
    {
      SlotIsRemainder(lastUsed, n);
      id := used[lastUsed % n].id;
      lastUsed := Inc16(lastUsed);
    }

    /** Taking a returned id and putting its descriptor back, as the receive loop does first. */
    method TakeBack() returns (id: u16)
      requires Valid() && Queue().used.HasBuf() && numFree < n
      modifies `lastUsed, `nextFree, `numFree, desc
      ensures Valid() && (State(), id) == old(State()).TakeBack()
    {
      id := GetUsedBufId();
      PutFreeDesc(id);
    }
  }
}
