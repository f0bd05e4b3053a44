/** The split virtqueue as a value: descriptor table with its free list threaded
    through `next`, the available ring and the used ring.  Every operation of
    the queue is a total function (counters wrap as the C types do); the
    assertions of the source are separate predicates, proved where they matter. */
module Virtqueue {
  import opened Machine
  import opened Rings

  /** The descriptor flag that lets the device write the buffer. */
  const WRITE: u16 := 2

  datatype Desc = Desc(addr: nat, len: nat, flags: u16, next: u16)

  datatype UsedElem = UsedElem(id: u16, len: nat)

  datatype Virtq = Virtq(desc: seq<Desc>, nextFree: u16, numFree: u16,
                         avail: Ring<u16>, used: Ring<UsedElem>) {
    predicate Shape() {
      RingSize(|desc|) && |avail.slots| == |desc| && |used.slots| == |desc|
    }

    predicate HasFreeSlots() {
      numFree != 0
    }

    function GetFree(): (Virtq, u16)
      requires |desc| > 0
    {
      (this.(nextFree := desc[Slot(nextFree, |desc|)].next, numFree := Dec16(numFree)), nextFree)
    }

    function PutFree(id: u16): Virtq
      requires |desc| > 0
    {
      var k := Slot(id, |desc|);
      this.(desc := desc[k := desc[k].(next := nextFree)], nextFree := id, numFree := Inc16(numFree))
    }

    function SetDesc(id: u16, addr: nat, len: nat, flags: u16): Virtq
      requires |desc| > 0
    {
      this.(desc := desc[Slot(id, |desc|) := Desc(addr, len, flags, 0)])
    }

    function DescOf(id: u16): Desc
      requires |desc| > 0
    {
      desc[Slot(id, |desc|)]
    }

    function AddAvail(id: u16): Virtq
      requires |avail.slots| > 0
    {
      this.(avail := avail.Push(id))
    }

    function GetAvail(): (Virtq, u16)
      requires |avail.slots| > 0
    {
      (this.(avail := avail.Pop()), avail.Peek())
    }

    function AddUsed(id: u16, len: nat): Virtq
      requires |used.slots| > 0
    {
      this.(used := used.Push(UsedElem(id, len)))
    }

    function GetUsed(): (Virtq, u16)
      requires |used.slots| > 0
    {
      (this.(used := used.Pop()), used.Peek().id)
    }

    // ---------- what the bits stand for ----------

    /** The first `numFree` links from `nextFree`. */
    function FreeIds(): seq<u16>
      requires |desc| > 0
    {
      Links(desc, nextFree, numFree)
    }

    /** Published by the driver, not yet taken by the device; oldest first. */
    function AvailIds(): seq<u16>
      requires |avail.slots| > 0
    {
      avail.Contents()
    }

    /** Returned by the device, not yet recycled by the driver; oldest first. */
    function UsedIds(): seq<u16>
      requires |used.slots| > 0
    {
      Ids(used.Contents())
    }

    /** Every descriptor id has exactly one owner: the free list, one of the two
        rings, or `out` (whoever holds it outside the queue). */
    ghost predicate Owned(out: multiset<u16>) {
      Shape() &&
      multiset(FreeIds()) + multiset(AvailIds()) + multiset(UsedIds()) + out == AllIds(|desc|)
    }
  }

  function Links(desc: seq<Desc>, head: u16, n: nat): (ids: seq<u16>)
    requires |desc| > 0
    ensures |ids| == n
    decreases n
  {
    if n == 0 then [] else [head] + Links(desc, desc[Slot(head, |desc|)].next, n - 1)
  }

  function Ids(elems: seq<UsedElem>): seq<u16> {
    seq(|elems|, i requires 0 <= i < |elems| => elems[i].id)
  }

  /** The ids 0..n-1, once each. */
  ghost function AllIds(n: nat): multiset<u16>
    requires n <= 0x1_0000
  {
    if n == 0 then multiset{} else AllIds(n - 1) + multiset{n - 1}
  }

  lemma {:induction false} AllIdsOnce(n: nat)
    requires n <= 0x1_0000
    ensures |AllIds(n)| == n
    ensures forall x: u16 :: AllIds(n)[x] == if x < n then 1 else 0
  {
    if n > 0 {
      AllIdsOnce(n - 1);
    }
  }

  // ---------- consequences of ownership ----------

  lemma HeadOfMultiset<T>(s: seq<T>)
    requires s != []
    ensures multiset(s) == multiset{s[0]} + multiset(s[1..])
  {
    assert s == [s[0]] + s[1..];
  }

  lemma AtMostOnceIsDistinct<T>(s: seq<T>, i: nat, j: nat)
    requires forall x :: multiset(s)[x] <= 1
    requires i < j < |s|
    ensures s[i] != s[j]
  {
    assert s == s[..j] + [s[j]] + s[j + 1..];
    assert multiset(s)[s[j]] >= multiset(s[..j])[s[j]] + 1;
    assert s[i] in s[..j];
  }

  /** Each id below the queue size is in exactly one place, and no other id is
      anywhere; so at most `VIRTQ_SIZE` entries can be outstanding on a ring. */
  lemma OwnedOnce(q: Virtq, out: multiset<u16>)
    requires q.Owned(out)
    ensures forall x: u16 ::
              multiset(q.FreeIds())[x] + multiset(q.AvailIds())[x] + multiset(q.UsedIds())[x] + out[x]
              == if x < |q.desc| then 1 else 0
    ensures |q.FreeIds()| + |q.AvailIds()| + |q.UsedIds()| + |out| == |q.desc|
    ensures q.numFree == |q.FreeIds()| && q.avail.Count() == |q.AvailIds()| && q.used.Count() == |q.UsedIds()|
  {
    AllIdsOnce(|q.desc|);
    var f, a, u := multiset(q.FreeIds()), multiset(q.AvailIds()), multiset(q.UsedIds());
    assert |f + a + u + out| == |f| + |a| + |u| + |out|;
    forall x: u16
      ensures f[x] + a[x] + u[x] + out[x] == if x < |q.desc| then 1 else 0
    {
      assert (f + a + u + out)[x] == AllIds(|q.desc|)[x];
    }
  }

  /** The free list never visits a descriptor twice, never leaves the table, and
      shares no id with either ring or with `out`. */
  lemma FreeListIsProper(q: Virtq, out: multiset<u16>)
    requires q.Owned(out)
    ensures forall i, j :: 0 <= i < j < |q.FreeIds()| ==> q.FreeIds()[i] != q.FreeIds()[j]
    ensures forall x :: x in q.FreeIds() ==> x < |q.desc| && x !in q.AvailIds() && x !in q.UsedIds() && x !in out
  {
    OwnedOnce(q, out);
    var ids := q.FreeIds();
    forall i, j | 0 <= i < j < |ids|
      ensures ids[i] != ids[j]
    {
      AtMostOnceIsDistinct(ids, i, j);
    }
    forall x | x in ids
      ensures x < |q.desc| && x !in q.AvailIds() && x !in q.UsedIds() && x !in out
    {
      assert multiset(ids)[x] >= 1;
      assert multiset(q.AvailIds())[x] == multiset(q.UsedIds())[x] == out[x] == 0;
    }
  }

  /** Changing links of descriptors outside the chain leaves the chain alone. */
  lemma {:induction false} LinksFrame(desc: seq<Desc>, desc': seq<Desc>, head: u16, n: nat)
    requires |desc| == |desc'| > 0
    requires forall x :: x in Links(desc, head, n) ==> x < |desc| && desc'[x].next == desc[x].next
    ensures Links(desc', head, n) == Links(desc, head, n)
    decreases n
  {
    if n > 0 {
      var next := desc[Slot(head, |desc|)].next;
      var rest := Links(desc, next, n - 1);
      assert Links(desc, head, n) == [head] + rest;
      assert head in Links(desc, head, n);
      forall x | x in rest
        ensures x < |desc| && desc'[x].next == desc[x].next
      {
        assert x in [head] + rest;
      }
      LinksFrame(desc, desc', next, n - 1);
    }
  }

  // ---------- how each operation moves ownership ----------

  /** Taking a free descriptor removes the head of the free list. */
  lemma GetFreeMoves(q: Virtq, out: multiset<u16>)
    requires q.Owned(out) && q.HasFreeSlots()
    ensures var (q', id) := q.GetFree();
            && q.FreeIds() == [id] + q'.FreeIds() && q'.numFree == q.numFree - 1
            && id < |q.desc|
            && q'.AvailIds() == q.AvailIds() && q'.UsedIds() == q.UsedIds()
            && q'.Owned(out + multiset{id})
  {
    var (q', id) := q.GetFree();
    assert q.FreeIds() == [id] + q'.FreeIds();
    HeadOfMultiset(q.FreeIds());
    FreeListIsProper(q, out);
    assert id in q.FreeIds();
    assert q'.AvailIds() == q.AvailIds() && q'.UsedIds() == q.UsedIds();
  }

  lemma PutFreeLinks(q: Virtq, id: u16)
    requires q.Shape() && q.numFree < 0xFFFF
    requires id < |q.desc| && id !in q.FreeIds() && forall x :: x in q.FreeIds() ==> x < |q.desc|
    ensures q.PutFree(id).FreeIds() == [id] + q.FreeIds()
  {
    var q' := q.PutFree(id);
    LinksFrame(q.desc, q'.desc, q.nextFree, q.numFree);
    assert q'.desc[Slot(id, |q.desc|)].next == q.nextFree;
    assert q'.numFree == q.numFree + 1;
  }

  /** Giving a descriptor back puts it at the head of the free list; the source's
      assertion that the list is not already full holds. */
  lemma PutFreeMoves(q: Virtq, out: multiset<u16>, id: u16)
    requires q.Owned(out + multiset{id})
    ensures q.numFree < |q.desc| && id < |q.desc|
    ensures var q' := q.PutFree(id);
            && q'.FreeIds() == [id] + q.FreeIds() && q'.numFree == q.numFree + 1
            && q'.AvailIds() == q.AvailIds() && q'.UsedIds() == q.UsedIds()
            && q'.Owned(out)
  {
    OwnedOnce(q, out + multiset{id});
    assert (out + multiset{id})[id] >= 1;
    FreeListIsProper(q, out + multiset{id});
    assert id !in q.FreeIds();
    PutFreeLinks(q, id);
    var q' := q.PutFree(id);
    assert multiset(q'.FreeIds()) == multiset(q.FreeIds()) + multiset{id};
    assert q'.AvailIds() == q.AvailIds() && q'.UsedIds() == q.UsedIds();
  }

  /** Rewriting a descriptor that somebody holds leaves the free list intact. */
  lemma SetDescKeeps(q: Virtq, out: multiset<u16>, id: u16, addr: nat, len: nat, flags: u16)
    requires q.Owned(out) && id in out
    ensures id < |q.desc|
    ensures var q' := q.SetDesc(id, addr, len, flags);
            && q'.FreeIds() == q.FreeIds() && q'.AvailIds() == q.AvailIds() && q'.UsedIds() == q.UsedIds()
            && q'.Owned(out)
  {
    var q' := q.SetDesc(id, addr, len, flags);
    OwnedOnce(q, out);
    assert out[id] >= 1;
    FreeListIsProper(q, out);
    assert id !in q.FreeIds();
    LinksFrame(q.desc, q'.desc, q.nextFree, q.numFree);
    assert q'.AvailIds() == q.AvailIds() && q'.UsedIds() == q.UsedIds();
  }

  lemma AddAvailMoves(q: Virtq, out: multiset<u16>, id: u16)
    requires q.Owned(out + multiset{id})
    ensures var q' := q.AddAvail(id);
            && q'.AvailIds() == q.AvailIds() + [id] && q'.UsedIds() == q.UsedIds()
            && q'.Owned(out)
  {
    var q' := q.AddAvail(id);
    OwnedOnce(q, out + multiset{id});
    assert |out + multiset{id}| >= 1;
    PushAppends(q.avail, id);
    assert q'.FreeIds() == q.FreeIds() && q'.UsedIds() == q.UsedIds();
  }

  lemma GetAvailMoves(q: Virtq, out: multiset<u16>)
    requires q.Owned(out) && q.avail.HasBuf()
    ensures q.AvailIds() != []
    ensures var (q', id) := q.GetAvail();
            && q.AvailIds() == [id] + q'.AvailIds() && q'.UsedIds() == q.UsedIds() && id < |q.desc|
            && multiset(q.AvailIds()) == multiset{id} + multiset(q'.AvailIds())
            && q'.Owned(out + multiset{id})
  {
    var (q', id) := q.GetAvail();
    CountSteps(q.avail);
    PopRemoves(q.avail);
    HeadOfMultiset(q.AvailIds());
    assert q.AvailIds() == [id] + q'.AvailIds();
    OwnedOnce(q, out);
    assert multiset(q.AvailIds())[id] >= 1;
    assert q'.FreeIds() == q.FreeIds() && q'.UsedIds() == q.UsedIds();
  }

  lemma AddUsedMoves(q: Virtq, out: multiset<u16>, id: u16, len: nat)
    requires q.Owned(out + multiset{id})
    ensures var q' := q.AddUsed(id, len);
            && q'.UsedIds() == q.UsedIds() + [id] && q'.AvailIds() == q.AvailIds()
            && q'.Owned(out) && q'.used.Contents() == q.used.Contents() + [UsedElem(id, len)]
  {
    var q' := q.AddUsed(id, len);
    OwnedOnce(q, out + multiset{id});
    assert |out + multiset{id}| >= 1;
    PushAppends(q.used, UsedElem(id, len));
    assert q'.UsedIds() == q.UsedIds() + [id];
    assert q'.FreeIds() == q.FreeIds() && q'.AvailIds() == q.AvailIds();
  }

  lemma GetUsedMoves(q: Virtq, out: multiset<u16>)
    requires q.Owned(out) && q.used.HasBuf()
    ensures q.UsedIds() != []
    ensures var (q', id) := q.GetUsed();
            && q.UsedIds() == [id] + q'.UsedIds() && q'.AvailIds() == q.AvailIds() && id < |q.desc|
            && multiset(q.UsedIds()) == multiset{id} + multiset(q'.UsedIds())
            && q'.Owned(out + multiset{id})
  {
    var (q', id) := q.GetUsed();
    CountSteps(q.used);
    PopRemoves(q.used);
    assert q.UsedIds() == [id] + q'.UsedIds();
    HeadOfMultiset(q.UsedIds());
    OwnedOnce(q, out);
    assert multiset(q.UsedIds())[id] >= 1;
    assert q'.FreeIds() == q.FreeIds() && q'.AvailIds() == q.AvailIds();
  }

  // ---------- the queue that `virtq_init` leaves behind ----------

  function FreshDesc(n: nat): seq<Desc>
    requires n <= 0x1_0000
  {
    seq(n, i requires 0 <= i < n => Desc(0, 0, 0, if i == n - 1 then 0 else i + 1))
  }

  function Fresh(n: nat): Virtq
    requires RingSize(n)
  {
    Virtq(FreshDesc(n), 0, n,
          Ring.Ring(seq(n, i => 0 as u16), 0, 0),
          Ring.Ring(seq(n, i => UsedElem(0, 0)), 0, 0))
  }

  /** The initial list links every descriptor, in order. */
  lemma {:induction false} FreshLinks(n: nat, k: nat)
    requires RingSize(n) && k < n
    ensures Links(FreshDesc(n), k, n - k) == seq(n - k, i requires 0 <= i < n - k => (k + i) as u16)
    decreases n - k
  {
    if k < n - 1 {
      FreshLinks(n, k + 1);
    } else {
      assert Links(FreshDesc(n), FreshDesc(n)[k].next, 0) == [];
    }
  }

  lemma {:induction false} CountingUp(n: nat)
    requires n <= 0x1_0000
    ensures multiset(seq(n, i requires 0 <= i < n => i as u16)) == AllIds(n)
  {
    if n > 0 {
      CountingUp(n - 1);
      assert seq(n, i requires 0 <= i < n => i as u16)
          == seq(n - 1, i requires 0 <= i < n - 1 => i as u16) + [n - 1];
    }
  }

  /** What `virtq_init` stores, field by field. */
  lemma FreshFields(n: nat)
    requires RingSize(n)
    ensures var q := Fresh(n);
            && |q.desc| == |q.avail.slots| == |q.used.slots| == n && q.nextFree == 0 && q.numFree == n
            && q.avail.idx == q.avail.last == q.used.idx == q.used.last == 0
            && (forall i | 0 <= i < n :: q.desc[i] == Desc(0, 0, 0, if i + 1 < n then i + 1 else 0))
            && (forall i | 0 <= i < n :: q.avail.slots[i] == 0 && q.used.slots[i] == UsedElem(0, 0))
  {
  }

  lemma FreshIsOwned(n: nat)
    requires RingSize(n)
    ensures Fresh(n).Owned(multiset{})
    ensures Fresh(n).AvailIds() == [] && Fresh(n).UsedIds() == []
    ensures Fresh(n).FreeIds() == seq(n, i requires 0 <= i < n => i as u16)
  {
    FreshLinks(n, 0);
    CountingUp(n);
    assert Fresh(n).FreeIds() == seq(n, i requires 0 <= i < n => i as u16);
  }
}
