/** The bookkeeping of the transmit protocol, with the rings already read as
    queues: which ids are where, which buffer each one uses, and which texts
    were sent and seen. */
module TxLedger {
  import opened Machine
  import opened Virtqueue
  import opened MemoryPools

  /** The messages in flight: where their ids are, their buffers and texts. */
  datatype Ledger = Ledger(avail: seq<u16>, held: multiset<u16>, used: seq<u16>,
                           live: map<u16, Block>, sent: seq<seq<byte>>, seen: seq<seq<byte>>) {
    ghost function InFlight(): multiset<u16> {
      multiset(avail) + held + multiset(used)
    }

    /** Exactly the ids in flight have a buffer, and their descriptors describe
        those buffers. */
    ghost predicate Routed(desc: seq<Desc>, pool: Pool) {
      KeysAre(live, InFlight()) && Described(desc, pool.base, pool.size, live)
    }

    /** The pool holds the texts in flight and nothing else, and what was sent is
        what was seen followed by what is pending. */
    ghost predicate Faithful(pool: Pool) {
      Accounted(pool, live) && sent == seen + Texts(avail, live)
    }

    function Publish(id: u16, b: Block): Ledger {
      this.(avail := avail + [id], live := live[id := b], sent := sent + [b.data])
    }

    function Take(text: seq<byte>): Ledger
      requires avail != []
    {
      this.(avail := avail[1..], held := held + multiset{avail[0]}, seen := seen + [text])
    }

    function Complete(id: u16): Ledger {
      this.(held := held - multiset{id}, used := used + [id])
    }

    function Retire(): Ledger
      requires used != []
    {
      this.(used := used[1..], live := live - {used[0]})
    }
  }

  ghost predicate KeysAre(live: map<u16, Block>, ids: multiset<u16>) {
    forall id: u16 :: id in live <==> id in ids
  }

  /** Descriptors of in-flight buffers describe nonempty regions inside the pool,
      read-only for the device. */
  ghost predicate Described(desc: seq<Desc>, base: nat, size: nat, live: map<u16, Block>) {
    forall id :: id in live ==>
      && id < |desc|
      && desc[id].addr == base + live[id].off
      && desc[id].len == |live[id].data| > 0
      && desc[id].flags == 0
      && live[id].off + |live[id].data| <= size
  }

  function Texts(ids: seq<u16>, live: map<u16, Block>): seq<seq<byte>> {
    seq(|ids|, i requires 0 <= i < |ids| => if ids[i] in live then live[ids[i]].data else [])
  }

  lemma Associate<T>(a: seq<T>, b: seq<T>, c: seq<T>)
    ensures a + (b + c) == a + b + c
  {
  }

  lemma TextsAppend(ids: seq<u16>, id: u16, live: map<u16, Block>, b: Block)
    requires id !in ids
    ensures Texts(ids + [id], live[id := b]) == Texts(ids, live) + [b.data]
  {
  }

  lemma TextsHead(id: u16, ids: seq<u16>, live: map<u16, Block>)
    requires id in live
    ensures Texts([id] + ids, live) == [live[id].data] + Texts(ids, live)
  {
  }

  lemma TextsFrame(ids: seq<u16>, id: u16, live: map<u16, Block>)
    requires id !in ids
    ensures Texts(ids, live - {id}) == Texts(ids, live)
  {
  }

  lemma KeysAdd(live: map<u16, Block>, ids: multiset<u16>, ids': multiset<u16>, id: u16, b: Block)
    requires KeysAre(live, ids) && ids' == ids + multiset{id}
    ensures KeysAre(live[id := b], ids')
  {
  }

  lemma KeysRemove(live: map<u16, Block>, ids: multiset<u16>, ids': multiset<u16>, id: u16)
    requires KeysAre(live, ids) && ids == ids' + multiset{id} && id !in ids'
    ensures KeysAre(live - {id}, ids')
  {
    forall x: u16
      ensures x in live - {id} <==> x in ids'
    {
      assert ids[x] == ids'[x] + multiset{id}[x];
    }
  }

  lemma DescribedAdd(desc: seq<Desc>, base: nat, size: nat, live: map<u16, Block>, id: u16, b: Block)
    requires Described(desc, base, size, live) && id < |desc| && id !in live
    requires b.data != [] && b.off + |b.data| <= size
    ensures Described(desc[id := Desc(base + b.off, |b.data|, 0, 0)], base, size, live[id := b])
  {
  }

  /** `desc'` differs from `desc` in links only. */
  ghost predicate Relinked(desc: seq<Desc>, desc': seq<Desc>) {
    |desc'| == |desc| && forall x :: 0 <= x < |desc| ==> desc'[x] == desc[x].(next := desc'[x].next)
  }

  lemma DescribedRelink(desc: seq<Desc>, desc': seq<Desc>, base: nat, size: nat, live: map<u16, Block>, id: u16)
    requires Described(desc, base, size, live) && Relinked(desc, desc')
    ensures Described(desc', base, size, live - {id})
  {
  }

  // ---------- publishing block `b` under a fresh `id` ----------

  lemma PublishInFlight(k: Ledger, id: u16, b: Block)
    ensures k.Publish(id, b).InFlight() == k.InFlight() + multiset{id}
  {
    assert multiset(k.avail + [id]) == multiset(k.avail) + multiset{id};
  }

  lemma PublishRoutes(k: Ledger, desc: seq<Desc>, p: Pool, p': Pool, id: u16, b: Block)
    requires k.Routed(desc, p) && id !in k.live && id < |desc| && p'.base == p.base && p'.size == p.size
    requires b.data != [] && b.off + |b.data| <= p.size
    ensures k.Publish(id, b).Routed(desc[id := Desc(p.base + b.off, |b.data|, 0, 0)], p')
  {
    PublishInFlight(k, id, b);
    KeysAdd(k.live, k.InFlight(), k.Publish(id, b).InFlight(), id, b);
    DescribedAdd(desc, p.base, p.size, k.live, id, b);
    RoutedFrom(k.Publish(id, b), k.live[id := b], desc[id := Desc(p.base + b.off, |b.data|, 0, 0)], p');
  }

  lemma RoutedFrom(k: Ledger, live: map<u16, Block>, desc: seq<Desc>, p: Pool)
    requires k.live == live && KeysAre(live, k.InFlight()) && Described(desc, p.base, p.size, live)
    ensures k.Routed(desc, p)
  {
  }

  lemma PublishFaithful(k: Ledger, p: Pool, p': Pool, id: u16, b: Block)
    requires KeysAre(k.live, k.InFlight()) && k.Faithful(p) && id !in k.live
    requires Accounted(p', k.live[id := b])
    ensures k.Publish(id, b).Faithful(p')
  {
    assert id !in k.InFlight();
    TextsAppend(k.avail, id, k.live, b);
    Associate(k.seen, Texts(k.avail, k.live), [b.data]);
  }

  // ---------- the device takes the oldest pending id and reads it ----------

  lemma PendingRoutes(k: Ledger, desc: seq<Desc>, p: Pool, i: nat)
    requires k.Routed(desc, p) && i < |k.avail|
    ensures k.avail[i] in k.live && k.avail[i] < |desc|
  {
    assert k.avail[i] in k.avail;
    assert k.avail[i] in k.InFlight();
  }

  /** Each pending id reads as the text at its place in `sent`. */
  lemma PendingReads(k: Ledger, desc: seq<Desc>, p: Pool, i: nat)
    requires k.Routed(desc, p) && k.Faithful(p) && i < |k.avail|
    ensures var id := k.avail[i];
            && id in k.live && id < |desc| && |k.sent| == |k.seen| + |k.avail|
            && p.Read(desc[id].addr, desc[id].len) == k.live[id].data == k.sent[|k.seen| + i]
  {
    PendingRoutes(k, desc, p, i);
    IntactReadsBack(p, k.live[k.avail[i]]);
    assert Texts(k.avail, k.live)[i] == k.live[k.avail[i]].data;
  }

  lemma TakeRoutes(k: Ledger, desc: seq<Desc>, p: Pool, text: seq<byte>)
    requires k.Routed(desc, p) && k.avail != []
    ensures k.Take(text).Routed(desc, p)
  {
    HeadOfMultiset(k.avail);
    assert k.Take(text).InFlight() == k.InFlight();
  }

  lemma TakeFaithful(k: Ledger, p: Pool)
    requires k.Faithful(p) && k.avail != [] && k.avail[0] in k.live
    ensures k.Take(k.live[k.avail[0]].data).Faithful(p)
  {
    var id := k.avail[0];
    assert k.avail == [id] + k.avail[1..];
    TextsHead(id, k.avail[1..], k.live);
    Associate(k.seen, [k.live[id].data], Texts(k.avail[1..], k.live));
  }

  // ---------- the device returns an id ----------

  lemma CompleteRoutes(k: Ledger, desc: seq<Desc>, p: Pool, id: u16)
    requires k.Routed(desc, p) && id in k.held
    ensures k.Complete(id).Routed(desc, p)
  {
    assert k.Complete(id).InFlight() == k.InFlight();
  }

  // ---------- the driver recycles the oldest returned id ----------

  lemma RetireRoutes(k: Ledger, desc: seq<Desc>, desc': seq<Desc>, p: Pool, p': Pool)
    requires k.Routed(desc, p) && k.used != [] && k.InFlight()[k.used[0]] == 1
    requires Relinked(desc, desc') && p'.base == p.base && p'.size == p.size
    ensures k.used[0] in k.live && k.used[0] !in k.avail
    ensures k.Retire().Routed(desc', p')
  {
    var id := k.used[0];
    HeadOfMultiset(k.used);
    assert k.InFlight() == k.Retire().InFlight() + multiset{id};
    assert k.Retire().InFlight()[id] == 0;
    KeysRemove(k.live, k.InFlight(), k.Retire().InFlight(), id);
    DescribedRelink(desc, desc', p.base, p.size, k.live, id);
    assert multiset(k.avail)[id] == 0;
  }

  lemma RetireFaithful(k: Ledger, p: Pool, p': Pool)
    requires k.Faithful(p) && k.used != [] && k.used[0] !in k.avail
    requires Accounted(p', k.live - {k.used[0]})
    ensures k.Retire().Faithful(p')
  {
    TextsFrame(k.avail, k.used[0], k.live);
  }
}
