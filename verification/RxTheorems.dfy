/** What the driver receives over whole runs: the messages the device returned. */
module RxTheorems {
  import opened Machine
  import opened Rings
  import opened Virtqueue
  import opened MemoryPools
  import opened Channels
  import opened RxProtocol

  /** A message: the id that carries it and the bytes of its buffer. */
  type Note = (u16, seq<byte>)

  /** The bytes at the address that descriptor `id` holds. */
  function Described(ch: Chan, id: u16): seq<byte>
    requires ch.Shape()
  {
    ch.pool.Read(ch.q.DescOf(id).addr, RX_BUFFER_SIZE)
  }

  /** What one event returns, as the buffer stands at that moment. */
  function ReturnedBy(s: RxSystem, e: RxEvent): seq<Note>
    requires s.ch.Shape()
  {
    if e.Complete? then [(e.id, Described(s.ch, e.id))] else []
  }

  /** What the driver finds in one event, through the descriptor it has relinked. */
  function TakenBy(s: RxSystem, e: RxEvent): seq<Note>
    requires s.ch.Shape()
  {
    if e.Drain? then var (ch', id) := s.ch.TakeBack(); [(id, Described(ch', id))] else []
  }

  function Returned(s: RxSystem, es: seq<RxEvent>): seq<Note>
    requires s.ch.Shape()
    decreases |es|
  {
    if es == [] then [] else ReturnedBy(s, es[0]) + Returned(s.Apply(es[0]), es[1..])
  }

  function Taken(s: RxSystem, es: seq<RxEvent>): seq<Note>
    requires s.ch.Shape()
    decreases |es|
  {
    if es == [] then [] else TakenBy(s, es[0]) + Taken(s.Apply(es[0]), es[1..])
  }

  /** The messages in the used ring, oldest first, as they read now. */
  function Waiting(s: RxSystem): (notes: seq<Note>)
    requires s.ch.Shape()
    ensures |notes| == |s.ch.q.UsedIds()|
  {
    var ids := s.ch.q.UsedIds();
    seq(|ids|, i requires 0 <= i < |ids| => (ids[i], Message(s, ids[i])))
  }

  /** The ids and messages waiting depend on the used ring and on their buffers only. */
  lemma WaitingSame(s: RxSystem, s': RxSystem)
    requires s.ch.Shape() && s'.ch.Shape() && s'.ch.q.UsedIds() == s.ch.q.UsedIds()
    requires forall x | x in s.ch.q.UsedIds() :: Message(s', x) == Message(s, x)
    ensures Waiting(s') == Waiting(s)
  {
  }

  lemma CompleteAppends(s: RxSystem, id: u16, len: nat)
    requires s.Inv() && s.Enabled(Complete(id, len))
    ensures Waiting(s.Apply(Complete(id, len))) == Waiting(s) + ReturnedBy(s, Complete(id, len))
  {
    assert s.held == s.held - multiset{id} + multiset{id};
    AddUsedMoves(s.ch.q, s.held - multiset{id}, id, len);
    WaitingGrows(s, s.Apply(Complete(id, len)), id);
    HeldReads(s, id);
  }

  lemma WaitingGrows(s: RxSystem, s': RxSystem, id: u16)
    requires s.ch.Shape() && s'.ch.Shape() && s'.ch.pool == s.ch.pool && s'.ch.q.UsedIds() == s.ch.q.UsedIds() + [id]
    ensures Waiting(s') == Waiting(s) + [(id, Message(s, id))]
  {
    assert forall x: u16 :: Message(s', x) == Message(s, x);
  }

  lemma HeldReads(s: RxSystem, id: u16)
    requires s.Inv() && id in s.held
    ensures Described(s.ch, id) == Message(s, id)
  {
    HeldIsPosted(s, id);
  }

  lemma DrainTakesHead(s: RxSystem)
    requires s.Inv() && s.Enabled(Drain)
    ensures TakenBy(s, Drain) + Waiting(s.Apply(Drain)) == Waiting(s)
  {
    DrainMoves(s);
    OldestIsPosted(s);
    WaitingShrinks(s, s.Apply(Drain), s.ch.TakeBack().1);
  }

  lemma WaitingShrinks(s: RxSystem, s': RxSystem, id: u16)
    requires s.ch.Shape() && s'.ch.Shape() && s'.ch.pool == s.ch.pool && s.ch.q.UsedIds() == [id] + s'.ch.q.UsedIds()
    ensures Waiting(s) == [(id, Message(s, id))] + Waiting(s')
  {
    assert forall x: u16 :: Message(s', x) == Message(s, x);
  }

  lemma FreeLeavesOthers(s: RxSystem, id: u16, x: u16)
    requires s.Inv() && s.Enabled(Free(id)) && x in s.ch.q.UsedIds()
    ensures Message(s.Apply(Free(id)), x) == Message(s, x)
  {
    UsedIsPosted(s, x);
    FreeSucceeds(s, id);
    ClearElsewhere(s.ch.pool, RX_BUFFER_SIZE * id, RX_BUFFER_SIZE * x, RX_BUFFER_SIZE);
  }

  lemma ClearElsewhere(p: Pool, off: nat, at: nat, len: nat)
    requires off + len <= |p.mem| && at + len <= |p.mem| && (at + len <= off || off + len <= at)
    ensures p.(mem := Cleared(p.mem, off, len)).Read(p.base + at, len) == p.Read(p.base + at, len)
  {
  }

  lemma TakeSame(s: RxSystem)
    requires s.Inv() && s.Enabled(Take)
    ensures Waiting(s.Apply(Take)) == Waiting(s)
  {
    TakeLeavesUsed(s.ch.q, s.held);
    SamePoolSame(s, s.Apply(Take));
  }

  lemma TakeLeavesUsed(q: Virtq, out: multiset<u16>)
    requires q.Owned(out) && q.avail.HasBuf()
    ensures q.GetAvail().0.UsedIds() == q.UsedIds()
  {
    GetAvailMoves(q, out);
  }

  lemma SamePoolSame(s: RxSystem, s': RxSystem)
    requires s.ch.Shape() && s'.ch.Shape() && s'.ch.pool == s.ch.pool && s'.ch.q.UsedIds() == s.ch.q.UsedIds()
    ensures Waiting(s') == Waiting(s)
  {
    assert forall x: u16 :: Message(s', x) == Message(s, x);
  }

  lemma WriteSame(s: RxSystem, id: u16, bytes: seq<byte>)
    requires s.Inv() && s.Enabled(Write(id, bytes))
    ensures Waiting(s.Apply(Write(id, bytes))) == Waiting(s)
  {
    forall x | x in s.ch.q.UsedIds()
      ensures Message(s.Apply(Write(id, bytes)), x) == Message(s, x)
    {
      WriteLeavesOthers(s, id, bytes, x);
    }
    WaitingSame(s, s.Apply(Write(id, bytes)));
  }

  lemma FreeSame(s: RxSystem, id: u16)
    requires s.Inv() && s.Enabled(Free(id))
    ensures Waiting(s.Apply(Free(id))) == Waiting(s)
  {
    forall x | x in s.ch.q.UsedIds()
      ensures Message(s.Apply(Free(id)), x) == Message(s, x)
    {
      FreeLeavesOthers(s, id, x);
    }
    WaitingSame(s, s.Apply(Free(id)));
  }

  /** One step: what is taken comes off the front of what is waiting, and what is
      returned goes on at the end; nothing waiting changes. */
  lemma StepContents(s: RxSystem, e: RxEvent)
    requires s.Inv() && s.Enabled(e)
    ensures TakenBy(s, e) + Waiting(s.Apply(e)) == Waiting(s) + ReturnedBy(s, e)
  {
    match e
    case Take => TakeSame(s);
    case Write(id, bytes) => WriteSame(s, id, bytes);
    case Complete(id, len) => CompleteAppends(s, id, len);
    case Drain => DrainTakesHead(s);
    case Free(id) => FreeSame(s, id);
  }

  lemma {:induction false} RunContents(s: RxSystem, es: seq<RxEvent>)
    requires s.Inv() && RxPossible(s, es)
    ensures Taken(s, es) + Waiting(RxAfter(s, es)) == Waiting(s) + Returned(s, es)
    decreases |es|
  {
    if es != [] {
      var s' := s.Apply(es[0]);
      StepContents(s, es[0]);
      RxStepKeepsInv(s, es[0]);
      RunContents(s', es[1..]);
      Shuffle(TakenBy(s, es[0]), Taken(s', es[1..]), Waiting(RxAfter(s, es)),
              Waiting(s'), Waiting(s), ReturnedBy(s, es[0]), Returned(s', es[1..]));
    }
  }

  lemma Shuffle<T>(t: seq<T>, ts: seq<T>, end: seq<T>, mid: seq<T>, start: seq<T>, r: seq<T>, rs: seq<T>)
    requires t + mid == start + r && ts + end == mid + rs
    ensures t + ts + end == start + (r + rs)
  {
    assert t + ts + end == t + (ts + end) == t + mid + rs;
  }

  lemma {:induction false} TakenCounts(s: RxSystem, es: seq<RxEvent>)
    requires s.ch.Shape()
    ensures |Taken(s, es)| == Drains(es)
    decreases |es|
  {
    if es != [] {
      TakenCounts(s.Apply(es[0]), es[1..]);
    }
  }

  /** Reception end to end.  Over any run from initialisation the messages the driver
      takes are, in order, the first ones the device returned, each with the id and
      the bytes it had when it was returned; and the rest are waiting in the used
      ring and still read the same. */
  lemma ReceiveEndToEnd(n: nat, pool: Pool, es: seq<RxEvent>)
    requires RingSize(n) && RxPool(n, pool) && RxPossible(RxStart(n, pool), es)
    ensures var s := RxStart(n, pool);
            && Taken(s, es) + Waiting(RxAfter(s, es)) == Returned(s, es)
            && Taken(s, es) <= Returned(s, es) && |Taken(s, es)| == Drains(es)
            && (!RxAfter(s, es).ch.q.used.HasBuf() ==> Taken(s, es) == Returned(s, es))
  {
    var s := RxStart(n, pool);
    RxStartIsSound(n, pool);
    PostedIsOwned(n, pool);
    assert Waiting(s) == [];
    RunContents(s, es);
    TakenCounts(s, es);
    CountSteps(RxAfter(s, es).ch.q.used);
  }
}
