/** Delivery on the transmit side: exactly when the device reads what was sent.  It
    may read a buffer from the moment it is published until it is returned. */
module TxDelivery {
  import opened Machine
  import opened Rings
  import opened Virtqueue
  import opened MemoryPools
  import opened TxLedger
  import opened TxProtocol
  import opened TxTheorems

  /** Published and not yet returned. */
  ghost predicate Outstanding(s: TxSystem, id: u16)
    requires s.ch.Shape()
  {
    id in s.ch.q.AvailIds() || id in s.held
  }

  /** The region that the descriptor describes meets the `n` bytes at `addr`. */
  predicate Meets(d: Desc, addr: nat, n: nat) {
    d.addr < addr + n && addr < d.addr + d.len
  }

  ghost predicate LeavesAlone(s: TxSystem, addr: nat, n: nat)
    requires s.ch.Shape()
  {
    forall id :: Outstanding(s, id) ==> !Meets(s.ch.q.DescOf(id), addr, n)
  }

  /** The zeroes that an event writes, a terminator or a freed region, miss every
      outstanding buffer.  The descriptors alone decide it, before the call. */
  ghost predicate Spares(s: TxSystem, e: TxEvent)
    requires s.ch.Shape()
  {
    match e
    case Transmit(data) =>
      var ptr := s.ch.pool.Alloc(|data|).1;
      ptr.Some? ==> LeavesAlone(s, ptr.value + |data|, 1)
    case Recycle =>
      var d := s.ch.q.DescOf(s.ch.q.GetUsed().1);
      LeavesAlone(s, d.addr, d.len)
    case _ => true
  }

  ghost predicate AllSparing(s: TxSystem, es: seq<TxEvent>)
    requires s.ch.Shape()
    decreases |es|
  {
    es == [] || (Spares(s, es[0]) && AllSparing(s.Apply(es[0]), es[1..]))
  }

  /** Every outstanding buffer reads as the text that was transmitted. */
  ghost predicate Undamaged(s: TxSystem)
    requires s.ch.Shape()
  {
    forall id :: Outstanding(s, id) ==> id in s.live && s.DeviceRead(id) == s.live[id].data
  }

  ghost predicate NeverDamaged(s: TxSystem, es: seq<TxEvent>)
    requires s.ch.Shape()
    decreases |es|
  {
    Undamaged(s) && (es == [] || NeverDamaged(s.Apply(es[0]), es[1..]))
  }

  /** What sparing runs keep.  Buffers already returned may be damaged, and may even
      share bytes with others. */
  ghost predicate Delivering(s: TxSystem) {
    && s.Safe()
    && (forall id :: Outstanding(s, id) ==> id in s.live && Intact(s.ch.pool, s.live[id]))
    && s.sent == s.seen + Texts(s.ch.q.AvailIds(), s.live)
  }

  lemma OutstandingIsRouted(s: TxSystem, id: u16)
    requires s.Safe() && Outstanding(s, id)
    ensures id in s.live && id < |s.ch.q.desc| && s.ch.q.DescOf(id) == s.ch.q.desc[id]
    ensures s.ch.q.desc[id].addr == s.ch.pool.base + s.live[id].off && s.ch.q.desc[id].len == |s.live[id].data|
    ensures s.live[id].off + |s.live[id].data| <= s.ch.pool.size
  {
    assert id in s.Books().avail ==> multiset(s.Books().avail)[id] >= 1;
    assert id in s.Books().InFlight();
  }

  lemma DeliveringIsUndamaged(s: TxSystem)
    requires Delivering(s)
    ensures Undamaged(s)
  {
    forall id | Outstanding(s, id)
      ensures id in s.live && s.DeviceRead(id) == s.live[id].data
    {
      OutstandingReads(s, id);
    }
  }

  lemma OutstandingReads(s: TxSystem, id: u16)
    requires Delivering(s) && Outstanding(s, id)
    ensures id in s.live && s.DeviceRead(id) == s.live[id].data
  {
    OutstandingIsRouted(s, id);
    IntactReadsBack(s.ch.pool, s.live[id]);
  }

  // ---------- transmission ----------

  /** A block written with its terminator is intact, and so is any other that was and
      that the terminator misses. */
  lemma StrCpyKeepsIntact(p: Pool, b: Block, offset: nat, c: Block)
    requires p.Shape() && offset <= p.size && Text(b.data) && b.off + |b.data| <= p.size
    requires p.Zeroed(b.off, |b.data|) && Intact(p, c) && !c.Covers(b.off + |b.data|)
    ensures Intact(p.(offset := offset).StrCpy(p.base + b.off, b.data), c)
  {
    if !Apart(b, c) {
      LiveByteNonzero(p, c, if b.off <= c.off then c.off else b.off);
    }
  }

  lemma StrCpyIsIntact(p: Pool, b: Block, offset: nat)
    requires p.Shape() && offset <= p.size && Text(b.data) && b.off + |b.data| <= p.size
    ensures Intact(p.(offset := offset).StrCpy(p.base + b.off, b.data), b)
  {
  }

  lemma SentOutstanding(s: TxSystem, id: u16, b: Block, x: u16)
    requires s.Safe() && s.Enabled(Transmit(b.data)) && Uses(s, id, b) && id !in s.live
    ensures Outstanding(s.AfterTransmit(b.data), x) <==> x == id || Outstanding(s, x)
  {
    SentLedger(s, id, b);
    assert s.AfterTransmit(b.data).Books().avail == s.Books().avail + [id];
    assert s.AfterTransmit(b.data).Books().held == s.held;
  }

  lemma SentTexts(s: TxSystem, id: u16, b: Block)
    requires Delivering(s) && s.Enabled(Transmit(b.data)) && Uses(s, id, b) && id !in s.live
    ensures var s' := s.AfterTransmit(b.data); s'.sent == s'.seen + Texts(s'.ch.q.AvailIds(), s'.live)
  {
    SentLedger(s, id, b);
    var k := s.Books();
    assert s.AfterTransmit(b.data).Books() == k.Publish(id, b);
    if id in k.avail {
      OutstandingIsRouted(s, id);
    }
    TextsAppend(k.avail, id, k.live, b);
    Associate(k.seen, Texts(k.avail, k.live), [b.data]);
  }

  lemma SentDelivering(s: TxSystem, id: u16, b: Block)
    requires Delivering(s) && s.Enabled(Transmit(b.data)) && Uses(s, id, b) && id !in s.live
    requires Spares(s, Transmit(b.data))
    ensures Delivering(s.AfterTransmit(b.data))
  {
    var s' := s.AfterTransmit(b.data);
    SentKeepsSafe(s, id, b);
    SentTexts(s, id, b);
    forall x | Outstanding(s', x)
      ensures x in s'.live && Intact(s'.ch.pool, s'.live[x])
    {
      SentOutstanding(s, id, b, x);
      SentIntact(s, id, b, x);
    }
  }

  lemma SentIntact(s: TxSystem, id: u16, b: Block, x: u16)
    requires Delivering(s) && s.Enabled(Transmit(b.data)) && Uses(s, id, b) && id !in s.live
    requires Spares(s, Transmit(b.data)) && (x == id || Outstanding(s, x))
    ensures x in s.AfterTransmit(b.data).live
    ensures Intact(s.AfterTransmit(b.data).ch.pool, s.AfterTransmit(b.data).live[x])
  {
    var s' := s.AfterTransmit(b.data);
    SentState(s, id, b);
    if x != id {
      SparedMisses(s, id, b, x);
    }
    CopyIntact(s.ch.pool, s.live, id, b, x, s.ch.pool.Alloc(|b.data|).0.offset, s'.ch.pool, s'.live);
  }

  lemma SparedMisses(s: TxSystem, id: u16, b: Block, x: u16)
    requires s.Safe() && Uses(s, id, b) && Spares(s, Transmit(b.data)) && Outstanding(s, x)
    ensures x in s.live && !s.live[x].Covers(b.off + |b.data|)
  {
    OutstandingIsRouted(s, x);
    assert !Meets(s.ch.q.DescOf(x), s.ch.pool.base + b.off + |b.data|, 1);
  }

  lemma SentState(s: TxSystem, id: u16, b: Block)
    requires s.ch.Shape() && Uses(s, id, b)
    ensures var p' := s.ch.pool.Alloc(|b.data|).0;
            && s.ch.pool.Zeroed(b.off, |b.data|) && p' == s.ch.pool.(offset := p'.offset) && p'.offset <= s.ch.pool.size
            && s.AfterTransmit(b.data).ch.pool == p'.StrCpy(s.ch.pool.base + b.off, b.data)
    ensures s.AfterTransmit(b.data).live == s.live[id := b]
  {
    AllocIsFree(s.ch.pool, |b.data|);
  }

  lemma CopyIntact(p: Pool, live: map<u16, Block>, id: u16, b: Block, x: u16, offset: nat,
                   p': Pool, live': map<u16, Block>)
    requires p.Shape() && offset <= p.size && Text(b.data) && b.off + |b.data| <= p.size && p.Zeroed(b.off, |b.data|)
    requires x != id ==> x in live && Intact(p, live[x]) && !live[x].Covers(b.off + |b.data|)
    requires p' == p.(offset := offset).StrCpy(p.base + b.off, b.data) && live' == live[id := b]
    ensures x in live' && Intact(p', live'[x])
  {
    if x == id {
      StrCpyIsIntact(p, b, offset);
    } else {
      StrCpyKeepsIntact(p, b, offset, live[x]);
    }
  }

  lemma TransmitDelivering(s: TxSystem, data: seq<byte>)
    requires Delivering(s) && s.Enabled(Transmit(data)) && Spares(s, Transmit(data))
    ensures Delivering(s.AfterTransmit(data))
  {
    if s.ch.pool.Alloc(|data|).1.None? {
      LostDelivering(s, data);
    } else {
      var id, b := SentUses(s, data);
      SentIsFresh(s, id, b);
      SentDelivering(s, id, b);
    }
  }

  lemma LostDelivering(s: TxSystem, data: seq<byte>)
    requires Delivering(s) && s.Enabled(Transmit(data)) && s.ch.pool.Alloc(|data|).1.None?
    ensures Delivering(s.AfterTransmit(data))
  {
    var s' := s.AfterTransmit(data);
    LostKeeps(s, data);
    TransmitKeepsSafe(s, data);
    assert s'.Books().avail == s.Books().avail && s'.Books().held == s.held;
    forall x | Outstanding(s', x)
      ensures x in s'.live && Intact(s'.ch.pool, s'.live[x])
    {
      assert Outstanding(s, x);
    }
  }

  // ---------- the device ----------

  lemma TakenOutstanding(s: TxSystem, x: u16)
    requires s.Safe() && s.Enabled(Take) && Outstanding(s.AfterTake(), x)
    ensures Outstanding(s, x)
  {
    TakeLedger(s);
    var k := s.Books();
    assert s.AfterTake().Books().avail == k.avail[1..];
    assert s.AfterTake().Books().held == k.held + multiset{k.avail[0]};
  }

  lemma TakenTexts(s: TxSystem)
    requires Delivering(s) && s.Enabled(Take)
    ensures var s' := s.AfterTake(); s'.sent == s'.seen + Texts(s'.ch.q.AvailIds(), s'.live)
  {
    TakeLedger(s);
    var id := s.Books().avail[0];
    assert Outstanding(s, id);
    OutstandingReads(s, id);
    TakenText(s.Books(), s.DeviceRead(id));
    assert s.AfterTake().Books() == s.Books().Take(s.DeviceRead(id));
  }

  lemma TakenText(k: Ledger, text: seq<byte>)
    requires k.avail != [] && k.avail[0] in k.live && text == k.live[k.avail[0]].data
    requires k.sent == k.seen + Texts(k.avail, k.live)
    ensures var k' := k.Take(text); k'.sent == k'.seen + Texts(k'.avail, k'.live)
  {
    assert k.avail == [k.avail[0]] + k.avail[1..];
    TextsHead(k.avail[0], k.avail[1..], k.live);
    Associate(k.seen, [text], Texts(k.avail[1..], k.live));
  }

  lemma TakeDelivering(s: TxSystem)
    requires Delivering(s) && s.Enabled(Take)
    ensures Delivering(s.AfterTake())
  {
    TakeKeepsSafe(s);
    TakenTexts(s);
    forall x | Outstanding(s.AfterTake(), x)
      ensures Outstanding(s, x)
    {
      TakenOutstanding(s, x);
    }
  }

  lemma CompleteDelivering(s: TxSystem, id: u16, len: nat)
    requires Delivering(s) && s.Enabled(Complete(id, len))
    ensures Delivering(s.Apply(Complete(id, len)))
  {
    var s' := s.Apply(Complete(id, len));
    CompleteLedger(s, id, len);
    StepKeepsSafe(s, Complete(id, len));
    assert s'.Books().avail == s.Books().avail;
    forall x | Outstanding(s', x)
      ensures Outstanding(s, x)
    {
    }
  }

  // ---------- recycling ----------

  lemma ClearedKeepsIntact(p: Pool, off: nat, n: nat, c: Block)
    requires p.Shape() && Intact(p, c) && (c.off + |c.data| <= off || off + n <= c.off)
    ensures Intact(p.(mem := Cleared(p.mem, off, n)), c)
  {
  }

  /** What recycling leaves: the returned id was not outstanding, and the others are. */
  lemma RecycledOutstanding(s: TxSystem, x: u16)
    requires s.Safe() && s.Enabled(Recycle)
    ensures Outstanding(s.Apply(Recycle), x) <==> Outstanding(s, x)
    ensures Outstanding(s, x) ==> x != s.ch.q.GetUsed().1
  {
    RecycleLedger(s);
    var k, id := s.Books(), s.ch.q.GetUsed().1;
    assert s.Apply(Recycle).Books().avail == k.avail && s.Apply(Recycle).Books().held == k.held;
    OneOwner(s, id);
    assert multiset(k.used)[id] >= 1;
    assert id in k.avail ==> multiset(k.avail)[id] >= 1;
  }

  /** The pool after recycling has the returned buffer cleared. */
  lemma RecycledPool(s: TxSystem)
    requires s.Safe() && s.Enabled(Recycle)
    ensures var id := s.ch.q.GetUsed().1;
            && id in s.live && s.Apply(Recycle).live == s.live - {id}
            && s.ch.q.DescOf(id).addr == s.ch.pool.base + s.live[id].off
            && s.ch.q.DescOf(id).len == |s.live[id].data|
            && s.live[id].off + |s.live[id].data| <= s.ch.pool.size
            && s.Apply(Recycle).ch.pool == s.ch.pool.(mem := Cleared(s.ch.pool.mem, s.live[id].off, |s.live[id].data|))
  {
    RecycleSucceeds(s);
    RecycleQueue(s.ch.q, s.held + s.lost);
    UsedOnce(s);
  }

  lemma RecycledIntact(s: TxSystem, x: u16)
    requires Delivering(s) && s.Enabled(Recycle) && Spares(s, Recycle) && Outstanding(s, x)
    ensures x in s.Apply(Recycle).live && Intact(s.Apply(Recycle).ch.pool, s.Apply(Recycle).live[x])
  {
    RecycledOutstanding(s, x);
    RecycledPool(s);
    OutstandingIsRouted(s, x);
    var b := s.live[s.ch.q.GetUsed().1];
    assert !Meets(s.ch.q.DescOf(x), s.ch.pool.base + b.off, |b.data|);
    ClearedKeepsIntact(s.ch.pool, b.off, |b.data|, s.live[x]);
  }

  lemma RecycleDelivering(s: TxSystem)
    requires Delivering(s) && s.Enabled(Recycle) && Spares(s, Recycle)
    ensures Delivering(s.Apply(Recycle))
  {
    var s', k := s.Apply(Recycle), s.Books();
    RecycleKeepsSafe(s);
    RecycleLedger(s);
    forall x | Outstanding(s', x)
      ensures x in s'.live && Intact(s'.ch.pool, s'.live[x])
    {
      RecycledOutstanding(s, x);
      RecycledIntact(s, x);
    }
    TextsFrame(k.avail, k.used[0], k.live);
    assert s'.Books() == k.Retire();
  }

  lemma StepDelivering(s: TxSystem, e: TxEvent)
    requires Delivering(s) && s.Enabled(e) && Spares(s, e)
    ensures Delivering(s.Apply(e))
  {
    match e
    case Transmit(data) => TransmitDelivering(s, data);
    case Take => TakeDelivering(s);
    case Complete(id, len) => CompleteDelivering(s, id, len);
    case Recycle => RecycleDelivering(s);
  }

  // ---------- events that do not spare ----------

  /** A zero inside the buffer of an outstanding text damages it. */
  lemma ZeroDamages(s: TxSystem, id: u16, i: nat)
    requires s.Safe() && Outstanding(s, id)
    requires id in s.live && Text(s.live[id].data) && s.live[id].Covers(i)
    requires i < |s.ch.pool.mem| && s.ch.pool.mem[i] == 0
    ensures !Undamaged(s)
  {
    OutstandingIsRouted(s, id);
    ZeroedInside(s.ch.pool, s.live[id], i);
  }

  lemma SentDamages(s: TxSystem, id: u16, b: Block, x: u16)
    requires s.Safe() && s.Enabled(Transmit(b.data)) && Uses(s, id, b) && id !in s.live
    requires Outstanding(s, x) && x in s.live && Text(s.live[x].data) && s.live[x].Covers(b.off + |b.data|)
    ensures !Undamaged(s.AfterTransmit(b.data))
  {
    var end := TerminatorWritten(s.ch, b.data);
    SentState(s, id, b);
    SentKeepsSafe(s, id, b);
    SentOutstanding(s, id, b, x);
    ZeroDamages(s.AfterTransmit(b.data), x, end);
  }

  lemma TransmitDamages(s: TxSystem, data: seq<byte>)
    requires Delivering(s) && s.Enabled(Transmit(data)) && !Spares(s, Transmit(data))
    ensures !Undamaged(s.AfterTransmit(data))
  {
    var id, b := SentUses(s, data);
    SentIsFresh(s, id, b);
    var x := UnsparedHit(s, id, b);
    SentDamages(s, id, b, x);
  }

  lemma UnsparedHit(s: TxSystem, id: u16, b: Block) returns (x: u16)
    requires Delivering(s) && Uses(s, id, b) && !Spares(s, Transmit(b.data))
    ensures Outstanding(s, x) && x in s.live && Text(s.live[x].data) && s.live[x].Covers(b.off + |b.data|)
  {
    x :| Outstanding(s, x) && Meets(s.ch.q.DescOf(x), s.ch.pool.base + b.off + |b.data|, 1);
    OutstandingIsRouted(s, x);
  }

  lemma RecycledDamages(s: TxSystem, b: Block, x: u16)
    requires s.Safe() && s.Enabled(Recycle) && Outstanding(s, x) && x in s.live && Text(s.live[x].data)
    requires s.ch.q.GetUsed().1 in s.live && b == s.live[s.ch.q.GetUsed().1] && !Apart(b, s.live[x])
    ensures !Undamaged(s.Apply(Recycle))
  {
    var i := if b.off <= s.live[x].off then s.live[x].off else b.off;
    RecycledPool(s);
    RecycledOutstanding(s, x);
    RecycleKeepsSafe(s);
    OutstandingIsRouted(s, x);
    ClearedAt(s.ch.pool.mem, b.off, |b.data|, i);
    ZeroDamages(s.Apply(Recycle), x, i);
  }

  lemma ClearedAt(mem: seq<byte>, off: nat, n: nat, i: nat)
    requires off <= i < off + n && i < |mem|
    ensures Cleared(mem, off, n)[i] == 0
  {
  }

  lemma RecycleDamages(s: TxSystem)
    requires Delivering(s) && s.Enabled(Recycle) && !Spares(s, Recycle)
    ensures !Undamaged(s.Apply(Recycle))
  {
    var d := s.ch.q.DescOf(s.ch.q.GetUsed().1);
    var x :| Outstanding(s, x) && Meets(s.ch.q.DescOf(x), d.addr, d.len);
    RecycledPool(s);
    OutstandingIsRouted(s, x);
    RecycledDamages(s, s.live[s.ch.q.GetUsed().1], x);
  }

  // ---------- runs ----------

  /** Over any run, what the device may still read is always what was sent if and
      only if every terminator and every freed region missed the outstanding buffers. */
  lemma {:induction false} UndamagedIffSparing(s: TxSystem, es: seq<TxEvent>)
    requires Delivering(s) && Possible(s, es)
    ensures NeverDamaged(s, es) <==> AllSparing(s, es)
    decreases |es|
  {
    DeliveringIsUndamaged(s);
    if es != [] {
      if Spares(s, es[0]) {
        StepDelivering(s, es[0]);
        UndamagedIffSparing(s.Apply(es[0]), es[1..]);
      } else if es[0].Transmit? {
        TransmitDamages(s, es[0].data);
      } else {
        RecycleDamages(s);
      }
    }
  }

  lemma {:induction false} RunDelivering(s: TxSystem, es: seq<TxEvent>)
    requires Delivering(s) && Possible(s, es) && AllSparing(s, es)
    ensures Delivering(After(s, es))
    decreases |es|
  {
    if es != [] {
      StepDelivering(s, es[0]);
      RunDelivering(s.Apply(es[0]), es[1..]);
    }
  }

  /** The device has read a prefix of what was sent, and what is pending reads as
      the rest. */
  ghost predicate Delivers(s: TxSystem)
    requires s.ch.Shape()
  {
    var ids := s.ch.q.AvailIds();
    && s.seen <= s.sent
    && |s.sent| == |s.seen| + |ids|
    && (forall i {:trigger ids[i]} :: 0 <= i < |ids| ==> s.DeviceRead(ids[i]) == s.sent[|s.seen| + i])
    && (!s.ch.q.avail.HasBuf() ==> s.seen == s.sent)
  }

  lemma SentSplits(sent: seq<seq<byte>>, seen: seq<seq<byte>>, ids: seq<u16>, live: map<u16, Block>)
    requires sent == seen + Texts(ids, live) && forall id | id in ids :: id in live
    ensures seen <= sent && |sent| == |seen| + |ids|
    ensures forall i {:trigger ids[i]} :: 0 <= i < |ids| ==> sent[|seen| + i] == live[ids[i]].data
    ensures ids == [] ==> seen == sent
  {
  }

  lemma DeliveringDelivers(s: TxSystem)
    requires Delivering(s)
    ensures Delivers(s)
  {
    var ids := s.ch.q.AvailIds();
    CountSteps(s.ch.q.avail);
    assert forall id | id in ids :: Outstanding(s, id);
    SentSplits(s.sent, s.seen, ids, s.live);
    forall i | 0 <= i < |ids|
      ensures s.DeviceRead(ids[i]) == s.sent[|s.seen| + i]
    {
      OutstandingReads(s, ids[i]);
    }
  }

  lemma StartDelivers(n: nat, pool: Pool)
    requires RingSize(n) && FreshPool(pool)
    ensures Delivering(Start(n, pool))
  {
    StartIsSound(n, pool);
    assert Start(n, pool).Books().avail == [];
  }

  /** Transmission end to end.  Over any run from initialisation whose zeroes miss the
      outstanding buffers, the device has read exactly the texts of the successful
      transmissions, in order and unaltered, up to those still waiting in the
      available ring, which will read the same way; and that condition is the exact
      one for the device never to find a text altered that it may still read. */
  lemma TransmitEndToEnd(n: nat, pool: Pool, es: seq<TxEvent>)
    requires RingSize(n) && FreshPool(pool) && Possible(Start(n, pool), es)
    ensures NeverDamaged(Start(n, pool), es) <==> AllSparing(Start(n, pool), es)
    ensures AllSparing(Start(n, pool), es) ==>
              && Delivers(After(Start(n, pool), es))
              && DeviceReads(Start(n, pool), es) <= Published(Start(n, pool), es)
              && (!After(Start(n, pool), es).ch.q.avail.HasBuf() ==>
                    DeviceReads(Start(n, pool), es) == Published(Start(n, pool), es))
  {
    StartDelivers(n, pool);
    UndamagedIffSparing(Start(n, pool), es);
    if AllSparing(Start(n, pool), es) {
      StartHistories(n, pool, es);
      RunDelivering(Start(n, pool), es);
      DeliveringDelivers(After(Start(n, pool), es));
    }
  }

  // ---------- clear terminators ----------

  /** An event with a clear terminator spares, as long as the pool is accounted for. */
  lemma ClearSpares(s: TxSystem, e: TxEvent)
    requires s.Inv() && s.Enabled(e) && s.Clear(e)
    ensures Spares(s, e)
  {
    forall x | Outstanding(s, x)
      ensures e.Transmit? && s.ch.pool.Alloc(|e.data|).1.Some? ==>
                !Meets(s.ch.q.DescOf(x), s.ch.pool.Alloc(|e.data|).1.value + |e.data|, 1)
      ensures e.Recycle? ==>
                var d := s.ch.q.DescOf(s.ch.q.GetUsed().1); !Meets(s.ch.q.DescOf(x), d.addr, d.len)
    {
      OutstandingIsRouted(s, x);
      if e.Transmit? && s.ch.pool.Alloc(|e.data|).1.Some? {
        ClearMisses(s, e.data, x);
      } else if e.Recycle? {
        RecycledPool(s);
        RecycledOutstanding(s, x);
        assert Apart(s.live[s.ch.q.GetUsed().1], s.live[x]);
      }
    }
  }

  lemma ClearMisses(s: TxSystem, data: seq<byte>, x: u16)
    requires s.Inv() && s.ch.pool.Alloc(|data|).1.Some? && s.Clear(Transmit(data)) && x in s.live
    requires s.live[x].off + |s.live[x].data| <= s.ch.pool.size
    ensures !s.live[x].Covers(s.ch.pool.Alloc(|data|).1.value - s.ch.pool.base + |data|)
  {
    AllocIsFree(s.ch.pool, |data|);
    var end := s.ch.pool.Alloc(|data|).1.value - s.ch.pool.base + |data|;
    if s.live[x].Covers(end) {
      LiveByteNonzero(s.ch.pool, s.live[x], end);
    }
  }

  /** So every run whose terminators are clear delivers. */
  lemma {:induction false} AllClearSpares(s: TxSystem, es: seq<TxEvent>)
    requires s.Inv() && Possible(s, es) && AllClear(s, es)
    ensures AllSparing(s, es)
    decreases |es|
  {
    if es != [] {
      ClearSpares(s, es[0]);
      StepKeepsInv(s, es[0]);
      AllClearSpares(s.Apply(es[0]), es[1..]);
    }
  }
}
