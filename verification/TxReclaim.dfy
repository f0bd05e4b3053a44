/** Memory is never leaked on the transmit side, in any run, even one whose
    terminators fall on live buffers. */
module TxReclamation {
  import opened Machine
  import opened Rings
  import opened MemoryPools
  import opened TxProtocol
  import opened TxTheorems

  /** Writing a new block and a zero after it covers what it brings into use. */
  lemma PublishKeepsTidy(p: Pool, live: map<u16, Block>, id: u16, b: Block, p': Pool)
    requires Tidy(p, live) && id !in live && b.off + |b.data| <= p.size
    requires p'.Shape() && p'.size == p.size && p'.mem == Patched(p.mem, b.off, b.data + [0])
    ensures Tidy(p', live[id := b])
  {
    var live' := live[id := b];
    forall i | 0 <= i < p'.size && p'.mem[i] != 0
      ensures Covered(live', i)
    {
      if b.Covers(i) {
        assert live'[id].Covers(i);
      } else {
        assert Covered(live, i);
        var j :| j in live && live[j].Covers(i);
        assert live'[j].Covers(i);
      }
    }
  }

  /** Clearing a block leaves in use only what other blocks cover. */
  lemma RetireKeepsTidy(p: Pool, live: map<u16, Block>, id: u16, p': Pool)
    requires Tidy(p, live) && id in live
    requires p'.Shape() && p'.size == p.size && p'.mem == Cleared(p.mem, live[id].off, |live[id].data|)
    ensures Tidy(p', live - {id})
  {
    var live' := live - {id};
    forall i | 0 <= i < p'.size && p'.mem[i] != 0
      ensures Covered(live', i)
    {
      assert Covered(live, i);
      var j :| j in live && live[j].Covers(i);
      assert live'[j].Covers(i);
    }
  }

  lemma TransmitKeepsTidy(s: TxSystem, data: seq<byte>)
    requires s.Safe() && s.Enabled(Transmit(data)) && Tidy(s.ch.pool, s.live)
    ensures Tidy(s.AfterTransmit(data).ch.pool, s.AfterTransmit(data).live)
  {
    if s.ch.pool.Alloc(|data|).1.None? {
      LostKeeps(s, data);
    } else {
      var id, b := SentUses(s, data);
      SentIsFresh(s, id, b);
      SentKeepsTidy(s, id, b);
    }
  }

  lemma SentKeepsTidy(s: TxSystem, id: u16, b: Block)
    requires s.ch.Shape() && Uses(s, id, b) && id !in s.live && Tidy(s.ch.pool, s.live)
    ensures Tidy(s.AfterTransmit(b.data).ch.pool, s.AfterTransmit(b.data).live)
  {
    AllocIsFree(s.ch.pool, |b.data|);
    PublishKeepsTidy(s.ch.pool, s.live, id, b, s.ch.Transmit(b.data).pool);
  }

  lemma RecycleKeepsTidy(s: TxSystem)
    requires s.Safe() && s.Enabled(Recycle) && Tidy(s.ch.pool, s.live)
    ensures Tidy(s.Apply(Recycle).ch.pool, s.Apply(Recycle).live)
  {
    RecycleSucceeds(s);
    RetireKeepsTidy(s.ch.pool, s.live, s.ch.q.GetUsed().1, s.Apply(Recycle).ch.pool);
  }

  lemma StepKeepsTidy(s: TxSystem, e: TxEvent)
    requires s.Safe() && s.Enabled(e) && Tidy(s.ch.pool, s.live)
    ensures Tidy(s.Apply(e).ch.pool, s.Apply(e).live)
  {
    match e
    case Transmit(data) => TransmitKeepsTidy(s, data);
    case Take =>
    case Complete(_, _) =>
    case Recycle => RecycleKeepsTidy(s);
  }

  lemma {:induction false} RunKeepsTidy(s: TxSystem, es: seq<TxEvent>)
    requires s.Safe() && Possible(s, es) && Tidy(s.ch.pool, s.live)
    ensures Tidy(After(s, es).ch.pool, After(s, es).live)
    decreases |es|
  {
    if es != [] {
      StepKeepsSafe(s, es[0]);
      StepKeepsTidy(s, es[0]);
      RunKeepsTidy(s.Apply(es[0]), es[1..]);
    }
  }

  /** Over every run from initialisation: each byte in use lies in the buffer of a
      transmission not yet recycled; and once nothing is in flight the pool is all
      zero again and serves any string that fits on either side of the cursor, in
      particular any of at most half the pool. */
  lemma TransmitReclaims(n: nat, pool: Pool, es: seq<TxEvent>, data: seq<byte>)
    requires RingSize(n) && FreshPool(pool) && Possible(Start(n, pool), es)
    ensures var s := After(Start(n, pool), es);
            var p := s.ch.pool;
            && Tidy(p, s.live)
            && (Idle(s) ==>
                  && p.Zeroed(0, p.size)
                  && (p.Alloc(|data|).1.Some? <==> |data| <= p.size - p.offset || |data| <= p.offset)
                  && (2 * |data| <= p.size ==> p.Alloc(|data|).1.Some?))
  {
    StartIsSound(n, pool);
    RunKeepsTidy(Start(n, pool), es);
    RunKeepsSafe(Start(n, pool), es);
    var s := After(Start(n, pool), es);
    if Idle(s) {
      IdleHasNoneLive(s);
      EmptyPoolServes(s.ch.pool, s.live, |data|);
    }
  }

  lemma IdleHasNoneLive(s: TxSystem)
    requires s.Safe() && Idle(s)
    ensures s.live.Keys == {}
  {
    CountSteps(s.ch.q.avail);
    CountSteps(s.ch.q.used);
    assert s.Books().avail == [] && s.Books().used == [];
    assert s.Books().InFlight() == multiset{};
  }
}
