/** Where the transmit side puts its messages, and which it refuses. */
module TxArena {
  import opened Machine
  import opened Rings
  import opened MemoryPools
  import opened Arenas
  import opened TxProtocol
  import opened TxTheorems

  /** What the interval allocator sees of the transmit side. */
  function TxView(s: TxSystem): Arena {
    Arena(s.ch.pool.size, s.ch.pool.offset, s.live)
  }

  /** What one event asks of the allocator, if anything. */
  function AskedBy(s: TxSystem, e: TxEvent): seq<PoolEvent>
    requires s.ch.Shape()
  {
    match e
    case Transmit(data) => [Fill(s.ch.q.GetFree().1, data)]
    case Recycle => [Release(s.ch.q.GetUsed().1)]
    case _ => []
  }

  function Asked(s: TxSystem, es: seq<TxEvent>): seq<PoolEvent>
    requires s.ch.Shape()
    decreases |es|
  {
    if es == [] then [] else AskedBy(s, es[0]) + Asked(s.Apply(es[0]), es[1..])
  }

  lemma GrantsAnyKey(size: nat, cursor: nat, live: map<u16, Block>, data: seq<byte>)
    ensures Grants<u16>(size, cursor, live, data) <==> Grants<nat>(size, cursor, live, data)
  {
  }

  lemma TransmitAsks(s: TxSystem, data: seq<byte>)
    requires s.Inv() && s.Enabled(Transmit(data))
    ensures TxView(s.AfterTransmit(data)) == TxView(s).Apply(Fill(s.ch.q.GetFree().1, data))
  {
    AllocIffGrants(s.ch.pool, s.live, data);
    GrantsAnyKey(s.ch.pool.size, s.ch.pool.offset, s.live, data);
    AllocPlaces(s, data);
  }

  /** Where a transmission puts its block and leaves the cursor. */
  lemma AllocPlaces(s: TxSystem, data: seq<byte>)
    requires s.ch.Shape()
    ensures var s' := s.AfterTransmit(data);
            var at := Place(s.ch.pool.size, s.ch.pool.offset, |data|);
            && s'.ch.pool.size == s.ch.pool.size
            && (if s.ch.pool.Alloc(|data|).1.None? then s'.ch.pool == s.ch.pool && s'.live == s.live
                else s'.ch.pool.offset == at + |data| && s'.live == s.live[s.ch.q.GetFree().1 := Block(at, data)])
  {
    AllocExactly(s.ch.pool, |data|);
  }

  lemma RecycleAsks(s: TxSystem)
    requires s.Inv() && s.Enabled(Recycle)
    ensures TxView(s.Apply(Recycle)) == TxView(s).Apply(Release(s.ch.q.GetUsed().1))
  {
    var (ch', id) := s.ch.TakeBack();
    FreeExactly(s.ch.pool, ch'.q.DescOf(id).addr, ch'.q.DescOf(id).len);
  }

  lemma StepAsks(s: TxSystem, e: TxEvent)
    requires s.Inv() && s.Enabled(e)
    ensures TxView(s.Apply(e)) == RunArena(TxView(s), AskedBy(s, e))
  {
    match e
    case Transmit(data) =>
      TransmitAsks(s, data);
      OneEvent(TxView(s), Fill(s.ch.q.GetFree().1, data));
    case Recycle =>
      RecycleAsks(s);
      OneEvent(TxView(s), Release(s.ch.q.GetUsed().1));
    case Take =>
    case Complete(_, _) =>
  }

  lemma OneEvent(a: Arena, e: PoolEvent)
    ensures RunArena(a, [e]) == a.Apply(e)
  {
    assert RunArena(a.Apply(e), []) == a.Apply(e);
  }

  lemma {:induction false} Chain(a: Arena, es: seq<PoolEvent>, fs: seq<PoolEvent>)
    ensures RunArena(a, es + fs) == RunArena(RunArena(a, es), fs)
    decreases |es|
  {
    if es == [] {
      assert es + fs == fs;
    } else {
      assert (es + fs)[1..] == es[1..] + fs;
      Chain(a.Apply(es[0]), es[1..], fs);
    }
  }

  lemma {:induction false} RunAsks(s: TxSystem, es: seq<TxEvent>)
    requires s.Inv() && Possible(s, es) && AllClear(s, es)
    ensures TxView(After(s, es)) == RunArena(TxView(s), Asked(s, es))
    decreases |es|
  {
    if es != [] {
      StepAsks(s, es[0]);
      StepKeepsInv(s, es[0]);
      RunAsks(s.Apply(es[0]), es[1..]);
      Chain(TxView(s), AskedBy(s, es[0]), Asked(s.Apply(es[0]), es[1..]));
    }
  }

  /** Over every run from initialisation whose terminators are clear, messages lie
      where the interval allocator puts them, each after the last, and the next
      transmission is refused exactly when there is no place for it after the last
      one, or at the start if it does not fit there, that misses all messages in flight. */
  lemma TransmitPlaces(n: nat, pool: Pool, es: seq<TxEvent>, data: seq<byte>)
    requires RingSize(n) && FreshPool(pool) && Text(data)
    requires Possible(Start(n, pool), es) && AllClear(Start(n, pool), es)
    ensures var (s, a) := (After(Start(n, pool), es), RunArena(Arena(pool.size, 0, map[]), Asked(Start(n, pool), es)));
            && TxView(s) == a
            && (s.ch.pool.Alloc(|data|).1.Some? <==> Grants(a.size, a.cursor, a.live, data))
  {
    StartIsSound(n, pool);
    RunKeepsInv(Start(n, pool), es);
    RunAsks(Start(n, pool), es);
    var s := After(Start(n, pool), es);
    AllocIffGrants(s.ch.pool, s.live, data);
    GrantsAnyKey(s.ch.pool.size, s.ch.pool.offset, s.live, data);
  }
}
