/** Descriptors lost on the transmit side: a transmission takes its descriptor before
    it asks for memory, and does not give it back when there is none. */
module TxLoss {
  import opened Machine
  import opened Rings
  import opened Virtqueue
  import opened MemoryPools
  import opened TxProtocol
  import opened TxTheorems

  lemma IdleMeansEmpty(s: TxSystem)
    requires s.OwnedOk()
    ensures Idle(s) <==> |s.ch.q.AvailIds()| + |s.held| + |s.ch.q.UsedIds()| == 0
  {
    OwnedOnce(s.ch.q, s.held + s.lost);
    CountSteps(s.ch.q.avail);
    CountSteps(s.ch.q.used);
  }

  /** Over every run: all descriptors are free again exactly when nothing is in flight
      and no transmission failed; and in an idle state there is a free one exactly
      when fewer than `n` have failed. */
  lemma FreeAgainIff(n: nat, pool: Pool, es: seq<TxEvent>)
    requires RingSize(n) && FreshPool(pool) && Possible(Start(n, pool), es)
    ensures var s, failed := After(Start(n, pool), es), Failures(Start(n, pool), es);
            && failed <= n
            && (s.ch.q.numFree == n <==> Idle(s) && failed == 0)
            && (Idle(s) ==> s.ch.q.numFree == n - failed)
            && (Idle(s) ==> (s.ch.q.HasFreeSlots() <==> failed < n))
  {
    TransmitOwnership(n, pool, es);
    StartIsSound(n, pool);
    RunKeepsSafe(Start(n, pool), es);
    IdleMeansEmpty(After(Start(n, pool), es));
  }

  /** Nothing can happen any more: the driver's next transmission would fail the
      source's assertion, and there is nothing to take, return or recycle. */
  ghost predicate Wedged(s: TxSystem)
    requires s.ch.Shape()
  {
    forall e: TxEvent :: !s.Enabled(e)
  }

  /** A reachable state is wedged exactly when every descriptor has been lost to a
      transmission that found no memory; then nothing is in flight either. */
  lemma WedgedIff(n: nat, pool: Pool, es: seq<TxEvent>)
    requires RingSize(n) && FreshPool(pool) && Possible(Start(n, pool), es)
    ensures var s := After(Start(n, pool), es);
            && (Wedged(s) <==> Failures(Start(n, pool), es) == n)
            && (Wedged(s) ==> Idle(s))
  {
    var s := After(Start(n, pool), es);
    FreeAgainIff(n, pool, es);
    TransmitOwnership(n, pool, es);
    StartIsSound(n, pool);
    RunKeepsSafe(Start(n, pool), es);
    IdleMeansEmpty(s);
    if Wedged(s) {
      WedgedIsIdle(s);
    }
  }

  lemma WedgedIsIdle(s: TxSystem)
    requires s.ch.Shape() && Wedged(s)
    ensures Idle(s) && !s.ch.q.HasFreeSlots()
  {
    assert !s.Enabled(Take) && !s.Enabled(Recycle) && !s.Enabled(Transmit([1]));
    forall id: u16
      ensures id !in s.held
    {
      assert !s.Enabled(Complete(id, 0));
    }
    assert s.held == multiset{};
  }

  /** Transmissions of texts longer than the pool. */
  predicate TooLong(es: seq<TxEvent>, size: nat) {
    forall e | e in es :: e.Transmit? && Text(e.data) && |e.data| > size
  }

  lemma TooLongStep(s: TxSystem, e: TxEvent)
    requires s.ch.Shape() && e.Transmit? && |e.data| > s.ch.pool.size && s.ch.q.HasFreeSlots()
    ensures s.ch.pool.Alloc(|e.data|).1.None?
    ensures var t := s.Apply(e);
            && t.ch.q.numFree == s.ch.q.numFree - 1 && t.ch.pool == s.ch.pool
            && t.ch.q.avail == s.ch.q.avail && t.ch.q.used == s.ch.q.used && t.held == s.held
  {
  }

  /** Each of them takes a descriptor and leaves everything else as it was. */
  lemma {:induction false} TooLongRun(s: TxSystem, es: seq<TxEvent>)
    requires s.ch.Shape() && TooLong(es, s.ch.pool.size) && |es| <= s.ch.q.numFree
    ensures Possible(s, es) && Failures(s, es) == |es|
    ensures var t := After(s, es);
            && t.ch.q.numFree == s.ch.q.numFree - |es| && t.ch.pool == s.ch.pool
            && t.ch.q.avail == s.ch.q.avail && t.ch.q.used == s.ch.q.used && t.held == s.held
    decreases |es|
  {
    if es != [] {
      assert es[0] in es;
      assert TooLong(es[1..], s.ch.pool.size);
      TooLongStep(s, es[0]);
      TooLongRun(s.Apply(es[0]), es[1..]);
    }
  }

  /** So `n` texts longer than the pool, of whatever contents, wedge the driver for
      good, with the pool empty and nothing in flight. */
  lemma TooLongWedges(n: nat, pool: Pool, es: seq<TxEvent>)
    requires RingSize(n) && FreshPool(pool) && TooLong(es, pool.size) && |es| == n
    ensures Possible(Start(n, pool), es)
    ensures Idle(After(Start(n, pool), es)) && After(Start(n, pool), es).ch.pool == pool
    ensures Wedged(After(Start(n, pool), es))
  {
    TooLongRun(Start(n, pool), es);
    WedgedIff(n, pool, es);
  }
}
