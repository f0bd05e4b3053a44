/** What holds over whole runs of the transmit protocol. */
module TxTheorems {
  import opened Machine
  import opened Rings
  import opened Virtqueue
  import opened MemoryPools
  import opened Channels
  import opened TxLedger
  import opened TxProtocol

  // ---------- runs ----------

  /** Every event of the run is possible when it happens. */
  predicate Possible(s: TxSystem, es: seq<TxEvent>)
    requires s.ch.Shape()
    decreases |es|
  {
    es == [] || (s.Enabled(es[0]) && Possible(s.Apply(es[0]), es[1..]))
  }

  /** A run followed by one more event. */
  lemma {:induction false} Extend(s: TxSystem, es: seq<TxEvent>, e: TxEvent)
    requires s.ch.Shape() && Possible(s, es) && After(s, es).Enabled(e)
    ensures Possible(s, es + [e]) && After(s, es + [e]) == After(s, es).Apply(e)
    decreases |es|
  {
    if es == [] {
      assert ([] + [e])[1..] == [];
    } else {
      Extend(s.Apply(es[0]), es[1..], e);
      assert (es + [e])[1..] == es[1..] + [e];
    }
  }

  function After(s: TxSystem, es: seq<TxEvent>): (s': TxSystem)
    requires s.ch.Shape()
    ensures s'.ch.Shape()
    decreases |es|
  {
    if es == [] then s else After(s.Apply(es[0]), es[1..])
  }

  /** Nothing is pending, in the device, or returned. */
  predicate Idle(s: TxSystem) {
    !s.ch.q.avail.HasBuf() && s.held == multiset{} && !s.ch.q.used.HasBuf()
  }

  predicate AllClear(s: TxSystem, es: seq<TxEvent>)
    requires s.ch.Shape()
    decreases |es|
  {
    es == [] || (s.Clear(es[0]) && AllClear(s.Apply(es[0]), es[1..]))
  }

  ghost predicate NeverAltered(s: TxSystem, es: seq<TxEvent>)
    requires s.ch.Shape()
    decreases |es|
  {
    s.AllUnaltered() && (es == [] || NeverAltered(s.Apply(es[0]), es[1..]))
  }

  lemma {:induction false} RunKeepsInv(s: TxSystem, es: seq<TxEvent>)
    requires s.Inv() && Possible(s, es) && AllClear(s, es)
    ensures After(s, es).Inv()
    decreases |es|
  {
    if es != [] {
      StepKeepsInv(s, es[0]);
      RunKeepsInv(s.Apply(es[0]), es[1..]);
    }
  }

  /** Ownership and addressing survive every run, whatever terminators do. */
  lemma {:induction false} RunKeepsSafe(s: TxSystem, es: seq<TxEvent>)
    requires s.Safe() && Possible(s, es)
    ensures After(s, es).Safe()
    decreases |es|
  {
    if es != [] {
      StepKeepsSafe(s, es[0]);
      RunKeepsSafe(s.Apply(es[0]), es[1..]);
    }
  }

  lemma InvIsUnaltered(s: TxSystem)
    requires s.Inv()
    ensures s.AllUnaltered()
  {
    forall id | id in s.live
      ensures s.DeviceRead(id) == s.live[id].data
    {
      LiveReads(s, id);
    }
  }

  lemma LiveReads(s: TxSystem, id: u16)
    requires s.Inv() && id in s.live
    ensures s.DeviceRead(id) == s.live[id].data
  {
    assert s.ch.q.DescOf(id) == s.ch.q.desc[id];
    IntactReadsBack(s.ch.pool, s.live[id]);
  }

  /** A terminator that is not clear lands on a live buffer. */
  lemma UnclearHits(s: TxSystem, data: seq<byte>) returns (k: u16, end: nat)
    requires s.ch.Shape() && Accounted(s.ch.pool, s.live) && !s.Clear(Transmit(data))
    ensures k in s.live && s.live[k].Covers(end) && Text(s.live[k].data)
    ensures end == s.ch.pool.Alloc(|data|).1.value - s.ch.pool.base + |data|
  {
    end := TerminatorWritten(s.ch, data);
    InUseIffLive(s.ch.pool, s.live, end);
    assert Covered(s.live, end);
    k :| k in s.live && s.live[k].Covers(end);
    assert Intact(s.ch.pool, s.live[k]);
  }

  /** It destroys the first byte of a message somebody still needs. */
  lemma UnclearAlters(s: TxSystem, e: TxEvent)
    requires s.Inv() && s.Enabled(e) && !s.Clear(e)
    ensures !s.Apply(e).AllUnaltered()
  {
    var k, end := UnclearHits(s, e.data);
    var end' := TerminatorWritten(s.ch, e.data);
    SentOwned(s, e.data, s.ch.q.GetFree().1, s.ch.pool.Alloc(|e.data|).1.value);
    FreeIsNotLive(s, s.ch.q.GetFree().1);
    AlteredAt(s.AfterTransmit(e.data), k, end);
  }

  lemma TerminatorWritten(ch: Chan, data: seq<byte>) returns (end: nat)
    requires ch.Shape() && ch.pool.Alloc(|data|).1.Some?
    ensures end == ch.pool.Alloc(|data|).1.value - ch.pool.base + |data| <= ch.pool.size
    ensures var p' := ch.Transmit(data).pool;
            p'.Shape() && p'.base == ch.pool.base && p'.size == ch.pool.size && p'.mem[end] == 0
  {
    AllocIsFree(ch.pool, |data|);
    end := ch.pool.Alloc(|data|).1.value - ch.pool.base + |data|;
  }

  lemma AlteredAt(s: TxSystem, k: u16, i: nat)
    requires s.ch.Shape() && k in s.live && k < |s.ch.q.desc|
    requires var (d, b) := (s.ch.q.desc[k], s.live[k]);
             d.addr == s.ch.pool.base + b.off && d.len == |b.data| && b.off + |b.data| <= s.ch.pool.size && Text(b.data)
    requires s.live[k].Covers(i) && s.ch.pool.mem[i] == 0
    ensures !s.AllUnaltered()
  {
    ZeroedInside(s.ch.pool, s.live[k], i);
  }

  lemma ZeroedInside(p: Pool, b: Block, i: nat)
    requires p.Shape() && b.off + |b.data| <= p.size && Text(b.data) && b.Covers(i) && p.mem[i] == 0
    ensures p.Read(p.base + b.off, |b.data|) != b.data
  {
    assert p.Read(p.base + b.off, |b.data|)[i - b.off] == 0 != b.data[i - b.off];
  }

  /** Over any run, messages in flight stay unaltered from start to end exactly
      when every terminator was clear as it was written. */
  lemma {:induction false} UnalteredIffClear(s: TxSystem, es: seq<TxEvent>)
    requires s.Inv() && Possible(s, es)
    ensures NeverAltered(s, es) <==> AllClear(s, es)
    decreases |es|
  {
    InvIsUnaltered(s);
    if es != [] {
      if s.Clear(es[0]) {
        StepKeepsInv(s, es[0]);
        UnalteredIffClear(s.Apply(es[0]), es[1..]);
      } else {
        UnclearAlters(s, es[0]);
      }
    }
  }

  /** The text that one event publishes, if any. */
  function PublishedBy(s: TxSystem, e: TxEvent): seq<seq<byte>>
    requires s.ch.Shape()
  {
    if e.Transmit? && s.ch.pool.Alloc(|e.data|).1.Some? then [e.data] else []
  }

  /** What the device reads in one event, if anything. */
  function ReadBy(s: TxSystem, e: TxEvent): seq<seq<byte>>
    requires s.ch.Shape()
  {
    if e.Take? then [s.DeviceRead(s.ch.q.GetAvail().1)] else []
  }

  function Published(s: TxSystem, es: seq<TxEvent>): seq<seq<byte>>
    requires s.ch.Shape()
    decreases |es|
  {
    if es == [] then [] else PublishedBy(s, es[0]) + Published(s.Apply(es[0]), es[1..])
  }

  function DeviceReads(s: TxSystem, es: seq<TxEvent>): seq<seq<byte>>
    requires s.ch.Shape()
    decreases |es|
  {
    if es == [] then [] else ReadBy(s, es[0]) + DeviceReads(s.Apply(es[0]), es[1..])
  }

  lemma StepHistory(s: TxSystem, e: TxEvent)
    requires s.ch.Shape()
    ensures s.Apply(e).sent == s.sent + PublishedBy(s, e)
    ensures s.Apply(e).seen == s.seen + ReadBy(s, e)
  {
  }

  /** The histories in the state are what the run published and read. */
  lemma {:induction false} HistoriesAreTrue(s: TxSystem, es: seq<TxEvent>)
    requires s.ch.Shape()
    ensures After(s, es).sent == s.sent + Published(s, es)
    ensures After(s, es).seen == s.seen + DeviceReads(s, es)
    decreases |es|
  {
    if es != [] {
      var s' := s.Apply(es[0]);
      StepHistory(s, es[0]);
      HistoriesAreTrue(s', es[1..]);
      Associate(s.sent, PublishedBy(s, es[0]), Published(s', es[1..]));
      Associate(s.seen, ReadBy(s, es[0]), DeviceReads(s', es[1..]));
    }
  }

  lemma StartHistories(n: nat, pool: Pool, es: seq<TxEvent>)
    requires RingSize(n) && pool.Shape()
    ensures After(Start(n, pool), es).sent == Published(Start(n, pool), es)
    ensures After(Start(n, pool), es).seen == DeviceReads(Start(n, pool), es)
  {
    HistoriesAreTrue(Start(n, pool), es);
  }

  /** In how many places id `x` is: the free list, the two rings, the device, or
      lost. */
  ghost function Owners(s: TxSystem, x: u16): nat
    requires s.ch.Shape()
  {
    multiset(s.ch.q.FreeIds())[x] + multiset(s.ch.q.AvailIds())[x] + s.held[x]
    + multiset(s.ch.q.UsedIds())[x] + s.lost[x]
  }

  lemma InvOwnership(s: TxSystem)
    requires s.OwnedOk()
    ensures forall x: u16 :: Owners(s, x) == if x < |s.ch.q.desc| then 1 else 0
    ensures s.ch.q.numFree + |s.ch.q.AvailIds()| + |s.held| + |s.ch.q.UsedIds()| + |s.lost| == |s.ch.q.desc|
    ensures forall i, j :: 0 <= i < j < s.ch.q.numFree ==> s.ch.q.FreeIds()[i] != s.ch.q.FreeIds()[j]
  {
    OwnedOnce(s.ch.q, s.held + s.lost);
    FreeListIsProper(s.ch.q, s.held + s.lost);
    forall x: u16
      ensures Owners(s, x) == if x < |s.ch.q.desc| then 1 else 0
    {
      OneOwner(s, x);
    }
  }

  lemma {:induction false} RunKeepsSize(s: TxSystem, es: seq<TxEvent>)
    requires s.ch.Shape()
    ensures |After(s, es).ch.q.desc| == |s.ch.q.desc|
    ensures After(s, es).ch.pool.base == s.ch.pool.base && After(s, es).ch.pool.size == s.ch.pool.size
    decreases |es|
  {
    if es != [] {
      RunKeepsSize(s.Apply(es[0]), es[1..]);
    }
  }

  /** How many transmissions of the run found no memory. */
  function Failures(s: TxSystem, es: seq<TxEvent>): nat
    requires s.ch.Shape()
    decreases |es|
  {
    if es == [] then 0
    else (if es[0].Transmit? && s.ch.pool.Alloc(|es[0].data|).1.None? then 1 else 0)
         + Failures(s.Apply(es[0]), es[1..])
  }

  lemma {:induction false} FailuresAreTrue(s: TxSystem, es: seq<TxEvent>)
    requires s.ch.Shape()
    ensures After(s, es).failures == s.failures + Failures(s, es)
    decreases |es|
  {
    if es != [] {
      FailuresAreTrue(s.Apply(es[0]), es[1..]);
    }
  }

  /** Descriptor ownership over every run, clear or not: each id has exactly one
      owner, one id is lost for each transmission of the run that found no memory,
      and the free list is a proper list. */
  lemma TransmitOwnership(n: nat, pool: Pool, es: seq<TxEvent>)
    requires RingSize(n) && FreshPool(pool) && Possible(Start(n, pool), es)
    ensures var s := After(Start(n, pool), es);
            && |s.ch.q.desc| == n
            && (forall x: u16 :: Owners(s, x) == if x < n then 1 else 0)
            && |s.lost| == Failures(Start(n, pool), es)
            && s.ch.q.numFree + |s.ch.q.AvailIds()| + |s.held| + |s.ch.q.UsedIds()| + |s.lost| == n
            && (forall i, j :: 0 <= i < j < s.ch.q.numFree ==> s.ch.q.FreeIds()[i] != s.ch.q.FreeIds()[j])
  {
    StartIsSound(n, pool);
    RunKeepsSafe(Start(n, pool), es);
    RunKeepsSize(Start(n, pool), es);
    FailuresAreTrue(Start(n, pool), es);
    InvOwnership(After(Start(n, pool), es));
  }

  /** Recycling over every run, clear or not: neither assertion fires, the freed
      region is the one allocated for that message, and freeing it succeeds. */
  lemma RecyclingAlwaysSucceeds(n: nat, pool: Pool, es: seq<TxEvent>)
    requires RingSize(n) && FreshPool(pool) && Possible(Start(n, pool), es)
    requires After(Start(n, pool), es).ch.q.used.HasBuf()
    ensures var s := After(Start(n, pool), es);
            var (ch', id) := s.ch.TakeBack();
            && s.ch.q.GetUsed().0.numFree < n
            && id in s.live && ch'.q.DescOf(id).addr == pool.base + s.live[id].off
            && ch'.q.DescOf(id).len == |s.live[id].data|
            && s.live[id].off + |s.live[id].data| <= pool.size
            && ch'.FreeBuffer(id).1
  {
    StartIsSound(n, pool);
    RunKeepsSafe(Start(n, pool), es);
    RunKeepsSize(Start(n, pool), es);
    RecycleSucceeds(After(Start(n, pool), es));
  }

  // ---------- the terminator does corrupt messages ----------

  function Corrupting(a: seq<byte>, b: seq<byte>, c: seq<byte>): seq<TxEvent> {
    [Transmit(a)] + ([Transmit(b)] + ([Take] + ([Complete(0, 0)] + Overwriting(c))))
  }

  function Overwriting(c: seq<byte>): seq<TxEvent> {
    [Recycle] + ([Transmit(c)] + ([Take] + []))
  }

  /** In a pool of any size `2 * h`, with any three messages of `h` bytes: two of them
      fill the pool, the first is recycled, and the third takes its place.  Its
      terminator lands on the first byte of the second message, and what the device
      reads next is not what was sent. */
  lemma TerminatorCanCorrupt(n: nat, pool: Pool, a: seq<byte>, b: seq<byte>, c: seq<byte>)
    requires RingSize(n) && n >= 3 && FreshPool(pool) && Text(a) && Text(b) && Text(c)
    requires |a| == |b| == |c| && pool.size == 2 * |a|
    ensures var (s, es) := (Start(n, pool), Corrupting(a, b, c));
            && Possible(s, es) && !AllClear(s, es) && !NeverAltered(s, es)
            && !(DeviceReads(s, es) <= Published(s, es))
  {
    var s0 := Start(n, pool);
    StartIsSound(n, pool);
    var s1 := CorruptFirst(n, pool, a);
    var s2 := CorruptSecond(s1, b);
    CorruptRest(s2, b, c);
    var rest := [Take] + ([Complete(0, 0)] + Overwriting(c));
    Prepend(s1, Transmit(b), rest);
    Prepend(s0, Transmit(a), [Transmit(b)] + rest);
    UnalteredIffClear(s0, Corrupting(a, b, c));
    StartHistories(n, pool, Corrupting(a, b, c));
  }

  lemma Prepend(s: TxSystem, e: TxEvent, es: seq<TxEvent>)
    requires s.ch.Shape() && s.Enabled(e) && Possible(s.Apply(e), es)
    ensures Possible(s, [e] + es) && After(s, [e] + es) == After(s.Apply(e), es)
    ensures !AllClear(s.Apply(e), es) || !s.Clear(e) ==> !AllClear(s, [e] + es)
  {
    assert ([e] + es)[1..] == es;
  }

  /** Message `b` was sent second, and descriptor 1 describes the second half of the
      pool, which is where it was put. */
  ghost predicate SecondHalf(s: TxSystem, b: seq<byte>)
    requires s.ch.Shape()
  {
    && |s.ch.q.desc| >= 3 && s.ch.pool.size == 2 * |b|
    && s.ch.q.desc[1].addr == s.ch.pool.base + |b| && s.ch.q.desc[1].len == |b|
    && |s.sent| >= 2 && s.sent[1] == b
  }

  /** Descriptor 0 describes the first half. */
  ghost predicate FirstHalf(s: TxSystem, h: nat)
    requires s.ch.Shape()
  {
    |s.ch.q.desc| >= 3 && s.ch.q.desc[0].addr == s.ch.pool.base && s.ch.q.desc[0].len == h
  }

  /** Both messages are in the available ring, and the pool is full. */
  ghost predicate Full(s: TxSystem, b: seq<byte>)
    requires s.ch.Shape()
  {
    && SecondHalf(s, b) && FirstHalf(s, |b|) && s.ch.q.numFree == |s.ch.q.desc| - 2
    && s.ch.q.avail.idx == 2 && s.ch.q.avail.last == 0 && s.ch.q.avail.slots[0] == 0 && s.ch.q.avail.slots[1] == 1
    && s.ch.q.used.idx == 0 && s.ch.q.used.last == 0
    && s.ch.pool.offset == 2 * |b| && s.ch.pool.mem[|b|] != 0 && s.seen == []
  }

  /** The second message is next to be read; the cursor is at the end. */
  ghost predicate NextToRead(s: TxSystem, b: seq<byte>)
    requires s.ch.Shape()
  {
    && SecondHalf(s, b) && s.ch.q.avail.last == 1 && s.ch.q.avail.slots[1] == 1 && |s.seen| == 1
    && s.ch.pool.offset == 2 * |b|
  }

  lemma CorruptRest(s: TxSystem, b: seq<byte>, c: seq<byte>)
    requires s.ch.Shape() && Text(b) && Text(c) && |b| == |c| && Full(s, b)
    ensures var es := [Take] + ([Complete(0, 0)] + Overwriting(c));
            && Possible(s, es) && !AllClear(s, es)
            && !(After(s, es).seen <= After(s, es).sent)
  {
    var s1 := s.Apply(Take);
    var s2 := s1.Apply(Complete(0, 0));
    CorruptRecycled(s2, b, c);
    Prepend(s1, Complete(0, 0), Overwriting(c));
    Prepend(s, Take, [Complete(0, 0)] + Overwriting(c));
  }

  lemma CorruptRecycled(s: TxSystem, b: seq<byte>, c: seq<byte>)
    requires s.ch.Shape() && Text(b) && Text(c) && |b| == |c| && NextToRead(s, b) && FirstHalf(s, |c|)
    requires s.ch.q.used.HasBuf() && s.ch.q.GetUsed().1 == 0 && s.ch.q.numFree < 0xFFFF
    requires s.ch.q.avail.idx == 2 && s.ch.pool.mem[|c|] != 0
    ensures Possible(s, Overwriting(c)) && !AllClear(s, Overwriting(c))
    ensures !(After(s, Overwriting(c)).seen <= After(s, Overwriting(c)).sent)
  {
    var s1 := s.Apply(Recycle);
    var s2 := CorruptLast(s1, b, c);
    RuinedRead(s2, b);
    Prepend(s2, Take, []);
    Prepend(s1, Transmit(c), [Take] + []);
    Prepend(s, Recycle, [Transmit(c)] + ([Take] + []));
  }

  lemma CorruptLast(s: TxSystem, b: seq<byte>, c: seq<byte>) returns (s': TxSystem)
    requires s.ch.Shape() && Text(c) && |b| == |c| && NextToRead(s, b)
    requires s.ch.q.HasFreeSlots() && s.ch.q.nextFree == 0 && s.ch.q.avail.idx == 2
    requires s.ch.pool.Zeroed(0, |c|) && s.ch.pool.mem[|c|] != 0
    ensures s.Enabled(Transmit(c)) && !s.Clear(Transmit(c)) && s' == s.Apply(Transmit(c))
    ensures s'.ch.Shape() && SecondHalf(s', b) && |s'.seen| == 1
    ensures s'.ch.q.avail.HasBuf() && s'.ch.q.GetAvail().1 == 1 && s'.ch.pool.mem[|b|] == 0
  {
    s' := s.Apply(Transmit(c));
    assert s.ch.pool.Alloc(|c|).1 == Some(s.ch.pool.base);
    assert s'.ch.pool.mem[|b|] == (c + [0])[|c|];
  }

  lemma RuinedRead(s: TxSystem, b: seq<byte>)
    requires s.ch.Shape() && SecondHalf(s, b) && |s.seen| == 1 && Text(b)
    requires s.ch.q.avail.HasBuf() && s.ch.q.GetAvail().1 == 1 && s.ch.pool.mem[|b|] == 0
    ensures !(s.Apply(Take).seen <= s.Apply(Take).sent)
  {
    assert s.DeviceRead(1)[0] == 0 != b[0];
    assert s.Apply(Take).seen[1] == s.DeviceRead(1);
  }

  lemma CorruptFirst(n: nat, pool: Pool, a: seq<byte>) returns (s': TxSystem)
    requires RingSize(n) && n >= 3 && FreshPool(pool) && Text(a) && pool.size == 2 * |a|
    ensures Start(n, pool).Enabled(Transmit(a)) && s' == Start(n, pool).Apply(Transmit(a))
    ensures s'.ch.Shape() && |s'.ch.q.desc| == n && s'.ch.q.nextFree == 1 && s'.ch.q.numFree == n - 1
    ensures FirstHalf(s', |a|) && s'.ch.q.desc[1].next == 2
    ensures s'.ch.q.avail.idx == 1 && s'.ch.q.avail.last == 0 && s'.ch.q.avail.slots[0] == 0
    ensures s'.ch.q.used.idx == 0 && s'.ch.q.used.last == 0 && s'.sent == [a] && s'.seen == []
    ensures s'.ch.pool.size == pool.size && s'.ch.pool.offset == |a| && s'.ch.pool.Zeroed(|a|, |a|)
  {
    s' := Start(n, pool).Apply(Transmit(a));
  }

  lemma CorruptSecond(s: TxSystem, b: seq<byte>) returns (s': TxSystem)
    requires s.ch.Shape() && FirstHalf(s, |b|) && s.ch.q.nextFree == 1 && s.ch.q.numFree == |s.ch.q.desc| - 1
    requires s.ch.q.avail.idx == 1 && s.ch.q.avail.last == 0 && s.ch.q.avail.slots[0] == 0
    requires s.ch.q.used.idx == 0 && s.ch.q.used.last == 0 && |s.sent| == 1 && s.seen == []
    requires Text(b) && s.ch.pool.size == 2 * |b| && s.ch.pool.offset == |b| && s.ch.pool.Zeroed(|b|, |b|)
    ensures s.Enabled(Transmit(b)) && s' == s.Apply(Transmit(b))
    ensures s'.ch.Shape() && Full(s', b)
  {
    s' := s.Apply(Transmit(b));
    assert s.ch.pool.Alloc(|b|).1 == Some(s.ch.pool.base + |b|);
    assert s'.ch.pool.mem[|b|] == (b + [0])[0];
  }
}
