/** The allocator without memory: a cursor and a set of intervals.  The pool, which
    keeps neither record but only looks for nonzero bytes, does the same over every
    run of well-behaved clients. */
module Arenas {
  import opened Machine
  import opened MemoryPools

  /** A request is granted exactly when there is a place for it that meets no live
      interval. */
  ghost predicate Grants<K(!new)>(size: nat, cursor: nat, live: map<K, Block>, data: seq<byte>) {
    && HasPlace(size, cursor, |data|)
    && forall k :: k in live ==> Apart(Block(Place(size, cursor, |data|), data), live[k])
  }

  datatype Arena = Arena(size: nat, cursor: nat, live: map<nat, Block>) {
    ghost function Apply(e: PoolEvent): Arena {
      match e
      case Fill(k, data) =>
        if Grants(size, cursor, live, data)
        then this.(cursor := Place(size, cursor, |data|) + |data|,
                   live := live[k := Block(Place(size, cursor, |data|), data)])
        else this
      case Release(k) => this.(live := live - {k})
    }
  }

  ghost function RunArena(a: Arena, es: seq<PoolEvent>): Arena
    decreases |es|
  {
    if es == [] then a else RunArena(a.Apply(es[0]), es[1..])
  }

  /** A region meets no live block exactly when it is zero. */
  lemma ZeroedIffApart<K(!new)>(p: Pool, live: map<K, Block>, b: Block)
    requires Accounted(p, live) && Text(b.data) && b.off + |b.data| <= p.size
    ensures p.Zeroed(b.off, |b.data|) <==> forall k :: k in live ==> Apart(b, live[k])
  {
    if p.Zeroed(b.off, |b.data|) {
      forall k | k in live
        ensures Apart(b, live[k])
      {
        ZeroedIsApart(p, live, b, k);
      }
    }
    if forall k :: k in live ==> Apart(b, live[k]) {
      forall i | b.off <= i < b.off + |b.data|
        ensures p.mem[i] == 0
      {
        InUseIffLive(p, live, i);
      }
    }
  }

  /** The scan for nonzero bytes decides just that. */
  lemma AllocIffGrants<K(!new)>(p: Pool, live: map<K, Block>, data: seq<byte>)
    requires Accounted(p, live) && Text(data)
    ensures p.Alloc(|data|).1.Some? <==> Grants(p.size, p.offset, live, data)
  {
    AllocExactly(p, |data|);
    if HasPlace(p.size, p.offset, |data|) {
      ZeroedIffApart(p, live, Block(Place(p.size, p.offset, |data|), data));
    }
  }

  /** What the arena sees of a pool. */
  function View(s: PoolSystem): Arena {
    Arena(s.pool.size, s.pool.offset, s.live)
  }

  lemma StepRefines(s: PoolSystem, e: PoolEvent)
    requires Accounted(s.pool, s.live) && s.Enabled(e)
    ensures View(s.Apply(e)) == View(s).Apply(e)
  {
    match e
    case Fill(k, data) =>
      AllocIffGrants(s.pool, s.live, data);
      AllocExactly(s.pool, |data|);
    case Release(k) =>
      FreeKeepsAccounts(s.pool, s.live, k);
      FreeExactly(s.pool, s.pool.base + s.live[k].off, |s.live[k].data|);
  }

  lemma {:induction false} RunRefines(s: PoolSystem, es: seq<PoolEvent>, s': PoolSystem)
    requires Accounted(s.pool, s.live) && PoolRun(s, es, s')
    ensures View(s') == RunArena(View(s), es)
    decreases |es|
  {
    if es != [] {
      StepRefines(s, es[0]);
      PoolStepKeepsAccounts(s, es[0]);
      RunRefines(s.Apply(es[0]), es[1..], s');
    }
  }

  /** Over every run from initialisation the pool grants what the arena grants, in the
      same places, and its cursor is where the arena's is. */
  lemma PoolRefinesArena(pool: Pool, es: seq<PoolEvent>, s': PoolSystem)
    requires FreshPool(pool) && PoolRun(PoolSystem(pool, map[]), es, s')
    ensures View(s') == RunArena(Arena(pool.size, 0, map[]), es)
  {
    RunRefines(PoolSystem(pool, map[]), es, s');
  }

  // ---------- one region after another ----------

  /** The intervals a run grants, in order. */
  ghost function Granted(a: Arena, es: seq<PoolEvent>): seq<Block>
    decreases |es|
  {
    if es == [] then []
    else (if es[0].Fill? && Grants(a.size, a.cursor, a.live, es[0].data)
          then [Block(Place(a.size, a.cursor, |es[0].data|), es[0].data)] else [])
         + Granted(a.Apply(es[0]), es[1..])
  }

  /** Each starts where the one before it ended, or at the base when it did not fit
      there, and lies in the pool. */
  ghost predicate Consecutive(bs: seq<Block>, size: nat, cursor: nat)
    decreases |bs|
  {
    bs == [] ||
    (&& (bs[0].off == cursor || (bs[0].off == 0 && cursor + |bs[0].data| > size))
     && bs[0].off + |bs[0].data| <= size
     && Consecutive(bs[1..], size, bs[0].off + |bs[0].data|))
  }

  lemma {:induction false} GrantedAreConsecutive(a: Arena, es: seq<PoolEvent>)
    requires a.cursor <= a.size
    ensures Consecutive(Granted(a, es), a.size, a.cursor)
    decreases |es|
  {
    if es != [] {
      var rest := Granted(a.Apply(es[0]), es[1..]);
      GrantedAreConsecutive(a.Apply(es[0]), es[1..]);
      if es[0].Fill? && Grants(a.size, a.cursor, a.live, es[0].data) {
        var b := Block(Place(a.size, a.cursor, |es[0].data|), es[0].data);
        assert ([b] + rest)[1..] == rest;
      } else {
        assert [] + rest == rest;
      }
    }
  }
}
