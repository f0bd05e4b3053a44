/** The circular buffer allocator: the only mark that a byte is in use is that
    it is not zero.  `Pool` is its state as a value, `MemoryPool` the object the
    driver updates in place.  Memory goes on past the pool, because `strcpy` may
    write its terminator there and a free is checked only for where it starts. */
module MemoryPools {
  import opened Machine

  datatype Pool = Pool(base: nat, size: nat, offset: nat, mem: seq<byte>) {
    predicate Shape() {
      |mem| > 2 * size && offset <= size
    }

    predicate Zeroed(off: nat, n: nat)
      requires off + n <= |mem|
    {
      forall i | off <= i < off + n :: mem[i] == 0
    }

    /** The allocated address, or `None` for the source's NULL. */
    function Alloc(n: nat): (Pool, Option<nat>)
      requires Shape()
    {
      if n > size then (this, None)
      else if offset + n <= size then
        if Zeroed(offset, n) then (this.(offset := offset + n), Some(base + offset)) else (this, None)
      else if n <= offset then
        if Zeroed(0, n) then (this.(offset := n), Some(base)) else (this, None)
      else (this, None)
    }

    predicate Freeable(ptr: nat, n: nat) {
      base <= ptr < base + size && n <= size
    }

    function Free(ptr: nat, n: nat): (Pool, bool)
      requires Shape()
    {
      if !Freeable(ptr, n) then (this, false)
      else (this.(mem := Cleared(mem, ptr - base, n)), true)
    }

    /** `strcpy`: the bytes of the string, then the terminating zero. */
    function StrCpy(ptr: nat, text: seq<byte>): Pool
      requires base <= ptr && ptr - base + |text| < |mem|
    {
      this.(mem := Patched(mem, ptr - base, text + [0]))
    }

    /** The `n` bytes at address `ptr`, for addresses inside the pool. */
    function Read(ptr: nat, n: nat): seq<byte> {
      if base <= ptr && ptr - base + n <= |mem| then mem[ptr - base..ptr - base + n] else []
    }
  }

  function Cleared(mem: seq<byte>, off: nat, n: nat): seq<byte> {
    seq(|mem|, i requires 0 <= i < |mem| => if off <= i < off + n then 0 else mem[i])
  }

  function Patched(mem: seq<byte>, off: nat, bytes: seq<byte>): seq<byte>
    requires off + |bytes| <= |mem|
  {
    seq(|mem|, i requires 0 <= i < |mem| => if off <= i < off + |bytes| then bytes[i - off] else mem[i])
  }

  // ---------- what clients hold ----------

  /** A region handed out by the allocator, and what its owner wrote there. */
  datatype Block = Block(off: nat, data: seq<byte>) {
    predicate Covers(i: int) {
      off <= i < off + |data|
    }
  }

  predicate Text(data: seq<byte>) {
    data != [] && forall i | 0 <= i < |data| :: data[i] != 0
  }

  predicate Apart(a: Block, b: Block) {
    a.off + |a.data| <= b.off || b.off + |b.data| <= a.off
  }

  /** The block lies in the pool and its bytes are what its owner wrote. */
  ghost predicate Intact(p: Pool, b: Block)
    requires p.Shape()
  {
    Text(b.data) && b.off + |b.data| <= p.size &&
    forall i {:trigger b.data[i]} | 0 <= i < |b.data| :: p.mem[b.off + i] == b.data[i]
  }

  ghost predicate Covered<K(!new)>(live: map<K, Block>, i: int) {
    exists k :: k in live && live[k].Covers(i)
  }

  /** Live blocks are intact and pairwise disjoint, and every byte in use belongs
      to one of them. */
  ghost predicate Accounted<K(!new)>(p: Pool, live: map<K, Block>) {
    p.Shape() &&
    (forall k :: k in live ==> Intact(p, live[k])) &&
    (forall j, k :: j in live && k in live && j != k ==> Apart(live[j], live[k])) &&
    (forall i {:trigger Covered(live, i)} :: 0 <= i < p.size && p.mem[i] != 0 ==> Covered(live, i))
  }

  lemma IntactReadsBack(p: Pool, b: Block)
    requires p.Shape() && Intact(p, b)
    ensures p.Read(p.base + b.off, |b.data|) == b.data
  {
  }

  lemma LiveByteNonzero(p: Pool, b: Block, i: nat)
    requires p.Shape() && Intact(p, b) && b.Covers(i)
    ensures p.mem[i] != 0
  {
    assert p.mem[b.off + (i - b.off)] == b.data[i - b.off];
  }

  /** A byte is in use exactly when a live block covers it. */
  lemma InUseIffLive<K(!new)>(p: Pool, live: map<K, Block>, i: nat)
    requires Accounted(p, live) && i < p.size
    ensures p.mem[i] != 0 <==> Covered(live, i)
  {
    forall k | k in live && live[k].Covers(i)
      ensures p.mem[i] != 0
    {
      LiveByteNonzero(p, live[k], i);
    }
  }

  /** A successful allocation is inside the pool and was free throughout. */
  lemma AllocIsFree(p: Pool, n: nat)
    requires p.Shape() && p.Alloc(n).1.Some?
    ensures var (p', ptr) := p.Alloc(n);
            && p'.Shape() && p'.mem == p.mem && p'.size == p.size && p'.base == p.base
            && p.base <= ptr.value && ptr.value - p.base + n <= p.size
            && p.Zeroed(ptr.value - p.base, n)
  {
  }

  /** The one place where the allocator looks: at the cursor if the request fits
      there, and otherwise at the start of the pool. */
  function Place(size: nat, cursor: nat, n: nat): (at: nat) {
    if cursor + n <= size then cursor else 0
  }

  /** From the start of the pool only what lies before the cursor can be had. */
  predicate HasPlace(size: nat, cursor: nat, n: nat) {
    cursor + n <= size || n <= cursor
  }

  /** A request succeeds exactly when that place exists and is zero; it is then what
      is given, and the cursor goes to its end.  A failure changes nothing. */
  lemma AllocExactly(p: Pool, n: nat)
    requires p.Shape()
    ensures var ((p', ptr), at) := (p.Alloc(n), Place(p.size, p.offset, n));
            && (ptr.Some? <==> HasPlace(p.size, p.offset, n) && at + n <= p.size && p.Zeroed(at, n))
            && (ptr.Some? ==> ptr.value == p.base + at && p' == p.(offset := at + n))
            && (ptr.None? ==> p' == p)
  {
  }

  /** A free succeeds exactly when the region starts in the pool and is no longer than
      it; then just those bytes become zero, and otherwise nothing changes. */
  lemma FreeExactly(p: Pool, ptr: nat, n: nat)
    requires p.Shape()
    ensures var (p', ok) := p.Free(ptr, n);
            && (ok <==> p.base <= ptr < p.base + p.size && n <= p.size)
            && (!ok ==> p' == p)
            && (ok ==> p'.(mem := p.mem) == p && |p'.mem| == |p.mem|)
            && (ok ==> forall i | 0 <= i < |p.mem| ::
                         p'.mem[i] == if ptr <= p.base + i < ptr + n then 0 else p.mem[i])
  {
  }

  /** A region that is zero throughout meets no live block. */
  lemma ZeroedIsApart<K(!new)>(p: Pool, live: map<K, Block>, b: Block, k: K)
    requires Accounted(p, live) && Text(b.data) && b.off + |b.data| <= p.size && k in live
    requires p.Zeroed(b.off, |b.data|)
    ensures Apart(b, live[k])
  {
    var c := live[k];
    assert c.data != [];
    if !Apart(b, c) {
      LiveByteNonzero(p, c, if b.off <= c.off then c.off else b.off);
    }
  }

  /** `p'` is `p` with the bytes of `b` written, inside the pool. */
  ghost predicate Filled(p: Pool, b: Block, p': Pool) {
    p.Shape() && p'.Shape() && p'.size == p.size &&
    forall i {:trigger p'.mem[i]} | 0 <= i < p.size :: p'.mem[i] == if b.Covers(i) then b.data[i - b.off] else p.mem[i]
  }

  /** Filling a zero region with a string keeps every byte accounted for. */
  lemma FillKeepsAccounts<K(!new)>(p: Pool, live: map<K, Block>, k: K, b: Block, p': Pool)
    requires Accounted(p, live) && k !in live && Text(b.data) && b.off + |b.data| <= p.size
    requires p.Zeroed(b.off, |b.data|) && Filled(p, b, p')
    ensures Accounted(p', live[k := b])
  {
    var live' := live[k := b];
    forall j | j in live'
      ensures Intact(p', live'[j])
      ensures j != k ==> Apart(live'[j], b)
    {
      if j != k {
        ZeroedIsApart(p, live, b, j);
      }
    }
    forall i | 0 <= i < p'.size && p'.mem[i] != 0
      ensures Covered(live', i)
    {
      if b.Covers(i) {
        assert live'[k].Covers(i);
      } else {
        assert Covered(live, i);
        var j :| j in live && live[j].Covers(i);
        assert live'[j].Covers(i);
      }
    }
  }

  /** Freeing a live block succeeds, clears only its own bytes, and leaves the
      others accounted for. */
  lemma FreeKeepsAccounts<K(!new)>(p: Pool, live: map<K, Block>, k: K)
    requires Accounted(p, live) && k in live
    ensures var (p', ok) := p.Free(p.base + live[k].off, |live[k].data|);
            ok && p'.base == p.base && p'.size == p.size && Accounted(p', live - {k})
  {
    var b := live[k];
    assert b.data != [];
    var (p', ok) := p.Free(p.base + b.off, |b.data|);
    var live' := live - {k};
    forall j | j in live'
      ensures Intact(p', live'[j])
    {
      assert Apart(live[j], b) && Intact(p, live[j]);
    }
    forall i | 0 <= i < p'.size && p'.mem[i] != 0
      ensures Covered(live', i)
    {
      assert Covered(live, i);
      var j :| j in live && live[j].Covers(i);
      assert live'[j].Covers(i);
    }
  }

  /** Every successful free of `n` bytes at `ptr` leaves the memory past the pool alone. */
  ghost predicate FreesInside(base: nat, size: nat, ptr: nat, n: nat) {
    forall p: Pool | p.Shape() && p.base == base && p.size == size ::
      p.Free(ptr, n).0.mem[size..] == p.mem[size..]
  }

  /** A region the checks let through is freed within the pool, whatever memory
      holds, exactly when it ends there; the checks look only at where it starts. */
  lemma FreesInsideIff(base: nat, size: nat, ptr: nat, n: nat)
    requires base <= ptr < base + size && n <= size
    ensures FreesInside(base, size, ptr, n) <==> ptr - base + n <= size
  {
    if ptr - base + n <= size {
      forall p: Pool | p.Shape() && p.base == base && p.size == size
        ensures p.Free(ptr, n).0.mem[size..] == p.mem[size..]
      {
        ClearedBelow(p.mem, ptr - base, n, size);
      }
    } else {
      var p := Pool(base, size, 0, seq(2 * size + 1, _ => 1));
      ClearedThrough(p.mem, ptr - base, n, size);
      assert !FreesInside(base, size, ptr, n);
    }
  }

  lemma ClearedBelow(mem: seq<byte>, off: nat, n: nat, at: nat)
    requires off + n <= at <= |mem|
    ensures Cleared(mem, off, n)[at..] == mem[at..]
  {
  }

  lemma ClearedThrough(mem: seq<byte>, off: nat, n: nat, at: nat)
    requires off < at < off + n && at < |mem| && mem[at] != 0
    ensures Cleared(mem, off, n)[at..] != mem[at..]
  {
    assert Cleared(mem, off, n)[at..][0] == 0 != mem[at..][0];
  }

  // ---------- runs of well-behaved clients ----------

  /** A client asks for room for a string and fills it at once, or gives back
      exactly what it was given. */
  datatype PoolEvent = Fill(k: nat, data: seq<byte>) | Release(k: nat)

  datatype PoolSystem = PoolSystem(pool: Pool, live: map<nat, Block>) {
    predicate Enabled(e: PoolEvent) {
      match e
      case Fill(k, data) => k !in live && Text(data)
      case Release(k) => k in live
    }

    function Apply(e: PoolEvent): PoolSystem
      requires pool.Shape() && Enabled(e)
    {
      match e
      case Fill(k, data) => FillAt(k, data)
      case Release(k) => PoolSystem(pool.Free(pool.base + live[k].off, |live[k].data|).0, live - {k})
    }

    function FillAt(k: nat, data: seq<byte>): PoolSystem
      requires pool.Shape()
    {
      var (p, ptr) := pool.Alloc(|data|);
      if ptr.None? then this
      else PoolSystem(p.(mem := Patched(p.mem, ptr.value - p.base, data)),
                      live[k := Block(ptr.value - p.base, data)])
    }
  }

  predicate PoolRun(s: PoolSystem, es: seq<PoolEvent>, s': PoolSystem)
    requires s.pool.Shape()
    decreases |es|
  {
    if es == [] then s == s'
    else s.Enabled(es[0]) && s.Apply(es[0]).pool.Shape() && PoolRun(s.Apply(es[0]), es[1..], s')
  }

  lemma PatchFills(p: Pool, b: Block, offset: nat)
    requires p.Shape() && b.off + |b.data| <= p.size && offset <= p.size
    ensures Filled(p, b, p.(offset := offset, mem := Patched(p.mem, b.off, b.data)))
  {
  }

  lemma FillStepKeepsAccounts(s: PoolSystem, k: nat, data: seq<byte>)
    requires Accounted(s.pool, s.live) && k !in s.live && Text(data)
    ensures Accounted(s.FillAt(k, data).pool, s.FillAt(k, data).live)
  {
    if s.pool.Alloc(|data|).1.Some? {
      AllocIsFree(s.pool, |data|);
      var (p, ptr) := s.pool.Alloc(|data|);
      var b := Block(ptr.value - s.pool.base, data);
      PatchKeepsAccounts(s.pool, s.live, k, b, p.offset);
      var p' := s.pool.(offset := p.offset, mem := Patched(s.pool.mem, b.off, data));
      assert s.FillAt(k, data) == PoolSystem(p', s.live[k := b]);
    }
  }

  lemma PatchKeepsAccounts(p: Pool, live: map<nat, Block>, k: nat, b: Block, offset: nat)
    requires Accounted(p, live) && k !in live && Text(b.data) && b.off + |b.data| <= p.size && offset <= p.size
    requires p.Zeroed(b.off, |b.data|)
    ensures Accounted(p.(offset := offset, mem := Patched(p.mem, b.off, b.data)), live[k := b])
  {
    PatchFills(p, b, offset);
    FillKeepsAccounts(p, live, k, b, p.(offset := offset, mem := Patched(p.mem, b.off, b.data)));
  }

  lemma PoolStepKeepsAccounts(s: PoolSystem, e: PoolEvent)
    requires Accounted(s.pool, s.live) && s.Enabled(e)
    ensures Accounted(s.Apply(e).pool, s.Apply(e).live)
  {
    match e
    case Fill(k, data) => FillStepKeepsAccounts(s, k, data);
    case Release(k) => FreeKeepsAccounts(s.pool, s.live, k);
  }

  /** Live regions lie inside the pool, hold what was written, share no byte, and
      every other byte is free. */
  ghost predicate Safe<K(!new)>(p: Pool, live: map<K, Block>) {
    (forall k :: k in live ==>
       && live[k].off + |live[k].data| <= p.size
       && p.Read(p.base + live[k].off, |live[k].data|) == live[k].data) &&
    (forall j, k, i :: j in live && k in live && j != k && live[j].Covers(i) ==> !live[k].Covers(i)) &&
    (forall i {:trigger Covered(live, i)} :: 0 <= i < p.size ==> i < |p.mem| && (p.mem[i] != 0 <==> Covered(live, i)))
  }

  lemma AccountedIsSafe<K(!new)>(p: Pool, live: map<K, Block>)
    requires Accounted(p, live)
    ensures Safe(p, live)
  {
    forall k | k in live
      ensures live[k].off + |live[k].data| <= p.size
      ensures p.Read(p.base + live[k].off, |live[k].data|) == live[k].data
    {
      IntactReadsBack(p, live[k]);
    }
    forall j, k, i | j in live && k in live && j != k && live[j].Covers(i)
      ensures !live[k].Covers(i)
    {
      assert Apart(live[j], live[k]);
    }
    forall i | 0 <= i < p.size
      ensures p.mem[i] != 0 <==> Covered(live, i)
    {
      InUseIffLive(p, live, i);
    }
  }

  lemma {:induction false} PoolRunKeepsAccounts(s: PoolSystem, es: seq<PoolEvent>, s': PoolSystem)
    requires Accounted(s.pool, s.live) && PoolRun(s, es, s')
    ensures Accounted(s'.pool, s'.live)
    decreases |es|
  {
    if es != [] {
      PoolStepKeepsAccounts(s, es[0]);
      PoolRunKeepsAccounts(s.Apply(es[0]), es[1..], s');
    }
  }

  /** What `virtio_memory_pool_init` leaves. */
  predicate FreshPool(pool: Pool) {
    pool.Shape() && pool.offset == 0 && pool.Zeroed(0, pool.size)
  }

  /** Pool safety over every run from initialisation: live regions stay inside the
      pool, pairwise disjoint and unaltered, and everything else is zero. */
  lemma PoolRunsAreSafe(pool: Pool, es: seq<PoolEvent>, s': PoolSystem)
    requires FreshPool(pool) && PoolRun(PoolSystem(pool, map[]), es, s')
    ensures Safe(s'.pool, s'.live)
  {
    PoolRunKeepsAccounts(PoolSystem(pool, map[]), es, s');
    AccountedIsSafe(s'.pool, s'.live);
  }

  /** Every byte in use lies in a live block, which need not be intact. */
  ghost predicate Tidy<K(!new)>(p: Pool, live: map<K, Block>) {
    p.Shape() && forall i {:trigger Covered(live, i)} :: 0 <= i < p.size && p.mem[i] != 0 ==> Covered(live, i)
  }

  /** With nothing live the pool is all zero, and a request succeeds exactly when
      it fits after the cursor or before it. */
  lemma EmptyPoolServes<K(!new)>(p: Pool, live: map<K, Block>, n: nat)
    requires Tidy(p, live) && live.Keys == {}
    ensures p.Zeroed(0, p.size)
    ensures p.Alloc(n).1.Some? <==> n <= p.size - p.offset || n <= p.offset
    ensures 2 * n <= p.size ==> p.Alloc(n).1.Some?
  {
    forall i | 0 <= i < p.size
      ensures p.mem[i] == 0
    {
      assert forall k :: k in live ==> k in live.Keys;
      assert !Covered(live, i);
    }
  }

  // ---------- the object ----------

  class MemoryPool {
    const base: nat
    const size: nat
    const mem: array<byte>
    var offset: nat

    ghost predicate Valid()
      reads this
    {
      mem.Length > 2 * size && offset <= size
    }

    function State(): (p: Pool)
      reads this, mem
    {
      Pool(base, size, offset, mem[..])
    }

    /** `virtio_memory_pool_init` over existing memory of arbitrary contents. */
    constructor (base: nat, size: nat, mem: array<byte>)
      requires mem.Length > 2 * size
      modifies mem
      ensures Valid() && this.base == base && this.size == size && this.mem == mem
      ensures State().offset == 0 && State().Zeroed(0, size)
      ensures mem[size..] == old(mem[size..])
    {
      this.base, this.size, this.mem, this.offset := base, size, mem, 0;
      new;
      var i := 0;
      while i < size
        invariant 0 <= i <= size
        invariant offset == 0
        invariant forall j | 0 <= j < i :: mem[j] == 0
        invariant mem[size..] == old(mem[size..])
      {
        mem[i] := 0;
        i := i + 1;
      }
    }

    /** The scan shared by the two ways of allocating. */
    method RangeIsFree(off: nat, n: nat) returns (free: bool)
      requires Valid() && off + n <= size
      ensures free <==> State().Zeroed(off, n)
    {
      var i := 0;
      while i < n
        invariant 0 <= i <= n
        invariant forall j | off <= j < off + i :: mem[j] == 0
      {
        if mem[off + i] != 0 {
          return false;
        }
        i := i + 1;
      }
      return true;
    }

    method Alloc(n: nat) returns (ptr: Option<nat>)
      requires Valid()
      modifies `offset
      ensures Valid()
      ensures (State(), ptr) == old(State()).Alloc(n)
    {
      if n > size {
        return None;
      }
      if offset + n <= size {
        var free := RangeIsFree(offset, n);
        if !free {
          return None;
        }
        offset := offset + n;
        return Some(base + offset - n);
      }
      if n <= offset {
        var free := RangeIsFree(0, n);
        if !free {
          return None;
        }
        offset := 0;
        offset := offset + n;
        return Some(base);
      }
      return None;
    }

    /** The checks do not cover the end of the region, which may lie past the pool. */
    method Free(ptr: nat, n: nat) returns (ok: bool)
      requires Valid()
      modifies mem
      ensures Valid()
      ensures (State(), ok) == old(State()).Free(ptr, n)
    {
      if ptr < base || ptr >= base + size {
        return false;
      }
      if n > size {
        return false;
      }
      var off := ptr - base;
      ghost var was := mem[..];
      var i := 0;
      while i < n
        invariant 0 <= i <= n
        invariant mem[..] == Cleared(was, off, i)
      {
        mem[off + i] := 0;
        i := i + 1;
      }
      return true;
    }

    /** Bytes stored from `ptr` on, inside pool memory. */
    method Store(ptr: nat, bytes: seq<byte>)
      requires Valid() && base <= ptr && ptr - base + |bytes| <= mem.Length
      modifies mem
      ensures Valid()
      ensures State() == old(State()).(mem := Patched(old(mem[..]), ptr - base, bytes))
    {
      var off := ptr - base;
      ghost var was := mem[..];
      var i := 0;
      while i < |bytes|
        invariant 0 <= i <= |bytes|
        invariant mem[..] == Patched(was, off, bytes[..i])
      {
        mem[off + i] := bytes[i];
        i := i + 1;
      }
      assert bytes[..i] == bytes;
    }

    /** `strcpy(ptr, text)` into pool memory. */
    method StrCpy(ptr: nat, text: seq<byte>)
      requires Valid() && base <= ptr && ptr - base + |text| < mem.Length
      modifies mem
      ensures Valid()
      ensures State() == old(State()).StrCpy(ptr, text)
    {
      Store(ptr, text);
      mem[ptr - base + |text|] := 0;
    }
  }
}
