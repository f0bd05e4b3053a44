/** One virtqueue ring: `VIRTQ_SIZE` slots, the producer's free-running 16-bit
    index and the consumer's own 16-bit position.  Both the available ring and
    the used ring have this shape, with the producer and consumer swapped. */
module Rings {
  import opened Machine

  /** Queue sizes for which 16-bit indices taken modulo the size work. */
  predicate RingSize(n: int) {
    0 < n < 0x1_0000 && Slot(0x1_0000, n) == 0
  }

  datatype Ring<T> = Ring(slots: seq<T>, idx: u16, last: u16) {
    predicate Shape() {
      RingSize(|slots|)
    }

    /** `idx != last`: the consumer has something to take. */
    predicate HasBuf() {
      idx != last
    }

    /** Entries published and not yet taken. */
    function Count(): nat {
      (idx - last) % 0x1_0000
    }

    /** The queue that the ring stands for, oldest entry first. */
    function Contents(): seq<T>
      requires |slots| > 0
    {
      seq(Count(), i requires 0 <= i => slots[Slot(last + i, |slots|)])
    }

    function Push(x: T): Ring<T>
      requires |slots| > 0
    {
      Ring(slots[Slot(idx, |slots|) := x], Inc16(idx), last)
    }

    /** The entry at the consumer's position, which then moves on. */
    function Peek(): T
      requires |slots| > 0
    {
      slots[Slot(last, |slots|)]
    }

    function Pop(): Ring<T> {
      this.(last := Inc16(last))
    }
  }

  /** `x % n`, written by repeated subtraction so that reasoning about slots
      stays linear; `SlotIsRemainder` says it is the C operator. */
  function Slot(x: nat, n: nat): (k: nat)
    requires n > 0
    ensures k < n && (x < n ==> k == x)
    decreases x
  {
    if x < n then x else Slot(x - n, n)
  }

  lemma {:induction false} SlotIsRemainder(x: nat, n: nat)
    requires n > 0
    ensures Slot(x, n) == x % n
    decreases x
  {
    if x >= n {
      SlotIsRemainder(x - n, n);
      var q, r := (x - n) / n, (x - n) % n;
      assert x == n * (q + 1) + r;
      Remainder(x, q + 1, r, n);
    }
  }

  lemma Remainder(x: int, q: int, r: nat, n: nat)
    requires r < n && x == n * q + r
    ensures x % n == r
  {
    var q', r' := x / n, x % n;
    assert n * q + r == n * q' + r';
    assert n * (q - q') == r' - r by {
      assert n * (q - q') == n * q - n * q';
    }
    MulAtLeast(n, q - q');
  }

  lemma MulAtLeast(n: nat, m: int)
    ensures m >= 1 ==> n * m >= n
    ensures m <= -1 ==> n * m + n <= 0
  {
    assert n * m == n * (m - 1) + n == n * (m + 1) - n;
  }

  // ---------- arithmetic of a size that divides 65536 ----------

  lemma {:induction false} SlotPeriod(x: nat, y: nat, n: nat)
    requires n > 0 && Slot(y, n) == 0
    ensures Slot(x + y, n) == Slot(x, n)
    decreases y
  {
    if y >= n {
      SlotPeriod(x, y - n, n);
    }
  }

  /** Wrapping at 65536 does not change the slot. */
  lemma SlotOfWrapped(x: nat, n: nat)
    requires RingSize(n) && x >= 0x1_0000
    ensures Slot(x - 0x1_0000, n) == Slot(x, n)
  {
    SlotPeriod(x - 0x1_0000, 0x1_0000, n);
  }

  lemma {:induction false} SlotsDiffer(a: nat, b: nat, n: nat)
    requires a < b < a + n
    ensures Slot(a, n) != Slot(b, n)
    decreases a
  {
    if a >= n {
      SlotsDiffer(a - n, b - n, n);
    } else if b >= n {
      assert Slot(b - n, n) == b - n;
    }
  }

  lemma SizeAtMostHalf(n: int)
    requires RingSize(n)
    ensures n <= 0x8000
  {
  }

  // ---------- the ring is a first-in first-out queue ----------

  /** The distance between two free-running indices. */
  lemma CountIs<T>(r: Ring<T>)
    ensures r.Count() == if r.idx >= r.last then r.idx - r.last else r.idx + 0x1_0000 - r.last
  {
  }

  lemma CountSteps<T>(r: Ring<T>)
    ensures r.HasBuf() <==> r.Count() > 0
    ensures Inc16(r.idx) != r.last ==> (Inc16(r.idx) - r.last) % 0x1_0000 == r.Count() + 1
    ensures r.HasBuf() ==> r.Pop().Count() == r.Count() - 1
  {
    CountIs(r);
    CountIs(r.Pop());
    CountIs(r.(idx := Inc16(r.idx)));
  }

  /** The slot the producer writes is the one `Count` places after the consumer. */
  lemma ProducerSlot<T>(r: Ring<T>)
    requires r.Shape()
    ensures Slot(r.idx, |r.slots|) == Slot(r.last + r.Count(), |r.slots|)
  {
    if r.last + r.Count() >= 0x1_0000 {
      SlotOfWrapped(r.last + r.Count(), |r.slots|);
    }
  }

  lemma ProducerSlotIsFree<T>(r: Ring<T>, i: nat)
    requires r.Shape() && i < r.Count() < i + |r.slots|
    ensures Slot(r.last + i, |r.slots|) != Slot(r.idx, |r.slots|)
  {
    ProducerSlot(r);
    SlotsDiffer(r.last + i, r.last + r.Count(), |r.slots|);
  }

  lemma PushCount<T>(r: Ring<T>, x: T)
    requires r.Shape() && r.Count() <= |r.slots|
    ensures r.Push(x).Count() == r.Count() + 1
  {
    SizeAtMostHalf(|r.slots|);
  }

  /** Publishing appends, as long as fewer entries than slots are outstanding.
      The code never checks that; its callers must guarantee it. */
  lemma PushAppends<T>(r: Ring<T>, x: T)
    requires r.Shape() && r.Count() < |r.slots|
    ensures r.Push(x).Shape()
    ensures r.Push(x).Contents() == r.Contents() + [x]
  {
    PushCount(r, x);
    ProducerSlot(r);
    forall i | 0 <= i < r.Count()
      ensures r.Push(x).Contents()[i] == r.Contents()[i]
    {
      ProducerSlotIsFree(r, i);
    }
  }

  /** Taking returns the oldest outstanding entry and removes exactly that one. */
  lemma PopRemoves<T>(r: Ring<T>)
    requires r.Shape() && r.HasBuf()
    ensures r.Contents() != [] && r.Peek() == r.Contents()[0]
    ensures r.Pop().Shape() && r.Pop().Contents() == r.Contents()[1..]
  {
    CountSteps(r);
    forall i | 0 <= i < r.Count() - 1
      ensures r.Pop().Contents()[i] == r.Contents()[1..][i]
    {
      if r.last == 0xFFFF {
        SlotOfWrapped(r.last + 1 + i, |r.slots|);
      }
    }
  }

  /** Publishing onto a ring whose slots are all outstanding overwrites the
      oldest entry, which the consumer would take next. */
  lemma PushOnFullOverwrites<T>(r: Ring<T>, x: T)
    requires r.Shape() && r.Count() == |r.slots|
    ensures r.Push(x).Contents() == [x] + r.Contents()[1..] + [x]
  {
    var c := r.Count();
    PushCount(r, x);
    ProducerSlot(r);
    assert Slot(r.last + c, c) == Slot(r.last, c);
    forall i | 0 < i < c
      ensures r.Push(x).Contents()[i] == r.Contents()[i]
    {
      ProducerSlotIsFree(r, i);
    }
  }

  /** So the bound is needed: with at most `VIRTQ_SIZE` entries outstanding,
      publishing appends exactly when a slot is free (or the entry it destroys
      was the same value). */
  lemma PushAppendsIff<T>(r: Ring<T>, x: T)
    requires r.Shape() && r.Count() <= |r.slots|
    ensures r.Push(x).Contents() == r.Contents() + [x]
            <==> r.Count() < |r.slots| || r.Contents()[0] == x
  {
    if r.Count() < |r.slots| {
      PushAppends(r, x);
    } else {
      PushOnFullOverwrites(r, x);
      var c := r.Contents();
      assert c == [c[0]] + c[1..];
      assert ([x] + c[1..] + [x])[0] == x && (c + [x])[0] == c[0];
    }
  }

  // ---------- refinement over whole runs ----------

  datatype Op<T> = Publish(x: T) | Consume

  /** The run is one the two parties may perform: at most `size` entries are
      outstanding, and nobody takes from an empty ring. */
  predicate Admissible<T>(queue: seq<T>, ops: seq<Op<T>>, size: nat)
    decreases |ops|
  {
    ops == [] ||
    match ops[0]
    case Publish(x) => |queue| < size && Admissible(queue + [x], ops[1..], size)
    case Consume => queue != [] && Admissible(queue[1..], ops[1..], size)
  }

  function RunRing<T>(r: Ring<T>, ops: seq<Op<T>>): (Ring<T>, seq<T>)
    requires |r.slots| > 0
    decreases |ops|
  {
    if ops == [] then (r, []) else
    match ops[0]
    case Publish(x) => RunRing(r.Push(x), ops[1..])
    case Consume => var (r', out) := RunRing(r.Pop(), ops[1..]); (r', [r.Peek()] + out)
  }

  function RunFifo<T>(queue: seq<T>, ops: seq<Op<T>>): (seq<T>, seq<T>)
    decreases |ops|
  {
    if ops == [] then (queue, []) else
    match ops[0]
    case Publish(x) => RunFifo(queue + [x], ops[1..])
    case Consume =>
      if queue == [] then RunFifo(queue, ops[1..])
      else var (q', out) := RunFifo(queue[1..], ops[1..]); (q', [queue[0]] + out)
  }

  /** Over every admissible run, however often the 16-bit indices wrap, the ring
      hands out exactly what an unbounded queue would, in the same order. */
  lemma {:induction false} RingRefinesFifo<T>(r: Ring<T>, ops: seq<Op<T>>)
    requires r.Shape() && Admissible(r.Contents(), ops, |r.slots|)
    ensures var (r', out) := RunRing(r, ops);
            r'.Shape() && (r'.Contents(), out) == RunFifo(r.Contents(), ops)
    decreases |ops|
  {
    if ops != [] {
      match ops[0]
      case Publish(x) =>
        PushAppends(r, x);
        RingRefinesFifo(r.Push(x), ops[1..]);
      case Consume =>
        CountSteps(r);
        PopRemoves(r);
        RingRefinesFifo(r.Pop(), ops[1..]);
    }
  }
}
