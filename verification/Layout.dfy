/** Where a virtqueue's parts lie in the shared memory: descriptor table, available
    ring and used ring, each rounded up to whole pages, and then the memory pool. */
module Layout {
  const PAGE_SIZE := 0x1000

  function RoundUp(x: nat): (r: nat)
    ensures x <= r < x + PAGE_SIZE && r % PAGE_SIZE == 0
  {
    (x + PAGE_SIZE - 1) / PAGE_SIZE * PAGE_SIZE
  }

  function DescSize(n: nat): nat { 16 * n }

  function AvailSize(n: nat): nat { RoundUp(6 + 2 * n) }

  function UsedSize(n: nat): nat { RoundUp(6 + 8 * n) }

  function RingsSize(n: nat): nat { DescSize(n) + AvailSize(n) + UsedSize(n) }

  function PoolSize(n: nat): nat { 64 * n }

  function TotalSize(n: nat): nat { RingsSize(n) + PoolSize(n) }

  datatype Areas = Areas(desc: nat, avail: nat, used: nat, pool: nat)

  function AreasAt(base: nat, n: nat): (a: Areas) {
    Areas(base, base + DescSize(n), base + DescSize(n) + AvailSize(n), base + RingsSize(n))
  }

  /** The four areas of a queue of `n` entries follow one another without overlap, each
      long enough for its structure, and fill the room set aside for the queue. */
  lemma AreasFit(base: nat, n: nat)
    ensures var a := AreasAt(base, n);
            && a.desc == base && a.desc + 16 * n <= a.avail
            && a.avail + 4 + 2 * n <= a.used && a.used + 4 + 8 * n <= a.pool
            && a.pool + 64 * n == base + TotalSize(n)
  {
  }

  lemma Multiple(m: nat)
    ensures m * 16 % 2 == 0 && m * 16 % 4 == 0
  {
    assert m * 16 == 2 * (m * 8) == 4 * (m * 4);
  }

  /** From a base of that alignment the areas are aligned as section 2.7 of the VIRTIO
      specification (v1.3) asks: to 16, 2 and 4 bytes. */
  lemma AreasAligned(base: nat, n: nat)
    requires base % 16 == 0
    ensures var a := AreasAt(base, n);
            a.desc % 16 == 0 && a.avail % 2 == 0 && a.used % 4 == 0
  {
    Multiple(base / 16 + n);
    Multiple(base / 16 + n + AvailSize(n) / PAGE_SIZE * 0x100);
  }
}
