/** The AArch64 translation tables: the assembler's counted loops lay them out, and
    the processor's four-level walk reads them back. */
module PageTables {
  const PAGE: nat := 0x1000
  const BLOCK: nat := 0x20_0000
  const FOUR_GIB: nat := 0x1_0000_0000
  const VA_END: nat := 0x1_0000_0000_0000

  const PTE_SUPERPAGE: nat := 0x1
  const PTE_TABLE: nat := 0x3
  /** Attribute index 1 or 2, inner shareable, access flag set. */
  const PTE_MEM_FLAGS: nat := 0x704
  const PTE_DEV_FLAGS: nat := 0x708

  /** The eight-byte words from `l2_page_tables` to the end of the root table: four
      pages of level 2, one of level 1 and one of level 0. */
  type Image = seq<nat>

  const L2_WORDS: nat := 2048
  const L1_START: nat := L2_WORDS
  const ROOT_START: nat := L2_WORDS + 512
  const WORDS: nat := L2_WORDS + 1024

  // ---------- laying the tables out ----------

  /** Entry `k` of level 2: block `k`, normal memory from block `lo` to block `hi`. */
  function BlockEntry(k: nat, lo: nat, hi: nat): (w: nat) {
    PTE_SUPERPAGE + (if lo <= k < hi then PTE_MEM_FLAGS else PTE_DEV_FLAGS) + k * BLOCK
  }

  /** The image assembled at address `at`, word by word. */
  ghost predicate LaidOut(image: Image, base: nat, size: nat, at: nat) {
    && |image| == WORDS
    && (forall k | 0 <= k < L2_WORDS :: image[k] == BlockEntry(k, base / BLOCK, base / BLOCK + size / BLOCK))
    && (forall k | L1_START <= k < ROOT_START ::
          image[k] == if k < L1_START + 4 then PTE_TABLE + at + PAGE * (k - L1_START) else 0)
    && (forall k | ROOT_START <= k < WORDS ::
          image[k] == if k == ROOT_START then PTE_TABLE + at + 8 * L1_START else 0)
  }

  /** One counted loop: `count` entries with the given flags, from address `addr` on. */
  method Repeat(image: Image, addr: nat, count: nat, flags: nat) returns (image': Image, addr': nat)
    requires addr == |image| * BLOCK
    ensures addr' == |image'| * BLOCK == addr + count * BLOCK
    ensures image <= image'
    ensures forall k | |image| <= k < |image'| :: image'[k] == PTE_SUPERPAGE + flags + k * BLOCK
  {
    image', addr' := image, addr;
    var n := 0;
    while n < count
      invariant n <= count
      invariant addr' == |image'| * BLOCK == addr + n * BLOCK
      invariant image <= image'
      invariant forall k | |image| <= k < |image'| :: image'[k] == PTE_SUPERPAGE + flags + k * BLOCK
    {
      image' := image' + [PTE_SUPERPAGE + flags + addr'];
      addr' := addr' + BLOCK;
      n := n + 1;
    }
  }

  /** Zero words up to `n`, the next page boundary. */
  method Align(image: Image, n: nat) returns (image': Image)
    requires |image| <= n
    ensures image' == image + seq(n - |image|, _ => 0)
  {
    image' := image + seq(n - |image|, _ => 0);
  }

  method Assemble(base: nat, size: nat, at: nat) returns (image: Image)
    requires base + size <= FOUR_GIB
    ensures LaidOut(image, base, size, at)
  {
    var addr := 0;
    image, addr := Repeat([], addr, base / BLOCK, PTE_DEV_FLAGS);
    image, addr := Repeat(image, addr, size / BLOCK, PTE_MEM_FLAGS);
    image, addr := Repeat(image, addr, (FOUR_GIB - addr) / BLOCK, PTE_DEV_FLAGS);
    assert |image| == L2_WORDS;
    var l1 := at + 8 * |image|;
    image := image + [PTE_TABLE + at, PTE_TABLE + at + PAGE, PTE_TABLE + at + PAGE * 2, PTE_TABLE + at + PAGE * 3];
    image := Align(image, ROOT_START);
    image := image + [PTE_TABLE + l1];
    image := Align(image, WORDS);
  }

  // ---------- the walk ----------

  /** What a translation gives: an output address with its attribute index,
      shareability and access permissions, or a fault. */
  datatype Translation = Fault | Mapped(pa: nat, attr: nat, share: nat, access: nat)

  const NORMAL: nat := 1
  const DEVICE: nat := 2

  const INNER_SHAREABLE: nat := 3
  const PRIVILEGED_READ_WRITE: nat := 0

  /** Bits `lo` to `lo + n` of a word, for `size == 2^lo` and `range == 2^n`. */
  function Bits(w: nat, size: nat, range: nat): (v: nat)
    requires size > 0 && range > 0
    ensures v < range
  {
    w / size % range
  }

  /** How many bytes an entry of each level covers. */
  function Span(level: nat): (s: nat)
    requires level <= 3
    ensures s > 0
  {
    match level
    case 0 => 0x80_0000_0000
    case 1 => 0x4000_0000
    case 2 => 0x20_0000
    case 3 => 0x1000
  }

  /** The word at address `a`, if the image holds it. */
  function Load(image: Image, at: nat, a: nat): (w: nat) {
    if at <= a && (a - at) / 8 < |image| then image[(a - at) / 8] else 0
  }

  /** The walk of section D8.3 of the Arm architecture manual, for 4 KiB pages: a
      table descriptor leads to the next level, a block descriptor (level 1 or 2) or
      a page descriptor (level 3) with its access flag set ends the walk. */
  function Walk(image: Image, at: nat, table: nat, level: nat, va: nat): (t: Translation)
    requires level <= 3
    decreases 3 - level
  {
    var w := Load(image, at, table + 8 * Bits(va, Span(level), 512));
    if w % 4 == 3 && level < 3 then
      Walk(image, at, Bits(w, PAGE, 0x10_0000_0000) * PAGE, level + 1, va)
    else if (w % 4 == 1 && 1 <= level <= 2) || (w % 4 == 3 && level == 3) then
      if Bits(w, 0x400, 2) == 0 then Fault
      else Mapped(Bits(w, Span(level), VA_END / Span(level)) * Span(level) + va % Span(level),
                  Bits(w, 4, 8), Bits(w, 0x100, 4), Bits(w, 0x40, 4))
    else Fault
  }

  /** A translation starts from the root table; addresses are 48 bits wide. */
  function Translate(image: Image, at: nat, va: nat): (t: Translation) {
    if va >= VA_END then Fault else Walk(image, at, at + 8 * ROOT_START, 0, va)
  }

  /** An address mapped to itself with the given attributes, for the kernel alone. */
  function Itself(va: nat, attr: nat): (t: Translation) {
    Mapped(va, attr, INNER_SHAREABLE, PRIVILEGED_READ_WRITE)
  }

  predicate Placed(at: nat) {
    at % PAGE == 0 && at + 8 * WORDS <= VA_END
  }

  lemma LoadWord(image: Image, at: nat, k: nat)
    requires k < |image|
    ensures Load(image, at, at + 8 * k) == image[k]
  {
  }

  lemma PageNumber(q: nat)
    ensures (3 + q * 0x1000) / 0x1000 == q
  {
  }

  lemma TypeBits(kind: nat, q: nat)
    requires kind < 4
    ensures (kind + 4 * q) % 4 == kind
  {
  }

  lemma Small(x: nat, range: nat)
    requires x < range
    ensures x % range == x
  {
  }

  /** A table descriptor made of an aligned address gives that address back. */
  lemma TableAddress(a: nat)
    requires a % PAGE == 0 && a < VA_END
    ensures (PTE_TABLE + a) % 4 == 3
    ensures Bits(PTE_TABLE + a, PAGE, 0x10_0000_0000) * PAGE == a
  {
    var q := a / 0x1000;
    assert a == q * 0x1000 && q < 0x10_0000_0000;
    PageNumber(q);
    TypeBits(3, q * 0x400);
    Small(q, 0x10_0000_0000);
  }

  /** A block descriptor gives back its block, its attributes and its access flag. */
  lemma BlockFields(k: nat, lo: nat, hi: nat)
    requires k < L2_WORDS
    ensures var w := BlockEntry(k, lo, hi);
            && w % 4 == 1 && Bits(w, 0x400, 2) == 1
            && Bits(w, BLOCK, VA_END / BLOCK) == k
            && Bits(w, 4, 8) == (if lo <= k < hi then NORMAL else DEVICE)
            && Bits(w, 0x100, 4) == INNER_SHAREABLE && Bits(w, 0x40, 4) == PRIVILEGED_READ_WRITE
  {
    var w := BlockEntry(k, lo, hi);
    if lo <= k < hi {
      LowBits(0x705, k);
    } else {
      LowBits(0x709, k);
    }
    BlockNumber(w - k * 0x20_0000, k);
    Small(k, VA_END / BLOCK);
  }

  lemma BlockNumber(f: nat, k: nat)
    requires f < 0x20_0000
    ensures (f + k * 0x20_0000) / 0x20_0000 == k
  {
  }

  /** The fields below the block number, of the two kinds of entry. */
  lemma LowBits(f: nat, k: nat)
    requires f == 0x705 || f == 0x709
    ensures (f + k * 0x20_0000) % 4 == 1
    ensures (f + k * 0x20_0000) / 0x400 % 2 == 1
    ensures (f + k * 0x20_0000) / 4 % 8 == if f == 0x705 then NORMAL else DEVICE
    ensures (f + k * 0x20_0000) / 0x100 % 4 == INNER_SHAREABLE
    ensures (f + k * 0x20_0000) / 0x40 % 4 == PRIVILEGED_READ_WRITE
  {
    ShareBits(f, k);
    PermissionBits(f, k);
    TypeBits(1, (f - 1) / 4 + k * 0x8_0000);
    AccessBits(f, k);
    AttributeBits(f, k);
  }

  lemma AccessBits(f: nat, k: nat)
    requires 0x400 <= f < 0x800
    ensures (f + k * 0x20_0000) / 0x400 % 2 == 1
  {
    var m := k * 0x400;
    assert (f + k * 0x20_0000) / 0x400 == 1 + 2 * m;
    assert (1 + 2 * m) % 2 == 1;
  }

  lemma ShareBits(f: nat, k: nat)
    requires 0x700 <= f < 0x800
    ensures (f + k * 0x20_0000) / 0x100 % 4 == 3
  {
    var m := k * 0x800 + 1;
    assert (f + k * 0x20_0000) / 0x100 == 3 + 4 * m;
    TypeBits(3, m);
  }

  lemma PermissionBits(f: nat, k: nat)
    requires 0x700 <= f < 0x740
    ensures (f + k * 0x20_0000) / 0x40 % 4 == 0
  {
    var m := k * 0x2000 + 7;
    assert (f + k * 0x20_0000) / 0x40 == 4 * m;
    TypeBits(0, m);
  }

  lemma AttributeBits(f: nat, k: nat)
    requires f == 0x705 || f == 0x709
    ensures (f + k * 0x20_0000) / 4 % 8 == if f == 0x705 then NORMAL else DEVICE
  {
    var r := if f == 0x705 then 1 else 2;
    var m := k * 0x1_0000 + 0x38;
    assert (f + k * 0x20_0000) / 4 == r + 8 * m;
    Remainder8(r, m);
  }

  lemma Remainder8(r: nat, m: nat)
    requires r < 8
    ensures (r + 8 * m) % 8 == r
  {
  }

  // One step of the walk, given the word it finds.

  lemma TableStep(image: Image, at: nat, table: nat, level: nat, va: nat, a: nat)
    requires level < 3 && a % PAGE == 0 && a < VA_END
    requires Load(image, at, table + 8 * Bits(va, Span(level), 512)) == PTE_TABLE + a
    ensures Walk(image, at, table, level, va) == Walk(image, at, a, level + 1, va)
  {
    TableAddress(a);
  }

  lemma EmptyStep(image: Image, at: nat, table: nat, level: nat, va: nat)
    requires level <= 3 && Load(image, at, table + 8 * Bits(va, Span(level), 512)) == 0
    ensures Walk(image, at, table, level, va) == Fault
  {
  }

  lemma BlockStep(image: Image, at: nat, table: nat, va: nat, lo: nat, hi: nat)
    requires va / BLOCK < L2_WORDS
    requires Load(image, at, table + 8 * Bits(va, Span(2), 512)) == BlockEntry(va / BLOCK, lo, hi)
    ensures Walk(image, at, table, 2, va) == Itself(va, if lo <= va / BLOCK < hi then NORMAL else DEVICE)
  {
    BlockFields(va / BLOCK, lo, hi);
  }

  /** The four pages of level 2 are one array of blocks. */
  lemma Level2Index(va: nat)
    requires va < FOUR_GIB
    ensures PAGE * (va / 0x4000_0000) + 8 * Bits(va, Span(2), 512) == 8 * (va / BLOCK) && va / BLOCK < L2_WORDS
  {
    assert va / BLOCK / 512 == va / 0x4000_0000;
  }

  lemma Level2(image: Image, base: nat, size: nat, at: nat, va: nat, k: nat)
    requires LaidOut(image, base, size, at) && va < FOUR_GIB && k == va / 0x4000_0000
    ensures Walk(image, at, at + PAGE * k, 2, va) ==
            Itself(va, if base / BLOCK <= va / BLOCK < base / BLOCK + size / BLOCK then NORMAL else DEVICE)
  {
    Level2Index(va);
    LoadWord(image, at, va / BLOCK);
    Level2Step(image, at, va, k, va / BLOCK, base / BLOCK, base / BLOCK + size / BLOCK);
  }

  lemma Level2Step(image: Image, at: nat, va: nat, k: nat, b: nat, lo: nat, hi: nat)
    requires b == va / BLOCK < L2_WORDS && PAGE * k + 8 * Bits(va, Span(2), 512) == 8 * b
    requires Load(image, at, at + 8 * b) == BlockEntry(b, lo, hi)
    ensures Walk(image, at, at + PAGE * k, 2, va) == Itself(va, if lo <= b < hi then NORMAL else DEVICE)
  {
    assert at + PAGE * k + 8 * Bits(va, Span(2), 512) == at + 8 * b;
    BlockStep(image, at, at + PAGE * k, va, lo, hi);
  }

  lemma Level2Address(at: nat, k: nat)
    requires Placed(at) && k < 4
    ensures (at + PAGE * k) % PAGE == 0 && at + PAGE * k < VA_END
  {
  }

  lemma Level1Word(image: Image, base: nat, size: nat, at: nat, k: nat)
    requires LaidOut(image, base, size, at) && k < 512
    ensures Load(image, at, at + 8 * L1_START + 8 * k) == if k < 4 then PTE_TABLE + (at + PAGE * k) else 0
  {
    LoadWord(image, at, L1_START + k);
  }

  lemma Level1Index(va: nat)
    requires va < 0x80_0000_0000
    ensures Bits(va, Span(1), 512) == va / 0x4000_0000 < 512
    ensures va < FOUR_GIB <==> va / 0x4000_0000 < 4
  {
    Small(va / 0x4000_0000, 512);
  }

  lemma Level1(image: Image, base: nat, size: nat, at: nat, va: nat, k: nat)
    requires LaidOut(image, base, size, at) && Placed(at) && va < 0x80_0000_0000 && k == va / 0x4000_0000
    ensures Walk(image, at, at + 8 * L1_START, 1, va) ==
            if va < FOUR_GIB then Walk(image, at, at + PAGE * k, 2, va) else Fault
  {
    Level1Index(va);
    Level1Word(image, base, size, at, k);
    Level1Step(image, at, va, k);
  }

  lemma Level1Step(image: Image, at: nat, va: nat, k: nat)
    requires Placed(at) && Bits(va, Span(1), 512) == k && (va < FOUR_GIB <==> k < 4)
    requires Load(image, at, at + 8 * L1_START + 8 * k) == if k < 4 then PTE_TABLE + (at + PAGE * k) else 0
    ensures Walk(image, at, at + 8 * L1_START, 1, va) ==
            if va < FOUR_GIB then Walk(image, at, at + PAGE * k, 2, va) else Fault
  {
    if k < 4 {
      Level2Address(at, k);
      TableStep(image, at, at + 8 * L1_START, 1, va, at + PAGE * k);
    } else {
      EmptyStep(image, at, at + 8 * L1_START, 1, va);
    }
  }

  lemma Level0(image: Image, base: nat, size: nat, at: nat, va: nat)
    requires LaidOut(image, base, size, at) && Placed(at) && va < VA_END
    ensures Translate(image, at, va) ==
            if va < 0x80_0000_0000 then Walk(image, at, at + 8 * L1_START, 1, va) else Fault
  {
    var k := va / 0x80_0000_0000;
    Small(k, 512);
    LoadWord(image, at, ROOT_START + k);
    if k == 0 {
      TableStep(image, at, at + 8 * ROOT_START, 0, va, at + 8 * L1_START);
    } else {
      EmptyStep(image, at, at + 8 * ROOT_START, 0, va);
    }
  }

  /** Every address below 4 GiB is mapped to itself, as normal memory in the blocks of
      the memory region and as device memory elsewhere; everything above faults. */
  lemma IdentityMap(image: Image, base: nat, size: nat, at: nat, va: nat)
    requires LaidOut(image, base, size, at) && Placed(at)
    ensures Translate(image, at, va) ==
            if va >= FOUR_GIB then Fault
            else Itself(va, if base / BLOCK <= va / BLOCK < base / BLOCK + size / BLOCK then NORMAL else DEVICE)
  {
    if va < VA_END {
      Level0(image, base, size, at, va);
      if va < 0x80_0000_0000 {
        var k := va / 0x4000_0000;
        Level1(image, base, size, at, va, k);
        if va < FOUR_GIB {
          Level2(image, base, size, at, va, k);
        }
      }
    }
  }

  ghost predicate NormalAt(image: Image, at: nat, va: nat) {
    Translate(image, at, va).Mapped? && Translate(image, at, va).attr == NORMAL
  }

  /** Normal memory is the given region and nothing else exactly when the region is
      made of whole 2 MiB blocks, or is empty: the counts are rounded down. */
  lemma NormalExactlyIff(image: Image, base: nat, size: nat, at: nat)
    requires LaidOut(image, base, size, at) && Placed(at) && base + size <= FOUR_GIB
    ensures (forall va: nat :: NormalAt(image, at, va) <==> base <= va < base + size) <==>
            size == 0 || (base % BLOCK == 0 && size % BLOCK == 0)
  {
    var lo, hi := base / BLOCK, base / BLOCK + size / BLOCK;
    forall va: nat
      ensures NormalAt(image, at, va) <==> lo * BLOCK <= va < hi * BLOCK
    {
      IdentityMap(image, base, size, at, va);
    }
    if size > 0 && !(base % BLOCK == 0 && size % BLOCK == 0) {
      var va := RoundingShows(base, size);
      assert NormalAt(image, at, va) <==> lo * BLOCK <= va < hi * BLOCK;
    }
  }

  /** An address that rounding down puts on the wrong side. */
  lemma RoundingShows(base: nat, size: nat) returns (va: nat)
    requires size > 0 && !(base % BLOCK == 0 && size % BLOCK == 0)
    ensures (base / BLOCK * BLOCK <= va < (base / BLOCK + size / BLOCK) * BLOCK) != (base <= va < base + size)
  {
    va := if base % BLOCK == 0 then (base / BLOCK + size / BLOCK) * BLOCK
          else if size >= BLOCK then base / BLOCK * BLOCK
          else base;
  }
}
