/** The word, index and mask arithmetic of the GIC header, and what a write to a
    write-1-to-set or write-1-to-clear register does to the bits behind it. */
module GicWords {
  const IRQS: nat := 1024
  const PRIVATE: nat := 32

  /** A 32-bit word as the set of its one bits: `|` is `+`, `&` is `*`, `& ~` is `-`
      and a word is zero when it is empty. */
  type Word = w: set<nat> | forall b | b in w :: b < 32

  /** `-1` stored in a 32-bit register. */
  const ALL_ONES: Word := set b: nat | b < 32

  function IntReg(id: nat): (r: nat)
    ensures id < IRQS ==> r < IRQS / 32
  {
    id / 32
  }

  function IntMask(id: nat): (m: Word) {
    {id % 32}
  }

  /** Writing `mask` to the set register (`on`) or to the clear register of a pair
      whose current bits are `w`: ones act, zeroes change nothing. */
  function Written(w: Word, mask: Word, on: bool): (w': Word) {
    if on then w + mask else w - mask
  }

  /** In one register, different interrupts have different bits. */
  lemma SameRegister(a: nat, b: nat)
    requires IntReg(a) == IntReg(b)
    ensures a == b <==> a % 32 == b % 32
  {
  }

  // ---------- four bytes to a word ----------

  type Byte = v: Word | forall b | b in v :: b < 8

  const LOWEST_PRIORITY: Byte := set b | b in ALL_ONES && b < 8

  function ByteReg(id: nat): (r: nat)
    ensures id < IRQS ==> r < IRQS / 4
  {
    id * 8 / 32
  }

  function ByteOff(id: nat): (off: nat)
    ensures off == 0 || off == 8 || off == 16 || off == 24
  {
    id * 8 % 32
  }

  /** `0xff << off`. */
  function Field(off: nat): (m: Word)
    requires off <= 24
  {
    set b | b in ALL_ONES && off <= b < off + 8
  }

  /** The shifts drop what leaves the 32 bits. */
  function ShiftLeft(w: Word, off: nat): (r: Word) {
    set b | b in ALL_ONES && off <= b && b - off in w
  }

  function ShiftRight(w: Word, off: nat): (r: Word) {
    set b | b in ALL_ONES && b + off in w
  }

  /** `(w & ~mask) | ((v << off) & mask)`. */
  function PutByte(w: Word, off: nat, v: Byte): (r: Word)
    requires off <= 24
  {
    (w - Field(off)) + ShiftLeft(v, off) * Field(off)
  }

  /** `(w & mask) >> off`. */
  function GetByte(w: Word, off: nat): (v: Byte)
    requires off <= 24
  {
    ShiftRight(w * Field(off), off)
  }

  /** The byte of interrupt `id`, bit by bit. */
  function ByteAt(ws: seq<Word>, id: nat): (v: Byte)
    requires id / 4 < |ws|
  {
    set b | b in ALL_ONES && b < 8 && 8 * (id % 4) + b in ws[id / 4]
  }

  /** The register and offset macros find that byte. */
  lemma GetByteFinds(ws: seq<Word>, id: nat)
    requires id / 4 < |ws|
    ensures ByteReg(id) == id / 4 && GetByte(ws[ByteReg(id)], ByteOff(id)) == ByteAt(ws, id)
  {
    assert ByteOff(id) == 8 * (id % 4);
  }

  /** A stored byte reads back, and the bytes beside it are left alone. */
  lemma PutGet(w: Word, off: nat, v: Byte, other: nat)
    requires off <= 24 && other <= 24
    requires other == off || other + 8 <= off || off + 8 <= other
    ensures GetByte(PutByte(w, off, v), other) == if other == off then v else GetByte(w, other)
  {
  }

  /** Different interrupts keep their bytes in different registers or apart in one. */
  lemma ByteSlots(a: nat, b: nat)
    requires ByteReg(a) == ByteReg(b)
    ensures if a == b then ByteOff(a) == ByteOff(b) else ByteOff(a) + 8 <= ByteOff(b) || ByteOff(b) + 8 <= ByteOff(a)
  {
  }

  lemma OnesAndZeroes(off: nat)
    requires off <= 24
    ensures GetByte(ALL_ONES, off) == LOWEST_PRIORITY && GetByte({}, off) == {}
  {
  }
}
