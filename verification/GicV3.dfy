/** The state bits of a GICv3: a distributor shared by all harts and one
    redistributor for each hart, reached through `gic_set_state`, `gic_set_act` and
    `gic_get_state`. */
module GicV3 {
  import opened GicWords

  datatype IntState = INV | PEND | ACT | PENDACT

  /** `state & PEND` and `state & ACT`. */
  predicate HasPend(s: IntState) { s == PEND || s == PENDACT }

  predicate HasAct(s: IntState) { s == ACT || s == PENDACT }

  /** `pend | act`. */
  function Joined(pend: bool, act: bool): (s: IntState)
    ensures HasPend(s) == pend && HasAct(s) == act
  {
    if pend then (if act then PENDACT else PEND) else if act then ACT else INV
  }

  /** The pending and active bits: 32 distributor words of each, and a word of each
      for every hart's redistributor. */
  datatype Regs = Regs(dpend: seq<Word>, dact: seq<Word>, rpend: seq<Word>, ract: seq<Word>) {
    predicate Shape() {
      |dpend| == |dact| == IRQS / 32 && |rpend| == |ract|
    }
  }

  /** Which registers the driver uses for an interrupt. */
  predicate InDistributor(id: nat) {
    32 < id < 1025
  }

  function SetAct(g: Regs, cpu: nat, id: nat, on: bool): (g': Regs)
    requires g.Shape() && cpu < |g.ract| && id < IRQS
    ensures g'.Shape() && |g'.ract| == |g.ract|
  {
    if InDistributor(id)
    then g.(dact := g.dact[IntReg(id) := Written(g.dact[IntReg(id)], IntMask(id), on)])
    else g.(ract := g.ract[cpu := Written(g.ract[cpu], IntMask(id), on)])
  }

  /** The redistributor's half shifts by the whole id, which is defined below 32 only. */
  function SetPend(g: Regs, cpu: nat, id: nat, on: bool): (g': Regs)
    requires g.Shape() && cpu < |g.ract| && id < IRQS && id != 32
    ensures g'.Shape() && |g'.ract| == |g.ract|
  {
    if InDistributor(id)
    then g.(dpend := g.dpend[IntReg(id) := Written(g.dpend[IntReg(id)], IntMask(id), on)])
    else g.(rpend := g.rpend[cpu := Written(g.rpend[cpu], {id}, on)])
  }

  function SetState(g: Regs, cpu: nat, id: nat, s: IntState): (g': Regs)
    requires g.Shape() && cpu < |g.ract| && id < IRQS && id != 32
    ensures g'.Shape() && |g'.ract| == |g.ract|
  {
    SetPend(SetAct(g, cpu, id, HasAct(s)), cpu, id, HasPend(s))
  }

  function GetState(g: Regs, cpu: nat, id: nat): (s: IntState)
    requires g.Shape() && cpu < |g.ract| && id < IRQS
  {
    if InDistributor(id)
    then Joined(g.dpend[IntReg(id)] * IntMask(id) != {}, g.dact[IntReg(id)] * IntMask(id) != {})
    else Joined(g.rpend[cpu] * IntMask(id) != {}, g.ract[cpu] * IntMask(id) != {})
  }

  // ---------- the plain view: one pair of bits for each interrupt ----------

  /** An interrupt as the architecture sees it: ids below 32 exist once for each hart. */
  datatype Line = Private(cpu: nat, id: nat) | Shared(id: nat) {
    predicate Exists(g: Regs) {
      match this
      case Private(cpu, id) => cpu < |g.ract| && id < PRIVATE
      case Shared(id) => PRIVATE <= id < IRQS
    }
  }

  function LineOf(cpu: nat, id: nat): (l: Line) {
    if id < PRIVATE then Private(cpu, id) else Shared(id)
  }

  datatype Kind = Active | Pending

  /** Whether the bit of the given kind of interrupt `l` is set in the hardware. */
  ghost predicate Set(g: Regs, kind: Kind, l: Line)
    requires g.Shape() && l.Exists(g)
  {
    match l
    case Private(cpu, id) => id in (if kind == Active then g.ract[cpu] else g.rpend[cpu])
    case Shared(id) => id % 32 in (if kind == Active then g.dact[id / 32] else g.dpend[id / 32])
  }

  /** One register write: half of a `gic_set_state`, by hart `cpu`. */
  datatype Write = Write(kind: Kind, cpu: nat, id: nat, on: bool) {
    predicate Fits(harts: nat) {
      cpu < harts && id < IRQS && id != 32
    }
    function At(): (l: Line) { LineOf(cpu, id) }
  }

  function Apply(g: Regs, w: Write): (g': Regs)
    requires g.Shape() && w.Fits(|g.ract|)
    ensures g'.Shape() && |g'.ract| == |g.ract|
  {
    if w.kind == Active then SetAct(g, w.cpu, w.id, w.on) else SetPend(g, w.cpu, w.id, w.on)
  }

  /** The interrupt whose active bit a call for `id` reaches. */
  function Reached(cpu: nat, id: nat): (l: Line) {
    if id == 32 then Private(cpu, 0) else LineOf(cpu, id)
  }

  /** `gic_set_act` writes one active bit, that of the interrupt it reaches. */
  lemma SetActReaches(g: Regs, cpu: nat, id: nat, on: bool, kind: Kind, l: Line)
    requires g.Shape() && cpu < |g.ract| && id < IRQS && l.Exists(g)
    ensures Set(SetAct(g, cpu, id, on), kind, l) ==
            if kind == Active && l == Reached(cpu, id) then on else Set(g, kind, l)
  {
    if kind == Active {
      if InDistributor(id) {
        if l.Shared? && IntReg(l.id) == IntReg(id) {
          SameRegister(id, l.id);
        }
      }
    }
  }

  lemma SetPendReaches(g: Regs, cpu: nat, id: nat, on: bool, kind: Kind, l: Line)
    requires g.Shape() && cpu < |g.ract| && id < IRQS && id != 32 && l.Exists(g)
    ensures Set(SetPend(g, cpu, id, on), kind, l) ==
            if kind == Pending && l == LineOf(cpu, id) then on else Set(g, kind, l)
  {
    if kind == Pending {
      if InDistributor(id) {
        if l.Shared? && IntReg(l.id) == IntReg(id) {
          SameRegister(id, l.id);
        }
      }
    }
  }

  /** `gic_set_act(id)` changes just the active bit of `id`, in every state, exactly
      when `id` is not 32: the driver takes the first shared interrupt for a private
      one, and the bit it reaches is that of interrupt 0. */
  ghost predicate ActsOnItsOwn(harts: nat, cpu: nat, id: nat)
    requires cpu < harts && id < IRQS
  {
    forall g: Regs, on: bool, l: Line | g.Shape() && |g.ract| == harts && l.Exists(g) ::
      Set(SetAct(g, cpu, id, on), Active, l) == if l == LineOf(cpu, id) then on else Set(g, Active, l)
  }

  lemma ActsOnItsOwnIff(harts: nat, cpu: nat, id: nat)
    requires cpu < harts && id < IRQS
    ensures ActsOnItsOwn(harts, cpu, id) <==> id != 32
  {
    forall g: Regs, on: bool, l: Line | id != 32 && g.Shape() && |g.ract| == harts && l.Exists(g)
      ensures Set(SetAct(g, cpu, id, on), Active, l) == if l == LineOf(cpu, id) then on else Set(g, Active, l)
    {
      SetActReaches(g, cpu, id, on, Active, l);
    }
    if id == 32 {
      var g := Clear(harts);
      SetActReaches(g, cpu, 32, true, Active, Shared(32));
      ClearIsOff(harts, Active, Shared(32));
      assert g.Shape() && Shared(32).Exists(g) && LineOf(cpu, 32) == Shared(32);
      assert !Set(SetAct(g, cpu, 32, true), Active, Shared(32));
      assert !ActsOnItsOwn(harts, cpu, 32);
    }
  }

  /** Every bit clear. */
  function Clear(harts: nat): (g: Regs)
    ensures g.Shape() && |g.ract| == harts
  {
    Regs(seq(IRQS / 32, _ => {}), seq(IRQS / 32, _ => {}), seq(harts, _ => {}), seq(harts, _ => {}))
  }

  lemma ClearIsOff(harts: nat, kind: Kind, l: Line)
    requires l.Exists(Clear(harts))
    ensures !Set(Clear(harts), kind, l)
  {
  }

  lemma MaskedBit(w: Word, b: nat)
    requires b < 32
    ensures w * {b} != {} <==> b in w
  {
    if b in w {
      assert b in w * {b};
    }
  }

  lemma GetStateReads(g: Regs, cpu: nat, id: nat)
    requires g.Shape() && cpu < |g.ract| && id < IRQS && id != 32
    ensures LineOf(cpu, id).Exists(g)
    ensures GetState(g, cpu, id) == Joined(Set(g, Pending, LineOf(cpu, id)), Set(g, Active, LineOf(cpu, id)))
  {
    var reg := IntReg(id);
    if InDistributor(id) {
      MaskedBit(g.dpend[reg], id % 32);
      MaskedBit(g.dact[reg], id % 32);
    } else {
      MaskedBit(g.rpend[cpu], id % 32);
      MaskedBit(g.ract[cpu], id % 32);
    }
  }

  /** What `gic_set_state` set, `gic_get_state` gives back, and no other interrupt's
      bits change, on any hart. */
  lemma StateRoundTrip(g: Regs, cpu: nat, id: nat, s: IntState)
    requires g.Shape() && cpu < |g.ract| && id < IRQS && id != 32
    ensures GetState(SetState(g, cpu, id, s), cpu, id) == s
    ensures forall kind: Kind, l: Line | l.Exists(g) && l != LineOf(cpu, id) ::
              Set(SetState(g, cpu, id, s), kind, l) == Set(g, kind, l)
  {
    var mid := SetAct(g, cpu, id, HasAct(s));
    forall kind: Kind, l: Line | l.Exists(g)
      ensures Set(SetState(g, cpu, id, s), kind, l) ==
              if l == LineOf(cpu, id) then (if kind == Active then HasAct(s) else HasPend(s)) else Set(g, kind, l)
    {
      SetActReaches(g, cpu, id, HasAct(s), kind, l);
      SetPendReaches(mid, cpu, id, HasPend(s), kind, l);
    }
    GetStateReads(SetState(g, cpu, id, s), cpu, id);
  }

  // ---------- runs: every interleaving of the harts' register writes ----------

  function Run(g: Regs, ws: seq<Write>): (g': Regs)
    requires g.Shape() && forall w | w in ws :: w.Fits(|g.ract|)
    ensures g'.Shape() && |g'.ract| == |g.ract|
    decreases |ws|
  {
    if ws == [] then g else Run(Apply(g, ws[0]), ws[1..])
  }

  /** The plain map: the value last written to the bit, or the one it had. */
  ghost function Last(ws: seq<Write>, kind: Kind, l: Line, before: bool): (on: bool) {
    if ws == [] then before
    else if ws[|ws| - 1].kind == kind && ws[|ws| - 1].At() == l then ws[|ws| - 1].on
    else Last(ws[..|ws| - 1], kind, l, before)
  }

  lemma {:induction false} LastFromFront(ws: seq<Write>, kind: Kind, l: Line, before: bool)
    requires ws != []
    ensures Last(ws, kind, l, before) ==
            Last(ws[1..], kind, l, if ws[0].kind == kind && ws[0].At() == l then ws[0].on else before)
    decreases |ws|
  {
    if |ws| > 1 {
      var front := ws[..|ws| - 1];
      assert ws[1..][..|ws| - 2] == front[1..];
      LastFromFront(front, kind, l, before);
    }
  }

  lemma ApplyReaches(g: Regs, w: Write, kind: Kind, l: Line)
    requires g.Shape() && w.Fits(|g.ract|) && l.Exists(g)
    ensures Set(Apply(g, w), kind, l) == if kind == w.kind && l == w.At() then w.on else Set(g, kind, l)
  {
    if w.kind == Active {
      SetActReaches(g, w.cpu, w.id, w.on, kind, l);
    } else {
      SetPendReaches(g, w.cpu, w.id, w.on, kind, l);
    }
  }

  /** The registers refine the plain map: after any run of writes by any harts, in
      any order, each bit has the value last written to it. */
  lemma {:induction false} RegistersRefineMap(g: Regs, ws: seq<Write>, kind: Kind, l: Line)
    requires g.Shape() && (forall w | w in ws :: w.Fits(|g.ract|)) && l.Exists(g)
    ensures Set(Run(g, ws), kind, l) == Last(ws, kind, l, Set(g, kind, l))
    decreases |ws|
  {
    if ws != [] {
      ApplyReaches(g, ws[0], kind, l);
      LastFromFront(ws, kind, l, Set(g, kind, l));
      RegistersRefineMap(Apply(g, ws[0]), ws[1..], kind, l);
    }
  }

  lemma {:induction false} LastSkips(ws: seq<Write>, more: seq<Write>, kind: Kind, l: Line, before: bool)
    requires forall w | w in more :: w.At() != l || w.kind != kind
    ensures Last(ws + more, kind, l, before) == Last(ws, kind, l, before)
    decreases |more|
  {
    if more == [] {
      assert ws + more == ws;
    } else {
      assert (ws + more)[..|ws + more| - 1] == ws + more[..|more| - 1];
      LastSkips(ws, more[..|more| - 1], kind, l, before);
    }
  }

  /** A `gic_set_state` whose two writes are cut apart by other harts' calls for other
      interrupts still takes effect: none of the shared words is read, changed and
      written back, so no update is lost. */
  lemma SetStateUnderInterleaving(g: Regs, first: seq<Write>, between: seq<Write>, later: seq<Write>,
                                  cpu: nat, id: nat, s: IntState)
    requires g.Shape() && cpu < |g.ract| && id < IRQS && id != 32
    requires forall w | w in first + between + later :: w.Fits(|g.ract|)
    requires forall w | w in between + later :: w.At() != LineOf(cpu, id)
    ensures var ws := first + [Write(Active, cpu, id, HasAct(s))] + between
                      + [Write(Pending, cpu, id, HasPend(s))] + later;
            (forall w | w in ws :: w.Fits(|g.ract|)) && GetState(Run(g, ws), cpu, id) == s
  {
    var l := LineOf(cpu, id);
    var a := first + [Write(Active, cpu, id, HasAct(s))];
    var b := a + between + [Write(Pending, cpu, id, HasPend(s))];
    var ws := b + later;
    forall w | w in ws
      ensures w.Fits(|g.ract|)
    {
      assert w in first + between + later || w in a || w in b;
    }
    RegistersRefineMap(g, ws, Active, l);
    RegistersRefineMap(g, ws, Pending, l);
    LastSkips(b, later, Pending, l, Set(g, Pending, l));
    LastSkips(b, later, Active, l, Set(g, Active, l));
    assert b[..|b| - 1] == a + between;
    LastSkips(a, between, Active, l, Set(g, Active, l));
    GetStateReads(Run(g, ws), cpu, id);
  }

  // ---------- priorities ----------

  /** What `gic_get_prio` computes from the priority word of interrupt `id`: the byte
      is shifted down first and the mask, still at the byte's old place, comes after. */
  function ReadPriority(w: Word, id: nat): (v: Word) {
    ShiftRight(w, ByteOff(id)) * Field(ByteOff(id))
  }

  ghost predicate PriorityReadsBack(id: nat) {
    forall w: Word, v: Byte :: ReadPriority(PutByte(w, ByteOff(id), v), id) == v
  }

  /** The priority read back is the one set, for every priority and every word,
      exactly when the interrupt's byte is the lowest of its word. */
  lemma PriorityReadsBackIff(id: nat)
    ensures PriorityReadsBack(id) <==> id % 4 == 0
  {
    if id % 4 == 0 {
      LowestReadsBack(id);
    } else {
      OtherLosesBit(id);
    }
  }

  lemma LowestReadsBack(id: nat)
    requires ByteOff(id) == 0
    ensures PriorityReadsBack(id)
  {
    forall w: Word, v: Byte
      ensures ReadPriority(PutByte(w, ByteOff(id), v), id) == v
    {
      PutGet(w, 0, v, 0);
    }
  }

  lemma OtherLosesBit(id: nat)
    requires ByteOff(id) != 0
    ensures !PriorityReadsBack(id)
  {
    assert 0 !in ReadPriority(PutByte({}, ByteOff(id), {0}), id);
  }

  // ---------- the driver ----------

  /** The registers in place.  A store to the set register of a pair and one to its
      clear register act on the same bits. */
  class Gic {
    const harts: nat
    const dpend: array<Word>
    const dact: array<Word>
    const rpend: array<Word>
    const ract: array<Word>

    ghost predicate Valid() {
      && dpend.Length == dact.Length == IRQS / 32 && rpend.Length == ract.Length == harts
      && dpend != dact && dpend != rpend && dpend != ract && dact != rpend && dact != ract && rpend != ract
    }

    ghost function State(): (g: Regs)
      reads dpend, dact, rpend, ract
      requires Valid()
      ensures g.Shape() && |g.ract| == harts
    {
      Regs(dpend[..], dact[..], rpend[..], ract[..])
    }

    constructor (harts: nat)
      ensures Valid() && this.harts == harts && State() == Clear(harts)
      ensures fresh(dpend) && fresh(dact) && fresh(rpend) && fresh(ract)
    {
      this.harts := harts;
      dpend := new Word[IRQS / 32](_ => {});
      dact := new Word[IRQS / 32](_ => {});
      rpend := new Word[harts](_ => {});
      ract := new Word[harts](_ => {});
    }

    /** A store of `mask` to the set or clear register over `bits[reg]`. */
    method Store(bits: array<Word>, reg: nat, mask: Word, on: bool)
      requires reg < bits.Length
      modifies bits
      ensures bits[..] == old(bits[..])[reg := Written(old(bits[reg]), mask, on)]
    {
      bits[reg] := Written(bits[reg], mask, on);
    }

    method SetActive(cpu: nat, id: nat, on: bool)
      requires Valid() && cpu < harts && id < IRQS
      modifies dact, ract
      ensures State() == SetAct(old(State()), cpu, id, on)
    {
      if InDistributor(id) {
        Store(dact, IntReg(id), IntMask(id), on);
      } else {
        Store(ract, cpu, IntMask(id), on);
      }
    }

    method SetPending(cpu: nat, id: nat, on: bool)
      requires Valid() && cpu < harts && id < IRQS && id != 32
      modifies dpend, rpend
      ensures State() == SetPend(old(State()), cpu, id, on)
    {
      if InDistributor(id) {
        Store(dpend, IntReg(id), IntMask(id), on);
      } else {
        Store(rpend, cpu, {id}, on);
      }
    }

    method SetIntState(cpu: nat, id: nat, s: IntState)
      requires Valid() && cpu < harts && id < IRQS && id != 32
      modifies dpend, dact, rpend, ract
      ensures State() == SetState(old(State()), cpu, id, s)
      ensures GetState(State(), cpu, id) == s
    {
      StateRoundTrip(State(), cpu, id, s);
      SetActive(cpu, id, HasAct(s));
      SetPending(cpu, id, HasPend(s));
    }

    method GetIntState(cpu: nat, id: nat) returns (s: IntState)
      requires Valid() && cpu < harts && id < IRQS
      ensures s == GetState(State(), cpu, id)
    {
      var pend, act;
      if InDistributor(id) {
        pend := dpend[IntReg(id)] * IntMask(id) != {};
        act := dact[IntReg(id)] * IntMask(id) != {};
      } else {
        pend := rpend[cpu] * IntMask(id) != {};
        act := ract[cpu] * IntMask(id) != {};
      }
      s := Joined(pend, act);
    }
  }
}
